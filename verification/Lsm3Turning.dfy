/**
 Turning a scan around. A call moves only the stream whose tuple was handed out last; the others
 stand where the calls before have left them, in front of that tuple or at an end they do not come
 back from.
 */
module Lsm3Turning {
  import opened Lsm3Order
  import opened Lsm3Cursors
  import opened Options

  function Opposite(d: Direction): Direction {
    if d == Forward then Backward else Forward
  }

  /** r is the one of these tuples that comes next after x in direction d; None when none does. */
  ghost predicate IsNext(d: Direction, all: set<Tuple>, x: Tuple, r: Option<Tuple>) {
    if r.None? then forall t :: t in all ==> !Before(d, x, t)
    else
      && r.value in all && Before(d, x, r.value)
      && forall t :: t in all && Before(d, x, t) ==> t == r.value || Before(d, r.value, t)
  }

  /** The tuple beside the current one in its own index. */
  function Neighbour(c: Cursor, d: Direction): Option<Tuple> {
    if c.Next(d).valid then Some(c.tuples[c.Next(d).pos]) else None
  }

  /** All other streams are at their end. */
  ghost predicate Alone(scan: seq<Cursor>, eof: seq<bool>, curr: int) {
    |scan| == |eof| == 3 && 0 <= curr < 3 && Live(scan, eof, curr) && forall i :: 0 <= i < 3 && i != curr ==> eof[i]
  }

  /** What is left in direction d once stream `curr` has moved on. */
  ghost function Onward(scan: seq<Cursor>, eof: seq<bool>, d: Direction, curr: nat): set<Tuple>
    requires Streams(scan, eof) && curr < 3 && Live(scan, eof, curr)
  {
    MovedDrops(scan, eof, d, curr);
    All(Moved(scan, eof, d, curr).0, Moved(scan, eof, d, curr).1, d)
  }

  /** A unique lookup that has found its stream has ended the others. */
  lemma CutAlone(s0: seq<Cursor>, e0: seq<bool>, s: seq<Cursor>, e: seq<bool>, d: Direction, order: seq<nat>,
                 min: int)
    requires Streams(s0, e0) && IsOrder(order) && Selected(s0, e0, s, e, d, order, true, min)
    ensures min >= 0 ==> Alone(s, e, min)
    ensures min < 0 ==> forall i :: 0 <= i < 3 ==> e[i] && s[i].tuples == []
  {
  }

  /** With the other streams ended the loop can only choose the same stream again. */
  lemma StaysAlone(s0: seq<Cursor>, e0: seq<bool>, s: seq<Cursor>, e: seq<bool>, d: Direction, order: seq<nat>,
                   curr: nat, min: int)
    requires Streams(s0, e0) && IsOrder(order) && Selected(s0, e0, s, e, d, order, false, min)
    requires curr < 3 && forall i :: 0 <= i < 3 && i != curr ==> e0[i]
    ensures min >= 0 ==> min == curr && Alone(s, e, min)
  {
    if min >= 0 { assert !e[min] && KeepsEnds(e0, e); }
  }

  /** A first call that chooses nothing has found every stream empty. */
  lemma NoneFirst(s0: seq<Cursor>, e0: seq<bool>, s: seq<Cursor>, e: seq<bool>, d: Direction, order: seq<nat>,
                  min: int)
    requires Streams(s0, e0) && IsOrder(order) && Selected(s0, e0, s, e, d, order, false, min) && min < 0
    requires || (forall i :: 0 <= i < 3 ==> !e0[i] && !s0[i].valid)
             || (forall i :: 0 <= i < 3 ==> e0[i] && s0[i].tuples == [])
    ensures forall i :: 0 <= i < 3 ==> e[i] && s[i].tuples == []
  {
    assert 0 in {0, 1, 2} && 1 in {0, 1, 2} && 2 in {0, 1, 2};
    ChosenTakes(s, e, d, min);
    if forall i :: 0 <= i < 3 ==> !e0[i] && !s0[i].valid { NothingMatches(s0, e0, d); }
  }

  /** And how much, copies counted. */
  ghost function OnwardCount(scan: seq<Cursor>, eof: seq<bool>, d: Direction, curr: nat): nat
    requires Streams(scan, eof) && curr < 3 && Live(scan, eof, curr)
  {
    MovedDrops(scan, eof, d, curr);
    Count(Moved(scan, eof, d, curr).0, Moved(scan, eof, d, curr).1, d)
  }

  /** With the other streams ended, only the current one has anything left. */
  lemma AloneOnward(scan: seq<Cursor>, eof: seq<bool>, d: Direction, curr: nat)
    requires Streams(scan, eof) && curr < 3 && Alone(scan, eof, curr)
    ensures var c := scan[curr].Next(d);
      c.Placed() && Onward(scan, eof, d, curr) == Elements(c.Unread(d, !c.valid))
  {
    MovedDrops(scan, eof, d, curr);
    var (s, e) := Moved(scan, eof, d, curr);
    OnlyOne(Rest(s, e, d, 0), Rest(s, e, d, 1), Rest(s, e, d, 2), Rest(s, e, d, curr), curr);
  }

  /** What is taken from a sequence in order is its head. */
  lemma TakesHead(d: Direction, x: Tuple, rest: seq<Tuple>, r: Option<Tuple>, left: set<Tuple>)
    requires AllAfter(d, x, rest) && Takes(d, Elements([x] + rest), r, left)
    ensures r == Some(x)
  {
    var all := [x] + rest;
    assert x == all[0] && x in Elements(all);
    assert r.Some? && r.value in all;
    if r.value != x {
      assert r.value in rest && x in left;
      BeforeIrreflexive(d, x, r.value);
    }
  }

  /** A stream's tuple is the first of those it has left. */
  lemma FirstLeft(c: Cursor, d: Direction, r: Option<Tuple>, left: set<Tuple>)
    requires c.Placed() && Ordered(Forward, c.tuples) && Takes(d, Elements(c.Unread(d, !c.valid)), r, left)
    ensures r == if c.valid then Some(c.tuples[c.pos]) else None
  {
    if c.valid {
      NextUnread(c, d);
      UnreadOrdered(c, d, false);
      OrderedTail(d, c.Unread(d, false));
      var n := c.Next(d);
      assert c.Unread(d, false)[1..] == n.Unread(d, !n.valid);
      TakesHead(d, c.tuples[c.pos], n.Unread(d, !n.valid), r, left);
    } else {
      assert r.None? by { assert Elements([]) == {}; }
    }
  }

  /** So the next call gives the neighbour. */
  lemma AloneGives(scan: seq<Cursor>, eof: seq<bool>, d: Direction, curr: nat, r: Option<Tuple>, left: set<Tuple>)
    requires Streams(scan, eof) && curr < 3 && Alone(scan, eof, curr)
    requires Takes(d, Onward(scan, eof, d, curr), r, left)
    ensures r == Neighbour(scan[curr], d)
  {
    AloneOnward(scan, eof, d, curr);
    FirstLeft(scan[curr].Next(d), d, r, left);
  }

  /** Within its own index that neighbour is the next tuple. */
  lemma NeighbourNext(c: Cursor, d: Direction)
    requires c.Placed() && c.valid && Ordered(Forward, c.tuples)
    ensures IsNext(d, Elements(c.tuples), c.tuples[c.pos], Neighbour(c, d))
  {
    var s, x, r := c.tuples, c.tuples[c.pos], Neighbour(c, d);
    forall t | t in s && Before(d, x, t) ensures r.Some? && (t == r.value || Before(d, r.value, t)) {
      var i :| 0 <= i < |s| && s[i] == t;
      if d == Forward { BeyondForward(s, c.pos, i); } else { BeyondBackward(s, c.pos, i); }
    }
  }

  lemma BeyondForward(s: seq<Tuple>, pos: nat, i: nat)
    requires Ordered(Forward, s) && pos < |s| && i < |s| && Less(s[pos], s[i])
    ensures pos + 1 < |s| && (s[i] == s[pos + 1] || Less(s[pos + 1], s[i]))
  {
    if i <= pos { BeforeIrreflexive(Forward, s[pos], s[i]); }
  }

  lemma BeyondBackward(s: seq<Tuple>, pos: nat, i: nat)
    requires Ordered(Forward, s) && pos < |s| && i < |s| && Less(s[i], s[pos])
    ensures pos > 0 && (s[i] == s[pos - 1] || Less(s[i], s[pos - 1]))
  {
    if i >= pos { BeforeIrreflexive(Forward, s[i], s[pos]); }
  }

  /** A stream that is still in front of the current tuple is what a turned call finds. */
  lemma OtherSpoils(scan: seq<Cursor>, eof: seq<bool>, d: Direction, curr: nat, i: nat, r: Option<Tuple>,
                    left: set<Tuple>)
    requires Streams(scan, eof) && curr < 3 && Chosen(scan, eof, Opposite(d), {0, 1, 2}, curr)
    requires i < 3 && i != curr && !eof[i] && Takes(d, Onward(scan, eof, d, curr), r, left)
    ensures r.Some? && Before(Opposite(d), Head(scan, curr), r.value)
  {
    MovedDrops(scan, eof, d, curr);
    var (s, e) := Moved(scan, eof, d, curr);
    assert i in {0, 1, 2};
    HeadIn(s, e, d, i);
    HeadIn(scan, eof, Opposite(d), i);
    var x, y := Head(scan, curr), Head(scan, i);
    assert Before(Opposite(d), x, y) && y in Onward(scan, eof, d, curr);
    assert r.Some?;
    if r.value != y {
      assert y in left && Before(d, r.value, y);
      BeforeTransitive(Opposite(d), x, y, r.value);
    }
  }

  /**
   A scan that has handed out a tuple going one way is turned around: what it hands out next is the
   next tuple that way, among any tuples one may have in mind, exactly when all other streams are
   at their end and the neighbour in the current stream is that tuple.
   */
  lemma TurnExact(scan: seq<Cursor>, eof: seq<bool>, d: Direction, curr: nat, r: Option<Tuple>, left: set<Tuple>,
                  all: set<Tuple>)
    requires Streams(scan, eof) && curr < 3 && Chosen(scan, eof, Opposite(d), {0, 1, 2}, curr)
    requires Takes(d, Onward(scan, eof, d, curr), r, left)
    ensures IsNext(d, all, Head(scan, curr), r)
       <==> Alone(scan, eof, curr) && IsNext(d, all, Head(scan, curr), Neighbour(scan[curr], d))
  {
    if Alone(scan, eof, curr) {
      AloneGives(scan, eof, d, curr, r, left);
    } else {
      var i :| 0 <= i < 3 && i != curr && !eof[i];
      OtherSpoils(scan, eof, d, curr, i, r, left);
      BeforeIrreflexive(Opposite(d), Head(scan, curr), r.value);
    }
  }

  /** Every tuple further on in direction d is still to come. */
  ghost predicate Covers(scan: seq<Cursor>, eof: seq<bool>, d: Direction, curr: nat)
    requires Streams(scan, eof) && curr < 3 && Live(scan, eof, curr)
  {
    forall t :: t in Everything(scan) && Before(d, Head(scan, curr), t) ==> t in Onward(scan, eof, d, curr)
  }

  /** Not turned, the scan goes on to the next tuple of the union. */
  lemma OnwardNext(scan: seq<Cursor>, eof: seq<bool>, d: Direction, curr: nat, r: Option<Tuple>, left: set<Tuple>)
    requires Streams(scan, eof) && curr < 3 && Chosen(scan, eof, d, {0, 1, 2}, curr) && Covers(scan, eof, d, curr)
    requires Takes(d, Onward(scan, eof, d, curr), r, left)
    ensures IsNext(d, Everything(scan), Head(scan, curr), r)
    ensures r.Some? ==> forall t :: t in Everything(scan) && Before(d, r.value, t) ==> t in left
  {
    var x := Head(scan, curr);
    OnwardAfter(scan, eof, d, curr);
    if r.Some? {
      OnwardWithin(scan, eof, d, curr);
      forall t | t in Everything(scan) && Before(d, r.value, t) ensures t in left {
        BeforeTransitive(d, x, r.value, t);
        BeforeIrreflexive(d, r.value, t);
      }
    }
  }

  /** Going on the same way, all that is left comes after the current tuple. */
  lemma OnwardAfter(scan: seq<Cursor>, eof: seq<bool>, d: Direction, curr: nat)
    requires Streams(scan, eof) && curr < 3 && Chosen(scan, eof, d, {0, 1, 2}, curr)
    ensures forall t :: t in Onward(scan, eof, d, curr) ==> Before(d, Head(scan, curr), t)
    ensures Onward(scan, eof, d, curr) == All(scan, eof, d) - {Head(scan, curr)}
    ensures OnwardCount(scan, eof, d, curr) < Count(scan, eof, d)
  {
    MovedDrops(scan, eof, d, curr);
    var (s, e) := Moved(scan, eof, d, curr);
    AdvanceDrops(scan, eof, s, e, d, curr);
    ChosenTakes(scan, eof, d, curr);
  }

  lemma UnreadWithin(c: Cursor, d: Direction, eof: bool)
    requires c.Placed()
    ensures Elements(c.Unread(d, eof)) <= Elements(c.tuples)
  {
    if c.valid { ReverseElements(c.tuples[..c.pos + 1]); } else { ReverseElements(c.tuples); }
  }

  lemma OnwardWithin(scan: seq<Cursor>, eof: seq<bool>, d: Direction, curr: nat)
    requires Streams(scan, eof) && curr < 3 && Live(scan, eof, curr)
    ensures Onward(scan, eof, d, curr) <= Everything(scan)
  {
    MovedDrops(scan, eof, d, curr);
    var (s, e) := Moved(scan, eof, d, curr);
    UnreadWithin(s[0], d, e[0]);
    UnreadWithin(s[1], d, e[1]);
    UnreadWithin(s[2], d, e[2]);
  }

  /** The next call finds the next tuple of the union. */
  ghost predicate Finds(scan: seq<Cursor>, d: Direction, curr: nat, r: Option<Tuple>)
    requires |scan| == 3 && curr < 3 && scan[curr].valid && scan[curr].Placed()
  {
    IsNext(d, Everything(scan), Head(scan, curr), r)
  }

  /** What decides that when the scan is turned around. */
  ghost predicate TurnsWell(scan: seq<Cursor>, eof: seq<bool>, d: Direction, curr: nat)
    requires |scan| == 3 && curr < 3 && scan[curr].valid && scan[curr].Placed()
  {
    Alone(scan, eof, curr) && Finds(scan, d, curr, Neighbour(scan[curr], d))
  }

  /** What a call finds, by how the scan came to where it is. */
  lemma Judged(scan: seq<Cursor>, eof: seq<bool>, d: Direction, curr: nat, r: Option<Tuple>, left: set<Tuple>)
    requires Streams(scan, eof) && curr < 3 && Live(scan, eof, curr)
    requires Takes(d, Onward(scan, eof, d, curr), r, left)
    ensures Chosen(scan, eof, d, {0, 1, 2}, curr) && Covers(scan, eof, d, curr) ==>
      Finds(scan, d, curr, r) && (r.Some? ==> forall t :: t in Everything(scan) && Before(d, r.value, t) ==> t in left)
    ensures Chosen(scan, eof, Opposite(d), {0, 1, 2}, curr) ==>
      (Finds(scan, d, curr, r) <==> TurnsWell(scan, eof, d, curr))
    ensures Alone(scan, eof, curr) ==> IsNext(d, Elements(scan[curr].tuples), Head(scan, curr), r)
  {
    if Chosen(scan, eof, d, {0, 1, 2}, curr) && Covers(scan, eof, d, curr) {
      OnwardNext(scan, eof, d, curr, r, left);
    }
    if Chosen(scan, eof, Opposite(d), {0, 1, 2}, curr) {
      TurnExact(scan, eof, d, curr, r, left, Everything(scan));
    }
    if Alone(scan, eof, curr) {
      AloneGives(scan, eof, d, curr, r, left);
      NeighbourNext(scan[curr], d);
    }
  }

  /** The first call leaves everything else to come. */
  lemma FirstCovers(s: seq<Cursor>, e: seq<bool>, d: Direction, curr: nat, all: set<Tuple>)
    requires Streams(s, e) && curr < 3 && Live(s, e, curr) && Everything(s) == all
    requires Takes(d, all, Some(Head(s, curr)), Onward(s, e, d, curr))
    ensures Covers(s, e, d, curr)
  {
    forall t | t in Everything(s) && Before(d, Head(s, curr), t) ensures t in Onward(s, e, d, curr) {
      BeforeIrreflexive(d, Head(s, curr), t);
    }
  }

  /** A stream with nothing in it has ended by the time a tuple is chosen. */
  lemma EmptyEnded(scan: seq<Cursor>, eof: seq<bool>, d: Direction, curr: nat)
    requires Streams(scan, eof) && curr < 3 && Chosen(scan, eof, d, {0, 1, 2}, curr)
    requires forall i :: 0 <= i < 3 && i != curr ==> scan[i].tuples == []
    ensures Alone(scan, eof, curr)
  {
    forall i | 0 <= i < 3 && i != curr ensures eof[i] { assert i in {0, 1, 2} && scan[i].Placed(); }
  }
}
