/**
 The three B-tree scans (two top indexes and the base) that a scan of an lsm3 index merges: where
 they stand, what they have still to give in either direction, and what each move does to that.
 */
module Lsm3Cursors {
  import opened Lsm3Order
  import opened Options

  /**
   One B-tree scan over the matching tuples of an index, ascending. Its position is valid only
   between a successful positioning and the move that runs off the end.
   */
  datatype Cursor = Cursor(tuples: seq<Tuple>, pos: int, valid: bool)
  {
    predicate Placed() {
      valid ==> 0 <= pos < |tuples|
    }

    function At(pos: int): Cursor {
      Cursor(tuples, pos, 0 <= pos < |tuples|)
    }

    /** Positions at the first tuple in the direction of the scan. */
    function First(d: Direction): Cursor {
      At(if d == Forward then 0 else |tuples| - 1)
    }

    function Next(d: Direction): Cursor {
      At(if d == Forward then pos + 1 else pos - 1)
    }

    /** The tuples not yet passed, the current one included, in scan order. */
    function Unread(d: Direction, eof: bool): seq<Tuple>
      requires Placed()
    {
      if eof then []
      else if !valid then Stream(d, tuples)
      else if d == Forward then tuples[pos..]
      else Reverse(tuples[..pos + 1])
    }
  }

  lemma FirstUnread(c: Cursor, d: Direction)
    requires c.Placed() && !c.valid
    ensures c.First(d).Placed()
    ensures c.First(d).Unread(d, !c.First(d).valid) == c.Unread(d, false)
  {
    assert c.tuples[..|c.tuples|] == c.tuples;
  }

  /** Moving on drops exactly the current tuple. */
  lemma NextUnread(c: Cursor, d: Direction)
    requires c.Placed() && c.valid
    ensures c.Next(d).Placed()
    ensures c.Unread(d, false) == [c.tuples[c.pos]] + c.Next(d).Unread(d, !c.Next(d).valid)
  {
    if d == Backward {
      ReverseLast(c.tuples[..c.pos + 1]);
      assert c.tuples[..c.pos + 1][..c.pos] == c.tuples[..c.pos];
    } else {
      assert c.tuples[c.pos..] == [c.tuples[c.pos]] + c.tuples[c.pos + 1..];
    }
  }

  predicate IsOrder(order: seq<nat>) {
    |order| == 3 && order[0] < 3 && order[1] < 3 && order[2] < 3
    && order[0] != order[1] && order[0] != order[2] && order[1] != order[2]
  }

  /** The source's visiting order: the active top index, the other one, the base. */
  function VisitingOrder(active: nat): (order: seq<nat>)
    requires active < 2
    ensures IsOrder(order)
  {
    [active, 1 - active, 2]
  }

  // The three scans together

  /** Every stream is placed over tuples in index order. */
  ghost predicate Streams(scan: seq<Cursor>, eof: seq<bool>) {
    |scan| == |eof| == 3 && forall i :: 0 <= i < 3 ==> scan[i].Placed() && Ordered(Forward, scan[i].tuples)
  }

  /** What a stream has still to give is in the order of the scan. */
  lemma UnreadOrdered(c: Cursor, d: Direction, eof: bool)
    requires c.Placed() && Ordered(Forward, c.tuples)
    ensures Ordered(d, c.Unread(d, eof))
  {
    StreamOrdered(d, c.tuples);
    if c.valid && d == Backward { ReverseOrdered(c.tuples[..c.pos + 1]); }
  }

  ghost function Rest(scan: seq<Cursor>, eof: seq<bool>, d: Direction, i: nat): seq<Tuple>
    requires Streams(scan, eof) && i < 3
  {
    scan[i].Unread(d, eof[i])
  }

  ghost function All(scan: seq<Cursor>, eof: seq<bool>, d: Direction): set<Tuple>
    requires Streams(scan, eof)
  {
    Elements(Rest(scan, eof, d, 0)) + Elements(Rest(scan, eof, d, 1)) + Elements(Rest(scan, eof, d, 2))
  }

  ghost function Count(scan: seq<Cursor>, eof: seq<bool>, d: Direction): nat
    requires Streams(scan, eof)
  {
    |Rest(scan, eof, d, 0)| + |Rest(scan, eof, d, 1)| + |Rest(scan, eof, d, 2)|
  }

  /** All tuples have the index's number of key columns. */
  ghost predicate SameColumns(scan: seq<Cursor>, n: nat) {
    forall i, t :: 0 <= i < |scan| && t in scan[i].tuples ==> |t.cols| == n
  }

  ghost predicate Live(scan: seq<Cursor>, eof: seq<bool>, i: nat)
    requires |scan| == |eof| == 3 && i < 3
  {
    !eof[i] && scan[i].valid && scan[i].Placed()
  }

  function Head(scan: seq<Cursor>, i: nat): Tuple
    requires i < |scan| && scan[i].valid && scan[i].Placed()
  {
    scan[i].tuples[scan[i].pos]
  }

  /** A live stream shows its first unread tuple. */
  lemma HeadFirst(scan: seq<Cursor>, eof: seq<bool>, d: Direction, i: nat)
    requires Streams(scan, eof) && i < 3 && Live(scan, eof, i)
    ensures Rest(scan, eof, d, i) != [] && Rest(scan, eof, d, i)[0] == Head(scan, i)
    ensures AllAfter(d, Head(scan, i), Rest(scan, eof, d, i)[1..])
  {
    NextUnread(scan[i], d);
    UnreadOrdered(scan[i], d, false);
    OrderedTail(d, Rest(scan, eof, d, i));
  }

  /** Of the streams visited so far, `min` shows the first tuple, and no other holds a copy of it. */
  ghost predicate Chosen(scan: seq<Cursor>, eof: seq<bool>, d: Direction, visited: set<nat>, min: int)
    requires Streams(scan, eof)
  {
    && (forall i :: i in visited ==> i < 3 && (eof[i] || scan[i].valid))
    && (min < 0 ==> forall i :: i in visited ==> eof[i])
    && (min >= 0 ==> min in visited && Live(scan, eof, min))
    && (min >= 0 ==> forall i :: i in visited && i != min ==> AllAfter(d, Head(scan, min), Rest(scan, eof, d, i)))
  }

  /** First look at a stream positions it. */
  function Started(scan: seq<Cursor>, eof: seq<bool>, d: Direction, i: nat): (seq<Cursor>, seq<bool>)
    requires |scan| == |eof| == 3 && i < 3
  {
    if !eof[i] && !scan[i].valid then
      var c := scan[i].First(d);
      (scan[i := c], eof[i := !c.valid])
    else (scan, eof)
  }

  function Moved(scan: seq<Cursor>, eof: seq<bool>, d: Direction, i: nat): (seq<Cursor>, seq<bool>)
    requires |scan| == |eof| == 3 && i < 3
  {
    var c := scan[i].Next(d);
    (scan[i := c], eof[i := !c.valid])
  }

  lemma StartedKeeps(scan: seq<Cursor>, eof: seq<bool>, d: Direction, i: nat)
    requires Streams(scan, eof) && i < 3
    ensures var (s, e) := Started(scan, eof, d, i);
      Streams(s, e) && (e[i] || s[i].valid)
      && forall j :: 0 <= j < 3 ==> Rest(s, e, d, j) == Rest(scan, eof, d, j)
  {
    if !eof[i] && !scan[i].valid { FirstUnread(scan[i], d); }
  }

  lemma MovedRest(scan: seq<Cursor>, eof: seq<bool>, d: Direction, i: nat)
    requires Streams(scan, eof) && i < 3 && Live(scan, eof, i)
    ensures var (s, e) := Moved(scan, eof, d, i);
      s[i].Placed() && Rest(scan, eof, d, i) == [Head(scan, i)] + s[i].Unread(d, e[i])
      && AllAfter(d, Head(scan, i), s[i].Unread(d, e[i]))
  {
    NextUnread(scan[i], d);
    UnreadOrdered(scan[i], d, false);
    OrderedTail(d, Rest(scan, eof, d, i));
    var (s, e) := Moved(scan, eof, d, i);
    assert Rest(scan, eof, d, i)[1..] == s[i].Unread(d, e[i]);
  }

  /** Stream i has moved past its current tuple, and only stream i has moved. */
  ghost predicate Dropped(scan: seq<Cursor>, eof: seq<bool>, s: seq<Cursor>, e: seq<bool>, d: Direction, i: nat)
    requires Streams(scan, eof) && i < 3 && Live(scan, eof, i)
  {
    && Streams(s, e) && (e[i] || s[i].valid)
    && Rest(scan, eof, d, i) == [Head(scan, i)] + Rest(s, e, d, i)
    && AllAfter(d, Head(scan, i), Rest(s, e, d, i))
    && forall j :: 0 <= j < 3 ==> s[j].tuples == scan[j].tuples && (j != i ==> s[j] == scan[j] && e[j] == eof[j])
  }

  lemma MovedDrops(scan: seq<Cursor>, eof: seq<bool>, d: Direction, i: nat)
    requires Streams(scan, eof) && i < 3 && Live(scan, eof, i)
    ensures var (s, e) := Moved(scan, eof, d, i); Dropped(scan, eof, s, e, d, i)
  {
    MovedRest(scan, eof, d, i);
  }

  lemma ChosenFrame(scan: seq<Cursor>, eof: seq<bool>, s: seq<Cursor>, e: seq<bool>, d: Direction,
                    visited: set<nat>, min: int)
    requires Streams(scan, eof) && Streams(s, e) && Chosen(scan, eof, d, visited, min)
    requires forall j :: j in visited ==> s[j] == scan[j] && e[j] == eof[j]
    ensures Chosen(s, e, d, visited, min)
  {
  }

  /** A stream that is at its end, or the first live one. */
  lemma ChooseFirst(scan: seq<Cursor>, eof: seq<bool>, d: Direction, visited: set<nat>, i: nat)
    requires Streams(scan, eof) && i < 3 && Chosen(scan, eof, d, visited, -1) && Live(scan, eof, i)
    ensures Chosen(scan, eof, d, visited + {i}, i)
  {
  }

  lemma ChooseNone(scan: seq<Cursor>, eof: seq<bool>, d: Direction, visited: set<nat>, i: nat, min: int)
    requires Streams(scan, eof) && i < 3 && Chosen(scan, eof, d, visited, min) && eof[i]
    ensures Chosen(scan, eof, d, visited + {i}, min)
  {
  }

  lemma HeadColumns(scan: seq<Cursor>, i: nat, n: nat)
    requires i < |scan| && scan[i].valid && scan[i].Placed() && SameColumns(scan, n)
    ensures |Head(scan, i).cols| == n
  {
    assert scan[i].tuples[scan[i].pos] in scan[i].tuples;
  }

  lemma ChooseSmaller(scan: seq<Cursor>, eof: seq<bool>, d: Direction, visited: set<nat>, min: nat, i: nat)
    requires Streams(scan, eof) && i < 3 && Chosen(scan, eof, d, visited, min) && Live(scan, eof, i)
    requires Before(d, Head(scan, i), Head(scan, min))
    ensures Chosen(scan, eof, d, visited + {i}, i)
  {
    forall j | j in visited && j != i ensures AllAfter(d, Head(scan, i), Rest(scan, eof, d, j)) {
      if j == min {
        HeadFirst(scan, eof, d, min);
        AllAfterFrom(d, Head(scan, i), Head(scan, min), Rest(scan, eof, d, min)[1..]);
      } else {
        AllAfterFrom(d, Head(scan, i), Head(scan, min), Rest(scan, eof, d, j));
      }
    }
  }

  lemma KeepSmaller(scan: seq<Cursor>, eof: seq<bool>, d: Direction, visited: set<nat>, min: nat, i: nat)
    requires Streams(scan, eof) && i < 3 && Chosen(scan, eof, d, visited, min) && Live(scan, eof, i)
    requires Before(d, Head(scan, min), Head(scan, i))
    ensures Chosen(scan, eof, d, visited + {i}, min)
  {
    HeadFirst(scan, eof, d, i);
    AllAfterFrom(d, Head(scan, min), Head(scan, i), Rest(scan, eof, d, i)[1..]);
  }

  lemma SkipChosen(scan: seq<Cursor>, eof: seq<bool>, s: seq<Cursor>, e: seq<bool>, d: Direction,
                   visited: set<nat>, min: nat, i: nat)
    requires Streams(scan, eof) && i < 3 && i !in visited && Chosen(scan, eof, d, visited, min) && Live(scan, eof, i)
    requires Head(scan, min) == Head(scan, i) && Dropped(scan, eof, s, e, d, i)
    ensures Chosen(s, e, d, visited + {i}, min)
  {
    ChosenFrame(scan, eof, s, e, d, visited, min);
  }

  lemma RestAfter(scan: seq<Cursor>, eof: seq<bool>, s: seq<Cursor>, e: seq<bool>, d: Direction, i: nat, j: nat)
    requires Streams(scan, eof) && i < 3 && j < 3 && Live(scan, eof, i) && Dropped(scan, eof, s, e, d, i)
    ensures Rest(scan, eof, d, j) == if j == i then [Head(scan, i)] + Rest(s, e, d, j) else Rest(s, e, d, j)
  {
  }

  /** Skipping a copy loses no tuple: the chosen stream still holds it. */
  lemma SkipAll(scan: seq<Cursor>, eof: seq<bool>, s: seq<Cursor>, e: seq<bool>, d: Direction, min: nat, i: nat)
    requires Streams(scan, eof) && i < 3 && min < 3 && i != min && Live(scan, eof, i) && Live(scan, eof, min)
    requires Head(scan, min) == Head(scan, i) && Dropped(scan, eof, s, e, d, i)
    ensures All(s, e, d) == All(scan, eof, d) && Count(s, e, d) < Count(scan, eof, d)
  {
    HeadIn(scan, eof, d, min);
    RestAfter(scan, eof, s, e, d, i, 0);
    RestAfter(scan, eof, s, e, d, i, 1);
    RestAfter(scan, eof, s, e, d, i, 2);
    Absorb(Rest(scan, eof, d, 0), Rest(scan, eof, d, 1), Rest(scan, eof, d, 2),
           Rest(s, e, d, 0), Rest(s, e, d, 1), Rest(s, e, d, 2), Head(scan, i), min, i);
  }

  lemma HeadIn(scan: seq<Cursor>, eof: seq<bool>, d: Direction, i: nat)
    requires Streams(scan, eof) && i < 3 && Live(scan, eof, i)
    ensures Head(scan, i) in Rest(scan, eof, d, i)
  {
    HeadFirst(scan, eof, d, i);
  }

  /** Dropping the head of one of three sequences when another one holds the same tuple. */
  lemma Absorb(a0: seq<Tuple>, a1: seq<Tuple>, a2: seq<Tuple>, b0: seq<Tuple>, b1: seq<Tuple>, b2: seq<Tuple>,
               t: Tuple, min: nat, i: nat)
    requires i < 3 && min < 3 && i != min
    requires a0 == if i == 0 then [t] + b0 else b0
    requires a1 == if i == 1 then [t] + b1 else b1
    requires a2 == if i == 2 then [t] + b2 else b2
    requires t in if min == 0 then b0 else if min == 1 then b1 else b2
    ensures Elements(a0) + Elements(a1) + Elements(a2) == Elements(b0) + Elements(b1) + Elements(b2)
    ensures |b0| + |b1| + |b2| < |a0| + |a1| + |a2|
  {
  }

  /** A stream at its end stays there. */
  ghost predicate KeepsEnds(eof: seq<bool>, e: seq<bool>) {
    |e| == |eof| && forall i :: 0 <= i < |e| && eof[i] ==> e[i]
  }

  /** What visiting stream i comes to: a choice among one more stream, and no tuple lost. */
  ghost predicate Visited(scan: seq<Cursor>, eof: seq<bool>, s: seq<Cursor>, e: seq<bool>, d: Direction,
                          visited: set<nat>, i: nat, next: int)
    requires Streams(scan, eof)
  {
    && Streams(s, e) && next < 3 && Chosen(s, e, d, visited + {i}, next)
    && All(s, e, d) == All(scan, eof, d) && Count(s, e, d) <= Count(scan, eof, d) && KeepsEnds(eof, e)
    && forall j :: 0 <= j < 3 ==> s[j].tuples == scan[j].tuples && (j != i ==> s[j] == scan[j] && e[j] == eof[j])
  }

  lemma SkipVisited(scan: seq<Cursor>, eof: seq<bool>, s: seq<Cursor>, e: seq<bool>, d: Direction,
                    visited: set<nat>, min: nat, i: nat)
    requires Streams(scan, eof) && i < 3 && i !in visited && min < 3
    requires Chosen(scan, eof, d, visited, min) && Live(scan, eof, i) && Head(scan, min) == Head(scan, i)
    requires Dropped(scan, eof, s, e, d, i)
    ensures Visited(scan, eof, s, e, d, visited, i, min)
  {
    SkipChosen(scan, eof, s, e, d, visited, min, i);
    SkipAll(scan, eof, s, e, d, min, i);
  }

  /** The streams at these places in the order are ended, the others as they were. */
  ghost predicate EndedBetween(before: seq<bool>, after: seq<bool>, order: seq<nat>, from: nat, to: nat)
    requires |before| == 3 && IsOrder(order)
  {
    |after| == 3 && forall p :: 0 <= p < 3 ==> after[order[p]] == ((from <= p < to) || before[order[p]])
  }

  ghost function Tids(s: set<Tuple>): set<int> {
    set t | t in s :: t.tid
  }

  /** The union of the three indexes. */
  ghost function Everything(scan: seq<Cursor>): set<Tuple>
    requires |scan| == 3
  {
    Elements(scan[0].tuples) + Elements(scan[1].tuples) + Elements(scan[2].tuples)
  }

  /** Output so far in order, everything still to come behind it, nothing lost. */
  ghost predicate SoFar(d: Direction, out: seq<Tuple>, next: Option<Tuple>, left: set<Tuple>, target: set<Tuple>) {
    && Ordered(d, out)
    && target == Elements(out) + (if next.Some? then {next.value} else {}) + left
    && (next.None? ==> left == {})
    && (forall t, u :: t in out && u in left ==> Before(d, t, u))
    && (next.Some? ==> next.value !in left && (forall t :: t in out ==> Before(d, t, next.value))
                       && forall u :: u in left ==> Before(d, next.value, u))
  }

  /** `result` is the first of these tuples, and the rest are left; None when there are none. */
  ghost predicate Takes(d: Direction, all: set<Tuple>, result: Option<Tuple>, left: set<Tuple>) {
    if result.None? then all == {}
    else
      && result.value in all && left == all - {result.value}
      && forall t :: t in left ==> Before(d, result.value, t)
  }

  /** What a unique lookup hands out: the first stream in the visiting order that has a tuple. */
  ghost function Sole(scan: seq<Cursor>, order: seq<nat>): set<Tuple>
    requires |scan| == 3 && IsOrder(order)
  {
    var i := FirstNonEmpty(scan, order);
    if i < 0 then {} else Elements(scan[i].tuples)
  }

  /** A sequence that starts with x and goes on after it, or lies after x altogether. */
  ghost predicate Follows(d: Direction, x: Tuple, r: seq<Tuple>, leads: bool) {
    if leads then r != [] && r[0] == x && AllAfter(d, x, r[1..]) else AllAfter(d, x, r)
  }

  ghost function Taken(all: set<Tuple>, result: Option<Tuple>): set<Tuple> {
    if result.None? then {} else all - {result.value}
  }

  function Choice(scan: seq<Cursor>, min: int): Option<Tuple>
    requires 0 <= min < |scan| ==> scan[min].valid && scan[min].Placed()
  {
    if 0 <= min < |scan| then Some(Head(scan, min)) else None
  }

  /** The loop after j streams, in either mode. */
  ghost predicate Halfway(s0: seq<Cursor>, e0: seq<bool>, s: seq<Cursor>, e: seq<bool>, d: Direction, order: seq<nat>,
                          unique: bool, cuts: bool, j: nat, min: int)
    requires Streams(s0, e0) && IsOrder(order) && j <= 3
  {
    && |e| == 3 && SameTuples(s0, s) && min < 3
    && if cuts then unique && min == -1 && NoneYet(s, e, order, j)
       else Chose(s0, e0, s, e, d, Seen(order, j), min) && (unique ==> forall i :: 0 <= i < 3 ==> e[i] || s[i].valid)
  }

  /** The loop after j streams, or left early by a unique lookup that found its stream. */
  ghost predicate InLoop(s0: seq<Cursor>, e0: seq<bool>, s: seq<Cursor>, e: seq<bool>, d: Direction, order: seq<nat>,
                         unique: bool, cuts: bool, j: nat, min: int, found: bool)
    requires Streams(s0, e0) && IsOrder(order) && j <= 3
  {
    if found then cuts && min >= 0 && SameTuples(s0, s) && CutAt(s, e, d, order, min)
    else Halfway(s0, e0, s, e, d, order, unique, cuts, j, min)
  }

  /** What the loop comes to: the first of all tuples left, or the stream of a unique lookup. */
  ghost predicate Selected(s0: seq<Cursor>, e0: seq<bool>, s: seq<Cursor>, e: seq<bool>, d: Direction, order: seq<nat>,
                           cuts: bool, min: int)
    requires Streams(s0, e0) && IsOrder(order)
  {
    && |e| == 3 && SameTuples(s0, s) && min < 3
    && if !cuts then Chose(s0, e0, s, e, d, {0, 1, 2}, min)
       else if min < 0 then NoneYet(s, e, order, 3)
       else CutAt(s, e, d, order, min)
  }

  ghost predicate SameTuples(scan: seq<Cursor>, s: seq<Cursor>) {
    |scan| == |s| == 3 && forall i :: 0 <= i < 3 ==> s[i].tuples == scan[i].tuples
  }

  /** A choice among the visited streams, no tuple lost on the way. */
  ghost predicate Chose(scan: seq<Cursor>, eof: seq<bool>, s: seq<Cursor>, e: seq<bool>, d: Direction,
                        visited: set<nat>, min: int)
    requires Streams(scan, eof)
  {
    && Streams(s, e) && Chosen(s, e, d, visited, min)
    && All(s, e, d) == All(scan, eof, d) && Count(s, e, d) <= Count(scan, eof, d) && KeepsEnds(eof, e)
  }

  /** The first j streams turned out empty, the others have not been touched. */
  ghost predicate NoneYet(scan: seq<Cursor>, eof: seq<bool>, order: seq<nat>, j: nat)
    requires |scan| == |eof| == 3 && IsOrder(order)
  {
    && (forall p :: 0 <= p < j && p < 3 ==> eof[order[p]] && scan[order[p]].tuples == [])
    && (forall p :: j <= p < 3 ==> !eof[order[p]] && !scan[order[p]].valid)
  }

  function Seen(order: seq<nat>, j: nat): set<nat>
    requires IsOrder(order) && j <= 3
  {
    if j == 0 then {} else if j == 1 then {order[0]} else if j == 2 then {order[0], order[1]} else {0, 1, 2}
  }

  /** The streams before `min` in the order are empty, the ones behind it are ended unread. */
  ghost predicate CutAt(scan: seq<Cursor>, eof: seq<bool>, d: Direction, order: seq<nat>, min: nat)
    requires IsOrder(order)
  {
    && Streams(scan, eof) && min < 3 && Live(scan, eof, min)
    && Rest(scan, eof, d, min) == Stream(d, scan[min].tuples)
    && (forall i :: 0 <= i < 3 && i != min ==> eof[i])
    && FirstNonEmpty(scan, order) == min
  }

  /** The first stream in the visiting order that has a tuple at all. */
  function FirstNonEmpty(scan: seq<Cursor>, order: seq<nat>): int
    requires |scan| == 3 && IsOrder(order)
  {
    if scan[order[0]].tuples != [] then order[0]
    else if scan[order[1]].tuples != [] then order[1]
    else if scan[order[2]].tuples != [] then order[2]
    else -1
  }

  lemma FreshAll(scan: seq<Cursor>, eof: seq<bool>, d: Direction)
    requires Streams(scan, eof) && forall i :: 0 <= i < 3 ==> !eof[i] && !scan[i].valid
    ensures All(scan, eof, d) == Everything(scan)
  {
    StreamOrdered(d, scan[0].tuples);
    StreamOrdered(d, scan[1].tuples);
    StreamOrdered(d, scan[2].tuples);
  }

  lemma HasElement(s: seq<Tuple>)
    requires s != []
    ensures Elements(s) != {}
  {
    assert s[0] in Elements(s);
  }

  /** A first call that finds nothing: nothing matches. */
  lemma NothingMatches(scan: seq<Cursor>, eof: seq<bool>, d: Direction)
    requires Streams(scan, eof) && (forall i :: 0 <= i < 3 ==> !eof[i] && !scan[i].valid) && All(scan, eof, d) == {}
    ensures forall i :: 0 <= i < 3 ==> scan[i].tuples == []
  {
    FreshAll(scan, eof, d);
    forall i | 0 <= i < 3 ensures scan[i].tuples == [] {
      if scan[i].tuples != [] {
        HasElement(scan[i].tuples);
        assert false;
      }
    }
  }

  lemma SoFarStart(d: Direction, next: Option<Tuple>, left: set<Tuple>, target: set<Tuple>)
    requires Takes(d, target, next, left) && (next.None? ==> left == {})
    ensures SoFar(d, [], next, left, target)
  {
    assert Elements([]) == {};
  }

  lemma SoFarStep(d: Direction, out: seq<Tuple>, x: Tuple, due: set<Tuple>, next: Option<Tuple>,
                  left: set<Tuple>, target: set<Tuple>)
    requires SoFar(d, out, Some(x), due, target) && Takes(d, due, next, left)
    requires next.None? ==> left == {}
    ensures SoFar(d, out + [x], next, left, target)
    ensures |left| <= |due| && (next.Some? ==> |left| < |due|)
  {
    SoFarSets(out, x, due, next, left, target);
    assert forall t :: t in out + [x] ==> t in out || t == x;
    assert left <= due && (next.Some? ==> next.value in due);
  }

  lemma SoFarSets(out: seq<Tuple>, x: Tuple, due: set<Tuple>, next: Option<Tuple>, left: set<Tuple>, target: set<Tuple>)
    requires target == Elements(out) + {x} + due
    requires if next.None? then due == {} && left == {} else next.value in due && left == due - {next.value}
    ensures target == Elements(out + [x]) + (if next.Some? then {next.value} else {}) + left
    ensures |left| <= |due| && (next.Some? ==> |left| < |due|)
  {
    assert Elements(out + [x]) == Elements(out) + {x};
    if next.Some? {
      assert due == left + {next.value};
    }
  }

  lemma SoleSame(scan: seq<Cursor>, s: seq<Cursor>, order: seq<nat>)
    requires SameTuples(scan, s) && IsOrder(order)
    ensures Sole(s, order) == Sole(scan, order)
  {
  }

  lemma NoneAtAll(scan: seq<Cursor>, eof: seq<bool>, order: seq<nat>)
    requires |scan| == |eof| == 3 && IsOrder(order) && NoneYet(scan, eof, order, 3)
    ensures Sole(scan, order) == {}
  {
    assert scan[order[0]].tuples == [] && scan[order[1]].tuples == [] && scan[order[2]].tuples == [];
  }

  lemma FollowsElements(d: Direction, x: Tuple, r: seq<Tuple>, leads: bool)
    requires Follows(d, x, r, leads)
    ensures forall t :: t in Elements(r) ==> t == x || Before(d, x, t)
    ensures leads ==> x in Elements(r)
  {
    if leads { ElementsTail(r); }
  }

  /** The choice among all three streams is the first of all tuples left; no choice, nothing left. */
  lemma ChosenTakes(scan: seq<Cursor>, eof: seq<bool>, d: Direction, min: int)
    requires Streams(scan, eof) && min < 3 && Chosen(scan, eof, d, {0, 1, 2}, min)
    ensures Takes(d, All(scan, eof, d), Choice(scan, min), Taken(All(scan, eof, d), Choice(scan, min)))
    ensures min >= 0 ==> Count(scan, eof, d) > 0
  {
    var r0, r1, r2 := Rest(scan, eof, d, 0), Rest(scan, eof, d, 1), Rest(scan, eof, d, 2);
    if min < 0 {
      assert r0 == [] && r1 == [] && r2 == [];
    } else {
      HeadFirst(scan, eof, d, min);
      var x := Head(scan, min);
      FollowsElements(d, x, r0, min == 0);
      FollowsElements(d, x, r1, min == 1);
      FollowsElements(d, x, r2, min == 2);
      assert Choice(scan, min) == Some(x);
    }
  }

  /** Moving past the current tuple removes it, and only it, from what is left. */
  lemma AdvanceDrops(scan: seq<Cursor>, eof: seq<bool>, s: seq<Cursor>, e: seq<bool>, d: Direction, curr: nat)
    requires Streams(scan, eof) && curr < 3 && Chosen(scan, eof, d, {0, 1, 2}, curr)
    requires Dropped(scan, eof, s, e, d, curr)
    ensures All(s, e, d) == All(scan, eof, d) - {Head(scan, curr)}
    ensures Count(s, e, d) == Count(scan, eof, d) - 1
    ensures forall i :: 0 <= i < 3 ==> e[i] || s[i].valid
  {
    var x := Head(scan, curr);
    BehindHead(scan, eof, s, e, d, curr, 0);
    BehindHead(scan, eof, s, e, d, curr, 1);
    BehindHead(scan, eof, s, e, d, curr, 2);
    Without(Rest(scan, eof, d, 0), Rest(scan, eof, d, 1), Rest(scan, eof, d, 2),
            Rest(s, e, d, 0), Rest(s, e, d, 1), Rest(s, e, d, 2), x, curr);
  }

  lemma BehindHead(scan: seq<Cursor>, eof: seq<bool>, s: seq<Cursor>, e: seq<bool>, d: Direction, curr: nat, i: nat)
    requires Streams(scan, eof) && curr < 3 && Chosen(scan, eof, d, {0, 1, 2}, curr) && i < 3
    requires Dropped(scan, eof, s, e, d, curr)
    ensures Head(scan, curr) !in Rest(s, e, d, i) && (e[i] || s[i].valid)
    ensures i != curr ==> Rest(s, e, d, i) == Rest(scan, eof, d, i)
  {
    var x := Head(scan, curr);
    assert i in {0, 1, 2};
    if x in Rest(s, e, d, i) { BeforeIrreflexive(d, x, x); }
  }

  lemma Without(a0: seq<Tuple>, a1: seq<Tuple>, a2: seq<Tuple>, b0: seq<Tuple>, b1: seq<Tuple>, b2: seq<Tuple>,
                t: Tuple, i: nat)
    requires i < 3 && t !in b0 && t !in b1 && t !in b2
    requires a0 == if i == 0 then [t] + b0 else b0
    requires a1 == if i == 1 then [t] + b1 else b1
    requires a2 == if i == 2 then [t] + b2 else b2
    ensures Elements(b0) + Elements(b1) + Elements(b2) == Elements(a0) + Elements(a1) + Elements(a2) - {t}
    ensures |b0| + |b1| + |b2| == |a0| + |a1| + |a2| - 1
  {
  }

  /** A live stream beside ended ones is the choice. */
  lemma OneLive(scan: seq<Cursor>, eof: seq<bool>, d: Direction, min: nat)
    requires Streams(scan, eof) && min < 3 && Live(scan, eof, min)
    requires forall i :: 0 <= i < 3 && i != min ==> eof[i]
    ensures Chosen(scan, eof, d, {0, 1, 2}, min)
  {
    forall i | i in {0, 1, 2} && i != min ensures AllAfter(d, Head(scan, min), Rest(scan, eof, d, i)) {
      assert Rest(scan, eof, d, i) == [];
    }
  }

  /** After the shortcut, the one stream left is all there is. */
  lemma CutIsAll(scan: seq<Cursor>, eof: seq<bool>, d: Direction, min: nat)
    requires Streams(scan, eof) && min < 3
    requires Rest(scan, eof, d, min) == Stream(d, scan[min].tuples)
    requires forall i :: 0 <= i < 3 && i != min ==> eof[i]
    ensures All(scan, eof, d) == Elements(scan[min].tuples)
  {
    StreamOrdered(d, scan[min].tuples);
    OnlyOne(Rest(scan, eof, d, 0), Rest(scan, eof, d, 1), Rest(scan, eof, d, 2), Stream(d, scan[min].tuples), min);
  }

  lemma CutIsSole(scan: seq<Cursor>, eof: seq<bool>, d: Direction, order: seq<nat>, min: nat)
    requires IsOrder(order) && min < 3 && CutAt(scan, eof, d, order, min)
    ensures Chosen(scan, eof, d, {0, 1, 2}, min)
    ensures All(scan, eof, d) == Sole(scan, order)
  {
    OneLive(scan, eof, d, min);
    CutIsAll(scan, eof, d, min);
  }

  lemma OnlyOne(r0: seq<Tuple>, r1: seq<Tuple>, r2: seq<Tuple>, r: seq<Tuple>, i: nat)
    requires i < 3
    requires r0 == if i == 0 then r else []
    requires r1 == if i == 1 then r else []
    requires r2 == if i == 2 then r else []
    ensures Elements(r0) + Elements(r1) + Elements(r2) == Elements(r)
  {
  }

  lemma SelectStarts(s: seq<Cursor>, e: seq<bool>, d: Direction, order: seq<nat>, unique: bool, cuts: bool)
    requires Streams(s, e) && IsOrder(order)
    requires cuts == (unique && forall i :: 0 <= i < 3 ==> !e[i] && !s[i].valid)
    requires unique && !cuts ==> forall i :: 0 <= i < 3 ==> e[i] || s[i].valid
    ensures InLoop(s, e, s, e, d, order, unique, cuts, 0, -1, false)
  {
  }

  lemma SelectEnds(s0: seq<Cursor>, e0: seq<bool>, s: seq<Cursor>, e: seq<bool>, d: Direction, order: seq<nat>,
                   unique: bool, cuts: bool, j: nat, min: int, found: bool)
    requires Streams(s0, e0) && IsOrder(order) && j <= 3 && (found || j == 3)
    requires InLoop(s0, e0, s, e, d, order, unique, cuts, j, min, found)
    ensures Selected(s0, e0, s, e, d, order, cuts, min)
  {
  }

  lemma FreshStreams(s0: seq<Tuple>, s1: seq<Tuple>, s2: seq<Tuple>, n: nat)
    requires Ordered(Forward, s0) && Ordered(Forward, s1) && Ordered(Forward, s2)
    requires forall t :: t in s0 + s1 + s2 ==> |t.cols| == n
    ensures var scan := [Cursor(s0, 0, false), Cursor(s1, 0, false), Cursor(s2, 0, false)];
      Streams(scan, [false, false, false]) && SameColumns(scan, n)
  {
    var scan := [Cursor(s0, 0, false), Cursor(s1, 0, false), Cursor(s2, 0, false)];
    forall i, t | 0 <= i < 3 && t in scan[i].tuples ensures |t.cols| == n { assert t in s0 + s1 + s2; }
  }

  lemma SeenNext(order: seq<nat>, j: nat)
    requires IsOrder(order) && j < 3
    ensures order[j] !in Seen(order, j) && Seen(order, j + 1) == Seen(order, j) + {order[j]}
  {
    if j == 0 {
    } else if j == 1 {
    } else {
      assert {order[0], order[1], order[2]} == {0, 1, 2};
    }
  }

  lemma ChoseStep(s0: seq<Cursor>, e0: seq<bool>, s: seq<Cursor>, e: seq<bool>, s1: seq<Cursor>, e1: seq<bool>,
                  d: Direction, order: seq<nat>, j: nat, next: int)
    requires IsOrder(order) && j < 3 && Streams(s0, e0) && Streams(s, e)
    requires All(s, e, d) == All(s0, e0, d) && Count(s, e, d) <= Count(s0, e0, d) && KeepsEnds(e0, e)
    requires Visited(s, e, s1, e1, d, Seen(order, j), order[j], next)
    ensures Chose(s0, e0, s1, e1, d, Seen(order, j + 1), next)
  {
    SeenNext(order, j);
  }

  lemma NoneStep(s: seq<Cursor>, e: seq<bool>, s1: seq<Cursor>, e1: seq<bool>, d: Direction, order: seq<nat>, j: nat)
    requires Streams(s, e) && IsOrder(order) && j < 3 && NoneYet(s, e, order, j)
    requires (s1, e1) == Started(s, e, d, order[j]) && e1[order[j]]
    ensures NoneYet(s1, e1, order, j + 1)
  {
    assert !e[order[j]] && !s[order[j]].valid;
    forall p | 0 <= p < 3 && p != j ensures s1[order[p]] == s[order[p]] && e1[order[p]] == e[order[p]] {
      OrderApart(order, p, j);
    }
  }

  /** Streams found empty so far, then the first that is not. */
  lemma CutFirst(scan: seq<Cursor>, order: seq<nat>, j: nat)
    requires |scan| == 3 && IsOrder(order) && j < 3 && scan[order[j]].tuples != []
    requires forall p :: 0 <= p < j ==> scan[order[p]].tuples == []
    ensures FirstNonEmpty(scan, order) == order[j]
  {
    if j > 0 { assert scan[order[0]].tuples == []; }
    if j > 1 { assert scan[order[1]].tuples == []; }
  }

  lemma CutOthers(e1: seq<bool>, e2: seq<bool>, order: seq<nat>, j: nat)
    requires |e1| == 3 && IsOrder(order) && j < 3 && EndedBetween(e1, e2, order, j + 1, 3)
    requires forall p :: 0 <= p < j ==> e1[order[p]]
    ensures forall k :: 0 <= k < 3 && k != order[j] ==> e2[k]
  {
    assert e2[order[0]] == ((j + 1 <= 0 < 3) || e1[order[0]]);
    assert e2[order[1]] == ((j + 1 <= 1 < 3) || e1[order[1]]);
    assert e2[order[2]] == ((j + 1 <= 2 < 3) || e1[order[2]]);
    if j > 0 { assert e1[order[0]]; }
    if j > 1 { assert e1[order[1]]; }
  }

  lemma CutStep(s: seq<Cursor>, e: seq<bool>, s1: seq<Cursor>, e1: seq<bool>, e2: seq<bool>, d: Direction,
                order: seq<nat>, j: nat)
    requires Streams(s, e) && IsOrder(order) && j < 3 && NoneYet(s, e, order, j)
    requires (s1, e1) == Started(s, e, d, order[j]) && !e1[order[j]]
    requires Streams(s1, e2) && EndedBetween(e1, e2, order, j + 1, 3)
    ensures CutAt(s1, e2, d, order, order[j])
  {
    var i := order[j];
    assert !e[i] && !s[i].valid;
    assert e2[i] == ((j + 1 <= j < 3) || e1[order[j]]);
    FirstUnread(s[i], d);
    CutBefore(s, e, s1, e1, d, order, j);
    CutFirst(s1, order, j);
    CutOthers(e1, e2, order, j);
  }

  lemma CutBefore(s: seq<Cursor>, e: seq<bool>, s1: seq<Cursor>, e1: seq<bool>, d: Direction, order: seq<nat>, j: nat)
    requires |s| == |e| == 3 && IsOrder(order) && j < 3 && NoneYet(s, e, order, j)
    requires (s1, e1) == Started(s, e, d, order[j])
    ensures forall p :: 0 <= p < j ==> s1[order[p]].tuples == [] && e1[order[p]]
  {
    forall p | 0 <= p < j ensures s1[order[p]].tuples == [] && e1[order[p]] {
      OrderApart(order, p, j);
      assert e[order[p]] && s[order[p]].tuples == [];
    }
  }

  lemma EndKeeps(scan: seq<Cursor>, before: seq<bool>, eof: seq<bool>, order: seq<nat>, from: nat, j: nat)
    requires Streams(scan, eof) && IsOrder(order) && from <= j < 3 && |before| == 3
    requires EndedBetween(before, eof, order, from, j)
    ensures Streams(scan, eof[order[j] := true])
    ensures EndedBetween(before, eof[order[j] := true], order, from, j + 1)
  {
    EndStreams(scan, eof, order[j]);
    var after := eof[order[j] := true];
    forall p | 0 <= p < 3 ensures after[order[p]] == ((from <= p < j + 1) || before[order[p]]) {
      assert eof[order[p]] == ((from <= p < j) || before[order[p]]);
      if p != j { OrderApart(order, p, j); }
    }
  }

  lemma EndStreams(scan: seq<Cursor>, eof: seq<bool>, i: nat)
    requires Streams(scan, eof) && i < 3
    ensures Streams(scan, eof[i := true])
  {
  }

  lemma OrderApart(order: seq<nat>, p: nat, q: nat)
    requires IsOrder(order) && p < 3 && q < 3 && p != q
    ensures order[p] != order[q]
  {
  }

  lemma VisitedAfterStart(s0: seq<Cursor>, e0: seq<bool>, s1: seq<Cursor>, e1: seq<bool>,
                          s2: seq<Cursor>, e2: seq<bool>, d: Direction, visited: set<nat>, i: nat, next: int)
    requires Streams(s0, e0) && i < 3 && (s1, e1) == Started(s0, e0, d, i)
    requires Streams(s1, e1) && forall j :: 0 <= j < 3 ==> Rest(s1, e1, d, j) == Rest(s0, e0, d, j)
    requires Visited(s1, e1, s2, e2, d, visited, i, next)
    ensures Visited(s0, e0, s2, e2, d, visited, i, next)
  {
  }

  lemma ColumnsKept(scan: seq<Cursor>, s: seq<Cursor>, n: nat)
    requires |s| == |scan| && SameColumns(scan, n)
    requires forall j :: 0 <= j < |scan| ==> s[j].tuples == scan[j].tuples
    ensures SameColumns(s, n)
  {
  }

  /** A full scan's choice is among all that was left; no choice, nothing left. */
  lemma SelectedFull(s0: seq<Cursor>, e0: seq<bool>, s: seq<Cursor>, e: seq<bool>, d: Direction,
                     order: seq<nat>, min: int)
    requires Streams(s0, e0) && IsOrder(order) && Selected(s0, e0, s, e, d, order, false, min)
    ensures Streams(s, e) && Count(s, e, d) <= Count(s0, e0, d) && KeepsEnds(e0, e)
    ensures if min < 0 then All(s0, e0, d) == {} else Chosen(s, e, d, {0, 1, 2}, min) && All(s, e, d) == All(s0, e0, d)
  {
    if min < 0 { ChosenTakes(s, e, d, min); }
  }

  /** A unique lookup's is all of the first index that has a tuple. */
  lemma SelectedSole(s0: seq<Cursor>, e0: seq<bool>, s: seq<Cursor>, e: seq<bool>, d: Direction,
                     order: seq<nat>, min: int)
    requires Streams(s0, e0) && IsOrder(order) && Selected(s0, e0, s, e, d, order, true, min)
    ensures if min < 0 then Sole(s0, order) == {}
            else Streams(s, e) && Chosen(s, e, d, {0, 1, 2}, min) && All(s, e, d) == Sole(s0, order)
  {
    SoleSame(s0, s, order);
    if min < 0 { NoneAtAll(s, e, order); } else { CutIsSole(s, e, d, order, min); }
  }
}
