/**
 A scan of an lsm3 index: three B-tree scans (two top indexes and the base) merged lazily, with
 duplicates skipped and a shortcut for unique lookups. The direction comes with each call.
 */
module Lsm3Scan {
  import opened Lsm3Order
  import opened Lsm3Cursors
  import opened Lsm3Turning
  import opened Options

  /** The union of what the three streams hold, read lazily and in order. */
  class Scan {
    const scan: array<Cursor>
    const eof: array<bool>
    const columns: nat
    const uniqueLookup: bool
    var curr: int

    ghost predicate Valid()
      reads this, scan, eof
    {
      && scan.Length == eof.Length == 3
      && Streams(scan[..], eof[..]) && SameColumns(scan[..], columns)
    }

    /** Every stream is positioned or at its end. */
    ghost predicate Positioned()
      reads this, scan, eof
      requires Valid()
    {
      forall i :: 0 <= i < 3 ==> eof[i] || scan[i].valid
    }

    ghost predicate Fresh()
      reads this, scan, eof
      requires Valid()
    {
      curr == -1 && forall i :: 0 <= i < 3 ==> !eof[i] && !scan[i].valid
    }

    /** Nothing matches, and this has been found out. */
    ghost predicate Empty()
      reads this, scan, eof
      requires Valid()
    {
      curr == -1 && forall i :: 0 <= i < 3 ==> eof[i] && scan[i].tuples == []
    }

    /** The tuple handed out last is current; or there is none yet, or none at all. */
    ghost predicate Ready()
      reads this, scan, eof
      requires Valid()
    {
      if curr < 0 then Fresh() || Empty() else curr < 3 && Live(scan[..], eof[..], curr) && Positioned()
    }

    /** The last call went in direction d: what is left that way comes after the current tuple. */
    ghost predicate Facing(d: Direction)
      reads this, scan, eof
      requires Valid() && Ready()
    {
      curr >= 0 ==> Chosen(scan[..], eof[..], d, {0, 1, 2}, curr)
    }

    /** The tuples still to come in direction d. */
    ghost function Coming(d: Direction): set<Tuple>
      reads this, scan, eof
      requires Valid() && Ready()
    {
      if curr < 0 then All(scan[..], eof[..], d) else Onward(scan[..], eof[..], d, curr)
    }

    /** How many tuples are unread in direction d, copies counted. */
    ghost function Left(d: Direction): nat
      reads this, scan, eof
      requires Valid() && Ready()
    {
      if curr < 0 then Count(scan[..], eof[..], d) else OnwardCount(scan[..], eof[..], d, curr)
    }

    constructor (s0: seq<Tuple>, s1: seq<Tuple>, s2: seq<Tuple>, columns: nat, uniqueLookup: bool)
      requires Ordered(Forward, s0) && Ordered(Forward, s1) && Ordered(Forward, s2)
      requires forall t :: t in s0 + s1 + s2 ==> |t.cols| == columns
      ensures Valid() && Ready() && Fresh() && fresh(scan) && fresh(eof)
      ensures this.uniqueLookup == uniqueLookup
      ensures scan[0].tuples == s0 && scan[1].tuples == s1 && scan[2].tuples == s2
    {
      this.columns, this.uniqueLookup := columns, uniqueLookup;
      scan := new Cursor[3](i => Cursor(if i == 0 then s0 else if i == 1 then s1 else s2, 0, false));
      eof := new bool[3](_ => false);
      curr := -1;
      new;
      assert scan[..] == [Cursor(s0, 0, false), Cursor(s1, 0, false), Cursor(s2, 0, false)];
      assert eof[..] == [false, false, false];
      FreshStreams(s0, s1, s2, columns);
    }

    /** Starts over on the tuples that match the new keys: every position and end mark is forgotten. */
    method Rescan(s0: seq<Tuple>, s1: seq<Tuple>, s2: seq<Tuple>)
      requires Valid()
      requires Ordered(Forward, s0) && Ordered(Forward, s1) && Ordered(Forward, s2)
      requires forall t :: t in s0 + s1 + s2 ==> |t.cols| == columns
      modifies this, scan, eof
      ensures Valid() && Ready() && Fresh()
      ensures scan[0].tuples == s0 && scan[1].tuples == s1 && scan[2].tuples == s2
    {
      curr := -1;
      var i := 0;
      while i < 3
        invariant 0 <= i <= 3 && curr == -1
        invariant forall j :: 0 <= j < i ==>
          !eof[j] && scan[j] == Cursor(if j == 0 then s0 else if j == 1 then s1 else s2, 0, false)
      {
        scan[i] := Cursor(if i == 0 then s0 else if i == 1 then s1 else s2, 0, false);
        eof[i] := false;
        i := i + 1;
      }
      assert scan[..] == [Cursor(s0, 0, false), Cursor(s1, 0, false), Cursor(s2, 0, false)];
      assert eof[..] == [false, false, false];
      FreshStreams(s0, s1, s2, columns);
    }

    method Move(i: nat, d: Direction)
      requires Valid() && i < 3 && Live(scan[..], eof[..], i)
      modifies scan, eof
      ensures (scan[..], eof[..]) == Moved(old(scan[..]), old(eof[..]), d, i)
      ensures Dropped(old(scan[..]), old(eof[..]), scan[..], eof[..], d, i)
      ensures Valid()
    {
      ghost var s, e := scan[..], eof[..];
      MovedDrops(s, e, d, i);
      scan[i] := scan[i].Next(d);
      eof[i] := !scan[i].valid;
      assert (scan[..], eof[..]) == Moved(s, e, d, i);
      ColumnsKept(s, scan[..], columns);
    }

    method Start(i: nat, d: Direction)
      requires Valid() && i < 3
      modifies scan, eof
      ensures (scan[..], eof[..]) == Started(old(scan[..]), old(eof[..]), d, i)
      ensures Valid() && SameTuples(old(scan[..]), scan[..])
    {
      ghost var s0, e0 := scan[..], eof[..];
      ghost var s, e := Started(s0, e0, d, i).0, Started(s0, e0, d, i).1;
      StartedKeeps(s0, e0, d, i);
      ColumnsKept(s0, s, columns);
      if !eof[i] && !scan[i].valid {
        scan[i] := scan[i].First(d);
        eof[i] := !scan[i].valid;
      }
      assert scan[..] == s && eof[..] == e;
    }

    /** Compares a stream's tuple with the choice so far. */
    method Decide(i: nat, min: int, d: Direction, ghost visited: set<nat>) returns (copy: bool, next: int)
      requires Valid() && i < 3 && min < 3 && (eof[i] || scan[i].valid)
      requires Chosen(scan[..], eof[..], d, visited, min)
      ensures next < 3
      ensures copy ==> next == min >= 0 && Live(scan[..], eof[..], i) && Head(scan[..], min) == Head(scan[..], i)
      ensures !copy ==> Chosen(scan[..], eof[..], d, visited + {i}, next)
    {
      copy, next := false, min;
      if eof[i] {
        ChooseNone(scan[..], eof[..], d, visited, i, min);
        return;
      }
      if min < 0 {
        ChooseFirst(scan[..], eof[..], d, visited, i);
        return copy, i;
      }
      HeadColumns(scan[..], i, columns);
      HeadColumns(scan[..], min, columns);
      var result := Compare(Head(scan[..], i), Head(scan[..], min));
      if result == 0 {
        copy := true;
      } else if (result < 0) == (d == Forward) {
        ChooseSmaller(scan[..], eof[..], d, visited, min, i);
        next := i;
      } else {
        KeepSmaller(scan[..], eof[..], d, visited, min, i);
      }
    }

    /** One stream of the loop: it becomes the choice, stays behind it, or skips a copy of it. */
    method Visit(i: nat, min: int, d: Direction, ghost visited: set<nat>) returns (next: int)
      requires Valid() && i < 3 && i !in visited && min < 3 && (eof[i] || scan[i].valid)
      requires Chosen(scan[..], eof[..], d, visited, min)
      modifies scan, eof
      ensures Streams(scan[..], eof[..])
      ensures Visited(old(scan[..]), old(eof[..]), scan[..], eof[..], d, visited, i, next)
    {
      var copy;
      copy, next := Decide(i, min, d, visited);
      if copy {
        ghost var s, e := scan[..], eof[..];
        Move(i, d);
        SkipVisited(s, e, scan[..], eof[..], d, visited, min, i);
      }
    }

    /** Handles one stream in the visiting order, positioning it first. */
    method Look(i: nat, min: int, d: Direction, ghost visited: set<nat>) returns (next: int)
      requires Valid() && i < 3 && i !in visited && min < 3
      requires Chosen(scan[..], eof[..], d, visited, min)
      modifies scan, eof
      ensures Valid()
      ensures Visited(old(scan[..]), old(eof[..]), scan[..], eof[..], d, visited, i, next)
    {
      ghost var s0, e0 := scan[..], eof[..];
      StartedKeeps(s0, e0, d, i);
      Start(i, d);
      ghost var s1, e1 := scan[..], eof[..];
      ChosenFrame(s0, e0, s1, e1, d, visited, min);
      next := Visit(i, min, d, visited);
      VisitedAfterStart(s0, e0, s1, e1, scan[..], eof[..], d, visited, i, next);
      ColumnsKept(s0, scan[..], columns);
    }

    /** The shortcut applies: a unique lookup that has not looked anywhere yet. */
    ghost predicate Cuts()
      reads this, scan, eof
      requires Valid()
    {
      uniqueLookup && forall i :: 0 <= i < 3 ==> !eof[i] && !scan[i].valid
    }

    /** Marks the streams not looked at yet as ended. */
    method CutFrom(order: seq<nat>, from: nat)
      requires Valid() && IsOrder(order) && from <= 3
      modifies eof
      ensures Valid()
      ensures EndedBetween(old(eof[..]), eof[..], order, from, 3)
    {
      var j := from;
      while j < 3
        invariant from <= j <= 3 && Valid()
        invariant EndedBetween(old(eof[..]), eof[..], order, from, j)
      {
        EndKeeps(scan[..], old(eof[..]), eof[..], order, from, j);
        ghost var e := eof[..];
        eof[order[j]] := true;
        assert eof[..] == e[order[j] := true];
        j := j + 1;
      }
    }

    /** Handles one stream of a unique lookup that has found nothing so far. */
    method LookUnique(order: seq<nat>, j: nat, d: Direction) returns (found: bool)
      requires Valid() && IsOrder(order) && j < 3 && NoneYet(scan[..], eof[..], order, j)
      modifies scan, eof
      ensures Valid() && SameTuples(old(scan[..]), scan[..])
      ensures !found ==> NoneYet(scan[..], eof[..], order, j + 1)
      ensures found ==> CutAt(scan[..], eof[..], d, order, order[j])
    {
      var i := order[j];
      ghost var s, e := scan[..], eof[..];
      Start(i, d);
      ghost var e1 := eof[..];
      found := !eof[i];
      if found {
        CutFrom(order, j + 1);
        CutStep(s, e, scan[..], e1, eof[..], d, order, j);
      } else {
        NoneStep(s, e, scan[..], eof[..], d, order, j);
      }
    }

    /** One round of the loop; `found` when a unique lookup has ended it. */
    method Round(order: seq<nat>, j: nat, min: int, d: Direction, ghost s0: seq<Cursor>, ghost e0: seq<bool>,
                 ghost cuts: bool)
      returns (next: int, found: bool)
      requires Valid() && IsOrder(order) && j < 3 && Streams(s0, e0)
      requires Halfway(s0, e0, scan[..], eof[..], d, order, uniqueLookup, cuts, j, min)
      modifies scan, eof
      ensures Valid()
      ensures InLoop(s0, e0, scan[..], eof[..], d, order, uniqueLookup, cuts, j + 1, next, found)
    {
      var i := order[j];
      next, found := min, false;
      if !eof[i] && !scan[i].valid && uniqueLookup {
        found := LookUnique(order, j, d);
        if found { next := i; }
      } else {
        ghost var s, e := scan[..], eof[..];
        SeenNext(order, j);
        next := Look(i, min, d, Seen(order, j));
        ChoseStep(s0, e0, s, e, scan[..], eof[..], d, order, j, next);
      }
    }

    /**
     The loop over the three streams. A unique lookup that has not looked anywhere yet stops at the
     first stream that has a tuple.
     */
    method Select(order: seq<nat>, d: Direction) returns (min: int)
      requires Valid() && IsOrder(order) && (uniqueLookup ==> Cuts() || Positioned())
      modifies scan, eof
      ensures Valid()
      ensures Selected(old(scan[..]), old(eof[..]), scan[..], eof[..], d, order, old(Cuts()), min)
    {
      min := -1;
      var j, found := 0, false;
      ghost var s0, e0, cuts := scan[..], eof[..], Cuts();
      SelectStarts(s0, e0, d, order, uniqueLookup, cuts);
      while j < 3 && !found
        invariant 0 <= j <= 3 && Valid()
        invariant InLoop(s0, e0, scan[..], eof[..], d, order, uniqueLookup, cuts, j, min, found)
        decreases 3 - j
      {
        min, found := Round(order, j, min, d, s0, e0, cuts);
        j := j + 1;
      }
      SelectEnds(s0, e0, scan[..], eof[..], d, order, uniqueLookup, cuts, j, min, found);
    }

    /** Moves past the tuple handed out last, if there is one, in the direction of the call. */
    method Advance(d: Direction)
      requires Valid() && Ready()
      modifies scan, eof
      ensures Valid() && SameTuples(old(scan[..]), scan[..])
      ensures All(scan[..], eof[..], d) == old(Coming(d))
      ensures Count(scan[..], eof[..], d) == old(Left(d))
      ensures curr >= 0 ==> Positioned()
      ensures curr < 0 ==> scan[..] == old(scan[..]) && eof[..] == old(eof[..])
      ensures old(curr >= 0 && Alone(scan[..], eof[..], curr)) ==> forall i :: 0 <= i < 3 && i != curr ==> eof[i]
    {
      if curr >= 0 { Move(curr, d); }
    }

    /** The tuples from which the next one is taken. */
    ghost function Due(order: seq<nat>, d: Direction): set<Tuple>
      reads this, scan, eof
      requires Valid() && Ready() && IsOrder(order)
    {
      if uniqueLookup && Fresh() then Sole(scan[..], order) else Coming(d)
    }

    /**
     Hands out the next tuple, looking at the three streams in any order and going in either
     direction. In a full scan, or once a unique lookup has its stream, that is the first of the
     tuples still to come that way; None when there is none.
     */
    method GetTuple(order: seq<nat>, d: Direction) returns (result: Option<Tuple>)
      requires Valid() && Ready() && IsOrder(order)
      modifies this, scan, eof
      ensures Valid() && SameTuples(old(scan[..]), scan[..])
      ensures result.Some? || old(curr) < 0 ==> Ready()
      ensures result.Some? ==> curr >= 0 && Facing(d) && result.value == Head(scan[..], curr)
      ensures Takes(d, old(Due(order, d)), result, if result.Some? then Coming(d) else {})
      ensures !old(uniqueLookup && Fresh()) && result.Some? ==> Left(d) < old(Left(d))
      ensures result.Some? && old(uniqueLookup && Fresh()) ==> Alone(scan[..], eof[..], curr)
      // not turned, it finds the next tuple of the union
      ensures result.Some? && old(!uniqueLookup && Fresh()) ==> Covers(scan[..], eof[..], d, curr)
      ensures old(curr >= 0 && Facing(d) && Covers(scan[..], eof[..], d, curr)) ==>
        old(Finds(scan[..], d, curr, result)) && (result.Some? ==> Covers(scan[..], eof[..], d, curr))
      // turned around, it does so exactly when it is alone in front and its neighbour is that tuple
      ensures old(curr >= 0 && Facing(Opposite(d))) ==>
        (old(Finds(scan[..], d, curr, result)) <==> old(TurnsWell(scan[..], eof[..], d, curr)))
      // alone, it goes to and fro in its own index; it is alone from the start if nothing matches elsewhere
      ensures old(curr >= 0 && Alone(scan[..], eof[..], curr)) ==>
        && IsNext(d, old(Elements(scan[curr].tuples)), old(Head(scan[..], curr)), result)
        && (result.Some? ==> Alone(scan[..], eof[..], curr) && curr == old(curr))
      ensures result.Some? && (forall i :: 0 <= i < 3 && i != curr ==> scan[i].tuples == []) ==>
        Alone(scan[..], eof[..], curr)
    {
      ghost var s, e, was, full := scan[..], eof[..], curr, !uniqueLookup && Fresh();
      if full { FreshAll(s, e, d); }
      result := Next(order, d);
      assert Everything(scan[..]) == Everything(s);
      if was >= 0 { Judged(s, e, d, was, result, if result.Some? then Coming(d) else {}); }
      if full && result.Some? { FirstCovers(scan[..], eof[..], d, curr, Everything(s)); }
      if result.Some? && forall i :: 0 <= i < 3 && i != curr ==> scan[i].tuples == [] {
        EmptyEnded(scan[..], eof[..], d, curr);
      }
    }

    method Choose(order: seq<nat>, d: Direction) returns (min: int)
      requires Valid() && Ready() && IsOrder(order)
      modifies scan, eof
      ensures Valid() && SameTuples(old(scan[..]), scan[..]) && min < 3
      ensures min >= 0 ==> Chosen(scan[..], eof[..], d, {0, 1, 2}, min)
      ensures min >= 0 ==> All(scan[..], eof[..], d) == old(Due(order, d))
      ensures min < 0 ==> old(Due(order, d)) == {}
      ensures min < 0 && curr < 0 ==> Empty()
      ensures !old(uniqueLookup && Fresh()) ==> Count(scan[..], eof[..], d) <= old(Left(d))
      ensures min >= 0 && old(uniqueLookup && Fresh()) ==> Alone(scan[..], eof[..], min)
      ensures min >= 0 && curr >= 0 && old(Alone(scan[..], eof[..], curr)) ==>
        min == curr && Alone(scan[..], eof[..], min)
    {
      ghost var cuts, alone := uniqueLookup && Fresh(), curr >= 0 && Alone(scan[..], eof[..], curr);
      Advance(d);
      ghost var s, e := scan[..], eof[..];
      assert Cuts() == cuts;
      min := Select(order, d);
      if cuts {
        SelectedSole(s, e, scan[..], eof[..], d, order, min);
        CutAlone(s, e, scan[..], eof[..], d, order, min);
      } else {
        SelectedFull(s, e, scan[..], eof[..], d, order, min);
        if min < 0 && curr < 0 { NoneFirst(s, e, scan[..], eof[..], d, order, min); }
        if alone { StaysAlone(s, e, scan[..], eof[..], d, order, curr, min); }
      }
    }

    /** The call itself: advance, choose, hand out. */
    method Next(order: seq<nat>, d: Direction) returns (result: Option<Tuple>)
      requires Valid() && Ready() && IsOrder(order)
      modifies this, scan, eof
      ensures Valid() && SameTuples(old(scan[..]), scan[..])
      ensures result.Some? || old(curr) < 0 ==> Ready()
      ensures result.Some? ==> curr >= 0 && Facing(d) && result.value == Head(scan[..], curr)
      ensures Takes(d, old(Due(order, d)), result, if result.Some? then Coming(d) else {})
      ensures !old(uniqueLookup && Fresh()) && result.Some? ==> Left(d) < old(Left(d))
      ensures result.Some? && old(uniqueLookup && Fresh()) ==> Alone(scan[..], eof[..], curr)
      ensures result.Some? && old(curr >= 0 && Alone(scan[..], eof[..], curr)) ==>
        Alone(scan[..], eof[..], curr) && curr == old(curr)
    {
      var min := Choose(order, d);
      result := Pick(min, d);
    }

    /** Hands out the head of the chosen stream. */
    method Pick(min: int, d: Direction) returns (result: Option<Tuple>)
      requires Valid() && min < 3
      requires min >= 0 ==> Chosen(scan[..], eof[..], d, {0, 1, 2}, min)
      modifies this`curr
      ensures result.None? <==> min < 0
      ensures curr == if min < 0 then old(curr) else min
      ensures result.Some? ==> Ready() && Facing(d) && result.value == Head(scan[..], curr)
      ensures result.Some? ==> Takes(d, All(scan[..], eof[..], d), result, Coming(d))
      ensures result.Some? ==> Left(d) < Count(scan[..], eof[..], d)
    {
      if min < 0 { return None; }
      ChosenTakes(scan[..], eof[..], d, min);
      result := Some(Head(scan[..], min));
      curr := min;
      OnwardAfter(scan[..], eof[..], d, min);
      assert 0 in {0, 1, 2} && 1 in {0, 1, 2} && 2 in {0, 1, 2};
    }

    /** Reads the scan to its end; the visiting order may differ from call to call. */
    method ReadAll(orders: nat -> seq<nat>, d: Direction) returns (out: seq<Tuple>)
      requires Valid() && Fresh() && forall n :: IsOrder(orders(n))
      modifies this, scan, eof
      ensures Ordered(d, out) && forall t :: t in out ==> |t.cols| == columns
      ensures Elements(out) == if uniqueLookup then Sole(old(scan[..]), orders(0)) else Everything(old(scan[..]))
      // neighbours rise (or fall) from the first column that differs, or else in the TID
      ensures forall i, c :: 0 <= i < |out| - 1 && 0 <= c < columns && out[i].cols[..c] == out[i + 1].cols[..c] ==>
        if d == Forward then out[i].cols[c] <= out[i + 1].cols[c] else out[i].cols[c] >= out[i + 1].cols[c]
      ensures forall i :: 0 <= i < |out| - 1 && out[i].cols == out[i + 1].cols ==>
        if d == Forward then out[i].tid < out[i + 1].tid else out[i].tid > out[i + 1].tid
    {
      ghost var s := scan[..];
      FreshAll(scan[..], eof[..], d);
      ghost var target := Due(orders(0), d);
      var next := GetTuple(orders(0), d);
      ghost var left := if next.Some? then Coming(d) else {};
      SoFarStart(d, next, left, target);
      out := ReadOn(orders, d, next, left, target);
      SoleWithin(s, orders(0));
      OutputWide(s, columns, out);
      NeighboursRise(d, columns, out);
    }

    method ReadOn(orders: nat -> seq<nat>, d: Direction, first: Option<Tuple>, ghost due: set<Tuple>,
                  ghost target: set<Tuple>)
      returns (out: seq<Tuple>)
      requires Valid() && forall n :: IsOrder(orders(n))
      requires first.Some? ==> Ready() && curr >= 0 && Coming(d) == due
      requires SoFar(d, [], first, due, target)
      modifies this, scan, eof
      ensures Ordered(d, out) && Elements(out) == target
    {
      var n, next := 1, first;
      ghost var left := due;
      out := [];
      while next.Some?
        invariant Valid() && SameTuples(old(scan[..]), scan[..])
        invariant next.Some? ==> Ready() && curr >= 0 && Coming(d) == left
        invariant SoFar(d, out, next, left, target)
        decreases |left|, next.Some?
      {
        ghost var before, was, dueNow := out, next.value, left;
        out := out + [next.value];
        next := GetTuple(orders(n), d);
        left := if next.Some? then Coming(d) else {};
        SoFarStep(d, before, was, dueNow, next, left, target);
        n := n + 1;
      }
    }

    /** Collects the TIDs of all three streams; the count may count a tuple in two indexes twice. */
    method GetBitmap() returns (tids: set<int>, ntids: nat)
      requires Valid()
      ensures tids == Tids(Everything(scan[..]))
      ensures forall i, t :: 0 <= i < 3 && t in scan[i].tuples ==> t.tid in tids
      ensures forall x :: x in tids ==> exists t :: t in scan[0].tuples + scan[1].tuples + scan[2].tuples && t.tid == x
      ensures ntids == |scan[0].tuples| + |scan[1].tuples| + |scan[2].tuples|
    {
      tids, ntids := {}, 0;
      var i := 0;
      while i < 3
        invariant 0 <= i <= 3
        invariant tids == Tids((if i > 0 then Elements(scan[0].tuples) else {})
                             + (if i > 1 then Elements(scan[1].tuples) else {})
                             + (if i > 2 then Elements(scan[2].tuples) else {}))
        invariant ntids == (if i > 0 then |scan[0].tuples| else 0) + (if i > 1 then |scan[1].tuples| else 0)
                         + if i > 2 then |scan[2].tuples| else 0
      {
        tids := tids + set t | t in scan[i].tuples :: t.tid;
        ntids := ntids + |scan[i].tuples|;
        i := i + 1;
      }
    }
  }

  /** Both ways of reading an index: they meet the same heap tuples, and copies are all they differ in. */
  method ReadBoth(scan: Scan, orders: nat -> seq<nat>, d: Direction)
    returns (out: seq<Tuple>, tids: set<int>, ntids: nat)
    requires scan.Valid() && scan.Fresh() && !scan.uniqueLookup && forall n :: IsOrder(orders(n))
    modifies scan, scan.scan, scan.eof
    ensures Tids(Elements(out)) == tids && |out| <= ntids
    ensures |out| == ntids <==> NoCopies(old(scan.scan[..]))
  {
    tids, ntids := scan.GetBitmap();
    ghost var s := scan.scan[..];
    out := scan.ReadAll(orders, d);
    BitmapAgrees(s, d, out);
  }

  /** No tuple is in two of the indexes. */
  ghost predicate NoCopies(scan: seq<Cursor>)
    requires |scan| == 3
  {
    var a, b, c := Elements(scan[0].tuples), Elements(scan[1].tuples), Elements(scan[2].tuples);
    a !! b && a !! c && b !! c
  }

  lemma {:induction false} OrderedSize(d: Direction, s: seq<Tuple>)
    requires Ordered(d, s)
    ensures |Elements(s)| == |s|
  {
    if s != [] {
      OrderedTail(d, s);
      ElementsTail(s);
      OrderedSize(d, s[1..]);
      assert s[0] !in Elements(s[1..]);
    } else {
      assert Elements(s) == {};
    }
  }

  /** A full scan hands out at most as many tuples as the bitmap counts, and as many when there are no copies. */
  lemma BitmapAgrees(scan: seq<Cursor>, d: Direction, out: seq<Tuple>)
    requires |scan| == 3 && forall i :: 0 <= i < 3 ==> Ordered(Forward, scan[i].tuples)
    requires Ordered(d, out) && Elements(out) == Everything(scan)
    ensures |out| <= |scan[0].tuples| + |scan[1].tuples| + |scan[2].tuples|
    ensures |out| == |scan[0].tuples| + |scan[1].tuples| + |scan[2].tuples| <==> NoCopies(scan)
  {
    OrderedSize(d, out);
    OrderedSize(Forward, scan[0].tuples);
    OrderedSize(Forward, scan[1].tuples);
    OrderedSize(Forward, scan[2].tuples);
    UnionSize(Elements(scan[0].tuples), Elements(scan[1].tuples), Elements(scan[2].tuples));
  }

  lemma UnionSize(a: set<Tuple>, b: set<Tuple>, c: set<Tuple>)
    ensures |a + b + c| <= |a| + |b| + |c|
    ensures |a + b + c| == |a| + |b| + |c| <==> a !! b && a !! c && b !! c
  {
    PairSize(a, b);
    PairSize(a + b, c);
  }

  lemma PairSize(a: set<Tuple>, b: set<Tuple>)
    ensures |a + b| == |a| + |b| - |a * b|
    ensures |a + b| == |a| + |b| <==> a !! b
  {
    assert |a + b| == |a| + |b| - |a * b|;
    if a * b == {} {
      forall t | t in a ensures t !in b { assert t !in a * b; }
    } else {
      var t :| t in a * b;
      assert t in a && t in b;
    }
  }

  lemma OutputWide(scan: seq<Cursor>, n: nat, out: seq<Tuple>)
    requires |scan| == 3 && SameColumns(scan, n) && Elements(out) <= Everything(scan)
    ensures forall t :: t in out ==> |t.cols| == n
  {
    forall t | t in out ensures |t.cols| == n { assert t in Everything(scan); }
  }

  /** Neighbours in an ordered output, column by column. */
  lemma NeighboursRise(d: Direction, n: nat, out: seq<Tuple>)
    requires Ordered(d, out) && forall t :: t in out ==> |t.cols| == n
    ensures forall i, c :: 0 <= i < |out| - 1 && 0 <= c < n && out[i].cols[..c] == out[i + 1].cols[..c] ==>
      if d == Forward then out[i].cols[c] <= out[i + 1].cols[c] else out[i].cols[c] >= out[i + 1].cols[c]
    ensures forall i :: 0 <= i < |out| - 1 && out[i].cols == out[i + 1].cols ==>
      if d == Forward then out[i].tid < out[i + 1].tid else out[i].tid > out[i + 1].tid
  {
    forall i | 0 <= i < |out| - 1
      ensures out[i].cols == out[i + 1].cols ==>
        if d == Forward then out[i].tid < out[i + 1].tid else out[i].tid > out[i + 1].tid
      ensures forall c :: 0 <= c < n && out[i].cols[..c] == out[i + 1].cols[..c] ==>
        if d == Forward then out[i].cols[c] <= out[i + 1].cols[c] else out[i].cols[c] >= out[i + 1].cols[c]
    {
      assert Before(d, out[i], out[i + 1]);
      if d == Forward { LessColumns(out[i], out[i + 1]); } else { LessColumns(out[i + 1], out[i]); }
    }
  }

  lemma SoleWithin(scan: seq<Cursor>, order: seq<nat>)
    requires |scan| == 3 && IsOrder(order)
    ensures Sole(scan, order) <= Everything(scan)
    ensures Everything(scan) != {} ==> Sole(scan, order) != {}
  {
    var i := FirstNonEmpty(scan, order);
    if i < 0 {
      assert scan[order[0]].tuples == [] && scan[order[1]].tuples == [] && scan[order[2]].tuples == [];
    } else {
      assert scan[i].tuples[0] in Elements(scan[i].tuples);
    }
  }

  lemma Singleton(s: set<Tuple>, t: Tuple)
    requires |s| <= 1 && t in s
    ensures s == {t}
  {
    assert |s - {t}| == 0;
  }

  /**
   The shortcut of a unique lookup gives the full scan's output exactly when the first index with
   a match holds every match.
   */
  lemma ShortcutExact(scan: seq<Cursor>, order: seq<nat>, d: Direction, full: seq<Tuple>, cut: seq<Tuple>)
    requires |scan| == 3 && IsOrder(order)
    requires Ordered(d, full) && Elements(full) == Everything(scan)
    requires Ordered(d, cut) && Elements(cut) == Sole(scan, order)
    ensures cut == full <==> Everything(scan) <= Sole(scan, order)
    ensures |Everything(scan)| <= 1 ==> cut == full
  {
    SoleWithin(scan, order);
    if Everything(scan) <= Sole(scan, order) { OrderedUnique(d, cut, full); }
    if |Everything(scan)| <= 1 {
      if Everything(scan) != {} {
        var t :| t in Sole(scan, order);
        assert {t} <= Everything(scan);
        Singleton(Everything(scan), t);
      }
      OrderedUnique(d, cut, full);
    }
  }

  // Turning in mid-scan

  function One(n: int): Tuple { Tuple([n], 0) }

  function Order(): (order: seq<nat>)
    ensures IsOrder(order)
  {
    [0, 1, 2]
  }

  lemma OneBefore()
    ensures Less(One(1), One(2)) && Less(One(1), One(3)) && Less(One(2), One(3))
  {
  }

  /** After the first call both streams are at their first tuple; turned, only the one with 2 has any left. */
  lemma OneHandedOut(s: seq<Cursor>, e: seq<bool>, curr: nat)
    requires Streams(s, e) && curr < 3 && Chosen(s, e, Forward, {0, 1, 2}, curr) && Head(s, curr) == One(1)
    requires s[0].tuples == [One(1), One(3)] && s[1].tuples == [One(2)] && s[2].tuples == []
    requires One(2) in Onward(s, e, Forward, curr)
    ensures curr == 0 && Onward(s, e, Backward, curr) == {One(2)}
  {
    assert s[0].pos == 0 && e[2] && 1 in {0, 1, 2} && 2 in {0, 1, 2};
    MovedDrops(s, e, Forward, curr);
    MovedDrops(s, e, Backward, curr);
    var (s1, e1) := Moved(s, e, Backward, curr);
    var (s2, e2) := Moved(s, e, Forward, curr);
    assert Rest(s2, e2, Forward, 0) == [One(3)] && Rest(s2, e2, Forward, 2) == [];
    assert One(2) in Rest(s2, e2, Forward, 1);
    assert Rest(s1, e1, Backward, 1) == [One(2)];
    assert Elements([One(2)]) == {One(2)};
  }

  /** Two indexes hold 1, 3 and 2; the scan has handed out 1 going forward. */
  method HandOutOne() returns (scan: Scan, first: Option<Tuple>)
    ensures fresh(scan) && fresh(scan.scan) && fresh(scan.eof) && scan.Valid() && scan.Ready() && !scan.uniqueLookup
    ensures first == Some(One(1)) && scan.curr >= 0 && scan.Due(Order(), Backward) == {One(2)}
  {
    OneBefore();
    scan := new Scan([One(1), One(3)], [One(2)], [], 1, false);
    FreshAll(scan.scan[..], scan.eof[..], Forward);
    assert Everything(scan.scan[..]) == {One(1), One(2), One(3)};
    first := scan.GetTuple(Order(), Forward);
    OneHandedOut(scan.scan[..], scan.eof[..], scan.curr);
  }

  /** Turned around there, it hands out 2, though nothing lies behind 1. */
  method TurnGoesWrong() returns (first: Option<Tuple>, second: Option<Tuple>)
    ensures first == Some(One(1)) && second == Some(One(2))
    ensures !IsNext(Backward, {One(1), One(2), One(3)}, One(1), second)
  {
    OneBefore();
    var scan;
    scan, first := HandOutOne();
    second := scan.GetTuple(Order(), Backward);
    BeforeIrreflexive(Forward, One(1), One(2));
  }
}
