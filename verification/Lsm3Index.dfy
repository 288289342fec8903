/**
 One lsm3 index run in place: two top indexes, the base, and the shared entry. Inserts and the
 merger's round are proved to take steps of `Lsm3Protocol`, and a scan of the three indexes to
 meet every tuple the protocol accounts for.
 */
module Lsm3Index {
  import opened Lsm3Control
  import opened Lsm3Order
  import opened Lsm3Protocol
  import Lsm3Cursors
  import Lsm3Scan

  /** A B-tree as the sequence of its tuples: where a new one goes. One that is there already stays single. */
  function Placed(s: seq<Tuple>, t: Tuple): seq<Tuple> {
    if s == [] || Less(t, s[0]) then [t] + s
    else if s[0] == t then s
    else [s[0]] + Placed(s[1..], t)
  }

  ghost predicate Wide(s: seq<Tuple>, columns: nat) {
    forall t :: t in s ==> |t.cols| == columns
  }

  lemma {:induction false} PlacedElements(s: seq<Tuple>, t: Tuple)
    ensures Elements(Placed(s, t)) == Elements(s) + {t}
  {
    if s == [] || Less(t, s[0]) {
      ElementsTail([t] + s);
      assert ([t] + s)[1..] == s;
    } else if s[0] == t {
      assert t in s;
    } else {
      PlacedElements(s[1..], t);
      var r := Placed(s, t);
      assert r[1..] == Placed(s[1..], t);
      ElementsTail(r);
      ElementsTail(s);
    }
  }

  lemma OrderedCons(t: Tuple, s: seq<Tuple>)
    requires Ordered(Forward, s) && AllAfter(Forward, t, s)
    ensures Ordered(Forward, [t] + s)
  {
    forall i, j | 0 <= i < j < |[t] + s| ensures Before(Forward, ([t] + s)[i], ([t] + s)[j]) {
      if i == 0 { assert s[j - 1] in s; }
    }
  }

  /** Storing a tuple keeps the index in strict order. */
  lemma {:induction false} PlacedOrdered(s: seq<Tuple>, t: Tuple, columns: nat)
    requires Ordered(Forward, s) && Wide(s, columns) && |t.cols| == columns
    ensures Ordered(Forward, Placed(s, t)) && Wide(Placed(s, t), columns)
  {
    PlacedElements(s, t);
    assert forall x :: x in Placed(s, t) ==> x in Elements(Placed(s, t));
    if s != [] { OrderedTail(Forward, s); }
    if s == [] {
    } else if Less(t, s[0]) {
      AllAfterFrom(Forward, t, s[0], s[1..]);
      assert forall x :: x in s ==> x == s[0] || x in s[1..];
      OrderedCons(t, s);
    } else if s[0] != t {
      assert s[0] in s;
      LessTotal(t, s[0]);
      PlacedOrdered(s[1..], t, columns);
      PlacedElements(s[1..], t);
      assert forall x :: x in Placed(s[1..], t) ==> x in Elements(Placed(s[1..], t));
      OrderedCons(s[0], Placed(s[1..], t));
    }
  }

  /** Distinct tuples before position i, the next one not among them. */
  lemma CopiedSoFar(s: seq<Tuple>, i: nat)
    requires Ordered(Forward, s) && i < |s|
    ensures s[i] in Elements(s) && s[i] !in Elements(s[..i])
    ensures Elements(s[..i + 1]) == Elements(s[..i]) + {s[i]}
  {
    if s[i] in s[..i] {
      var j :| 0 <= j < i && s[j] == s[i];
      BeforeIrreflexive(Forward, s[j], s[i]);
    }
    assert s[..i + 1] == s[..i] + [s[i]];
  }

  lemma NextCopy(st: State, s: seq<Tuple>, i: nat, m: nat)
    requires Ordered(Forward, s) && i < |s| && st.Shaped() && m < 2 && st.top[m] == Elements(s)
    requires st.merger == Copying(m, Elements(s[..i]))
    ensures Enabled(st, CopyOne(s[i])) && Elements(s[..i]) + {s[i]} == Elements(s[..i + 1])
  {
    CopiedSoFar(s, i);
  }

  /** The tuples with this key. */
  function Matches(s: seq<Tuple>, key: seq<int>): set<Tuple> {
    set t | t in s && t.cols == key
  }

  /** And what a B-tree scan for the key meets. */
  function Matching(s: seq<Tuple>, key: seq<int>): seq<Tuple> {
    if s == [] then [] else (if s[0].cols == key then [s[0]] else []) + Matching(s[1..], key)
  }

  lemma {:induction false} MatchingIn(s: seq<Tuple>, key: seq<int>, t: Tuple)
    ensures t in Matching(s, key) <==> t in s && t.cols == key
  {
    if s != [] { MatchingIn(s[1..], key, t); }
  }

  lemma {:induction false} MatchingOrdered(s: seq<Tuple>, key: seq<int>)
    requires Ordered(Forward, s)
    ensures Ordered(Forward, Matching(s, key))
  {
    if s != [] {
      OrderedTail(Forward, s);
      MatchingOrdered(s[1..], key);
      var rest := Matching(s[1..], key);
      if s[0].cols == key {
        forall t | t in rest ensures Less(s[0], t) { MatchingIn(s[1..], key, t); }
        OrderedCons(s[0], rest);
      } else {
        assert [] + rest == rest;
      }
    }
  }

  lemma MatchingOk(s: seq<Tuple>, key: seq<int>, columns: nat)
    requires Ordered(Forward, s) && Wide(s, columns)
    ensures Ordered(Forward, Matching(s, key)) && Wide(Matching(s, key), columns)
    ensures Elements(Matching(s, key)) == Matches(s, key)
    ensures Matching(s, key) == [] <==> Matches(s, key) == {}
  {
    MatchingOrdered(s, key);
    forall t ensures t in Matching(s, key) <==> t in Matches(s, key) { MatchingIn(s, key, t); }
    assert Matching(s, key) == [] || Matching(s, key)[0] in Matching(s, key);
  }

  /** The protocol's first state over these contents. */
  ghost function Opened(c: Control, top0: set<Tuple>, top1: set<Tuple>, base: set<Tuple>): State {
    State(c, [top0, top1], base, map[], Waiting, top0 + top1 + base, {}, 0, 0)
  }

  class Index {
    const entry: SharedEntry
    const top: array<seq<Tuple>>
    const columns: nat
    var base: seq<Tuple>

    ghost predicate Tree(s: seq<Tuple>) {
      Ordered(Forward, s) && Wide(s, columns)
    }

    ghost predicate Valid()
      reads this, entry, entry.access, top
    {
      entry.Valid() && top.Length == 2 && Tree(top[0]) && Tree(top[1]) && Tree(base)
    }

    /** The protocol's state is what this index holds. */
    ghost predicate Shows(st: State)
      reads this, entry, entry.access, top
      requires Valid()
    {
      && st.control == entry.View()
      && st.top == [Elements(top[0]), Elements(top[1])] && st.base == Elements(base)
    }

    /** After a start: the indexes as found, either top index may hold tuples. */
    constructor (top0: seq<Tuple>, top1: seq<Tuple>, base: seq<Tuple>, columns: nat, size0: nat, size1: nat)
      requires Ordered(Forward, top0) && Wide(top0, columns)
      requires Ordered(Forward, top1) && Wide(top1, columns)
      requires Ordered(Forward, base) && Wide(base, columns)
      ensures Valid() && fresh(entry) && fresh(entry.access) && fresh(top)
      ensures top[0] == top0 && top[1] == top1 && this.base == base && this.columns == columns
      ensures Shows(Opened(entry.View(), Elements(top0), Elements(top1), Elements(base)))
      ensures Init(Opened(entry.View(), Elements(top0), Elements(top1), Elements(base)))
    {
      entry := new SharedEntry(size0, size1);
      top := new seq<Tuple>[2](i => if i == 0 then top0 else top1);
      this.base, this.columns := base, columns;
    }

    method Btinsert(i: nat, t: Tuple)
      requires Valid() && i < 2 && |t.cols| == columns
      modifies top
      ensures Valid() && Elements(top[i]) == old(Elements(top[i])) + {t}
      ensures top[1 - i] == old(top[1 - i])
    {
      PlacedOrdered(top[i], t, columns);
      PlacedElements(top[i], t);
      top[i] := Placed(top[i], t);
    }

    /**
     A whole insert, run alone, takes the protocol's three steps of an insert. It finds its index
     overflowing only when no merge is on, at every 65536th insert, and swaps the indexes then; the
     merge starts at once unless other inserts are on that index.
     */
    method Insert(t: Tuple, blocks: nat, topIndexSize: nat, ghost st: State, ghost id: nat)
      returns (ghost after: State, ghost overflow: bool)
      requires Valid() && |t.cols| == columns && Shows(st) && id !in st.inserts
      modifies entry, entry.access, top
      ensures Valid() && Shows(after)
      ensures overflow <==>
        !old(entry.inProgress) && old(entry.nInserts) % (64 * 1024) == 0 && blocks * 8 > topIndexSize
      ensures entry.active == if overflow then 1 - old(entry.active) else old(entry.active)
      ensures entry.inProgress == (overflow || old(entry.inProgress))
      ensures entry.nMerges == (old(entry.nMerges) + if overflow then 1 else 0) % 0x1_0000_0000_0000_0000
      ensures entry.nInserts == (old(entry.nInserts) + 1) % 0x1_0000_0000_0000_0000
      ensures entry.access[..] == old(entry.access[..])
      ensures entry.startMerge == (old(entry.startMerge) || (overflow && old(entry.access[entry.active]) == 0))
      ensures Elements(top[old(entry.active)]) == old(Elements(top[entry.active])) + {t}
      ensures top[1 - old(entry.active)] == old(top[1 - entry.active])
      ensures Path(st, [Lsm3Protocol.Enter(id, t), StoreTuple(id), Lsm3Protocol.Leave(id, overflow)], after)
    {
      var active, merges := entry.Enter();
      ghost var s1 := Do(st, Lsm3Protocol.Enter(id, t));
      Btinsert(active, t);
      ghost var s2 := Do(s1, StoreTuple(id));
      assert Shows(s2);
      var grown := entry.Overflows(blocks, topIndexSize);
      entry.Leave(active, merges, grown);
      overflow := grown;
      after := Do(s2, Lsm3Protocol.Leave(id, overflow));
      PathThree(st, Lsm3Protocol.Enter(id, t), StoreTuple(id), Lsm3Protocol.Leave(id, overflow));
    }

    method StartMerge(ghost st: State)
      requires Valid() && Shows(st)
      modifies entry
      ensures Valid() && st.Shaped() && Shows(Do(st, Request))
      ensures entry.inProgress
      ensures entry.active == if old(entry.inProgress) then old(entry.active) else 1 - old(entry.active)
    {
      entry.RequestMerge();
    }

    /** Copies one tuple of the index being merged. */
    method CopyTuple(t: Tuple, ghost st: State, ghost done: seq<Step>, ghost start: State)
      returns (ghost after: State, ghost steps: seq<Step>)
      requires Valid() && |t.cols| == columns && Shows(st) && Enabled(st, CopyOne(t)) && Path(start, done, st)
      modifies this`base
      ensures Valid() && Shows(after) && Path(start, steps, after)
      ensures after == st.(base := Elements(base), merger := Copying(st.merger.index, st.merger.copied + {t}))
      ensures Elements(base) == old(Elements(base)) + {t}
    {
      PlacedOrdered(base, t, columns);
      PlacedElements(base, t);
      PathThen(start, done, st, CopyOne(t));
      after, steps := Do(st, CopyOne(t)), done + [CopyOne(t)];
      base := Placed(base, t);
    }

    /** Copies every tuple of a top index into the base, one protocol step each. */
    method MergeIndexes(m: nat, ghost st: State, ghost done: seq<Step>, ghost start: State)
      returns (ghost after: State, ghost steps: seq<Step>)
      requires Valid() && m < 2 && Shows(st) && st.merger == Copying(m, {}) && Path(start, done, st)
      modifies this`base
      ensures Valid() && Shows(after) && Path(start, steps, after)
      ensures after.merger == Copying(m, Elements(top[m])) && after.control == st.control && after.inserts == st.inserts
      ensures Elements(base) == old(Elements(base)) + Elements(top[m])
    {
      var i := 0;
      after, steps := st, done;
      while i < |top[m]|
        invariant 0 <= i <= |top[m]|
        invariant Valid() && Shows(after) && Path(start, steps, after)
        invariant after == st.(base := Elements(base), merger := Copying(m, Elements(top[m][..i])))
        invariant Elements(base) == old(Elements(base)) + Elements(top[m][..i])
      {
        NextCopy(after, top[m], i, m);
        assert |top[m][i].cols| == columns;
        after, steps := CopyTuple(top[m][i], after, steps, start);
        i := i + 1;
      }
      assert top[m][..|top[m]|] == top[m];
    }

    method TruncateIndex(m: nat)
      requires Valid() && m < 2
      modifies top
      ensures Valid() && top[m] == [] && Elements(top[m]) == {} && top[1 - m] == old(top[1 - m])
    {
      top[m] := [];
    }

    /** The merge proper: copy, truncate, mark done. */
    method MergeAndTruncate(m: nat, ghost st: State, ghost done: seq<Step>, ghost start: State)
      returns (ghost after: State, ghost steps: seq<Step>)
      requires Valid() && m < 2 && Shows(st) && st.merger == Copying(m, {}) && Path(start, done, st)
      modifies this`base, top, entry`inProgress
      ensures Valid() && Shows(after) && Path(start, steps, after) && after.merger == Waiting
      ensures top[m] == [] && top[1 - m] == old(top[1 - m]) && !entry.inProgress
      ensures Elements(base) == old(Elements(base)) + old(Elements(top[m]))
    {
      after, steps := MergeIndexes(m, st, done, start);
      PathThen(start, steps, after, EndCopy);
      after, steps := Do(after, EndCopy), steps + [EndCopy];
      TruncateIndex(m);
      PathThen(start, steps, after, Truncate);
      after, steps := Do(after, Truncate), steps + [Truncate];
      assert after.top == [Elements(top[0]), Elements(top[1])];
      entry.MarkDone();
      PathThen(start, steps, after, Finish);
      after, steps := Do(after, Finish), steps + [Finish];
    }

    /**
     One round of the merger, run alone and with its latch raised: it takes the protocol's steps,
     and a merge that was due ends with the merged index's tuples in the base and the index empty.
     */
    method MergerRound(ghost st: State) returns (ghost after: State, ghost steps: seq<Step>)
      requires Valid() && Shows(st) && st.merger == Waiting && entry.latch
      modifies this`base, top, entry
      ensures Valid() && Shows(after) && Path(st, steps, after) && after.merger == Waiting
      ensures entry.active == old(entry.active)
      ensures !old(entry.startMerge) ==> base == old(base) && top[..] == old(top[..])
      ensures old(entry.startMerge) ==> Merged(old(top[..]), old(base), 1 - entry.active) && !entry.inProgress
    {
      entry.ResetLatch();
      var mergeIndex := entry.CheckRequest();
      PathThree(st, Wake, Reset, Check);
      after, steps := Do(Do(Do(st, Wake), Reset), Check), [Wake, Reset, Check];
      if mergeIndex >= 0 {
        after, steps := MergeAndTruncate(mergeIndex, after, steps, st);
      }
    }

    /** Index m has gone into the base, the other one is as it was. */
    ghost predicate Merged(oldTop: seq<seq<Tuple>>, oldBase: seq<Tuple>, m: int)
      reads this, top
    {
      && |oldTop| == top.Length == 2 && 0 <= m < 2
      && top[m] == [] && top[1 - m] == oldTop[1 - m]
      && Elements(base) == Elements(oldBase) + Elements(oldTop[m])
    }

    /**
     A unique lookup looks at the active top index first: what it hands out are the matches there,
     if there are any, else those in the other top index, else those in the base.
     */
    method LookupUnique(key: seq<int>, d: Direction) returns (out: seq<Tuple>)
      requires Valid()
      ensures Ordered(d, out)
      ensures Elements(out) ==
        if Matches(top[entry.active], key) != {} then Matches(top[entry.active], key)
        else if Matches(top[1 - entry.active], key) != {} then Matches(top[1 - entry.active], key)
        else Matches(base, key)
    {
      MatchingOk(top[0], key, columns);
      MatchingOk(top[1], key, columns);
      MatchingOk(base, key, columns);
      var m0, m1, m2 := Matching(top[0], key), Matching(top[1], key), Matching(base, key);
      var scan := new Lsm3Scan.Scan(m0, m1, m2, columns, true);
      var order := Lsm3Cursors.VisitingOrder(entry.active);
      ghost var s := scan.scan[..];
      out := scan.ReadAll(_ => order, d);
      assert Elements(out) == Lsm3Cursors.Sole(s, order);
    }

    /** A full scan hands out every tuple the protocol accounts for, in order. */
    method ScanAll(d: Direction, orders: nat -> seq<nat>, ghost st: State) returns (out: seq<Tuple>)
      requires Valid() && Shows(st) && forall n :: Lsm3Cursors.IsOrder(orders(n))
      ensures Ordered(d, out) && st.Shaped() && Elements(out) == st.Union()
    {
      var scan := new Lsm3Scan.Scan(top[0], top[1], base, columns, false);
      out := scan.ReadAll(orders, d);
    }
  }

  /**
   At every moment of every run, whatever inserters and the merger are in the middle of, a full
   scan of the indexes gives exactly what was there at the start and what has been stored since.
   */
  lemma ScanIsComplete(run: seq<State>, steps: seq<Step>, i: nat, d: Direction, out: seq<Tuple>, again: seq<Tuple>)
    requires IsRun(run, steps) && i < |run|
    requires Ordered(d, out) && run[i].Shaped() && Elements(out) == run[i].Union()
    requires Ordered(d, again) && run[0].Shaped() && Elements(again) == run[0].Union() + run[i].added
    ensures out == again
  {
    NothingLost(run, steps, i);
    OrderedUnique(d, out, again);
  }
}
