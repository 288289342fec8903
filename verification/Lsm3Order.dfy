/**
 The order of index tuples: key columns first, then the heap TID. A column value stands for its
 rank under the column's own comparator (direction and placement of nulls included).
 */
module Lsm3Order {

  datatype Tuple = Tuple(cols: seq<int>, tid: int)

  predicate ColsLess(a: seq<int>, b: seq<int>)
    requires |a| == |b|
  {
    a != [] && (a[0] < b[0] || (a[0] == b[0] && ColsLess(a[1..], b[1..])))
  }

  /** a sorts before b; tuples of one index have equally many columns. */
  predicate Less(a: Tuple, b: Tuple) {
    |a.cols| == |b.cols| && (ColsLess(a.cols, b.cols) || (a.cols == b.cols && a.tid < b.tid))
  }

  lemma {:induction false} ColsTotal(a: seq<int>, b: seq<int>)
    requires |a| == |b|
    ensures ColsLess(a, b) || a == b || ColsLess(b, a)
    ensures !(ColsLess(a, b) && ColsLess(b, a)) && !ColsLess(a, a)
  {
    if a != [] {
      ColsTotal(a[1..], b[1..]);
      assert a == [a[0]] + a[1..] && b == [b[0]] + b[1..];
    }
  }

  lemma {:induction false} ColsTransitive(a: seq<int>, b: seq<int>, c: seq<int>)
    requires |a| == |b| == |c| && ColsLess(a, b) && ColsLess(b, c)
    ensures ColsLess(a, c)
  {
    if a[0] == b[0] == c[0] {
      ColsTransitive(a[1..], b[1..], c[1..]);
    }
  }

  lemma LessTotal(a: Tuple, b: Tuple)
    requires |a.cols| == |b.cols|
    ensures Less(a, b) || a == b || Less(b, a)
    ensures !(Less(a, b) && Less(b, a)) && !Less(a, a)
  {
    ColsTotal(a.cols, b.cols);
    ColsTotal(a.cols, a.cols);
  }

  lemma LessTransitive(a: Tuple, b: Tuple, c: Tuple)
    requires Less(a, b) && Less(b, c)
    ensures Less(a, c)
  {
    if ColsLess(a.cols, b.cols) && ColsLess(b.cols, c.cols) {
      ColsTransitive(a.cols, b.cols, c.cols);
    }
  }

  lemma {:induction false} ColsPrefix(a: seq<int>, b: seq<int>, i: nat)
    requires |a| == |b| && i <= |a| && a[..i] == b[..i]
    ensures ColsLess(a, b) <==> ColsLess(a[i..], b[i..])
  {
    if i > 0 {
      assert a[0] == a[..i][0] == b[..i][0] == b[0];
      assert a[1..][..i - 1] == a[..i][1..] && b[1..][..i - 1] == b[..i][1..];
      ColsPrefix(a[1..], b[1..], i - 1);
      assert a[1..][i - 1..] == a[i..] && b[1..][i - 1..] == b[i..];
    }
  }

  /** The first column that differs decides; when none does, the heap TID. */
  lemma FirstColumn(a: Tuple, b: Tuple, i: nat)
    requires |a.cols| == |b.cols| && i < |a.cols| && a.cols[..i] == b.cols[..i]
    ensures a.cols[i] < b.cols[i] ==> Less(a, b)
    ensures a.cols[i] > b.cols[i] ==> Less(b, a)
  {
    ColsPrefix(a.cols, b.cols, i);
    ColsPrefix(b.cols, a.cols, i);
  }

  lemma TidDecides(a: Tuple, b: Tuple)
    requires a.cols == b.cols
    ensures Less(a, b) <==> a.tid < b.tid
  {
    ColsTotal(a.cols, b.cols);
  }

  /** So of two tuples in order, columns rise from the first that differs, or else the TID does. */
  lemma LessColumns(a: Tuple, b: Tuple)
    requires Less(a, b)
    ensures forall c :: 0 <= c < |a.cols| && a.cols[..c] == b.cols[..c] ==> a.cols[c] <= b.cols[c]
    ensures a.cols == b.cols ==> a.tid < b.tid
  {
    LessTotal(a, b);
    forall c | 0 <= c < |a.cols| && a.cols[..c] == b.cols[..c] ensures a.cols[c] <= b.cols[c] { FirstColumn(a, b, c); }
    if a.cols == b.cols { TidDecides(a, b); }
  }

  /**
   The comparison loop: negative, zero or positive as a sorts before, with or after b. The first
   column that differs decides, and only when all are equal the TID.
   */
  method Compare(a: Tuple, b: Tuple) returns (result: int)
    requires |a.cols| == |b.cols|
    ensures forall i :: 0 <= i < |a.cols| && a.cols[..i] == b.cols[..i] ==>
      (a.cols[i] < b.cols[i] ==> result < 0) && (a.cols[i] > b.cols[i] ==> result > 0)
    ensures a.cols == b.cols ==> (result < 0 <==> a.tid < b.tid) && (result > 0 <==> a.tid > b.tid)
    ensures result < 0 <==> Less(a, b)
    ensures result == 0 <==> a == b
    ensures result > 0 <==> Less(b, a)
  {
    var i := 0;
    while i < |a.cols|
      invariant 0 <= i <= |a.cols| && a.cols[..i] == b.cols[..i]
    {
      result := if a.cols[i] < b.cols[i] then -1 else if a.cols[i] > b.cols[i] then 1 else 0;
      if result != 0 {
        FirstColumn(a, b, i);
        Agrees(a, b, result);
        return;
      }
      i := i + 1;
    }
    assert a.cols == a.cols[..i] == b.cols[..i] == b.cols;
    result := if a.tid < b.tid then -1 else if a.tid > b.tid then 1 else 0;
    TidDecides(a, b);
    TidDecides(b, a);
    Agrees(a, b, result);
  }

  /** What agrees with the order agrees with the columns. */
  lemma Agrees(a: Tuple, b: Tuple, result: int)
    requires |a.cols| == |b.cols|
    requires if result < 0 then Less(a, b) else if result > 0 then Less(b, a) else a == b
    ensures result < 0 <==> Less(a, b)
    ensures result == 0 <==> a == b
    ensures result > 0 <==> Less(b, a)
    ensures forall i :: 0 <= i < |a.cols| && a.cols[..i] == b.cols[..i] ==>
      (a.cols[i] < b.cols[i] ==> result < 0) && (a.cols[i] > b.cols[i] ==> result > 0)
    ensures a.cols == b.cols ==> (result < 0 <==> a.tid < b.tid) && (result > 0 <==> a.tid > b.tid)
  {
    LessTotal(a, b);
    forall i | 0 <= i < |a.cols| && a.cols[..i] == b.cols[..i]
      ensures (a.cols[i] < b.cols[i] ==> result < 0) && (a.cols[i] > b.cols[i] ==> result > 0)
    {
      FirstColumn(a, b, i);
    }
    if a.cols == b.cols {
      TidDecides(a, b);
      TidDecides(b, a);
    }
  }

  // The order in the direction of a scan

  datatype Direction = Forward | Backward

  predicate Before(d: Direction, a: Tuple, b: Tuple) {
    if d == Forward then Less(a, b) else Less(b, a)
  }

  lemma BeforeTransitive(d: Direction, a: Tuple, b: Tuple, c: Tuple)
    requires Before(d, a, b) && Before(d, b, c)
    ensures Before(d, a, c)
  {
    if d == Forward { LessTransitive(a, b, c); } else { LessTransitive(c, b, a); }
  }

  lemma BeforeIrreflexive(d: Direction, a: Tuple, b: Tuple)
    requires Before(d, a, b)
    ensures a != b && !Before(d, b, a)
  {
    LessTotal(a, b);
  }

  /** Strictly in order, hence without duplicates. */
  ghost predicate Ordered(d: Direction, s: seq<Tuple>) {
    forall i, j :: 0 <= i < j < |s| ==> Before(d, s[i], s[j])
  }

  ghost predicate AllAfter(d: Direction, x: Tuple, s: seq<Tuple>) {
    forall y :: y in s ==> Before(d, x, y)
  }

  lemma AllAfterFrom(d: Direction, x: Tuple, y: Tuple, s: seq<Tuple>)
    requires Before(d, x, y) && AllAfter(d, y, s)
    ensures AllAfter(d, x, s)
  {
    forall z | z in s ensures Before(d, x, z) { BeforeTransitive(d, x, y, z); }
  }

  lemma OrderedTail(d: Direction, s: seq<Tuple>)
    requires Ordered(d, s) && s != []
    ensures Ordered(d, s[1..]) && AllAfter(d, s[0], s[1..]) && s[0] !in s[1..]
  {
    if s[0] in s[1..] {
      var i :| 1 <= i < |s| && s[i] == s[0];
      BeforeIrreflexive(d, s[0], s[i]);
    }
  }

  ghost function Elements(s: seq<Tuple>): set<Tuple> {
    set t | t in s
  }

  lemma ElementsTail(s: seq<Tuple>)
    requires s != []
    ensures Elements(s) == {s[0]} + Elements(s[1..])
  {
  }

  /** Elements and order determine the sequence. */
  lemma {:induction false} OrderedUnique(d: Direction, a: seq<Tuple>, b: seq<Tuple>)
    requires Ordered(d, a) && Ordered(d, b) && Elements(a) == Elements(b)
    ensures a == b
  {
    assert b == [] || b[0] in Elements(b);
    if a != [] {
      assert a[0] in Elements(a);
      OrderedTail(d, a);
      OrderedTail(d, b);
      if a[0] != b[0] {
        assert a[0] in b[1..] && b[0] in a[1..];
        BeforeIrreflexive(d, a[0], b[0]);
      }
      ElementsTail(a);
      ElementsTail(b);
      assert Elements(a[1..]) == Elements(a) - {a[0]};
      assert Elements(b[1..]) == Elements(b) - {b[0]};
      OrderedUnique(d, a[1..], b[1..]);
    }
  }

  function Reverse(s: seq<Tuple>): (r: seq<Tuple>)
    ensures |r| == |s|
    ensures forall k {:trigger r[k]} :: 0 <= k < |s| ==> r[k] == s[|s| - 1 - k]
  {
    seq(|s|, k requires 0 <= k < |s| => s[|s| - 1 - k])
  }

  lemma ReverseLast(s: seq<Tuple>)
    requires s != []
    ensures Reverse(s) == [s[|s| - 1]] + Reverse(s[..|s| - 1])
  {
  }

  /** The tuples of an index in the order a scan in this direction meets them. */
  function Stream(d: Direction, tuples: seq<Tuple>): seq<Tuple> {
    if d == Forward then tuples else Reverse(tuples)
  }

  /** A backward scan meets the same tuples in the mirror order. */
  lemma StreamOrdered(d: Direction, tuples: seq<Tuple>)
    requires Ordered(Forward, tuples)
    ensures Ordered(d, Stream(d, tuples)) && Elements(Stream(d, tuples)) == Elements(tuples)
  {
    if d == Backward {
      ReverseOrdered(tuples);
      ReverseElements(tuples);
    }
  }

  lemma ReverseOrdered(tuples: seq<Tuple>)
    requires Ordered(Forward, tuples)
    ensures Ordered(Backward, Reverse(tuples))
  {
    var r, n := Reverse(tuples), |tuples|;
    forall i, j | 0 <= i < j < n ensures Before(Backward, r[i], r[j]) {
      assert Before(Forward, tuples[n - 1 - j], tuples[n - 1 - i]);
    }
  }

  lemma ReverseElements(tuples: seq<Tuple>)
    ensures Elements(Reverse(tuples)) == Elements(tuples)
  {
    var r := Reverse(tuples);
    forall t ensures t in r <==> t in tuples {
      if t in tuples {
        var i :| 0 <= i < |tuples| && tuples[i] == t;
        assert r[|tuples| - 1 - i] == t;
      }
      if t in r {
        var k :| 0 <= k < |r| && r[k] == t;
        assert tuples[|tuples| - 1 - k] == t;
      }
    }
  }
}
