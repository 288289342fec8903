module Options {
  datatype Option<+T> = None | Some(value: T)
}

/**
 Keys, values and entries of the scratch store.

 A key in the source is eight 64-bit words compared word by word. From here on a key is the
 natural number those words spell in base 2^64, most significant word first; `KeyLess` proves
 that the word loop decides exactly the order of those numbers, and `NumInjective` that no two
 keys spell the same number.
 */
module Entries {

  import opened Options

  const WORDS := 8
  const WORD_BASE: nat := 0x1_0000_0000_0000_0000

  newtype Word = w: int | 0 <= w < 0x1_0000_0000_0000_0000

  type RawKey = k: seq<Word> | |k| == 8 witness [0, 0, 0, 0, 0, 0, 0, 0]

  type Key = nat

  /** The number spelled by the words. */
  function Num(words: seq<Word>): nat {
    if words == [] then 0
    else Num(words[..|words| - 1]) * WORD_BASE + words[|words| - 1] as nat
  }

  lemma {:induction false} NumPrefixOrder(a: seq<Word>, b: seq<Word>, i: nat)
    requires |a| == |b| && i <= |a|
    requires Num(a[..i]) < Num(b[..i])
    ensures Num(a) < Num(b)
    decreases |a| - i
  {
    if i == |a| {
      assert a[..i] == a && b[..i] == b;
    } else {
      assert a[..i + 1][..i] == a[..i] && b[..i + 1][..i] == b[..i];
      NumPrefixOrder(a, b, i + 1);
    }
  }

  lemma NumFirstDifference(a: seq<Word>, b: seq<Word>, i: nat)
    requires |a| == |b| && i < |a|
    requires a[..i] == b[..i] && a[i] < b[i]
    ensures Num(a) < Num(b)
  {
    assert a[..i + 1][..i] == a[..i] && b[..i + 1][..i] == b[..i];
    NumPrefixOrder(a, b, i + 1);
  }

  lemma {:induction false} NumInjective(a: seq<Word>, b: seq<Word>)
    requires |a| == |b|
    ensures Num(a) == Num(b) <==> a == b
  {
    if a != b {
      var i := FirstDifference(a, b);
      if a[i] < b[i] {
        NumFirstDifference(a, b, i);
      } else {
        NumFirstDifference(b, a, i);
      }
    }
  }

  lemma FirstDifference(a: seq<Word>, b: seq<Word>) returns (i: nat)
    requires |a| == |b| && a != b
    ensures i < |a| && a[..i] == b[..i] && a[i] != b[i]
  {
    i := 0;
    while a[i] == b[i]
      invariant i < |a| && a[..i] == b[..i]
      invariant exists j :: i <= j < |a| && a[j] != b[j]
      decreases |a| - i
    {
      i := i + 1;
      assert a[..i] == b[..i];
    }
  }

  /** Words alike up to some place, the numbers are in the order of the words there. */
  lemma WordsDecide(a: RawKey, b: RawKey)
    ensures forall i :: 0 <= i < 8 && a[..i] == b[..i] ==>
      (a[i] < b[i] ==> Num(a) < Num(b)) && (a[i] > b[i] ==> Num(b) < Num(a))
  {
    forall i | 0 <= i < 8 && a[..i] == b[..i]
      ensures (a[i] < b[i] ==> Num(a) < Num(b)) && (a[i] > b[i] ==> Num(b) < Num(a))
    {
      if a[i] < b[i] { NumFirstDifference(a, b, i); }
      if a[i] > b[i] { NumFirstDifference(b, a, i); }
    }
  }

  /** The key comparison: the first differing word decides. */
  method KeyLess(a: RawKey, b: RawKey) returns (less: bool)
    ensures less <==> Num(a) < Num(b)
    ensures forall i :: 0 <= i < 8 && a[..i] == b[..i] ==> (a[i] < b[i] ==> less) && (a[i] > b[i] ==> !less)
    ensures a == b ==> !less
  {
    WordsDecide(a, b);
    var i := 0;
    while i < WORDS
      invariant 0 <= i <= WORDS
      invariant a[..i] == b[..i]
    {
      if a[i] < b[i] {
        return true;
      } else if a[i] > b[i] {
        return false;
      }
      i := i + 1;
    }
    assert a[..i] == a && b[..i] == b;
    return false;
  }

  // Values are byte strings; a value made of 0xFF bytes alone marks a deletion.

  type Value = seq<bv8>

  const VAL_SIZE := 64

  function Tombstone(): Value {
    seq(VAL_SIZE, _ => 0xFF)
  }

  predicate IsTomb(v: Value) {
    forall i :: 0 <= i < |v| ==> v[i] == 0xFF
  }

  /** The byte loop of the merge. */
  method TombLoop(v: Value) returns (tomb: bool)
    ensures tomb <==> forall i :: 0 <= i < |v| ==> v[i] == 0xFF
    ensures tomb <==> IsTomb(v)
  {
    var i := 0;
    while i < |v|
      invariant 0 <= i <= |v|
      invariant forall j :: 0 <= j < i ==> v[j] == 0xFF
    {
      if v[i] != 0xFF {
        return false;
      }
      i := i + 1;
    }
    return true;
  }

  /** A value of the tombstone's size is a tombstone in just one way. */
  lemma TombUnique(v: Value)
    requires |v| == VAL_SIZE
    ensures IsTomb(v) <==> v == Tombstone()
  {
  }

  /** What an answer says once deletion marks are read as absence. */
  function Live(a: Option<Value>): Option<Value> {
    if a.Some? && IsTomb(a.value) then None else a
  }

  datatype Entry = Entry(key: Key, value: Value)
}
