/**
 The Bloom filter in front of the store: 2^16 bits in memory, every changed byte written through
 to the file it is reloaded from.
 */
module Bloom {
  import opened Entries

  const BYTES := 0x2000
  const BITS := 0x1_0000

  /** The word left when n words are dropped from the low end. */
  function High(k: Key, n: nat): nat {
    if n == 0 then k else High(k, n - 1) / WORD_BASE
  }

  /** The word stored first in memory. */
  function FirstWord(k: Key): nat {
    High(k, WORDS - 1)
  }

  lemma {:induction false} HighIsPrefix(words: seq<Word>, n: nat)
    requires n <= |words|
    ensures High(Num(words), n) == Num(words[..|words| - n])
  {
    if n == 0 {
      assert words[..|words|] == words;
    } else {
      HighIsPrefix(words, n - 1);
      var p := words[..|words| - n + 1];
      assert p[..|p| - 1] == words[..|words| - n];
    }
  }

  /** On the words of a key, that is indeed the first of them. */
  lemma FirstWordOf(k: RawKey)
    ensures FirstWord(Num(k)) == k[0] as nat
  {
    HighIsPrefix(k, 7);
    assert k[..1][..0] == [];
    assert Num(k[..1]) == k[0] as nat;
  }

  /** Its low three 16-bit pieces in memory order (little endian). */
  function Piece(k: Key, i: nat): (s: nat)
    requires i < 3
    ensures s < BITS
  {
    if i == 0 then FirstWord(k) % BITS
    else if i == 1 then FirstWord(k) / BITS % BITS
    else FirstWord(k) / BITS / BITS % BITS
  }

  /** The first word, spelled in 16-bit pieces: the three used are the low ones. */
  lemma PiecesSpell(k: RawKey) returns (rest: nat)
    ensures rest < 0x1_0000
    ensures Piece(Num(k), 0) < 0x1_0000 && Piece(Num(k), 1) < 0x1_0000 && Piece(Num(k), 2) < 0x1_0000
    ensures k[0] as nat == Piece(Num(k), 0) + 0x1_0000 * Piece(Num(k), 1) + 0x1_0000_0000 * Piece(Num(k), 2)
                         + 0x1_0000_0000_0000 * rest
  {
    FirstWordOf(k);
    var w := FirstWord(Num(k));
    rest := w / BITS / BITS / BITS;
    assert w == w % BITS + BITS * (w / BITS);
    assert w / BITS == w / BITS % BITS + BITS * (w / BITS / BITS);
    assert w / BITS / BITS == w / BITS / BITS % BITS + BITS * rest;
  }

  function Positions(k: Key): set<nat> {
    {Piece(k, 0), Piece(k, 1), Piece(k, 2)}
  }

  function Mask(i: nat): bv8
    requires i < 8
  {
    1 << i
  }

  predicate BitSet(bytes: seq<bv8>, s: nat)
    requires |bytes| == BYTES && s < BITS
  {
    bytes[s / 8] & Mask(s % 8) != 0
  }

  function Marks(bytes: seq<bv8>): set<nat>
    requires |bytes| == BYTES
  {
    set s: nat | s < BITS && BitSet(bytes, s)
  }

  lemma MaskBit(b: bv8, i: nat, j: nat)
    requires i < 8 && j < 8
    ensures (b | Mask(i)) & Mask(j) != 0 <==> i == j || b & Mask(j) != 0
  {
  }

  function Pow2(i: nat): (p: nat)
    ensures p > 0
  {
    if i == 0 then 1 else 2 * Pow2(i - 1)
  }

  lemma LowBit(b: bv8)
    ensures b & 1 != 0 <==> (b as nat) % 2 == 1
    ensures (b as nat) / 2 == (b >> 1) as nat
  {
  }

  lemma ShiftMask(b: bv8, i: nat)
    requires 0 < i < 8
    ensures b & Mask(i) != 0 <==> (b >> 1) & Mask(i - 1) != 0
  {
  }

  lemma Mono(a: nat, b: nat, d: nat)
    requires a <= b
    ensures a * d <= b * d
  {
  }

  lemma Quotient(n: nat, d: nat, q: nat, r: nat)
    requires d > 0 && n == q * d + r && r < d
    ensures n / d == q
  {
    var q1, r1 := n / d, n % d;
    assert n == q1 * d + r1;
    if q1 < q { Mono(q1 + 1, q, d); }
    if q < q1 { Mono(q + 1, q1, d); }
  }

  /** Bit i of a number is bit i - 1 of its half. */
  lemma HalfFirst(n: nat, p: nat)
    requires p > 0
    ensures n / 2 / p == n / (2 * p)
  {
    var h := n / 2;
    var q, r := h / p, h % p;
    assert h == q * p + r && n == 2 * h + n % 2;
    assert n == q * (2 * p) + (2 * r + n % 2);
    Quotient(n, 2 * p, q, 2 * r + n % 2);
  }

  /** Bit i of a number, low bit first. */
  predicate BitOf(n: nat, i: nat) {
    if i == 0 then n % 2 == 1 else BitOf(n / 2, i - 1)
  }

  lemma {:induction false} BitOfPower(n: nat, i: nat)
    ensures BitOf(n, i) <==> n / Pow2(i) % 2 == 1
  {
    if i > 0 {
      BitOfPower(n / 2, i - 1);
      HalfFirst(n, Pow2(i - 1));
    }
  }

  lemma {:induction false} MaskIsBit(b: bv8, i: nat)
    requires i < 8
    ensures b & Mask(i) != 0 <==> BitOf(b as nat, i)
    decreases i
  {
    LowBit(b);
    if i > 0 {
      MaskIsBit(b >> 1, i - 1);
      ShiftMask(b, i);
    }
  }

  /** Position s is bit s % 8 of byte s / 8, low bit first. */
  lemma MarkedBit(bytes: seq<bv8>, s: nat)
    requires |bytes| == 0x2000 && s < 0x1_0000
    ensures s in Marks(bytes) <==> BitOf(bytes[s / 8] as nat, s % 8)
  {
    MaskIsBit(bytes[s / 8], s % 8);
  }

  /** So it is marked exactly when that byte, divided by the power of two, is odd. */
  lemma MarkedByte(bytes: seq<bv8>, s: nat, n: nat)
    requires |bytes| == 0x2000 && s < 0x1_0000 && n == bytes[s / 8] as nat
    ensures s in Marks(bytes) <==> n / Pow2(s % 8) % 2 == 1
  {
    MarkedBit(bytes, s);
    BitOfPower(n, s % 8);
  }

  lemma MarksAdd(bytes: seq<bv8>, s: nat)
    requires |bytes| == BYTES && s < BITS
    ensures Marks(bytes[s / 8 := bytes[s / 8] | Mask(s % 8)]) == Marks(bytes) + {s}
  {
    var after := bytes[s / 8 := bytes[s / 8] | Mask(s % 8)];
    forall t: nat | t < BITS ensures BitSet(after, t) <==> t == s || BitSet(bytes, t) {
      if t / 8 == s / 8 { MaskBit(bytes[s / 8], s % 8, t % 8); }
    }
  }

  class BloomFile {
    const arr: array<bv8>
    var disk: seq<bv8>

    ghost predicate Valid()
      reads this, arr
    {
      arr.Length == BYTES && disk == arr[..]
    }

    ghost function Marked(): set<nat>
      reads this, arr
      requires Valid()
    {
      Marks(arr[..])
    }

    /** A fresh filter, all bits clear or all bits set. */
    constructor (initial: bool)
      ensures Valid() && fresh(arr)
      ensures forall s: nat :: s < BITS ==> (s in Marked() <==> initial)
    {
      arr := new bv8[BYTES](_ => if initial then 0xFF else 0);
      new;
      disk := arr[..];
      forall s: nat | s < BITS ensures BitSet(disk, s) <==> initial {
        MaskAll(s % 8);
      }
    }

    /** Reloads what an earlier filter wrote, and writes it out again. */
    constructor Load(saved: seq<bv8>)
      requires |saved| == BYTES
      ensures Valid() && fresh(arr) && arr[..] == saved && Marked() == Marks(saved)
    {
      arr := new bv8[BYTES](i requires 0 <= i < BYTES => saved[i]);
      new;
      disk := arr[..];
      assert disk == saved;
    }

    method SetFile(i: nat)
      requires i < arr.Length == |disk| == BYTES
      modifies this
      ensures disk == old(disk)[i := arr[i]]
    {
      disk := disk[i := arr[i]];
    }

    method SetBit(s: nat)
      requires Valid() && s < BITS
      modifies this, arr
      ensures Valid() && Marked() == old(Marked()) + {s}
    {
      MarksAdd(arr[..], s);
      var temp := arr[s / 8] | Mask(s % 8);
      if temp != arr[s / 8] {
        arr[s / 8] := temp;
        SetFile(s / 8);
      }
      assert arr[..] == old(arr[..])[s / 8 := temp];
    }

    /** Marks the key's three positions, in memory and in the file. */
    method Set(k: Key)
      requires Valid()
      modifies this, arr
      ensures Valid() && Marked() == old(Marked()) + Positions(k)
    {
      var i := 0;
      while i < 3
        invariant 0 <= i <= 3 && Valid()
        invariant Marked() == old(Marked()) + set j: nat | j < i :: Piece(k, j)
      {
        SetBit(Piece(k, i));
        i := i + 1;
      }
      assert Positions(k) == set j: nat | j < 3 :: Piece(k, j);
    }

    /** True exactly when all three positions are marked. */
    method Get(k: Key) returns (maybe: bool)
      requires Valid()
      ensures maybe <==> Positions(k) <= Marked()
    {
      var i := 0;
      while i < 3
        invariant 0 <= i <= 3
        invariant forall j: nat :: j < i ==> Piece(k, j) in Marked()
      {
        if !BitSet(arr[..], Piece(k, i)) { return false; }
        i := i + 1;
      }
      return true;
    }
  }

  lemma MaskAll(i: nat)
    requires i < 8
    ensures 0xFF & Mask(i) != 0 && 0 & Mask(i) == 0
  {
  }

  /** Marks of every key ever set survive all later sets and a reload: no key is ever denied. */
  lemma {:induction false} NoFalseNegatives(start: set<nat>, keys: seq<Key>, i: nat)
    requires i < |keys|
    ensures start <= MarkAll(start, keys) && Positions(keys[i]) <= MarkAll(start, keys)
  {
    if i < |keys| - 1 {
      NoFalseNegatives(start, keys[..|keys| - 1], i);
    } else if |keys| > 1 {
      NoFalseNegatives(start, keys[..|keys| - 1], 0);
    }
  }

  function MarkAll(start: set<nat>, keys: seq<Key>): set<nat> {
    if keys == [] then start else MarkAll(start, keys[..|keys| - 1]) + Positions(keys[|keys| - 1])
  }
}
