/** Looking a key up in a sorted file through the block cache. */
module Read {
  import opened Options
  import opened Entries
  import opened SortedEntries
  import opened BlockCache

  /** How entries lie in a file: a key and a value side by side, the first entry-sized slot a header. */
  datatype Codec = Codec(keySize: nat, valSize: nat, keyOf: seq<byte> -> Key) {
    function EntrySize(): nat {
      keySize + valSize
    }

    /** Key and value size are consistent with the block size. */
    predicate Consistent() {
      EntrySize() > 0 && BLK_SIZE % EntrySize() == 0
    }
  }

  lemma TimesLess(i: nat, n: nat, size: nat)
    requires i < n
    ensures i * size + size <= n * size
  {
    assert (i + 1) * size <= n * size;
  }

  /** Slot i of a file of at least i + 1 slots lies inside the file. */
  lemma SlotInside(length: nat, size: nat, i: nat)
    requires size > 0 && i < length / size
    ensures i * size + size <= length
  {
    TimesLess(i, length / size, size);
    assert (length / size) * size <= length;
  }

  function EntryAt(c: Codec, file: seq<byte>, i: nat): Entry
    requires c.EntrySize() > 0 && i < |file| / c.EntrySize()
  {
    SlotInside(|file|, c.EntrySize(), i);
    var at := i * c.EntrySize();
    Entry(c.keyOf(file[at..at + c.keySize]), file[at + c.keySize..at + c.EntrySize()])
  }

  /** The entries after the header slot. */
  function Decode(c: Codec, file: seq<byte>): (s: seq<Entry>)
    requires c.EntrySize() > 0
    ensures |s| == if |file| / c.EntrySize() == 0 then 0 else |file| / c.EntrySize() - 1
    ensures forall i {:trigger s[i]} :: 0 <= i < |s| ==> s[i] == EntryAt(c, file, i + 1)
  {
    var n := |file| / c.EntrySize();
    if n == 0 then [] else seq(n - 1, i requires 0 <= i < n - 1 => EntryAt(c, file, i + 1))
  }

  /** With consistent sizes, neither the key nor the value of a slot straddles a block edge. */
  lemma ReadsStayInBlock(c: Codec, i: nat)
    requires c.Consistent()
    ensures i * c.EntrySize() % BLK_SIZE + c.keySize <= BLK_SIZE
    ensures (i * c.EntrySize() + c.keySize) % BLK_SIZE + c.valSize <= BLK_SIZE
  {
    var size := c.EntrySize();
    var q := BLK_SIZE / size;
    assert q * size == BLK_SIZE;
    var a, b := i / q, i % q;
    assert i * size == a * BLK_SIZE + b * size by {
      assert i == a * q + b;
      assert i * size == a * q * size + b * size;
      assert a * q * size == a * (q * size);
    }
    TimesLess(b, q, size);
    Remainder(a, b * size);
    if b * size + c.keySize < BLK_SIZE {
      Remainder(a, b * size + c.keySize);
    }
  }

  lemma Remainder(a: nat, r: nat)
    requires r < BLK_SIZE
    ensures (a * BLK_SIZE + r) % BLK_SIZE == r
  {
  }

  /** The key of a slot, read through the cache. */
  method ReadKey(cache: FileIO, c: Codec, handle: int, i: nat) returns (key: Key)
    requires cache.Valid() && handle in cache.open && handle >= 0 && c.Consistent()
    requires i < |cache.open[handle]| / c.EntrySize()
    modifies cache, cache.buffer, cache.labels
    ensures cache.Valid() && cache.open == old(cache.open)
    ensures key == EntryAt(c, cache.open[handle], i).key
  {
    SlotInside(|cache.open[handle]|, c.EntrySize(), i);
    ReadsStayInBlock(c, i);
    var bytes, _ := cache.Fread(c.keySize, i * c.EntrySize(), handle);
    RightIsSlice(bytes, cache.open[handle], i * c.EntrySize());
    key := c.keyOf(bytes);
  }

  /** Its value. */
  method ReadValue(cache: FileIO, c: Codec, handle: int, i: nat) returns (value: Value)
    requires cache.Valid() && handle in cache.open && handle >= 0 && c.Consistent()
    requires i < |cache.open[handle]| / c.EntrySize()
    modifies cache, cache.buffer, cache.labels
    ensures cache.Valid() && cache.open == old(cache.open)
    ensures value == EntryAt(c, cache.open[handle], i).value
  {
    SlotInside(|cache.open[handle]|, c.EntrySize(), i);
    ReadsStayInBlock(c, i);
    var at := i * c.EntrySize() + c.keySize;
    var num;
    value, num := cache.Fread(c.valSize, at, handle);
    RightIsSlice(value, cache.open[handle], at);
  }

  /** Only slots low..high can still carry the key. */
  ghost predicate Between(s: seq<Entry>, key: Key, low: int, high: int) {
    forall i :: 0 <= i < |s| && !(low <= i + 1 <= high) ==> s[i].key != key
  }

  lemma NarrowUp(s: seq<Entry>, key: Key, low: int, high: int, mid: int)
    requires Ascending(s) && Between(s, key, low, high) && 1 <= mid <= |s| && s[mid - 1].key < key
    ensures Between(s, key, mid + 1, high)
  {
  }

  lemma NarrowDown(s: seq<Entry>, key: Key, low: int, high: int, mid: int)
    requires Ascending(s) && Between(s, key, low, high) && 1 <= mid <= |s| && key < s[mid - 1].key
    ensures Between(s, key, low, mid - 1)
  {
  }

  /** The binary search over the slots after the header. */
  method FindEntry(cache: FileIO, c: Codec, handle: int, key: Key) returns (value: Option<Value>)
    requires cache.Valid() && handle in cache.open && handle >= 0 && c.Consistent()
    requires Ascending(Decode(c, cache.open[handle]))
    modifies cache, cache.buffer, cache.labels
    ensures cache.Valid() && cache.open == old(cache.open)
    ensures value == Find(Decode(c, cache.open[handle]), key)
  {
    ghost var s := Decode(c, cache.open[handle]);
    var low := 1;
    var high := cache.FileSize(handle) / c.EntrySize() - 1;
    while low <= high
      invariant cache.Valid() && cache.open == old(cache.open)
      invariant 1 <= low && high <= |s|
      invariant Between(s, key, low, high)
      decreases high - low
    {
      var mid := (low + high) / 2;
      var entryKey := ReadKey(cache, c, handle, mid);
      assert s[mid - 1] == EntryAt(c, cache.open[handle], mid);
      if entryKey < key {
        NarrowUp(s, key, low, high, mid);
        low := mid + 1;
      } else if key < entryKey {
        NarrowDown(s, key, low, high, mid);
        high := mid - 1;
      } else {
        FindAt(s, mid - 1);
        var found := ReadValue(cache, c, handle, mid);
        return Some(found);
      }
    }
    FindNowhere(s, key);
    return None;
  }

  // What a dump writes is what the search reads

  /** The bytes written for an entry. */
  predicate Fits(c: Codec, bytesOf: Key -> seq<byte>, e: Entry) {
    |bytesOf(e.key)| == c.keySize && |e.value| == c.valSize && c.keyOf(bytesOf(e.key)) == e.key
  }

  function Encode(bytesOf: Key -> seq<byte>, header: seq<byte>, s: seq<Entry>): seq<byte> {
    if s == [] then header
    else
      var e := s[|s| - 1];
      Encode(bytesOf, header, s[..|s| - 1]) + bytesOf(e.key) + e.value
  }

  lemma {:induction false} EncodeLength(c: Codec, bytesOf: Key -> seq<byte>, header: seq<byte>, s: seq<Entry>)
    requires |header| == c.EntrySize()
    requires forall e :: e in s ==> Fits(c, bytesOf, e)
    ensures |Encode(bytesOf, header, s)| == (|s| + 1) * c.EntrySize()
  {
    if s != [] {
      assert s[|s| - 1] in s;
      EncodeLength(c, bytesOf, header, s[..|s| - 1]);
      assert (|s| + 1) * c.EntrySize() == |s| * c.EntrySize() + c.EntrySize();
    }
  }

  /** A key and behind it a value lie at this place in the file. */
  ghost predicate Lies(file: seq<byte>, at: nat, key: seq<byte>, value: seq<byte>) {
    && at + |key| + |value| <= |file|
    && file[at..at + |key|] == key && file[at + |key|..at + |key| + |value|] == value
  }

  lemma {:induction false} HeaderFirst(bytesOf: Key -> seq<byte>, header: seq<byte>, s: seq<Entry>)
    ensures header <= Encode(bytesOf, header, s)
  {
    if s != [] { HeaderFirst(bytesOf, header, s[..|s| - 1]); }
  }

  /** Behind the header entry i lies i + 1 slots on, its key before its value. */
  lemma {:induction false} EncodeLays(c: Codec, bytesOf: Key -> seq<byte>, header: seq<byte>, s: seq<Entry>,
                                      i: nat, at: nat)
    requires |header| == c.EntrySize() && i < |s| && at == (i + 1) * (c.keySize + c.valSize)
    requires forall e :: e in s ==> Fits(c, bytesOf, e)
    ensures Lies(Encode(bytesOf, header, s), at, bytesOf(s[i].key), s[i].value)
  {
    var init, e := s[..|s| - 1], s[|s| - 1];
    var before, more := Encode(bytesOf, header, init), bytesOf(e.key) + e.value;
    assert Encode(bytesOf, header, s) == before + more;
    if i < |init| {
      EncodeLays(c, bytesOf, header, init, i, at);
      LiesFurther(before, more, at, bytesOf(s[i].key), s[i].value);
    } else {
      EncodeLength(c, bytesOf, header, init);
      LiesLast(before, bytesOf(e.key), e.value);
    }
  }

  lemma LiesLast(file: seq<byte>, key: seq<byte>, value: seq<byte>)
    ensures Lies(file + (key + value), |file|, key, value)
  {
    var all := file + (key + value);
    assert all[|file|..|file| + |key|] == key;
    assert all[|file| + |key|..|file| + |key| + |value|] == value;
  }

  lemma LiesFurther(file: seq<byte>, more: seq<byte>, at: nat, key: seq<byte>, value: seq<byte>)
    requires Lies(file, at, key, value)
    ensures Lies(file + more, at, key, value)
  {
    assert (file + more)[at..at + |key|] == file[at..at + |key|];
    assert (file + more)[at + |key|..at + |key| + |value|] == file[at + |key|..at + |key| + |value|];
  }

  lemma WholeSlots(n: nat, size: nat)
    requires size > 0
    ensures n * size / size == n
  {
    var whole := n * size;
    SlotBound(whole, size, n);
  }

  lemma SlotBound(whole: nat, size: nat, n: nat)
    requires size > 0 && whole == n * size
    ensures whole / size == n
  {
    var q, r := whole / size, whole % size;
    assert whole == q * size + r && r < size;
    if q < n { TimesLess(q, n, size); }
    if n < q { TimesLess(n, q, size); }
  }

  /** Slots already written are not disturbed by writing more. */
  lemma EntryAtPrefix(c: Codec, file: seq<byte>, more: seq<byte>, i: nat)
    requires c.EntrySize() > 0 && i < |file| / c.EntrySize()
    ensures i < |file + more| / c.EntrySize()
    ensures EntryAt(c, file + more, i) == EntryAt(c, file, i)
  {
    SlotInside(|file|, c.EntrySize(), i);
    var size, at := c.EntrySize(), i * c.EntrySize();
    assert i < |file + more| / size by {
      if |file + more| / size <= i {
        assert |file + more| < i * size + size by { DivBound(|file + more|, size, i); }
      }
    }
    assert (file + more)[at..at + c.keySize] == file[at..at + c.keySize];
    assert (file + more)[at + c.keySize..at + size] == file[at + c.keySize..at + size];
  }

  lemma DivBound(length: nat, size: nat, i: nat)
    requires size > 0 && length / size <= i
    ensures length < i * size + size
  {
    var q := length / size;
    assert length == q * size + length % size;
    assert q * size <= i * size by { TimesMono(q, i, size); }
  }

  lemma TimesMono(a: nat, b: nat, size: nat)
    requires a <= b
    ensures a * size <= b * size
  {
  }

  /** The slot that ends a file is the entry written last. */
  lemma AppendedEntry(c: Codec, before: seq<byte>, key: seq<byte>, value: seq<byte>)
    requires c.EntrySize() > 0 && |key| == c.keySize && |value| == c.valSize
    requires |before| == |before| / c.EntrySize() * c.EntrySize()
    ensures |before + (key + value)| / c.EntrySize() == |before| / c.EntrySize() + 1
    ensures EntryAt(c, before + (key + value), |before| / c.EntrySize()) == Entry(c.keyOf(key), value)
  {
    var file, n := before + (key + value), |before| / c.EntrySize();
    assert |file| == n * c.EntrySize() + c.EntrySize() == (n + 1) * c.EntrySize();
    WholeSlots(n + 1, c.EntrySize());
    var at := |before|;
    assert file[at..at + c.keySize] == key;
    assert file[at + c.keySize..at + c.EntrySize()] == value;
  }

  /** An entry written behind whole slots is read back behind them, and they are read as before. */
  lemma DecodeAppend(c: Codec, before: seq<byte>, key: seq<byte>, value: seq<byte>)
    requires c.EntrySize() > 0 && |key| == c.keySize && |value| == c.valSize && |before| / c.EntrySize() > 0
    requires |before| == |before| / c.EntrySize() * c.EntrySize()
    ensures Decode(c, before + (key + value)) == Decode(c, before) + [Entry(c.keyOf(key), value)]
  {
    AppendedEntry(c, before, key, value);
    var file, n := before + (key + value), |before| / c.EntrySize();
    forall i | 0 <= i < n ensures Decode(c, file)[i] == (Decode(c, before) + [Entry(c.keyOf(key), value)])[i] {
      if i < n - 1 { EntryAtPrefix(c, before, key + value, i + 1); }
    }
  }

  /** Reading back the encoding of a header and entries yields exactly the entries. */
  lemma {:induction false} DecodeEncode(c: Codec, bytesOf: Key -> seq<byte>, header: seq<byte>, s: seq<Entry>)
    requires c.EntrySize() > 0 && |header| == c.EntrySize()
    requires forall e :: e in s ==> Fits(c, bytesOf, e)
    ensures Decode(c, Encode(bytesOf, header, s)) == s
  {
    var file := Encode(bytesOf, header, s);
    if s == [] {
      WholeSlots(1, c.EntrySize());
    } else {
      var init, e := s[..|s| - 1], s[|s| - 1];
      var before := Encode(bytesOf, header, init);
      DecodeEncode(c, bytesOf, header, init);
      EncodeLength(c, bytesOf, header, init);
      WholeSlots(|s|, c.EntrySize());
      assert e in s;
      assert file == before + (bytesOf(e.key) + e.value);
      DecodeAppend(c, before, bytesOf(e.key), e.value);
      assert init + [e] == s;
    }
  }
}
