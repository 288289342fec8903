/**
 The LRU block cache: a fixed array of blocks with (handle, offset) labels, a list of the
 occupied slots in order of use, and a map from each slot to its place in that list.

 A place in the list is an iterator in the source; here each list node has its own identity and
 the map holds identities. The contents of an open file do not change while it is open.
 */
module BlockCache {

  type byte = bv8

  const BLK_SIZE := 8192
  const MAX_BLK := 1024

  // The list of slots and the map of iterators into it

  datatype Place = Place(id: nat, slot: nat)

  datatype Lru = Lru(queue: seq<Place>, at: map<nat, nat>, nextId: nat)

  /** Every listed slot is one of these, at the place the map names. */
  ghost predicate Listed(l: Lru, slots: set<nat>) {
    forall p :: 0 <= p < |l.queue| ==>
      && l.queue[p].slot in slots && l.queue[p].slot in l.at
      && l.at[l.queue[p].slot] == l.queue[p].id && l.queue[p].id < l.nextId
  }

  ghost predicate Distinct(queue: seq<Place>) {
    forall p, r :: 0 <= p < r < |queue| ==> queue[p].id != queue[r].id
  }

  ghost predicate Lists(queue: seq<Place>, s: nat) {
    exists p :: 0 <= p < |queue| && queue[p].slot == s
  }

  ghost predicate Covers(queue: seq<Place>, slots: set<nat>) {
    forall s :: s in slots ==> Lists(queue, s)
  }

  /** `slots` are exactly the listed slots, each listed once, at the place the map names. */
  ghost predicate Agrees(l: Lru, slots: set<nat>) {
    l.at.Keys == slots && Listed(l, slots) && Distinct(l.queue) && Covers(l.queue, slots)
  }

  function Erase(queue: seq<Place>, id: nat): seq<Place> {
    if queue == [] then []
    else if queue[0].id == id then queue[1..]
    else [queue[0]] + Erase(queue[1..], id)
  }

  lemma {:induction false} EraseSplits(queue: seq<Place>, p: nat)
    requires p < |queue| && Distinct(queue)
    ensures Erase(queue, queue[p].id) == queue[..p] + queue[p + 1..]
  {
    if p > 0 {
      var rest := queue[1..];
      EraseSplits(rest, p - 1);
      assert rest[p - 1].id == queue[p].id;
      assert [queue[0]] + (rest[..p - 1] + rest[p..]) == queue[..p] + queue[p + 1..];
    }
  }

  function EraseSlot(l: Lru, s: nat): Lru
    requires s in l.at
  {
    l.(queue := Erase(l.queue, l.at[s]), at := l.at - {s})
  }

  function PushFront(l: Lru, s: nat): Lru {
    Lru([Place(l.nextId, s)] + l.queue, l.at[s := l.nextId], l.nextId + 1)
  }

  function Cut(queue: seq<Place>, p: nat): seq<Place>
    requires p < |queue|
  {
    queue[..p] + queue[p + 1..]
  }

  lemma CutAt(queue: seq<Place>, p: nat, r: nat)
    requires p < |queue| && r < |Cut(queue, p)|
    ensures Cut(queue, p)[r] == queue[if r < p then r else r + 1]
  {
  }

  lemma CutListed(l: Lru, slots: set<nat>, s: nat, p: nat)
    requires Listed(l, slots) && Distinct(l.queue) && p < |l.queue| && l.queue[p].slot == s
    ensures Listed(l.(queue := Cut(l.queue, p), at := l.at - {s}), slots - {s})
  {
    forall r | 0 <= r < |Cut(l.queue, p)| ensures Cut(l.queue, p)[r].slot != s && Cut(l.queue, p)[r] in l.queue {
      CutAt(l.queue, p, r);
      var i := if r < p then r else r + 1;
      assert l.queue[i].id != l.queue[p].id;
    }
  }

  lemma CutDistinct(queue: seq<Place>, p: nat)
    requires Distinct(queue) && p < |queue|
    ensures Distinct(Cut(queue, p))
  {
  }

  lemma CutCovers(queue: seq<Place>, slots: set<nat>, s: nat, p: nat)
    requires Covers(queue, slots) && p < |queue| && queue[p].slot == s
    ensures Covers(Cut(queue, p), slots - {s})
  {
    forall t | t in slots - {s} ensures Lists(Cut(queue, p), t) {
      assert Lists(queue, t);
      var r :| 0 <= r < |queue| && queue[r].slot == t;
      assert Cut(queue, p)[if r < p then r else r - 1] == queue[r];
    }
  }

  /** Taking out the place the map names for s takes out s, and only s. */
  lemma EraseAgrees(l: Lru, slots: set<nat>, s: nat, p: nat)
    requires Agrees(l, slots) && p < |l.queue| && l.queue[p].slot == s
    ensures EraseSlot(l, s).queue == Cut(l.queue, p)
    ensures Agrees(EraseSlot(l, s), slots - {s})
  {
    EraseSplits(l.queue, p);
    CutListed(l, slots, s, p);
    CutDistinct(l.queue, p);
    CutCovers(l.queue, slots, s, p);
  }

  lemma PushAgrees(l: Lru, slots: set<nat>, s: nat)
    requires Agrees(l, slots) && s !in slots
    ensures Agrees(PushFront(l, s), slots + {s})
  {
    var m := PushFront(l, s);
    assert forall r :: 1 <= r < |m.queue| ==> m.queue[r] == l.queue[r - 1];
    assert Listed(m, slots + {s});
    forall t | t in slots + {s} ensures Lists(m.queue, t) {
      if t == s {
        assert m.queue[0].slot == s;
      } else {
        assert Lists(l.queue, t);
        var r :| 0 <= r < |l.queue| && l.queue[r].slot == t;
        assert m.queue[r + 1] == l.queue[r];
      }
    }
  }

  // Order of use

  /** The list runs from the most to the least recently used slot. */
  ghost predicate ByRecency(queue: seq<Place>, used: map<nat, nat>, now: nat) {
    && (forall p :: 0 <= p < |queue| ==> queue[p].slot in used && used[queue[p].slot] < now)
    && (forall p, r :: 0 <= p < r < |queue| ==> used[queue[r].slot] < used[queue[p].slot])
  }

  lemma PushByRecency(l: Lru, used: map<nat, nat>, now: nat, s: nat)
    requires ByRecency(l.queue, used, now)
    requires forall p :: 0 <= p < |l.queue| ==> l.queue[p].slot != s
    ensures ByRecency(PushFront(l, s).queue, used[s := now], now + 1)
  {
  }

  lemma CutByRecency(queue: seq<Place>, used: map<nat, nat>, now: nat, p: nat)
    requires ByRecency(queue, used, now) && p < |queue|
    ensures ByRecency(Cut(queue, p), used, now)
  {
    assert forall r :: 0 <= r < |Cut(queue, p)| ==> Cut(queue, p)[r] == queue[if r < p then r else r + 1];
  }

  // Blocks

  datatype Label = Label(handle: int, offset: nat)

  const FREE := Label(-1, 0)

  /** The block holds the file's bytes from `offset` on, as far as the file goes. */
  ghost predicate Mirrors(block: seq<byte>, file: seq<byte>, offset: nat) {
    && |block| == BLK_SIZE
    && forall j :: 0 <= j < BLK_SIZE && offset + j < |file| ==> block[j] == file[offset + j]
  }

  function Occupied(labels: seq<Label>): set<nat> {
    set i: nat | i < |labels| && labels[i].handle >= 0
  }

  /** Every labelled block mirrors its part of an open file, and no part is cached twice. */
  ghost predicate BlocksOk(blocks: seq<seq<byte>>, labels: seq<Label>, open: map<int, seq<byte>>) {
    && |blocks| == |labels| == MAX_BLK
    && (forall i :: 0 <= i < MAX_BLK ==> |blocks[i]| == BLK_SIZE)
    && (forall i :: 0 <= i < MAX_BLK && labels[i].handle >= 0 ==>
          labels[i].handle in open && labels[i].offset % BLK_SIZE == 0
          && Mirrors(blocks[i], open[labels[i].handle], labels[i].offset))
    && (forall i, j :: 0 <= i < j < MAX_BLK && labels[i].handle >= 0 ==> labels[i] != labels[j])
  }

  ghost predicate ListOk(l: Lru, used: map<nat, nat>, now: nat, slots: set<nat>) {
    Agrees(l, slots) && ByRecency(l.queue, used, now)
  }

  lemma FreeKeeps(blocks: seq<seq<byte>>, labels: seq<Label>, open: map<int, seq<byte>>, i: nat)
    requires BlocksOk(blocks, labels, open) && i < MAX_BLK
    ensures BlocksOk(blocks, labels[i := FREE], open)
    ensures Occupied(labels[i := FREE]) == Occupied(labels) - {i}
  {
  }

  lemma EraseOk(l: Lru, used: map<nat, nat>, now: nat, slots: set<nat>, s: nat)
    requires ListOk(l, used, now, slots) && s in slots
    ensures s in l.at && ListOk(EraseSlot(l, s), used, now, slots - {s})
  {
    assert Lists(l.queue, s);
    var p :| 0 <= p < |l.queue| && l.queue[p].slot == s;
    EraseAgrees(l, slots, s, p);
    CutByRecency(l.queue, used, now, p);
  }

  lemma PushOk(l: Lru, used: map<nat, nat>, now: nat, slots: set<nat>, s: nat)
    requires ListOk(l, used, now, slots) && s !in slots
    ensures ListOk(PushFront(l, s), used[s := now], now + 1, slots + {s})
  {
    PushAgrees(l, slots, s);
    PushByRecency(l, used, now, s);
  }

  lemma FetchKeeps(blocks: seq<seq<byte>>, labels: seq<Label>, open: map<int, seq<byte>>, i: nat,
                   block: seq<byte>, tag: Label)
    requires BlocksOk(blocks, labels, open) && i < MAX_BLK && labels[i].handle < 0
    requires tag.handle in open && tag.handle >= 0 && tag.offset % BLK_SIZE == 0
    requires Mirrors(block, open[tag.handle], tag.offset)
    requires forall j :: 0 <= j < MAX_BLK ==> labels[j] != tag
    ensures BlocksOk(blocks[i := block], labels[i := tag], open)
    ensures Occupied(labels[i := tag]) == Occupied(labels) + {i}
  {
  }

  /** A block-aligned part that contains the offset is the one that starts at its block. */
  lemma SameBlock(lo: nat, offset: nat)
    requires lo % BLK_SIZE == 0 && lo <= offset < lo + BLK_SIZE
    ensures lo == offset - offset % BLK_SIZE
  {
  }

  /** The bytes are the file's own from the offset on, as far as block and file go. */
  ghost predicate Right(bytes: seq<byte>, file: seq<byte>, offset: nat) {
    forall j :: 0 <= j < |bytes| && offset % BLK_SIZE + j < BLK_SIZE && offset + j < |file| ==>
      bytes[j] == file[offset + j]
  }

  /** Within one block and within the file they are simply the file's bytes. */
  lemma RightIsSlice(bytes: seq<byte>, file: seq<byte>, offset: nat)
    requires Right(bytes, file, offset)
    requires offset % BLK_SIZE + |bytes| <= BLK_SIZE && offset + |bytes| <= |file|
    ensures bytes == file[offset..offset + |bytes|]
  {
  }

  /** The slot at the back of the list is the least recently used one. */
  lemma BackIsLeast(l: Lru, used: map<nat, nat>, now: nat, slots: set<nat>)
    requires ListOk(l, used, now, slots) && l.queue != []
    ensures slots <= used.Keys && l.queue[|l.queue| - 1].slot in slots
    ensures forall s :: s in slots && s != l.queue[|l.queue| - 1].slot ==> used[l.queue[|l.queue| - 1].slot] < used[s]
  {
    forall s | s in slots
      ensures s in used && (s != l.queue[|l.queue| - 1].slot ==> used[l.queue[|l.queue| - 1].slot] < used[s])
    {
      assert Lists(l.queue, s);
    }
  }

  class FileIO {
    const buffer: array<seq<byte>>
    const labels: array<Label>
    var lru: Lru
    var open: map<int, seq<byte>>
    ghost var used: map<nat, nat>
    ghost var now: nat

    /** The blocks are right, and the list holds the labelled slots and those of `taken`. */
    ghost predicate ValidBut(taken: set<nat>)
      reads this, buffer, labels
    {
      && BlocksOk(buffer[..], labels[..], open)
      && ListOk(lru, used, now, Occupied(labels[..]) + taken)
    }

    ghost predicate Valid()
      reads this, buffer, labels
    {
      BlocksOk(buffer[..], labels[..], open) && ListOk(lru, used, now, Occupied(labels[..]))
    }

    constructor ()
      ensures Valid() && fresh(buffer) && fresh(labels) && open == map[]
    {
      buffer := new seq<byte>[MAX_BLK](_ => seq(BLK_SIZE, _ => 0));
      labels := new Label[MAX_BLK](_ => FREE);
      lru := Lru([], map[], 0);
      open := map[];
      used, now := map[], 0;
      new;
      assert Occupied(labels[..]) == {};
    }

    /** Hands out the lowest free descriptor for a file with these contents. */
    method OpenFile(file: seq<byte>) returns (handle: int)
      requires Valid()
      modifies this`open
      ensures Valid() && handle >= 0 && handle !in old(open) && open == old(open)[handle := file]
      ensures forall h :: 0 <= h < handle ==> h in old(open)
    {
      handle := 0;
      while handle in open
        invariant handle >= 0
        invariant forall h :: 0 <= h < handle ==> h in open
        decreases set h | h in open && h >= handle
      {
        ghost var was := set h | h in open && h >= handle;
        assert handle in was;
        handle := handle + 1;
      }
      open := open[handle := file];
    }

    function FileSize(handle: int): nat
      reads this
      requires handle in open
    {
      |open[handle]|
    }

    /** Unlabels a slot and takes it off the list. */
    method Release(i: nat)
      requires Valid() && i < MAX_BLK && labels[i].handle >= 0
      modifies this`lru, labels
      ensures Valid() && labels[..] == old(labels[..])[i := FREE]
    {
      FreeKeeps(buffer[..], labels[..], open, i);
      EraseOk(lru, used, now, Occupied(labels[..]), i);
      labels[i] := FREE;
      assert labels[..] == old(labels[..])[i := FREE];
      lru := EraseSlot(lru, i);
    }

    /** Makes a slot the most recently used one. */
    method Touch(i: nat)
      requires Valid() && i < MAX_BLK && labels[i].handle >= 0
      modifies this`lru, this`used, this`now
      ensures Valid() && lru.queue != [] && lru.queue[0].slot == i
    {
      ghost var slots := Occupied(labels[..]);
      EraseOk(lru, used, now, slots, i);
      lru := EraseSlot(lru, i);
      PushOk(lru, used, now, slots - {i}, i);
      lru := PushFront(lru, i);
      used, now := used[i := now], now + 1;
      assert slots - {i} + {i} == slots;
    }

    /** Drops every block of the file and gives the descriptor back. */
    method CloseFile(handle: int)
      requires Valid() && handle in open && handle >= 0
      modifies this`lru, this`open, labels
      ensures Valid() && open == old(open) - {handle}
      ensures forall i :: 0 <= i < MAX_BLK ==>
        labels[i] == if old(labels[i]).handle == handle then FREE else old(labels[i])
    {
      var i := 0;
      while i < MAX_BLK
        invariant 0 <= i <= MAX_BLK && Valid() && open == old(open)
        invariant forall j :: 0 <= j < MAX_BLK ==>
          labels[j] == if j < i && old(labels[j]).handle == handle then FREE else old(labels[j])
      {
        if labels[i].handle == handle {
          Release(i);
        }
        i := i + 1;
      }
      open := open - {handle};
    }

    /**
     Frees the least recently used slot. Its write-back has no effect: files are opened for
     reading only.
     */
    method EvictLRU() returns (i: nat)
      requires Valid() && lru.queue != []
      modifies this`lru, labels
      ensures Valid() && i < MAX_BLK && old(labels[i]).handle >= 0
      ensures labels[..] == old(labels[..])[i := FREE]
      ensures Occupied(old(labels[..])) <= used.Keys
      ensures forall s :: s in Occupied(old(labels[..])) && s != i ==> used[i] < used[s]
    {
      i := lru.queue[|lru.queue| - 1].slot;
      BackIsLeast(lru, used, now, Occupied(labels[..]));
      Release(i);
    }

    ghost predicate Full()
      reads labels
    {
      forall j :: 0 <= j < labels.Length ==> labels[j].handle >= 0
    }

    /** A free slot, now first in the list; one is evicted only when none is free. */
    method AllocateBlock() returns (i: nat)
      requires Valid()
      modifies this`lru, this`used, this`now, labels
      ensures ValidBut({i}) && i < MAX_BLK && labels[i].handle < 0
      ensures lru.queue != [] && lru.queue[0].slot == i
      ensures !old(Full()) ==> labels[..] == old(labels[..]) && forall j :: 0 <= j < i ==> labels[j].handle >= 0
      ensures old(Full()) ==> labels[..] == old(labels[..])[i := FREE]
      ensures old(Full()) ==> Occupied(old(labels[..])) <= old(used).Keys && i in old(used)
      ensures old(Full()) ==> forall s :: s in Occupied(old(labels[..])) && s != i ==> old(used)[i] < old(used)[s]
    {
      i := 0;
      while i < MAX_BLK
        invariant 0 <= i <= MAX_BLK
        invariant forall j :: 0 <= j < i ==> labels[j].handle >= 0
      {
        if labels[i].handle < 0 { break; }
        i := i + 1;
      }
      if i == MAX_BLK {
        assert 0 in Occupied(labels[..]) && Lists(lru.queue, 0);
        i := EvictLRU();
      }
      ghost var slots := Occupied(labels[..]);
      PushOk(lru, used, now, slots, i);
      lru := PushFront(lru, i);
      used, now := used[i := now], now + 1;
    }

    /** The slot that holds this part of the file, if any. */
    ghost predicate Cached(handle: int, offset: nat, i: nat)
      reads labels
    {
      i < labels.Length && labels[i].handle == handle >= 0 && labels[i].offset <= offset < labels[i].offset + BLK_SIZE
    }

    ghost predicate InCache(handle: int, offset: nat)
      reads labels
    {
      exists i :: Cached(handle, offset, i)
    }

    /** Reads a block of the file into a slot, as far as the file goes, and labels the slot. */
    method Fetch(i: nat, offset: nat, handle: int) returns (num: nat)
      requires ValidBut({i}) && i < MAX_BLK && labels[i].handle < 0
      requires handle in open && handle >= 0 && offset % BLK_SIZE == 0
      requires forall j :: 0 <= j < MAX_BLK ==> labels[j] != Label(handle, offset)
      modifies buffer, labels
      ensures Valid() && labels[..] == old(labels[..])[i := Label(handle, offset)]
      ensures num == if |open[handle]| < offset then 0
                     else if |open[handle]| - offset < BLK_SIZE then |open[handle]| - offset else BLK_SIZE
    {
      var file := open[handle];
      var fetched := if |file| < offset then []
                     else if |file| - offset < BLK_SIZE then file[offset..] else file[offset..offset + BLK_SIZE];
      num := |fetched|;
      var block := fetched + buffer[i][num..];
      FetchKeeps(buffer[..], labels[..], open, i, block, Label(handle, offset));
      buffer[i] := block;
      labels[i] := Label(handle, offset);
      assert buffer[..] == old(buffer[..])[i := block];
      assert labels[..] == old(labels[..])[i := Label(handle, offset)];
    }

    /** Copies out of a block; what is asked for behind its end is whatever lies there in memory. */
    method CopyOut(i: nat, size: nat, offset: nat) returns (bytes: seq<byte>)
      requires BlocksOk(buffer[..], labels[..], open) && i < MAX_BLK && labels[i].handle >= 0
      requires labels[i].offset <= offset < labels[i].offset + BLK_SIZE
      ensures |bytes| == size && Right(bytes, open[labels[i].handle], offset)
    {
      var into := offset - labels[i].offset;
      var inside := if into + size <= BLK_SIZE then size else BLK_SIZE - into;
      assert |buffer[..][i]| == BLK_SIZE;
      bytes := buffer[i][into..into + inside];
      assert Mirrors(buffer[..][i], open[labels[i].handle], labels[i].offset);
      SameBlock(labels[i].offset, offset);
      while |bytes| < size
        invariant inside <= |bytes| <= size
        invariant forall j :: 0 <= j < inside ==> bytes[j] == buffer[i][into + j]
      {
        var beyond: byte := *;
        bytes := bytes + [beyond];
      }
    }

    /**
     Copies `size` bytes at `offset` out of a cached block, fetching the block first when it is
     not there. The bytes are the file's own up to the end of the block, and the block ends up most
     recently used. A hit reports the bytes copied, a miss the bytes fetched.
     */
    method Fread(size: nat, offset: nat, handle: int) returns (bytes: seq<byte>, num: nat)
      requires Valid() && handle in open && handle >= 0
      modifies this`lru, this`used, this`now, buffer, labels
      ensures Valid() && open == old(open)
      ensures |bytes| == size && Right(bytes, open[handle], offset)
      ensures forall j :: 0 <= j < size && offset % 8192 + j < 8192 && offset + j < |open[handle]| ==>
        bytes[j] == open[handle][offset + j]
      ensures lru.queue != [] && Cached(handle, offset, lru.queue[0].slot)
      ensures old(InCache(handle, offset)) ==>
        num == size && labels[..] == old(labels[..]) && buffer[..] == old(buffer[..])
      ensures !old(InCache(handle, offset)) ==>
        var start := offset - offset % 8192;
        num == if |open[handle]| <= start then 0
               else if |open[handle]| - start < 8192 then |open[handle]| - start else 8192
    {
      var i := 0;
      while i < MAX_BLK
        invariant 0 <= i <= MAX_BLK
        invariant forall j :: 0 <= j < i ==> !Cached(handle, offset, j)
      {
        var blk := labels[i];
        if blk.handle >= 0 && blk.handle == handle && blk.offset <= offset < blk.offset + BLK_SIZE {
          assert Cached(handle, offset, i);
          bytes := ReadHit(size, offset, handle, i);
          return bytes, size;
        }
        i := i + 1;
      }
      bytes, num := ReadMiss(size, offset, handle);
    }

    /** The block is there: copy from it. */
    method ReadHit(size: nat, offset: nat, handle: int, i: nat) returns (bytes: seq<byte>)
      requires Valid() && handle in open && handle >= 0 && Cached(handle, offset, i)
      modifies this`lru, this`used, this`now
      ensures Valid() && |bytes| == size && Right(bytes, open[handle], offset)
      ensures lru.queue != [] && lru.queue[0].slot == i
    {
      SameBlock(labels[i].offset, offset);
      bytes := CopyOut(i, size, offset);
      Touch(i);
    }

    /** The block is not there: allocate a slot, fill it, copy from it. */
    method ReadMiss(size: nat, offset: nat, handle: int) returns (bytes: seq<byte>, num: nat)
      requires Valid() && handle in open && handle >= 0
      requires forall j :: 0 <= j < MAX_BLK ==> !Cached(handle, offset, j)
      modifies this`lru, this`used, this`now, buffer, labels
      ensures Valid() && open == old(open)
      ensures var start := offset - offset % 8192;
        num == if |open[handle]| <= start then 0
               else if |open[handle]| - start < 8192 then |open[handle]| - start else 8192
      ensures |bytes| == size && Right(bytes, open[handle], offset)
      ensures lru.queue != [] && Cached(handle, offset, lru.queue[0].slot)
    {
      var start := offset - offset % BLK_SIZE;
      ghost var tag := Label(handle, start);
      assert start <= offset < start + BLK_SIZE;
      forall j | 0 <= j < MAX_BLK ensures labels[j] != tag {
        assert !Cached(handle, offset, j);
      }
      var i := AllocateBlock();
      assert start % BLK_SIZE == 0;
      num := Fetch(i, start, handle);
      assert labels[i] == tag;
      bytes := CopyOut(i, size, offset);
    }
  }
}
