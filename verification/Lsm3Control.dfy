/**
 The control entry of an lsm3 index in shared memory. Each spinlock section of the source is one
 function on the entry here; the class `SharedEntry` runs the sections in place.
 */
module Lsm3Control {

  /** A 64-bit counter. */
  const COUNTER: nat := 0x1_0000_0000_0000_0000

  datatype Control = Control(
    active: nat,
    access: seq<nat>,
    nMerges: nat,
    startMerge: bool,
    inProgress: bool,
    latch: bool)
  {
    ghost predicate Shaped() {
      active < 2 && |access| == 2 && nMerges < COUNTER
    }

    /** The top index that is not active. */
    function Merging(): nat {
      if active == 0 then 1 else 0
    }
  }

  function Next(n: nat): nat {
    (n + 1) % COUNTER
  }

  /** An insert takes the active index and counts itself in. */
  function Entered(c: Control): Control
    requires c.Shaped()
  {
    c.(access := c.access[c.active := c.access[c.active] + 1])
  }

  /** The top indexes trade places and a merge is due. */
  function Flipped(c: Control): Control
    requires c.Shaped()
  {
    c.(inProgress := true, active := 1 - c.active, nMerges := Next(c.nMerges))
  }

  function Signalled(c: Control): Control {
    c.(startMerge := true, latch := true)
  }

  /** Whether an insert that found its index too large gets to start the merge. */
  predicate Flips(c: Control, merges: nat, overflow: bool) {
    overflow && !c.inProgress && c.nMerges == merges
  }

  /** An insert counts itself out; the last one on the index to be merged wakes the merger. */
  function Left(c: Control, index: nat, merges: nat, overflow: bool): Control
    requires c.Shaped() && index < 2 && c.access[index] > 0
  {
    var c1 := if Flips(c, merges, overflow) then Flipped(c) else c;
    var c2 := c1.(access := c1.access[index := c1.access[index] - 1]);
    if c2.inProgress && c2.active != index && c2.access[index] == 0 then Signalled(c2) else c2
  }

  /** A merge asked for by hand; ignored while one is in progress. */
  function Requested(c: Control): Control
    requires c.Shaped()
  {
    if c.inProgress then c
    else
      var c1 := Flipped(c);
      if c1.access[1 - c1.active] == 0 then Signalled(c1) else c1
  }

  /** The merger's check: takes the request, if there is one. */
  function Taken(c: Control): Control {
    c.(startMerge := false)
  }

  function Done(c: Control): Control {
    c.(inProgress := false)
  }

  /** The entry in shared memory. */
  class SharedEntry {
    var active: nat
    var access: array<nat>
    var nMerges: nat
    var nInserts: nat
    var startMerge: bool
    var inProgress: bool
    var latch: bool

    ghost predicate Valid()
      reads this, access
    {
      access.Length == 2 && View().Shaped() && nInserts < COUNTER
    }

    ghost function View(): Control
      reads this, access
    {
      Control(active, access[..], nMerges, startMerge, inProgress, latch)
    }

    /** The larger top index becomes the active one. */
    constructor (size0: nat, size1: nat)
      ensures Valid() && fresh(access) && nInserts == 0
      ensures View() == Control(if size0 >= size1 then 0 else 1, [0, 0], 0, false, false, false)
    {
      active := if size0 >= size1 then 0 else 1;
      access := new nat[2](_ => 0);
      nMerges, nInserts := 0, 0;
      startMerge, inProgress, latch := false, false, false;
      new;
      assert access[..] == [0, 0];
    }

    method SetLatch()
      modifies this`latch
      ensures latch
    {
      latch := true;
    }

    method ResetLatch()
      requires Valid()
      modifies this`latch
      ensures Valid() && View() == old(View()).(latch := false)
    {
      latch := false;
    }

    /** First section of an insert. */
    method Enter() returns (index: nat, merges: nat)
      requires Valid()
      modifies this, access
      ensures Valid() && access == old(access)
      ensures index == old(active) && merges == old(nMerges)
      ensures access[index] == old(access[index]) + 1 && access[1 - index] == old(access[1 - index])
      ensures active == old(active) && nMerges == old(nMerges) && nInserts == old(nInserts)
      ensures inProgress == old(inProgress) && startMerge == old(startMerge) && latch == old(latch)
      ensures View() == Entered(old(View()))
    {
      index := active;
      access[index] := access[index] + 1;
      merges := nMerges;
    }

    const CHECK_PERIOD := 64 * 1024
    const BLOCK_KB := 8

    /** The unlocked test for an index grown past its size. */
    method Overflows(blocks: nat, topIndexSize: nat) returns (overflow: bool)
      ensures overflow <==> !inProgress && nInserts % CHECK_PERIOD == 0 && blocks * BLOCK_KB > topIndexSize
    {
      overflow := !inProgress && nInserts % CHECK_PERIOD == 0 && blocks * BLOCK_KB > topIndexSize;
    }

    /** Last section of an insert. */
    method Leave(index: nat, merges: nat, overflow: bool)
      requires Valid() && index < 2 && access[index] > 0
      modifies this, access
      ensures Valid() && access == old(access)
      ensures nInserts == (old(nInserts) + 1) % 0x1_0000_0000_0000_0000
      ensures access[index] == old(access[index]) - 1 && access[1 - index] == old(access[1 - index])
      ensures if overflow && !old(inProgress) && old(nMerges) == merges
        then active == 1 - old(active) && inProgress && nMerges == (old(nMerges) + 1) % 0x1_0000_0000_0000_0000
        else active == old(active) && inProgress == old(inProgress) && nMerges == old(nMerges)
      ensures if inProgress && active != index && access[index] == 0
        then startMerge && latch else startMerge == old(startMerge) && latch == old(latch)
      ensures View() == Left(old(View()), index, merges, overflow)
    {
      SwapIfOverflown(merges, overflow);
      CountOut(index);
      WakeIfLast(index);
    }

    method SwapIfOverflown(merges: nat, overflow: bool)
      requires Valid()
      modifies this`inProgress, this`active, this`nMerges
      ensures Valid()
      ensures if overflow && !old(inProgress) && old(nMerges) == merges
        then active == 1 - old(active) && inProgress && nMerges == (old(nMerges) + 1) % 0x1_0000_0000_0000_0000
        else active == old(active) && inProgress == old(inProgress) && nMerges == old(nMerges)
      ensures View() == if Flips(old(View()), merges, overflow) then Flipped(old(View())) else old(View())
    {
      if overflow && !inProgress && nMerges == merges {
        inProgress := true;
        active := 1 - active;
        nMerges := (nMerges + 1) % COUNTER;
      }
    }

    method CountOut(index: nat)
      requires Valid() && index < 2 && access[index] > 0
      modifies this`nInserts, access
      ensures Valid() && nInserts == (old(nInserts) + 1) % 0x1_0000_0000_0000_0000
      ensures access[index] == old(access[index]) - 1 && access[1 - index] == old(access[1 - index])
      ensures View() == old(View()).(access := old(access[..])[index := old(access[index]) - 1])
    {
      access[index] := access[index] - 1;
      nInserts := (nInserts + 1) % COUNTER;
    }

    method WakeIfLast(index: nat)
      requires Valid() && index < 2
      modifies this`startMerge, this`latch
      ensures Valid()
      ensures if inProgress && active != index && access[index] == 0
        then startMerge && latch else startMerge == old(startMerge) && latch == old(latch)
    {
      if inProgress {
        if active != index && access[index] == 0 {
          startMerge := true;
          SetLatch();
        }
      }
    }

    method RequestMerge()
      requires Valid()
      modifies this
      ensures Valid() && access == old(access)
      ensures nInserts == old(nInserts) && inProgress && access[..] == old(access[..])
      ensures if old(inProgress) then active == old(active) && nMerges == old(nMerges)
        else active == 1 - old(active) && nMerges == (old(nMerges) + 1) % 0x1_0000_0000_0000_0000
      ensures if !old(inProgress) && access[1 - active] == 0
        then startMerge && latch else startMerge == old(startMerge) && latch == old(latch)
      ensures View() == Requested(old(View()))
    {
      if !inProgress {
        inProgress := true;
        active := 1 - active;
        nMerges := (nMerges + 1) % COUNTER;
        if access[1 - active] == 0 {
          startMerge := true;
          SetLatch();
        }
      }
    }

    /** The merger's section: the index to merge, if one is due. */
    method CheckRequest() returns (index: int)
      requires Valid()
      modifies this`startMerge
      ensures Valid() && !startMerge && View() == Taken(old(View()))
      ensures index == if old(startMerge) then 1 - active else -1
    {
      index := -1;
      if startMerge {
        index := 1 - active;
        startMerge := false;
      }
    }

    method MarkDone()
      requires Valid()
      modifies this`inProgress
      ensures Valid() && !inProgress && View() == Done(old(View()))
    {
      inProgress := false;
    }
  }
}
