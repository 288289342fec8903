/**
 The state of the scratch store as a value, and what each atomic piece of its methods does to it.
 The class `Master` is proved to take exactly these steps; `Machine` interleaves them.
 */
module Store {
  import opened Options
  import opened Entries
  import opened SortedEntries
  import opened MergeFiles
  import opened Log
  import opened Ring
  import Bloom

  const MAX_TREE_SIZE := 1024

  datatype Store = Store(
    tree: seq<Entry>,
    reserve: Option<seq<Entry>>,
    files: seq<File>,
    temp: File,
    recent: nat,
    current: nat,
    backups: seq<seq<Record>>,
    bloom: set<nat>)
  {
    ghost predicate Shaped() {
      |files| == NUMFILES && recent < NUMFILES && |backups| == 2 && current < 2
    }

    function Oldest2(): nat {
      (recent + 2) % NUMFILES
    }

    function Oldest1(): nat {
      (recent + 1) % NUMFILES
    }

    function Other(): nat {
      (current + 1) % 2
    }
  }

  lemma OldestSlots(s: Store)
    requires s.Shaped()
    ensures s.Oldest2() == Slot(s.recent, 8) && s.Oldest1() == Slot(s.recent, 9)
    ensures s.Other() == 1 - s.current
  {
  }

  /** A write: into the live tree and its log, then into the filter. */
  function Written(s: Store, k: Key, v: Value): Store
    requires s.Shaped()
  {
    s.(tree := Put(s.tree, k, v),
       backups := s.backups[s.current := s.backups[s.current] + [Write(k, v)]],
       bloom := s.bloom + Bloom.Positions(k))
  }

  /** Place by place: the key has the value, no other key has changed, and one record is logged. */
  lemma WriteTells(s: Store, k: Key, v: Value)
    requires s.Shaped() && Ascending(s.tree)
    ensures var t := Written(s, k, v);
      && Find(t.tree, k) == Some(v) && (forall q: Key :: q != k ==> Find(t.tree, q) == Find(s.tree, q))
      && t.backups[s.current] == s.backups[s.current] + [Write(k, v)]
      && t.backups[1 - s.current] == s.backups[1 - s.current]
      && (forall b: nat :: b in t.bloom <==> b in s.bloom || b in Bloom.Positions(k))
      && t.reserve == s.reserve && t.files == s.files && t.temp == s.temp
      && t.recent == s.recent && t.current == s.current
  {
    forall q: Key ensures Find(Put(s.tree, k, v), q) == if q == k then Some(v) else Find(s.tree, q) {
      PutFind(s.tree, k, v, q);
    }
  }

  predicate CanSwap(s: Store) {
    |s.tree| >= MAX_TREE_SIZE && s.reserve.None?
  }

  /** The full tree is set aside and a new one starts on the other log, which opening empties. */
  function Swapped(s: Store): Store
    requires s.Shaped()
  {
    s.(reserve := Some(s.tree), tree := [], current := s.Other(), backups := s.backups[s.Other() := []])
  }

  function Copied(s: Store): Store
    requires s.Shaped()
  {
    s.(temp := s.files[s.Oldest2()])
  }

  function Emptied(s: Store): Store
    requires s.Shaped()
  {
    s.(files := s.files[s.Oldest2() := Blank])
  }

  /** Both inputs of the merge have their header. */
  ghost predicate MergeReady(s: Store)
    requires s.Shaped()
  {
    s.temp.Stamped? && s.files[s.Oldest1()].Stamped?
  }

  function MergedBack(s: Store): Store
    requires s.Shaped() && MergeReady(s)
  {
    s.(files := s.files[s.Oldest2() := MergedFile(s.temp, s.files[s.Oldest1()])], temp := Blank)
  }

  /** The dump overwrites the oldest file and marks the reserve's log as synced. */
  function Dumped(s: Store, now: nat): Store
    requires s.Shaped() && s.reserve.Some?
  {
    s.(files := s.files[s.Oldest1() := Stamped(now, s.reserve.value)],
       backups := s.backups[s.Other() := s.backups[s.Other()] + [Sync]])
  }

  function Published(s: Store): Store
    requires s.Shaped()
  {
    s.(recent := (s.recent + 1) % NUMFILES, backups := s.backups[s.Other() := []], reserve := None)
  }

  function ReserveFind(s: Store, k: Key): Option<Value> {
    if s.reserve.Some? then Find(s.reserve.value, k) else None
  }

  /** What a read finds under the memory lock. */
  function InMemory(s: Store, k: Key): Option<Value> {
    Override(Find(s.tree, k), ReserveFind(s, k))
  }

  /** The answer of a read that runs alone. */
  function Answer(s: Store, k: Key): Option<Value>
    requires s.Shaped()
  {
    if !(Bloom.Positions(k) <= s.bloom) then None
    else Override(InMemory(s, k), FindIn(Newest(s.files, s.recent), k))
  }

  /** The file of this age. */
  function Aged(s: Store, k: Key, age: nat): Option<Value>
    requires s.Shaped() && age < 10
  {
    FileFind(s.files[(s.recent + 10 - age) % 10], k)
  }

  /** Layer by layer: the filter can only deny; then tree, reserve and the files by age. */
  lemma AnswerTells(s: Store, k: Key)
    requires s.Shaped()
    ensures
      if !(Bloom.Positions(k) <= s.bloom) then Answer(s, k).None?
      else if Find(s.tree, k).Some? then Answer(s, k) == Find(s.tree, k)
      else if s.reserve.Some? && Find(s.reserve.value, k).Some? then Answer(s, k) == Find(s.reserve.value, k)
      else if forall age :: 0 <= age < 10 ==> Aged(s, k, age).None? then Answer(s, k).None?
      else exists age :: 0 <= age < 10 && Aged(s, k, age).Some? && Answer(s, k) == Aged(s, k, age)
                         && forall b :: 0 <= b < age ==> Aged(s, k, b).None?
  {
    var order := Newest(s.files, s.recent);
    assert forall age :: 0 <= age < 10 ==> FileFind(order[age], k) == Aged(s, k, age);
    if forall age :: 0 <= age < 10 ==> Aged(s, k, age).None? {
      forall age | 0 <= age < 10 ensures FileFind(order[age], k).None? { assert Aged(s, k, age).None?; }
      FindInNowhere(order, k);
    } else {
      var age := Youngest(s, k, 0);
      forall b | 0 <= b < age ensures FileFind(order[b], k).None? { assert Aged(s, k, b).None?; }
      FindInAt(order, age, k);
    }
  }

  /** The youngest file with the key. */
  lemma {:induction false} Youngest(s: Store, k: Key, from: nat) returns (age: nat)
    requires s.Shaped() && from < 10 && (exists a :: from <= a < 10 && Aged(s, k, a).Some?)
    requires forall b :: 0 <= b < from ==> Aged(s, k, b).None?
    ensures age < 10 && Aged(s, k, age).Some? && forall b :: 0 <= b < age ==> Aged(s, k, b).None?
    decreases 10 - from
  {
    age := from;
    if Aged(s, k, from).None? { age := Youngest(s, k, from + 1); }
  }

  /**
   What a whole adjust leaves, place by place: the reserve in the slot of the oldest file, a file
   with the stamp of the second oldest in its place, the log that is not live empty.
   */
  ghost predicate Turned(s: Store, t: Store, now: nat) {
    var old1, old2 := (s.recent + 1) % 10, (s.recent + 2) % 10;
    && |s.files| == |t.files| == 10 && |s.backups| == |t.backups| == 2 && s.current < 2 && s.reserve.Some?
    && t.recent == old1 && t.files[old1] == Stamped(now, s.reserve.value)
    && s.files[old2].Stamped? && t.files[old2].Stamped? && t.files[old2].stamp == s.files[old2].stamp
    && (forall i :: 0 <= i < 10 && i != old1 && i != old2 ==> t.files[i] == s.files[i])
    && t.reserve.None? && t.temp.Blank? && t.tree == s.tree && t.bloom == s.bloom && t.current == s.current
    && t.backups[s.current] == s.backups[s.current] && t.backups[1 - s.current] == []
  }

  lemma AdjustTells(s: Store, now: nat)
    requires s.Shaped() && s.reserve.Some? && Complete(s.files)
    ensures Turned(s, AdjustedStore(s, now), now)
  {
    OldestSlots(s);
    AdjustSteps(s, now);
  }

  /** The first half of an adjust: the two oldest files become one. */
  function MergedTwo(s: Store): (t: Store)
    requires s.Shaped() && Complete(s.files)
    ensures t == s.(temp := Blank,
                    files := s.files[s.Oldest2() := MergedFile(s.files[s.Oldest2()], s.files[s.Oldest1()])])
  {
    assert s.Oldest2() != s.Oldest1() by { OldestSlots(s); }
    MergedBack(Emptied(Copied(s)))
  }

  /** A whole adjust, run alone. */
  function AdjustedStore(s: Store, now: nat): Store
    requires s.Shaped() && s.reserve.Some? && Complete(s.files)
  {
    Published(Dumped(MergedTwo(s), now))
  }

  lemma AdjustSteps(s: Store, now: nat)
    requires s.Shaped() && s.reserve.Some? && Complete(s.files)
    ensures AdjustedStore(s, now)
         == s.(files := Adjusted(s.files, s.recent, s.reserve.value, now), temp := Blank,
               recent := s.Oldest1(), reserve := None, backups := s.backups[s.Other() := []])
  {
    OldestSlots(s);
  }
}
