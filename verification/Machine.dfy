/**
 Every interleaving of writes, tree swaps, a step-by-step adjust and any number of lock-split
 reads. `db` is the map the writes alone define; the store must answer like it throughout.
 */
module Machine {
  import opened Options
  import opened Entries
  import opened SortedEntries
  import opened MergeFiles
  import opened Log
  import opened Ring
  import opened Store
  import Bloom

  /** Where the adjust thread is; it holds the file lock in every phase but Idle. */
  datatype Phase = Idle | Begun | HasTemp | Cleared | HasMerged | HasDumped | Releasing

  /** A read past its memory-lock section: files visited so far, or the outcome. */
  datatype Progress = Scanning(age: nat) | Returned(value: Option<Value>)

  /** `seen` collects the answers `db` has had for the key since the read began. */
  datatype Reader = Reader(key: Key, recent: nat, epoch: nat, progress: Progress, seen: set<Option<Value>>)

  datatype State = State(
    store: Store,
    phase: Phase,
    epoch: nat,
    db: map<Key, Value>,
    readers: map<nat, Reader>)

  datatype Step =
    | DoWrite(key: Key, value: Value)
    | DoSwap
    | DoBegin | DoCopy | DoClear | DoMerge | DoDump(now: nat) | DoPublish | DoRelease
    | DoStart(id: nat, key: Key)
    | DoRead(id: nat)
    | DoReadLocked(id: nat)

  predicate IsScanning(st: State, id: nat) {
    id in st.readers && st.readers[id].progress.Scanning? && st.readers[id].recent < NUMFILES
  }

  predicate Enabled(st: State, step: Step)
    requires st.store.Shaped()
  {
    match step
    case DoWrite(_, _) => true
    case DoSwap => CanSwap(st.store)
    case DoBegin => st.phase == Idle && st.store.reserve.Some?
    case DoCopy => st.phase == Begun
    case DoClear => st.phase == HasTemp
    case DoMerge => st.phase == Cleared && st.store.temp.Stamped? && st.store.files[st.store.Oldest1()].Stamped?
    case DoDump(_) => st.phase == HasMerged && st.store.reserve.Some?
    case DoPublish => st.phase == HasDumped
    case DoRelease => st.phase == Releasing
    case DoStart(id, _) => id !in st.readers
    case DoRead(id) => IsScanning(st, id) && st.readers[id].progress.age < 8
    case DoReadLocked(id) => IsScanning(st, id) && st.readers[id].progress.age == 8 && st.phase == Idle
  }

  /** The section of a read under the memory lock. */
  function Snapshot(st: State, k: Key): Reader
    requires st.store.Shaped()
  {
    var seen := {Live(Lookup(st.db, k))};
    var now := InMemory(st.store, k);
    var progress :=
      if !(Bloom.Positions(k) <= st.store.bloom) then Returned(None)
      else if now.Some? then Returned(now)
      else Scanning(0);
    Reader(k, st.store.recent, st.epoch, progress, seen)
  }

  function FileAt(st: State, r: Reader, age: nat): Option<Value>
    requires st.store.Shaped() && r.recent < NUMFILES && age < NUMFILES
  {
    FileFind(st.store.files[Slot(r.recent, age)], r.key)
  }

  /** One file looked at without the file lock. */
  function ReadOne(st: State, r: Reader): Reader
    requires st.store.Shaped() && r.recent < NUMFILES && r.progress.Scanning? && r.progress.age < 8
  {
    var found := FileAt(st, r, r.progress.age);
    r.(progress := if found.Some? then Returned(found) else Scanning(r.progress.age + 1))
  }

  /** The last two files, looked at under the file lock. */
  function ReadLast(st: State, r: Reader): Reader
    requires st.store.Shaped() && r.recent < NUMFILES
  {
    r.(progress := Returned(Override(FileAt(st, r, 8), FileAt(st, r, 9))))
  }

  /** A scanning read notes the answer its key has now. */
  function Note(r: Reader, db: map<Key, Value>): Reader {
    if r.progress.Scanning? then r.(seen := r.seen + {Live(Lookup(db, r.key))}) else r
  }

  function Do(st: State, step: Step): State
    requires st.store.Shaped() && Enabled(st, step)
  {
    var s := st.store;
    match step
    case DoWrite(k, v) =>
      var db := st.db[k := v];
      st.(store := Written(s, k, v), db := db, readers := map id | id in st.readers :: Note(st.readers[id], db))
    case DoSwap => st.(store := Swapped(s))
    case DoBegin => st.(phase := Begun)
    case DoCopy => st.(store := Copied(s), phase := HasTemp)
    case DoClear => st.(store := Emptied(s), phase := Cleared)
    case DoMerge => st.(store := MergedBack(s), phase := HasMerged)
    case DoDump(now) => st.(store := Dumped(s, now), phase := HasDumped)
    case DoPublish => st.(store := Published(s), phase := Releasing, epoch := st.epoch + 1)
    case DoRelease => st.(phase := Idle)
    case DoStart(id, k) => st.(readers := st.readers[id := Snapshot(st, k)])
    case DoRead(id) => st.(readers := st.readers[id := ReadOne(st, st.readers[id])])
    case DoReadLocked(id) => st.(readers := st.readers[id := ReadLast(st, st.readers[id])])
  }

  // What holds of the store at every step

  /** The files that still count, newest first: a merge in progress keeps its inputs in view. */
  function Ringed(st: State): (order: seq<File>)
    requires st.store.Shaped()
    ensures |order| >= 9
  {
    var order := Newest(st.store.files, st.store.recent);
    if st.phase == Cleared then order[..8] + [st.store.temp, order[9]]
    else if st.phase in {HasMerged, HasDumped} then order[..9]
    else order
  }

  /** The oldest file: in the phase HasMerged it has been merged but not yet been overwritten. */
  function OldestFile(st: State): File
    requires st.store.Shaped()
  {
    st.store.files[st.store.Oldest1()]
  }

  function MergedSlot(st: State): File
    requires st.store.Shaped()
  {
    st.store.files[st.store.Oldest2()]
  }

  function Layers(st: State, k: Key): Option<Value>
    requires st.store.Shaped()
  {
    Override(InMemory(st.store, k), FindIn(Ringed(st), k))
  }

  ghost predicate FilesOk(st: State)
    requires st.store.Shaped()
  {
    && (forall i {:trigger st.store.files[i]} :: 0 <= i < NUMFILES ==>
          SortedFile(st.store.files[i])
          && (st.store.files[i].Blank? ==> st.phase == Cleared && i == st.store.Oldest2()))
    && (st.phase in {HasTemp, Cleared} ==> st.store.temp.Stamped? && SortedFile(st.store.temp))
    && (st.phase == HasTemp ==> st.store.temp == st.store.files[st.store.Oldest2()])
    && (st.phase == Cleared ==> st.store.files[st.store.Oldest2()].Blank?)
  }

  ghost predicate ReserveOk(st: State)
    requires st.store.Shaped()
  {
    && Ascending(st.store.tree)
    && (st.store.reserve.Some? ==>
          Ascending(st.store.reserve.value) && |st.store.reserve.value| >= MAX_TREE_SIZE)
    && (st.phase !in {Idle, Releasing} ==> st.store.reserve.Some?)
    && (st.phase == HasDumped ==>
          st.store.files[st.store.Oldest1()].Stamped?
          && st.store.files[st.store.Oldest1()].entries == st.store.reserve.value)
  }

  /** The filter covers every key ever written. */
  ghost predicate FilterOk(st: State) {
    forall k :: k in st.db ==> Bloom.Positions(k) <= st.store.bloom
  }

  /** The layers together answer as the map of all writes. */
  ghost predicate Refines(st: State)
    requires st.store.Shaped()
  {
    forall k: Key :: Live(Layers(st, k)) == Live(Lookup(st.db, k))
  }

  /**
   Each tree can be rebuilt from its own log: the live one always, the reserve until its dump is
   in a file, and from then on that log stands for nothing. No log is left over when there is no
   reserve.
   */
  ghost predicate LogsOk(st: State)
    requires st.store.Shaped()
  {
    && st.store.tree == Replay(st.store.backups[st.store.current])
    && (st.store.reserve.Some? && st.phase != HasDumped ==>
          st.store.reserve.value == Replay(st.store.backups[st.store.Other()]))
    && (st.phase == HasDumped ==> Replay(st.store.backups[st.store.Other()]) == [])
    && (st.store.reserve.None? ==> st.store.backups[st.store.Other()] == [])
  }

  ghost predicate StoreInv(st: State) {
    st.store.Shaped() && FilesOk(st) && ReserveOk(st) && FilterOk(st) && Refines(st) && LogsOk(st)
  }

  // Step by step

  lemma WriteLayers(st: State, k: Key, v: Value, q: Key)
    requires st.store.Shaped() && Ascending(st.store.tree)
    ensures Layers(Do(st, DoWrite(k, v)), q) == if q == k then Some(v) else Layers(st, q)
  {
    PutFind(st.store.tree, k, v, q);
    assert Ringed(Do(st, DoWrite(k, v))) == Ringed(st);
  }

  lemma WriteRefines(st: State, k: Key, v: Value)
    requires st.store.Shaped() && Ascending(st.store.tree) && Refines(st)
    ensures Refines(Do(st, DoWrite(k, v)))
  {
    var after := Do(st, DoWrite(k, v));
    forall q: Key ensures Live(Layers(after, q)) == Live(Lookup(after.db, q)) {
      WriteLayers(st, k, v, q);
      assert Live(Layers(st, q)) == Live(Lookup(st.db, q));
    }
  }

  lemma OtherLog(s: Store)
    requires s.Shaped()
    ensures s.Other() < 2 && s.Other() != s.current
  {
  }

  lemma WriteLogs(st: State, k: Key, v: Value)
    requires st.store.Shaped() && Ascending(st.store.tree) && LogsOk(st)
    ensures LogsOk(Do(st, DoWrite(k, v))) && Ascending(Do(st, DoWrite(k, v)).store.tree)
  {
    PutAscending(st.store.tree, k, v);
    ReplayAppend(st.store.backups[st.store.current], Write(k, v));
    var before, after := st.store, Do(st, DoWrite(k, v)).store;
    OtherLog(before);
    assert after.current == before.current && after.Other() == before.Other();
    assert after.backups[after.current] == before.backups[before.current] + [Write(k, v)];
    assert after.backups[after.Other()] == before.backups[before.Other()];
  }

  /** A write leaves files and reserve alone and marks its key in the filter. */
  lemma WriteFiles(st: State, k: Key, v: Value)
    requires st.store.Shaped() && FilesOk(st) && FilterOk(st) && ReserveOk(st)
    ensures Do(st, DoWrite(k, v)).store.Shaped()
    ensures FilesOk(Do(st, DoWrite(k, v))) && FilterOk(Do(st, DoWrite(k, v)))
    ensures Ascending(Do(st, DoWrite(k, v)).store.tree) ==> ReserveOk(Do(st, DoWrite(k, v)))
  {
  }

  lemma WriteKeeps(st: State, k: Key, v: Value)
    requires StoreInv(st)
    ensures StoreInv(Do(st, DoWrite(k, v)))
  {
    WriteFiles(st, k, v);
    WriteRefines(st, k, v);
    WriteLogs(st, k, v);
  }

  lemma SwapKeeps(st: State)
    requires StoreInv(st) && Enabled(st, DoSwap)
    ensures StoreInv(Do(st, DoSwap))
  {
    var after := Do(st, DoSwap);
    forall q: Key ensures Live(Layers(after, q)) == Live(Lookup(after.db, q)) {
      assert Live(Layers(st, q)) == Live(Lookup(st.db, q));
    }
  }

  /** The merge turns the two oldest of the ringed files into one. */
  lemma RingedMerges(st: State)
    requires st.store.Shaped() && FilesOk(st) && Enabled(st, DoMerge)
    ensures var newest := Newest(st.store.files, st.store.recent)[..8];
      var temp, last := st.store.temp, st.store.files[st.store.Oldest1()];
      && Ringed(st) == newest + [temp, last]
      && Ringed(Do(st, DoMerge)) == newest + [MergedFile(temp, last)]
  {
    OldestSlots(st.store);
  }

  /** The ringed files answer alike before and after the merge of the two oldest ones. */
  lemma RingedMerge(st: State, q: Key)
    requires st.store.Shaped() && FilesOk(st) && Enabled(st, DoMerge)
    ensures Live(FindIn(Ringed(Do(st, DoMerge)), q)) == Live(FindIn(Ringed(st), q))
  {
    RingedMerges(st);
    var newest := Newest(st.store.files, st.store.recent)[..8];
    var temp, last := st.store.temp, st.store.files[st.store.Oldest1()];
    FindInConcat(newest, [temp, last], q);
    FindInConcat(newest, [MergedFile(temp, last)], q);
    assert [temp] + [last] == [temp, last];
    FindInConcat([temp], [last], q);
    MergedFind(temp.entries, last.entries, q);
  }

  lemma TenFiles(order: seq<File>, cleared: seq<File>)
    requires |order| == |cleared| == NUMFILES
    requires forall age :: 0 <= age < NUMFILES && age != 8 ==> cleared[age] == order[age]
    ensures cleared[..8] + [order[8], cleared[9]] == order
  {
  }

  lemma RingedClear(st: State)
    requires st.store.Shaped() && FilesOk(st) && Enabled(st, DoClear)
    ensures Ringed(Do(st, DoClear)) == Ringed(st)
  {
    OldestSlots(st.store);
    var order := Newest(st.store.files, st.store.recent);
    var after := Do(st, DoClear);
    var cleared := Newest(after.store.files, after.store.recent);
    forall age | 0 <= age < NUMFILES && age != 8 ensures cleared[age] == order[age] {
      SlotsApart(st.store.recent, age, 8);
      assert cleared[age] == after.store.files[Slot(st.store.recent, age)];
    }
    assert order[8] == st.store.temp;
    TenFiles(order, cleared);
  }

  lemma RingedDump(st: State, now: nat)
    requires st.store.Shaped() && Enabled(st, DoDump(now))
    ensures Ringed(Do(st, DoDump(now))) == Ringed(st)
  {
    OldestSlots(st.store);
    var after := Do(st, DoDump(now));
    forall age | 0 <= age < 9 ensures Ringed(after)[age] == Ringed(st)[age] {
      assert Ringed(after)[age] == after.store.files[Slot(st.store.recent, age)];
    }
  }

  /** Publishing puts the dump in front: the reserve answers from its file now. */
  lemma RingedPublish(st: State, q: Key)
    requires st.store.Shaped() && Enabled(st, DoPublish)
    ensures Ringed(Do(st, DoPublish)) == [st.store.files[st.store.Oldest1()]] + Ringed(st)
    ensures FindIn(Ringed(Do(st, DoPublish)), q)
         == Override(FileFind(st.store.files[st.store.Oldest1()], q), FindIn(Ringed(st), q))
  {
    OldestSlots(st.store);
    var after := Do(st, DoPublish);
    var next, order := after.store.recent, Newest(st.store.files, st.store.recent);
    forall age | 0 <= age < NUMFILES ensures Ringed(after)[age] == ([order[9]] + order[..9])[age] {
      if age > 0 { assert Slot(next, age) == Slot(st.store.recent, age - 1); }
    }
    FindInConcat([order[9]], Ringed(st), q);
  }

  /** Outside the middle of an adjust the files stay as they are. */
  lemma QuietFiles(st: State, step: Step)
    requires st.store.Shaped() && Enabled(st, step)
    requires step !in {DoClear, DoMerge, DoPublish} && !step.DoDump?
    ensures var after := Do(st, step);
      && after.store.Shaped() && after.store.files == st.store.files && after.store.recent == st.store.recent
      && (st.phase in {Cleared, HasMerged, HasDumped} || after.phase in {Cleared, HasMerged, HasDumped} ==>
            after.phase == st.phase && after.store.temp == st.store.temp)
  {
  }

  lemma RingedSame(st: State, after: State)
    requires st.store.Shaped() && after.store.Shaped()
    requires after.store.files == st.store.files && after.store.recent == st.store.recent
    requires st.phase in {Cleared, HasMerged, HasDumped} || after.phase in {Cleared, HasMerged, HasDumped} ==>
      after.phase == st.phase && after.store.temp == st.store.temp
    ensures Ringed(after) == Ringed(st) && OldestFile(after) == OldestFile(st)
  {
  }

  lemma MergeKeeps(st: State)
    requires StoreInv(st) && Enabled(st, DoMerge)
    ensures StoreInv(Do(st, DoMerge))
  {
    var after := Do(st, DoMerge);
    MergedAscending(st.store.temp.entries, st.store.files[st.store.Oldest1()].entries);
    forall q: Key ensures Live(Layers(after, q)) == Live(Lookup(after.db, q)) {
      RingedMerge(st, q);
      assert Live(Layers(st, q)) == Live(Lookup(st.db, q));
    }
  }

  lemma PublishKeeps(st: State)
    requires StoreInv(st) && Enabled(st, DoPublish)
    ensures StoreInv(Do(st, DoPublish))
  {
    var after := Do(st, DoPublish);
    forall q: Key ensures Live(Layers(after, q)) == Live(Lookup(after.db, q)) {
      RingedPublish(st, q);
      assert Live(Layers(st, q)) == Live(Lookup(st.db, q));
    }
  }

  lemma ClearKeeps(st: State)
    requires StoreInv(st) && Enabled(st, DoClear)
    ensures StoreInv(Do(st, DoClear))
  {
    var after := Do(st, DoClear);
    RingedClear(st);
    forall q: Key ensures Live(Layers(after, q)) == Live(Lookup(after.db, q)) {
      assert Live(Layers(st, q)) == Live(Lookup(st.db, q));
    }
  }

  lemma DumpKeeps(st: State, now: nat)
    requires StoreInv(st) && Enabled(st, DoDump(now))
    ensures StoreInv(Do(st, DoDump(now)))
  {
    var after := Do(st, DoDump(now));
    RingedDump(st, now);
    forall q: Key ensures Live(Layers(after, q)) == Live(Lookup(after.db, q)) {
      assert Live(Layers(st, q)) == Live(Lookup(st.db, q));
    }
  }

  /** The steps that change neither the layers nor the map. */
  lemma QuietKeeps(st: State, step: Step)
    requires StoreInv(st) && Enabled(st, step)
    requires step in {DoBegin, DoCopy, DoRelease} || step.DoStart? || step.DoRead? || step.DoReadLocked?
    ensures StoreInv(Do(st, step))
  {
    var after := Do(st, step);
    assert Ringed(after) == Ringed(st);
    assert Refines(after) by {
      forall q: Key ensures Live(Layers(after, q)) == Live(Lookup(after.db, q)) {
        assert Layers(after, q) == Layers(st, q);
        assert Live(Layers(st, q)) == Live(Lookup(st.db, q));
      }
    }
  }

  /** Every step keeps the store answering like the map of all writes. */
  lemma StepKeepsStore(st: State, step: Step)
    requires StoreInv(st) && Enabled(st, step)
    ensures StoreInv(Do(st, step))
  {
    match step
    case DoWrite(k, v) => WriteKeeps(st, k, v);
    case DoSwap => SwapKeeps(st);
    case DoClear => ClearKeeps(st);
    case DoMerge => MergeKeeps(st);
    case DoDump(now) => DumpKeeps(st, now);
    case DoPublish => PublishKeeps(st);
    case _ => QuietKeeps(st, step);
  }

  /** A read that runs alone while no adjust is at work on the files answers like the map. */
  lemma AnswersLikeMap(st: State, k: Key)
    requires StoreInv(st) && st.phase == Idle
    ensures Live(Answer(st.store, k)) == Live(Lookup(st.db, k))
  {
    assert Live(Layers(st, k)) == Live(Lookup(st.db, k));
  }

  // Runs

  /** A run: from a consistent store with no reads under way, one enabled step after another. */
  ghost predicate IsRun(run: seq<State>, steps: seq<Step>) {
    && |run| == |steps| + 1
    && StoreInv(run[0]) && run[0].readers == map[]
    && forall i {:trigger steps[i]} :: 0 <= i < |steps| ==> Follows(run[i], steps[i], run[i + 1])
  }

  ghost predicate Follows(before: State, step: Step, after: State) {
    before.store.Shaped() && Enabled(before, step) && after == Do(before, step)
  }

  lemma {:induction false} RunInv(run: seq<State>, steps: seq<Step>, i: nat)
    requires IsRun(run, steps) && i < |run|
    ensures StoreInv(run[i])
  {
    if i > 0 {
      RunInv(run, steps, i - 1);
      assert Follows(run[i - 1], steps[i - 1], run[i]);
      StepKeepsStore(run[i - 1], steps[i - 1]);
    }
  }

  /** At position m the read is under way, or has just done its memory-lock section. */
  ghost predicate During(run: seq<State>, id: nat, m: nat) {
    && m < |run| && id in run[m].readers
    && (run[m].readers[id].progress.Scanning? || (m > 0 && id !in run[m - 1].readers))
  }

  ghost predicate HadAnswer(run: seq<State>, id: nat, k: Key, a: Option<Value>, upto: nat) {
    exists m :: 0 <= m <= upto && During(run, id, m) && Live(Lookup(run[m].db, k)) == a
  }

  /** A step adds to what a read has noted only the answer its key has right after the step. */
  lemma StepSeen(st: State, step: Step, id: nat, a: Option<Value>)
    requires st.store.Shaped() && Enabled(st, step)
    requires id in Do(st, step).readers && a in Do(st, step).readers[id].seen
    ensures var r := Do(st, step).readers[id];
      || (id in st.readers && a in st.readers[id].seen && r.key == st.readers[id].key)
      || (a == Live(Lookup(Do(st, step).db, r.key)) && (r.progress.Scanning? || id !in st.readers))
  {
  }

  /** Everything a read has noted was its key's answer at some moment of the read. */
  lemma {:induction false} SeenHappened(run: seq<State>, steps: seq<Step>, id: nat, i: nat, a: Option<Value>)
    requires IsRun(run, steps) && i < |run| && id in run[i].readers && a in run[i].readers[id].seen
    ensures HadAnswer(run, id, run[i].readers[id].key, a, i)
  {
    if i > 0 {
      assert Follows(run[i - 1], steps[i - 1], run[i]);
      StepSeen(run[i - 1], steps[i - 1], id, a);
      if id in run[i - 1].readers && a in run[i - 1].readers[id].seen
         && run[i].readers[id].key == run[i - 1].readers[id].key
      {
        SeenHappened(run, steps, id, i - 1, a);
      } else {
        assert During(run, id, i);
      }
    }
  }

  // Paths: runs given by their ends

  /** These steps, one after the other, lead from a to b. */
  ghost predicate Path(a: State, steps: seq<Step>, b: State)
    decreases |steps|
  {
    if steps == [] then a == b
    else a.store.Shaped() && Enabled(a, steps[0]) && Path(Do(a, steps[0]), steps[1..], b)
  }

  lemma PathOne(a: State, step: Step)
    requires a.store.Shaped() && Enabled(a, step)
    ensures Path(a, [step], Do(a, step))
  {
    assert [step][1..] == [];
  }

  lemma {:induction false} PathConcat(a: State, steps: seq<Step>, b: State, more: seq<Step>, c: State)
    requires Path(a, steps, b) && Path(b, more, c)
    ensures Path(a, steps + more, c)
    decreases |steps|
  {
    if steps == [] {
      assert steps + more == more;
    } else {
      PathConcat(Do(a, steps[0]), steps[1..], b, more, c);
      assert (steps + more)[1..] == steps[1..] + more;
    }
  }

  lemma PathThen(a: State, steps: seq<Step>, b: State, step: Step)
    requires Path(a, steps, b) && b.store.Shaped() && Enabled(b, step)
    ensures Path(a, steps + [step], Do(b, step))
  {
    PathOne(b, step);
    PathConcat(a, steps, b, [step], Do(b, step));
  }

  // A read that runs alone

  /** Its steps from a file on. */
  lemma {:induction false} LoneScan(st: State, id: nat, age: nat) returns (steps: seq<Step>, end: State)
    requires st.store.Shaped() && st.phase == Idle && id in st.readers && age <= 8
    requires st.readers[id].progress == Scanning(age) && st.readers[id].recent == st.store.recent
    ensures Path(st, steps, end)
    ensures forall j :: 0 <= j < |steps| ==> steps[j] == DoRead(id) || steps[j] == DoReadLocked(id)
    ensures end.store == st.store && id in end.readers
    ensures end.readers[id].progress
         == Returned(FindIn(Newest(st.store.files, st.store.recent)[age..], st.readers[id].key))
    decreases 8 - age
  {
    var order, k := Newest(st.store.files, st.store.recent), st.readers[id].key;
    if age == 8 {
      PathOne(st, DoReadLocked(id));
      steps, end := [DoReadLocked(id)], Do(st, DoReadLocked(id));
      assert order[8..] == [order[8]] + [order[9]];
      FindInConcat([order[8]], [order[9]], k);
    } else {
      PathOne(st, DoRead(id));
      steps, end := [DoRead(id)], Do(st, DoRead(id));
      assert order[age..][0] == order[age] && order[age..][1..] == order[age + 1..];
      if FileFind(order[age], k).None? {
        var more;
        var next := end;
        more, end := LoneScan(next, id, age + 1);
        PathConcat(st, [DoRead(id)], next, more, end);
        steps := [DoRead(id)] + more;
      }
    }
  }

  /** Run alone with no adjust at work, the steps of a read return what the layers answer. */
  lemma LoneRead(st: State, id: nat, k: Key) returns (steps: seq<Step>, end: State)
    requires st.store.Shaped() && st.phase == Idle && id !in st.readers
    ensures Path(st, steps, end) && steps != [] && steps[0] == DoStart(id, k)
    ensures forall j :: 1 <= j < |steps| ==> steps[j] == DoRead(id) || steps[j] == DoReadLocked(id)
    ensures end.store == st.store && id in end.readers && end.readers[id].progress == Returned(Answer(st.store, k))
  {
    PathOne(st, DoStart(id, k));
    steps, end := [DoStart(id, k)], Do(st, DoStart(id, k));
    if end.readers[id].progress.Scanning? {
      var more;
      var next := end;
      more, end := LoneScan(next, id, 0);
      PathConcat(st, [DoStart(id, k)], next, more, end);
      steps := [DoStart(id, k)] + more;
      assert Newest(st.store.files, st.store.recent)[0..] == Newest(st.store.files, st.store.recent);
    }
  }

  /** The states a path goes through. */
  lemma {:induction false} PathIsRun(a: State, steps: seq<Step>, b: State) returns (run: seq<State>)
    requires Path(a, steps, b)
    ensures |run| == |steps| + 1 && run[0] == a && run[|steps|] == b
    ensures forall i {:trigger steps[i]} :: 0 <= i < |steps| ==> Follows(run[i], steps[i], run[i + 1])
    decreases |steps|
  {
    if steps == [] {
      run := [a];
    } else {
      var more := PathIsRun(Do(a, steps[0]), steps[1..], b);
      run := [a] + more;
      forall i | 0 <= i < |steps| ensures Follows(run[i], steps[i], run[i + 1]) {
        if i > 0 { assert Follows(more[i - 1], steps[1..][i - 1], more[i]); }
      }
    }
  }

  function WholeAdjust(now: nat): seq<Step> {
    [DoBegin, DoCopy, DoClear, DoMerge] + [DoDump(now), DoPublish, DoRelease]
  }

  lemma FirstHalf(st: State)
    requires st.store.Shaped() && Complete(st.store.files) && st.phase == Idle && st.store.reserve.Some?
    ensures Path(st, [DoBegin, DoCopy, DoClear, DoMerge], st.(store := MergedTwo(st.store), phase := HasMerged))
  {
    OldestSlots(st.store);
    var s1 := st.(phase := Begun);
    var s2 := st.(store := Copied(st.store), phase := HasTemp);
    PathOne(st, DoBegin);
    PathThen(st, [DoBegin], s1, DoCopy);
    MergeHalf(st, s2);
    PathConcat(st, [DoBegin, DoCopy], s2, [DoClear, DoMerge], st.(store := MergedTwo(st.store), phase := HasMerged));
  }

  lemma MergeHalf(st: State, copied: State)
    requires st.store.Shaped() && Complete(st.store.files)
    requires copied == st.(store := Copied(st.store), phase := HasTemp)
    ensures Path(copied, [DoClear, DoMerge], st.(store := MergedTwo(st.store), phase := HasMerged))
  {
    OldestSlots(st.store);
    var cleared := copied.(store := Emptied(copied.store), phase := Cleared);
    PathOne(copied, DoClear);
    PathThen(copied, [DoClear], cleared, DoMerge);
  }

  lemma SecondHalf(st: State, now: nat)
    requires st.store.Shaped() && st.phase == HasMerged && st.store.reserve.Some?
    ensures Path(st, [DoDump(now), DoPublish, DoRelease],
                 st.(store := Published(Dumped(st.store, now)), phase := Idle, epoch := st.epoch + 1))
  {
    var s1 := Do(st, DoDump(now));
    var s2 := Do(s1, DoPublish);
    PathOne(st, DoDump(now));
    PathOne(s1, DoPublish);
    PathOne(s2, DoRelease);
    PathConcat(st, [DoDump(now)], s1, [DoPublish], s2);
    PathConcat(st, [DoDump(now), DoPublish], s2, [DoRelease], Do(s2, DoRelease));
  }

  /** Run without interruption, the seven steps make the adjusted store. */
  lemma AdjustPath(st: State, now: nat)
    requires st.store.Shaped() && Complete(st.store.files) && st.phase == Idle && st.store.reserve.Some?
    ensures Path(st, WholeAdjust(now), st.(store := AdjustedStore(st.store, now), epoch := st.epoch + 1))
  {
    FirstHalf(st);
    SecondHalfOf(st, now);
    PathConcat(st, [DoBegin, DoCopy, DoClear, DoMerge], st.(store := MergedTwo(st.store), phase := HasMerged),
               [DoDump(now), DoPublish, DoRelease],
               st.(store := AdjustedStore(st.store, now), epoch := st.epoch + 1));
  }

  lemma SecondHalfOf(st: State, now: nat)
    requires st.store.Shaped() && Complete(st.store.files) && st.phase == Idle && st.store.reserve.Some?
    ensures Path(st.(store := MergedTwo(st.store), phase := HasMerged), [DoDump(now), DoPublish, DoRelease],
                 st.(store := AdjustedStore(st.store, now), epoch := st.epoch + 1))
  {
    var half := st.(store := MergedTwo(st.store), phase := HasMerged);
    SecondHalf(half, now);
    assert AdjustedStore(st.store, now) == Published(Dumped(half.store, now));
  }

  // Stores in which no value is a deletion mark

  ghost predicate CleanFile(f: File) {
    f.Stamped? ==> NoTombs(f.entries)
  }

  ghost predicate CleanStore(s: Store) {
    && NoTombs(s.tree) && (s.reserve.Some? ==> NoTombs(s.reserve.value)) && CleanFile(s.temp)
    && forall i :: 0 <= i < |s.files| ==> CleanFile(s.files[i])
  }

  ghost predicate CleanReader(r: Reader) {
    r.progress.Returned? ==> Live(r.progress.value) == r.progress.value
  }

  ghost predicate Clean(st: State) {
    && CleanStore(st.store)
    && (forall k :: k in st.db ==> !IsTomb(st.db[k]))
    && (forall id :: id in st.readers ==> CleanReader(st.readers[id]))
  }

  ghost predicate NoMarkWritten(step: Step) {
    step.DoWrite? ==> !IsTomb(step.value)
  }

  lemma CleanFileFind(f: File, k: Key)
    requires CleanFile(f)
    ensures Live(FileFind(f, k)) == FileFind(f, k)
  {
    if f.Stamped? { NoTombsFind(f.entries, k); }
  }

  lemma StepKeepsCleanStore(st: State, step: Step)
    requires st.store.Shaped() && Enabled(st, step) && CleanStore(st.store) && NoMarkWritten(step)
    ensures CleanStore(Do(st, step).store)
  {
    if step.DoWrite? { PutNoTombs(st.store.tree, step.key, step.value); }
    if step.DoMerge? { MergedEntries(st.store.temp.entries, st.store.files[st.store.Oldest1()].entries); }
  }

  lemma StepKeepsClean(st: State, step: Step)
    requires st.store.Shaped() && Enabled(st, step) && Clean(st) && NoMarkWritten(step)
    ensures Clean(Do(st, step))
  {
    StepKeepsCleanStore(st, step);
    var after := Do(st, step);
    forall id | id in after.readers ensures CleanReader(after.readers[id]) {
      if step.DoStart? && id == step.id {
        NoTombsFind(st.store.tree, step.key);
        if st.store.reserve.Some? { NoTombsFind(st.store.reserve.value, step.key); }
      } else if step.DoRead? && id == step.id {
        var r := st.readers[id];
        CleanFileFind(st.store.files[Slot(r.recent, r.progress.age)], r.key);
      } else if step.DoReadLocked? && id == step.id {
        var r := st.readers[id];
        CleanFileFind(st.store.files[Slot(r.recent, 8)], r.key);
        CleanFileFind(st.store.files[Slot(r.recent, 9)], r.key);
      } else {
        assert CleanReader(st.readers[id]);
      }
    }
  }

  lemma {:induction false} RunClean(run: seq<State>, steps: seq<Step>, i: nat)
    requires IsRun(run, steps) && i < |run| && Clean(run[0])
    requires forall j :: 0 <= j < |steps| ==> NoMarkWritten(steps[j])
    ensures Clean(run[i])
  {
    if i > 0 {
      RunClean(run, steps, i - 1);
      assert Follows(run[i - 1], steps[i - 1], run[i]);
      StepKeepsClean(run[i - 1], steps[i - 1]);
    }
  }

  // The adjust itself

  lemma SlotsDiffer(recent: nat, u: nat)
    requires recent < NUMFILES && u < 8
    ensures Slot(recent, u) != (recent + 1) % NUMFILES && Slot(recent, u) != (recent + 2) % NUMFILES
  {
  }

  /** Once begun, an adjust always has its next step enabled, and only that one of its steps. */
  lemma AdjustNeverStuck(st: State, now: nat)
    requires StoreInv(st)
    ensures st.phase == Idle ==> (Enabled(st, DoBegin) <==> st.store.reserve.Some?)
    ensures st.phase == Begun ==> Enabled(st, DoCopy)
    ensures st.phase == HasTemp ==> Enabled(st, DoClear)
    ensures st.phase == Cleared ==> Enabled(st, DoMerge)
    ensures st.phase == HasMerged ==> Enabled(st, DoDump(now))
    ensures st.phase == HasDumped ==> Enabled(st, DoPublish)
    ensures st.phase == Releasing ==> Enabled(st, DoRelease)
    ensures st.phase !in {Idle, Releasing} ==> !Enabled(st, DoSwap)
  {
    OldestSlots(st.store);
    SlotsDiffer(st.store.recent, 0);
    assert st.store.Oldest1() != st.store.Oldest2();
  }

  /**
   A log is emptied in two places, and neither loses a tree: a swap empties a log that is empty
   already, and publishing empties the log of a reserve whose every entry is in a file of the ring.
   */
  lemma TruncationLosesNothing(st: State, step: Step, i: nat)
    requires StoreInv(st) && Enabled(st, step) && i < 2
    requires !(st.store.backups[i] <= Do(st, step).store.backups[i])
    ensures step == DoPublish && i == st.store.Other() && st.store.reserve.Some?
    ensures var newest := Do(st, step).store.files[Do(st, step).store.recent];
      newest.Stamped? && newest.entries == st.store.reserve.value
  {
  }
}
