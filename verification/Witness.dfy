/**
 Two runs from a booted store on which the store fails: a read overtaken by two adjusts reports a
 key absent that is there all the time, and a restart brings back the older of two values.
 */
module Witness {
  import opened Options
  import opened Entries
  import opened SortedEntries
  import opened MergeFiles
  import opened Log
  import opened Ring
  import opened Store
  import opened Machine
  import opened Recovery
  import opened Reads
  import opened Overtaken
  import Bloom

  ghost predicate NoWriteTo(steps: seq<Step>, k: Key) {
    forall j :: 0 <= j < |steps| ==> !Writes(steps[j], k)
  }

  // Enough writes to fill a tree

  const FULL := MAX_TREE_SIZE

  /** A value as long as the source's, made of one byte. */
  function Bytes(b: bv8): (v: Value)
    ensures |v| == VAL_SIZE && v[0] == b
  {
    seq(VAL_SIZE, _ => b)
  }

  function Plain(): Value { Bytes(1) }

  function Filler(n: nat): seq<Entry> {
    seq(n, i requires 0 <= i < n => Entry(i + 1, Plain()))
  }

  function FillerLog(n: nat): seq<Record> {
    seq(n, i requires 0 <= i < n => Write(i + 1, Plain()))
  }

  lemma FillerGrows(n: nat)
    ensures FillerLog(n + 1) == FillerLog(n) + [Write(n + 1, Plain())]
    ensures Put(Filler(n), n + 1, Plain()) == Filler(n + 1)
  {
    assert Filler(n) + [] == Filler(n);
    PutConcat(Filler(n), [], n + 1, Plain());
    assert Filler(n + 1) == Filler(n) + [Entry(n + 1, Plain())];
  }

  lemma FillerFind(n: nat)
    ensures Find(Filler(n), 0).None?
  {
    FindNowhere(Filler(n), 0);
  }

  predicate IsBit(s: nat) {
    s < Bloom.BITS
  }

  /** A filter that has seen many keys: every position is marked. */
  function AllMarks(): set<nat> {
    set s: nat | s < Bloom.BITS && IsBit(s)
  }

  lemma AllMarked(k: Key)
    ensures Bloom.Positions(k) <= AllMarks() && AllMarks() + Bloom.Positions(k) == AllMarks()
  {
    assert IsBit(Bloom.Piece(k, 0)) && IsBit(Bloom.Piece(k, 1)) && IsBit(Bloom.Piece(k, 2));
  }

  lemma WriteFollows(st: State, k: Key, v: Value)
    requires st.store.Shaped() && st.store.bloom == AllMarks() && st.readers == map[]
    ensures var s := st.store;
      Follows(st, DoWrite(k, v), st.(db := st.db[k := v],
        store := s.(tree := Put(s.tree, k, v),
                    backups := s.backups[s.current := s.backups[s.current] + [Write(k, v)]])))
  {
    AllMarked(k);
    assert Do(st, DoWrite(k, v)).readers == map[];
  }

  /** A step more at the end of a path. */
  lemma Append(a: State, steps: seq<Step>, b: State, step: Step, c: State)
    requires Path(a, steps, b) && Follows(b, step, c)
    ensures Path(a, steps + [step], c)
  {
    PathThen(a, steps, b, step);
  }

  function Filled(st: State, n: nat, db: map<Key, Value>): State
    requires st.store.Shaped()
  {
    st.(db := db,
        store := st.store.(tree := Filler(n), backups := st.store.backups[st.store.current := FillerLog(n)]))
  }

  /** From an empty tree on an empty log, n writes lead to the filler. */
  lemma {:induction false} Fills(st: State, n: nat) returns (steps: seq<Step>, db: map<Key, Value>)
    requires st.store.Shaped() && st.store.tree == [] && st.store.backups[st.store.current] == []
    requires st.store.bloom == AllMarks() && st.readers == map[]
    ensures Path(st, steps, Filled(st, n, db)) && NoWriteTo(steps, 0)
  {
    if n == 0 {
      steps, db := [], st.db;
      assert st.store.backups[st.store.current := []] == st.store.backups;
      assert Filled(st, 0, db) == st;
    } else {
      steps, db := Fills(st, n - 1);
      var before := Filled(st, n - 1, db);
      FillerGrows(n - 1);
      WriteFollows(before, n, Plain());
      db := db[n := Plain()];
      assert before.store.backups[before.store.current := FillerLog(n - 1) + [Write(n, Plain())]]
        == st.store.backups[st.store.current := FillerLog(n)];
      Append(st, steps, before, DoWrite(n, Plain()), Filled(st, n, db));
      steps := steps + [DoWrite(n, Plain())];
    }
  }

  // The booted store

  function Kept(): Value { Bytes(7) }

  function Empty(): File { Stamped(0, []) }

  /** What an adjust dumps, a moment after the boot. */
  function Full(): File { Stamped(1, Filler(FULL)) }

  /** The file that holds key 0. */
  function Holder(): File { Stamped(0, [Entry(0, Kept())]) }

  function Disk(f2: File, f3: File, f4: File): seq<File> {
    [Empty(), Empty(), f2, f3, f4, Empty(), Empty(), Empty(), Empty(), Empty()]
  }

  function Found(): seq<File> {
    Disk(Empty(), Empty(), Holder())
  }

  function Start(): Store {
    Store([], None, Found(), Blank, 1, 0, [[], []], AllMarks())
  }

  function StartState(): State {
    State(Start(), Idle, 0, map[0 := Kept()], map[])
  }

  lemma FoundComplete()
    ensures Complete(Found()) && Scanned(Found(), 9)
  {
  }

  /** A boot round on an empty log changes nothing but where the ring begins. */
  lemma EmptyRound(recent: nat)
    requires recent == 9 || recent == 0
    ensures Complete(Found()) && Round(Found(), recent, [], 0) == Found()
  {
    FoundComplete();
    var reserve := Replay([]);
    assert reserve == [];
    assert MergedFile(Empty(), Empty()) == Empty();
    assert Adjusted(Found(), recent, reserve, 0) == Found();
  }

  lemma StartIsBooted()
    ensures Complete(Found()) && Scanned(Found(), 9)
    ensures Start() == Booted(Found(), 9, [[], []], AllMarks(), 0, 0)
  {
    FoundComplete();
    EmptyRound(9);
    EmptyRound(0);
  }

  lemma FoundAnswers(k: Key)
    ensures FindIn(Newest(Found(), 1), k) == Lookup(map[0 := Kept()], k)
    ensures Live(Lookup(map[0 := Kept()], k)) == Lookup(map[0 := Kept()], k)
  {
    var order := Newest(Found(), 1);
    assert forall age {:trigger order[age]} :: 0 <= age < NUMFILES && age != 7 ==> order[age] == Empty();
    assert order[7] == Holder() && Holder().entries[1..] == [];
    assert Kept()[0] != 0xFF;
    if k == 0 {
      FindInAt(order, 7, k);
    } else {
      forall age | 0 <= age < NUMFILES ensures FileFind(order[age], k).None? {
        if age == 7 { assert Find(Holder().entries, k) == Find([], k); }
      }
      FindInNowhere(order, k);
    }
  }

  lemma StartOk()
    ensures StoreInv(StartState())
  {
    FoundComplete();
    forall k: Key ensures Live(FindIn(Newest(Found(), 1), k)) == Live(Lookup(map[0 := Kept()], k)) {
      FoundAnswers(k);
    }
    AllMarked(0);
    FreshStore(Start(), map[0 := Kept()]);
  }

  // Both runs begin by filling a tree and setting it aside

  function FullLog(): seq<Record> {
    FillerLog(FULL)
  }

  function SetAside(db: map<Key, Value>): State {
    State(Store([], Some(Filler(FULL)), Found(), Blank, 1, 1, [FullLog(), []], AllMarks()), Idle, 0, db, map[])
  }

  lemma Begins() returns (steps: seq<Step>, db: map<Key, Value>)
    ensures Path(StartState(), steps, SetAside(db)) && NoWriteTo(steps, 0)
  {
    steps, db := Fills(StartState(), FULL);
    var full := Filled(StartState(), FULL, db);
    assert full.store.backups == [FullLog(), []];
    assert full.store.backups[1 := []] == [FullLog(), []];
    Append(StartState(), steps, full, DoSwap, SetAside(db));
    steps := steps + [DoSwap];
  }

  // The overtaken read

  function Reading(p: Progress): map<nat, Reader> {
    map[0 := Reader(0, 1, 0, p, {Some(Kept())})]
  }

  /** Both trees full, the read on its way. */
  function Early(db: map<Key, Value>, readers: map<nat, Reader>): State {
    State(Store(Filler(FULL), Some(Filler(FULL)), Found(), Blank, 1, 1, [FullLog(), FullLog()], AllMarks()),
          Idle, 0, db, readers)
  }

  /** After the first adjust. */
  function Turned(db: map<Key, Value>): State {
    State(Store(Filler(FULL), None, Disk(Full(), Empty(), Holder()), Blank, 2, 1, [[], FullLog()], AllMarks()),
          Idle, 1, db, Reading(Scanning(7)))
  }

  /** During the second. */
  function Second(db: map<Key, Value>, phase: Phase, f3: File, f4: File, temp: File, log: seq<Record>,
                  p: Progress): State
  {
    State(Store([], Some(Filler(FULL)), Disk(Full(), f3, f4), temp, 2, 0, [[], log], AllMarks()),
          phase, 1, db, Reading(p))
  }

  function Last(db: map<Key, Value>, phase: Phase, p: Progress): State {
    State(Store([], None, Disk(Full(), Full(), Holder()), Blank, 3, 0, [[], []], AllMarks()), phase, 2, db, Reading(p))
  }

  lemma FillsAgain(before: map<Key, Value>) returns (steps: seq<Step>, db: map<Key, Value>)
    ensures Path(SetAside(before), steps, Early(db, map[])) && NoWriteTo(steps, 0)
  {
    steps, db := Fills(SetAside(before), FULL);
    assert SetAside(before).store.backups[1 := FullLog()] == [FullLog(), FullLog()];
  }

  lemma Starts(db: map<Key, Value>)
    requires Lookup(db, 0) == Some(Kept())
    ensures Follows(Early(db, map[]), DoStart(0, 0), Early(db, Reading(Scanning(0))))
  {
    FillerFind(FULL);
    AllMarked(0);
    assert Kept()[0] != 0xFF;
  }

  lemma Looks(db: map<Key, Value>, age: nat)
    requires age < 7
    ensures Follows(Early(db, Reading(Scanning(age))), DoRead(0), Early(db, Reading(Scanning(age + 1))))
  {
  }

  lemma {:induction false} LooksOn(db: map<Key, Value>, n: nat)
    requires n <= 7
    ensures Path(Early(db, Reading(Scanning(0))), Looking(n), Early(db, Reading(Scanning(n))))
  {
    if n > 0 {
      LooksOn(db, n - 1);
      Looks(db, n - 1);
      Append(Early(db, Reading(Scanning(0))), Looking(n - 1), Early(db, Reading(Scanning(n - 1))), DoRead(0),
             Early(db, Reading(Scanning(n))));
      assert Looking(n) == Looking(n - 1) + [DoRead(0)];
    }
  }

  function Looking(n: nat): seq<Step> {
    seq(n, _ => DoRead(0))
  }

  /** What the first adjust makes of the files. */
  lemma FirstDump()
    ensures Complete(Found()) && Adjusted(Found(), 1, Filler(FULL), 1) == Disk(Full(), Empty(), Holder())
  {
    FoundComplete();
    assert MergedFile(Empty(), Empty()) == Empty();
  }

  lemma FirstAdjust(db: map<Key, Value>)
    ensures Path(Early(db, Reading(Scanning(7))), WholeAdjust(1), Turned(db))
  {
    var st := Early(db, Reading(Scanning(7)));
    FirstDump();
    AdjustPath(st, 1);
    AdjustSteps(st.store, 1);
    assert st.store.backups[0 := []] == [[], FullLog()];
  }

  lemma SecondBegins(db: map<Key, Value>)
    ensures var e, h, log, p := Empty(), Holder(), FullLog(), Scanning(7);
      && Follows(Turned(db), DoSwap, Second(db, Idle, e, h, Blank, log, p))
      && Follows(Second(db, Idle, e, h, Blank, log, p), DoBegin, Second(db, Begun, e, h, Blank, log, p))
      && Follows(Second(db, Begun, e, h, Blank, log, p), DoCopy, Second(db, HasTemp, e, h, h, log, p))
  {
    assert Turned(db).store.backups[0 := []] == [[], FullLog()];
  }

  /** The file with the key is empty just when the read looks at it. */
  lemma SecondSkips(db: map<Key, Value>)
    ensures var e, h, log := Empty(), Holder(), FullLog();
      && Follows(Second(db, HasTemp, e, h, h, log, Scanning(7)), DoClear,
                 Second(db, Cleared, e, Blank, h, log, Scanning(7)))
      && Follows(Second(db, Cleared, e, Blank, h, log, Scanning(7)), DoRead(0),
                 Second(db, Cleared, e, Blank, h, log, Scanning(8)))
  {
  }

  lemma SecondMerges(db: map<Key, Value>)
    ensures Follows(Second(db, Cleared, Empty(), Blank, Holder(), FullLog(), Scanning(8)), DoMerge,
                    Second(db, HasMerged, Empty(), Holder(), Blank, FullLog(), Scanning(8)))
  {
    var es := Holder().entries;
    assert es[1..] == [] && !IsTomb(es[0].value) by { assert es[0].value[0] != 0xFF; }
    assert Merged(es, []) == es;
  }

  lemma SecondDumps(db: map<Key, Value>)
    ensures Follows(Second(db, HasMerged, Empty(), Holder(), Blank, FullLog(), Scanning(8)), DoDump(1),
                    Second(db, HasDumped, Full(), Holder(), Blank, FullLog() + [Sync], Scanning(8)))
  {
    var before := Second(db, HasMerged, Empty(), Holder(), Blank, FullLog(), Scanning(8));
    assert before.store.files[3 := Full()] == Disk(Full(), Full(), Holder());
    assert before.store.backups[1 := FullLog() + [Sync]] == [[], FullLog() + [Sync]];
  }

  lemma SecondEnds(db: map<Key, Value>)
    ensures Follows(Second(db, HasDumped, Full(), Holder(), Blank, FullLog() + [Sync], Scanning(8)), DoPublish,
                    Last(db, Releasing, Scanning(8)))
    ensures Follows(Last(db, Releasing, Scanning(8)), DoRelease, Last(db, Idle, Scanning(8)))
  {
    var before := Second(db, HasDumped, Full(), Holder(), Blank, FullLog() + [Sync], Scanning(8));
    assert before.store.backups[1 := []] == [[], []];
  }

  lemma Misses(db: map<Key, Value>)
    ensures Follows(Last(db, Idle, Scanning(8)), DoReadLocked(0), Last(db, Idle, Returned(None)))
  {
    FillerFind(FULL);
  }

  /** From the first adjust's end to the empty-handed return. */
  function LastSteps(): seq<Step> {
    ([DoSwap, DoBegin, DoCopy] + [DoClear, DoRead(0), DoMerge]) + [DoDump(1), DoPublish, DoRelease, DoReadLocked(0)]
  }

  lemma CopyPath(db: map<Key, Value>)
    ensures Path(Turned(db), [DoSwap, DoBegin, DoCopy],
                 Second(db, HasTemp, Empty(), Holder(), Holder(), FullLog(), Scanning(7)))
  {
    var a, e, h, log, p := Turned(db), Empty(), Holder(), FullLog(), Scanning(7);
    SecondBegins(db);
    assert Path(a, [], a) && [] + [DoSwap] == [DoSwap];
    Append(a, [], a, DoSwap, Second(db, Idle, e, h, Blank, log, p));
    Append(a, [DoSwap], Second(db, Idle, e, h, Blank, log, p), DoBegin, Second(db, Begun, e, h, Blank, log, p));
    Append(a, [DoSwap, DoBegin], Second(db, Begun, e, h, Blank, log, p), DoCopy, Second(db, HasTemp, e, h, h, log, p));
  }

  lemma SkipPath(db: map<Key, Value>)
    ensures Path(Second(db, HasTemp, Empty(), Holder(), Holder(), FullLog(), Scanning(7)),
                 [DoClear, DoRead(0), DoMerge],
                 Second(db, HasMerged, Empty(), Holder(), Blank, FullLog(), Scanning(8)))
  {
    var e, h, log := Empty(), Holder(), FullLog();
    var a := Second(db, HasTemp, e, h, h, log, Scanning(7));
    SecondSkips(db);
    SecondMerges(db);
    assert Path(a, [], a) && [] + [DoClear] == [DoClear];
    Append(a, [], a, DoClear, Second(db, Cleared, e, Blank, h, log, Scanning(7)));
    Append(a, [DoClear], Second(db, Cleared, e, Blank, h, log, Scanning(7)), DoRead(0),
           Second(db, Cleared, e, Blank, h, log, Scanning(8)));
    Append(a, [DoClear, DoRead(0)], Second(db, Cleared, e, Blank, h, log, Scanning(8)), DoMerge,
           Second(db, HasMerged, e, h, Blank, log, Scanning(8)));
  }

  lemma SecondPath(db: map<Key, Value>)
    ensures Path(Turned(db), [DoSwap, DoBegin, DoCopy] + [DoClear, DoRead(0), DoMerge],
                 Second(db, HasMerged, Empty(), Holder(), Blank, FullLog(), Scanning(8)))
  {
    CopyPath(db);
    SkipPath(db);
    PathConcat(Turned(db), [DoSwap, DoBegin, DoCopy],
               Second(db, HasTemp, Empty(), Holder(), Holder(), FullLog(), Scanning(7)), [DoClear, DoRead(0), DoMerge],
               Second(db, HasMerged, Empty(), Holder(), Blank, FullLog(), Scanning(8)));
  }

  lemma EndPath(db: map<Key, Value>)
    ensures Path(Second(db, HasMerged, Empty(), Holder(), Blank, FullLog(), Scanning(8)),
                 [DoDump(1), DoPublish, DoRelease, DoReadLocked(0)], Last(db, Idle, Returned(None)))
  {
    var a := Second(db, HasMerged, Empty(), Holder(), Blank, FullLog(), Scanning(8));
    SecondDumps(db);
    SecondEnds(db);
    Misses(db);
    Append(a, [], a, DoDump(1), Second(db, HasDumped, Full(), Holder(), Blank, FullLog() + [Sync], Scanning(8)));
    Append(a, [DoDump(1)], Second(db, HasDumped, Full(), Holder(), Blank, FullLog() + [Sync], Scanning(8)), DoPublish,
           Last(db, Releasing, Scanning(8)));
    Append(a, [DoDump(1), DoPublish], Last(db, Releasing, Scanning(8)), DoRelease, Last(db, Idle, Scanning(8)));
    Append(a, [DoDump(1), DoPublish, DoRelease], Last(db, Idle, Scanning(8)), DoReadLocked(0),
           Last(db, Idle, Returned(None)));
  }

  lemma LastPath(db: map<Key, Value>)
    ensures Path(Turned(db), LastSteps(), Last(db, Idle, Returned(None)))
  {
    SecondPath(db);
    EndPath(db);
    PathConcat(Turned(db), ([DoSwap, DoBegin, DoCopy] + [DoClear, DoRead(0), DoMerge]),
               Second(db, HasMerged, Empty(), Holder(), Blank, FullLog(), Scanning(8)),
               [DoDump(1), DoPublish, DoRelease, DoReadLocked(0)], Last(db, Idle, Returned(None)));
  }

  lemma FirstPath(db: map<Key, Value>)
    requires Lookup(db, 0) == Some(Kept())
    ensures Path(Early(db, map[]), [DoStart(0, 0)] + Looking(7), Early(db, Reading(Scanning(7))))
  {
    var a := Early(db, map[]);
    Starts(db);
    LooksOn(db, 7);
    Append(a, [], a, DoStart(0, 0), Early(db, Reading(Scanning(0))));
    assert [] + [DoStart(0, 0)] == [DoStart(0, 0)];
    PathConcat(a, [DoStart(0, 0)], Early(db, Reading(Scanning(0))), Looking(7), Early(db, Reading(Scanning(7))));
  }

  function ReadSteps(): seq<Step> {
    ([DoStart(0, 0)] + Looking(7)) + (WholeAdjust(1) + LastSteps())
  }

  lemma ReadPath(db: map<Key, Value>)
    requires Lookup(db, 0) == Some(Kept())
    ensures Path(Early(db, map[]), ReadSteps(), Last(db, Idle, Returned(None)))
  {
    var b, end := Early(db, Reading(Scanning(7))), Last(db, Idle, Returned(None));
    FirstPath(db);
    FirstAdjust(db);
    LastPath(db);
    PathConcat(b, WholeAdjust(1), Turned(db), LastSteps(), end);
    PathConcat(Early(db, map[]), [DoStart(0, 0)] + Looking(7), b, WholeAdjust(1) + LastSteps(), end);
  }

  lemma NoWrites(a: seq<Step>, b: seq<Step>)
    requires NoWriteTo(a, 0) && NoWriteTo(b, 0)
    ensures NoWriteTo(a + b, 0)
  {
  }

  lemma ReadStepsWriteNothing()
    ensures NoWriteTo(ReadSteps(), 0)
  {
  }

  /** A path that does not write key 0 leaves its answer alone. */
  lemma {:induction false} PathUntouched(a: State, steps: seq<Step>, b: State)
    requires Path(a, steps, b) && NoWriteTo(steps, 0)
    ensures Lookup(b.db, 0) == Lookup(a.db, 0)
    decreases |steps|
  {
    if steps != [] {
      StepUntouched(a, steps[0], 0);
      PathUntouched(Do(a, steps[0]), steps[1..], b);
    }
  }

  /** A run that begins with the store that boots from these files and empty logs. */
  ghost predicate FromBoot(run: seq<State>, steps: seq<Step>) {
    && IsRun(run, steps) && Complete(Found()) && Scanned(Found(), 9)
    && run[0].store == Booted(Found(), 9, [[], []], AllMarks(), 0, 0) && run[0].phase == Idle
  }

  lemma PathFromBoot(steps: seq<Step>, end: State) returns (run: seq<State>)
    requires Path(StartState(), steps, end)
    ensures FromBoot(run, steps) && run[0] == StartState() && run[|steps|] == end
  {
    run := PathIsRun(StartState(), steps, end);
    StartIsBooted();
    StartOk();
  }

  lemma OvertakenPath() returns (steps: seq<Step>, db: map<Key, Value>)
    ensures Path(StartState(), steps, Last(db, Idle, Returned(None))) && NoWriteTo(steps, 0)
  {
    var first, db0 := Begins();
    var more;
    more, db := FillsAgain(db0);
    PathConcat(StartState(), first, SetAside(db0), more, Early(db, map[]));
    NoWrites(first, more);
    PathUntouched(StartState(), first + more, Early(db, map[]));
    ReadPath(db);
    PathConcat(StartState(), first + more, Early(db, map[]), ReadSteps(), Last(db, Idle, Returned(None)));
    ReadStepsWriteNothing();
    NoWrites(first + more, ReadSteps());
    steps := (first + more) + ReadSteps();
  }

  /**
   From a booted store there is a run on which two adjusts overtake a read, and the read reports
   its key absent although the key has one and the same value from the first state to the last.
   */
  lemma OvertakenReadMisses() returns (run: seq<State>, steps: seq<Step>)
    ensures FromBoot(run, steps) && 0 in run[|steps|].readers
    ensures var r := run[|steps|].readers[0];
      r.key == 0 && r.progress == Returned(None) && run[|steps|].epoch == r.epoch + 2
    ensures forall i :: 0 <= i < |run| ==> Lookup(run[i].db, 0) == Some(Kept())
    ensures Lost(run, steps, 0, |steps|)
  {
    var db;
    steps, db := OvertakenPath();
    run := PathFromBoot(steps, Last(db, Idle, Returned(None)));
    forall i | 0 <= i < |run| ensures Lookup(run[i].db, 0) == Some(Kept()) { KeyUntouched(run, steps, 0, 0, i); }
    assert Kept()[0] != 0xFF;
    if !Lost(run, steps, 0, |steps|) { ReadIsCurrent(run, steps, 0, |steps|); }
  }

  // The stale restart

  function Old(): Value { Bytes(2) }

  function New(): Value { Bytes(1) }

  /** After a whole adjust, with backup1 live. */
  function Quiet(db: map<Key, Value>): State {
    State(Store([], None, Disk(Full(), Empty(), Holder()), Blank, 2, 1, [[], []], AllMarks()), Idle, 1, db, map[])
  }

  function OldTree(): seq<Entry> {
    [Entry(0, Old())] + Filler(FULL)
  }

  /** The tree with the old value is set aside, the new value is in the live one, on backup0. */
  function Stale(db: map<Key, Value>): State {
    State(Store([Entry(0, New())], Some(OldTree()), Disk(Full(), Empty(), Holder()), Blank, 2, 0,
                [[Write(0, New())], FullLog() + [Write(0, Old())]], AllMarks()), Idle, 1, db, map[])
  }

  lemma QuietPath(db: map<Key, Value>)
    ensures Path(SetAside(db), WholeAdjust(1), Quiet(db))
  {
    var st := SetAside(db);
    FirstDump();
    AdjustPath(st, 1);
    AdjustSteps(st.store, 1);
    assert st.store.backups[0 := []] == [[], []];
  }

  lemma StalePath(before: map<Key, Value>) returns (steps: seq<Step>, db: map<Key, Value>)
    ensures Path(Quiet(before), steps, Stale(db)) && Lookup(db, 0) == Some(New())
  {
    var a := Quiet(before);
    var db1;
    steps, db1 := Fills(a, FULL);
    var b := Filled(a, FULL, db1);
    assert b.store.backups == [[], FullLog()];
    WriteFollows(b, 0, Old());
    var db2 := db1[0 := Old()];
    var c := b.(db := db2, store := b.store.(tree := OldTree(), backups := [[], FullLog() + [Write(0, Old())]]));
    assert Put(Filler(FULL), 0, Old()) == OldTree();
    assert b.store.backups[1 := FullLog() + [Write(0, Old())]] == c.store.backups;
    Append(a, steps, b, DoWrite(0, Old()), c);
    StaleEnd(db2);
    db := db2[0 := New()];
    var d := AsideOld(db2);
    Append(a, steps + [DoWrite(0, Old())], c, DoSwap, d);
    Append(a, steps + [DoWrite(0, Old())] + [DoSwap], d, DoWrite(0, New()), Stale(db));
    steps := steps + [DoWrite(0, Old())] + [DoSwap] + [DoWrite(0, New())];
  }

  function AsideOld(db: map<Key, Value>): State {
    State(Store([], Some(OldTree()), Disk(Full(), Empty(), Holder()), Blank, 2, 0,
                [[], FullLog() + [Write(0, Old())]], AllMarks()), Idle, 1, db, map[])
  }

  lemma StaleEnd(db: map<Key, Value>)
    ensures var log := FullLog() + [Write(0, Old())];
      var c := State(Store(OldTree(), None, Disk(Full(), Empty(), Holder()), Blank, 2, 1, [[], log], AllMarks()),
                     Idle, 1, db, map[]);
      Follows(c, DoSwap, AsideOld(db))
    ensures Follows(AsideOld(db), DoWrite(0, New()), Stale(db[0 := New()]))
  {
    var log := FullLog() + [Write(0, Old())];
    assert [[], log][0 := []] == [[], log];
    WriteFollows(AsideOld(db), 0, New());
    var none: seq<Record> := [];
    assert none + [Write(0, New())] == [Write(0, New())];
    assert AsideOld(db).store.backups[0 := [Write(0, New())]] == [[Write(0, New())], log];
  }

  /** On the disk of the crash the scan finds the newest file. */
  lemma StaleScanned()
    ensures var files := Disk(Full(), Empty(), Holder()); Complete(files) && Scanned(files, 2)
  {
    assert forall i | 0 <= i < FULL :: Filler(FULL)[i].key == i + 1;
  }

  lemma StaleComeback(db: map<Key, Value>)
    ensures Comeback(Stale(db), 2, 0) == Some(Old())
  {
  }

  /**
   From a booted store there is a run to a crash after which key 0 comes back, by the boot that
   starts where the scan makes it start, with the value it had before its last.
   */
  lemma StaleRecovery(now0: nat, now1: nat) returns (run: seq<State>, steps: seq<Step>)
    ensures FromBoot(run, steps) && CrashPoint(run[|steps|])
    ensures Lookup(run[|steps|].db, 0) == Some(New()) && Old() != New()
    ensures var s := run[|steps|].store;
      && Complete(s.files) && Scanned(s.files, 2)
      && var boot := Booted(s.files, 2, s.backups, s.bloom, now0, now1);
         FindIn(Newest(boot.files, boot.recent), 0) == Some(Old())
  {
    var first, db0 := Begins();
    QuietPath(db0);
    var last, db := StalePath(db0);
    PathConcat(StartState(), first, SetAside(db0), WholeAdjust(1), Quiet(db0));
    PathConcat(StartState(), first + WholeAdjust(1), Quiet(db0), last, Stale(db));
    steps := first + WholeAdjust(1) + last;
    run := PathFromBoot(steps, Stale(db));
    RunInv(run, steps, |steps|);
    StaleScanned();
    RestartedFind(Stale(db), 2, now0, now1, 0);
    StaleComeback(db);
  }
}
