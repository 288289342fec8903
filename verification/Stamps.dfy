/**
 Header stamps over whole lives of the store: with a clock that does not run backwards they stay
 ordered by age through every step of every adjust and through a restart, which is what lets the
 boot find the newest file again.
 */
module Stamps {
  import opened Entries
  import opened MergeFiles
  import opened Log
  import opened Ring
  import opened Store
  import opened Machine
  import opened Recovery

  /** Stamps do not rise from newer to older files. */
  ghost predicate Falling(order: seq<File>) {
    && (forall i :: 0 <= i < |order| ==> order[i].Stamped?)
    && (forall a, b :: 0 <= a < b < |order| ==> order[b].stamp <= order[a].stamp)
  }

  ghost predicate StampInv(st: State)
    requires st.store.Shaped()
  {
    && Falling(Ringed(st))
    && (st.phase == HasMerged ==> OldestFile(st).Stamped? && OldestFile(st).stamp <= Ringed(st)[8].stamp)
    && (st.phase == HasDumped ==> OldestFile(st).Stamped? && Ringed(st)[0].stamp <= OldestFile(st).stamp)
  }

  /** A dump is stamped no earlier than the newest file. */
  ghost predicate ClockForward(st: State, step: Step)
    requires st.store.Shaped()
  {
    step.DoDump? && Ringed(st)[0].Stamped? ==> Ringed(st)[0].stamp <= step.now
  }

  ghost predicate ClockRun(run: seq<State>, steps: seq<Step>) {
    |run| == |steps| + 1
    && forall j {:trigger steps[j]} :: 0 <= j < |steps| ==> run[j].store.Shaped() && ClockForward(run[j], steps[j])
  }

  lemma FallingMerge(newest: seq<File>, temp: File, last: File)
    requires temp.Stamped? && last.Stamped? && Falling(newest + [temp, last])
    ensures Falling(newest + [MergedFile(temp, last)]) && last.stamp <= MergedFile(temp, last).stamp
  {
    var before, after := newest + [temp, last], newest + [MergedFile(temp, last)];
    assert before[|newest|] == temp && before[|newest| + 1] == last;
    forall i | 0 <= i < |after|
      ensures before[i].Stamped? && after[i].Stamped? && after[i].stamp == before[i].stamp
    {
    }
  }

  lemma FallingBack(order: seq<File>, last: File)
    requires order != [] && Falling(order) && last.Stamped? && last.stamp <= order[|order| - 1].stamp
    ensures Falling(order + [last])
  {
    var all, n := order + [last], |order| - 1;
    forall a, b | 0 <= a < b < |all| ensures all[a].Stamped? && all[b].Stamped? && all[b].stamp <= all[a].stamp {
      if b == n + 1 && a < n { assert order[n].stamp <= order[a].stamp; }
    }
  }

  lemma FallingFront(dump: File, order: seq<File>)
    requires dump.Stamped? && order != [] && Falling(order) && order[0].stamp <= dump.stamp
    ensures Falling([dump] + order)
  {
    var all := [dump] + order;
    forall a, b | 0 <= a < b < |all| ensures all[a].Stamped? && all[b].Stamped? && all[b].stamp <= all[a].stamp {
      if a == 0 && b > 1 { assert order[b - 1].stamp <= order[0].stamp; }
    }
  }

  lemma QuietStamps(st: State, step: Step)
    requires st.store.Shaped() && Enabled(st, step) && StampInv(st)
    requires step !in {DoClear, DoMerge, DoPublish} && !step.DoDump?
    ensures Do(st, step).store.Shaped() && StampInv(Do(st, step))
  {
    QuietRing(st, step);
  }

  /** Steps outside the middle of an adjust leave the ring as it is. */
  lemma QuietRing(st: State, step: Step)
    requires st.store.Shaped() && Enabled(st, step)
    requires step !in {DoClear, DoMerge, DoPublish} && !step.DoDump?
    ensures var after := Do(st, step);
      && after.store.Shaped() && Ringed(after) == Ringed(st) && OldestFile(after) == OldestFile(st)
      && (after.phase == HasMerged ==> st.phase == HasMerged) && (after.phase == HasDumped ==> st.phase == HasDumped)
  {
    QuietFiles(st, step);
    RingedSame(st, Do(st, step));
  }

  lemma MergeStamps(st: State)
    requires StoreInv(st) && Enabled(st, DoMerge) && StampInv(st)
    ensures Do(st, DoMerge).store.Shaped() && StampInv(Do(st, DoMerge))
  {
    OldestSlots(st.store);
    SlotsApart(st.store.recent, 8, 9);
    RingedMerges(st);
    FallingMerge(Newest(st.store.files, st.store.recent)[..8], st.store.temp, OldestFile(st));
    assert OldestFile(Do(st, DoMerge)) == OldestFile(st);
  }

  lemma ClearStamps(st: State)
    requires StoreInv(st) && Enabled(st, DoClear) && StampInv(st)
    ensures Do(st, DoClear).store.Shaped() && StampInv(Do(st, DoClear))
  {
    RingedClear(st);
  }

  lemma DumpStamps(st: State, now: nat)
    requires StoreInv(st) && Enabled(st, DoDump(now)) && StampInv(st) && ClockForward(st, DoDump(now))
    ensures Do(st, DoDump(now)).store.Shaped() && StampInv(Do(st, DoDump(now)))
  {
    RingedDump(st, now);
  }

  lemma PublishStamps(st: State)
    requires StoreInv(st) && Enabled(st, DoPublish) && StampInv(st)
    ensures Do(st, DoPublish).store.Shaped() && StampInv(Do(st, DoPublish))
  {
    RingedPublish(st, 0);
    FallingFront(OldestFile(st), Ringed(st));
  }

  /** Each step keeps the stamps ordered, the steps in the middle of an adjust included. */
  lemma StepKeepsStamps(st: State, step: Step)
    requires StoreInv(st) && Enabled(st, step) && StampInv(st) && ClockForward(st, step)
    ensures Do(st, step).store.Shaped() && StampInv(Do(st, step))
  {
    match step
    case DoClear => ClearStamps(st);
    case DoMerge => MergeStamps(st);
    case DoDump(now) => DumpStamps(st, now);
    case DoPublish => PublishStamps(st);
    case _ => QuietStamps(st, step);
  }

  lemma {:induction false} RunStamps(run: seq<State>, steps: seq<Step>, i: nat)
    requires IsRun(run, steps) && i < |run| && StampInv(run[0]) && ClockRun(run, steps)
    ensures run[i].store.Shaped() && StampInv(run[i])
  {
    if i > 0 {
      RunStamps(run, steps, i - 1);
      RunInv(run, steps, i - 1);
      assert Follows(run[i - 1], steps[i - 1], run[i]) && ClockForward(run[i - 1], steps[i - 1]);
      StepKeepsStamps(run[i - 1], steps[i - 1]);
    }
  }

  // The boot

  /** On disk the stamps fall from the file the boot should start at. */
  lemma DiskOrdered(st: State)
    requires CrashPoint(st) && StampInv(st)
    ensures Complete(st.store.files) && StampsOrdered(st.store.files, Front(st))
  {
    CrashFiles(st);
    FoundRing(st);
    if st.phase == HasDumped {
      FallingFront(OldestFile(st), Ringed(st));
    } else if st.phase == HasMerged {
      FallingBack(Ringed(st), OldestFile(st));
    }
    FallingOrders(st.store.files, Front(st));
  }

  lemma FallingOrders(files: seq<File>, front: nat)
    requires Complete(files) && front < NUMFILES && Falling(Newest(files, front))
    ensures StampsOrdered(files, front)
  {
    var order := Newest(files, front);
    forall a, b | 0 <= a < b < NUMFILES ensures files[Slot(front, b)].stamp <= files[Slot(front, a)].stamp {
      assert order[a] == files[Slot(front, a)] && order[b] == files[Slot(front, b)];
    }
  }

  lemma OrderedFalls(files: seq<File>, front: nat)
    requires Complete(files) && front < NUMFILES && StampsOrdered(files, front)
    ensures Falling(Newest(files, front))
  {
    var order := Newest(files, front);
    forall a, b | 0 <= a < b < NUMFILES ensures order[b].stamp <= order[a].stamp {
      assert order[a] == files[Slot(front, a)] && order[b] == files[Slot(front, b)];
    }
  }

  /** The stamps tell where the ring begins. */
  ghost predicate Tell(st: State)
    requires CrashPoint(st)
  {
    CrashFiles(st);
    var files := st.store.files;
    files[Slot(Front(st), 9)].stamp < files[Front(st)].stamp || Front(st) == 9
  }

  /**
   A run of any length and a crash: the boot scan finds the newest file exactly when the oldest
   stamp is strictly older than the newest, or the newest file sits in the last slot.
   */
  lemma BootFindsNewest(run: seq<State>, steps: seq<Step>, i: nat, found: nat)
    requires IsRun(run, steps) && i < |run| && StampInv(run[0]) && ClockRun(run, steps)
    requires CrashPoint(run[i]) && Complete(run[i].store.files) && Scanned(run[i].store.files, found)
    ensures found == Front(run[i]) <==> Tell(run[i])
  {
    RunStamps(run, steps, i);
    DiskOrdered(run[i]);
    ScanFindsRecent(run[i].store.files, Front(run[i]), found);
  }

  lemma RoundStamps(files: seq<File>, recent: nat, log: seq<Record>, now: nat)
    requires Complete(files) && recent < NUMFILES && StampsOrdered(files, recent) && files[recent].stamp <= now
    ensures Complete(Round(files, recent, log, now))
    ensures var next := (recent + 1) % NUMFILES; var after := Round(files, recent, log, now);
      StampsOrdered(after, next) && after[next] == Stamped(now, Replay(log))
  {
    ReplayAscending(log);
    AdjustKeepsStamps(files, recent, Replay(log), now);
    SlotBack(recent, 0);
  }

  /** Two rounds of a boot keep the stamps ordered. */
  lemma BootedStamps(files: seq<File>, recent: nat, logs: seq<seq<Record>>, bloom: set<nat>, now0: nat, now1: nat,
                     db: map<Key, Value>)
    requires Complete(files) && recent < NUMFILES && StampsOrdered(files, recent) && |logs| == 2
    requires files[recent].stamp <= now0 <= now1
    ensures var boot := Booted(files, recent, logs, bloom, now0, now1);
      boot.Shaped() && StampInv(State(boot, Idle, 0, db, map[]))
  {
    RoundStamps(files, recent, logs[0], now0);
    var once, next := Round(files, recent, logs[0], now0), (recent + 1) % NUMFILES;
    RoundStamps(once, next, logs[1], now1);
    var boot := Booted(files, recent, logs, bloom, now0, now1);
    OrderedFalls(boot.files, boot.recent);
    assert Ringed(State(boot, Idle, 0, db, map[])) == Newest(boot.files, boot.recent);
  }

  /** Stamps that do not tell are all equal, so any order of the files is in the order of the stamps. */
  lemma EqualStamps(files: seq<File>, front: nat, found: nat)
    requires Complete(files) && front < NUMFILES && StampsOrdered(files, front) && Scanned(files, found)
    requires found != front && files[front].stamp <= files[Slot(front, 9)].stamp
    ensures found == 9 && StampsOrdered(files, found) && files[found].stamp == files[front].stamp
  {
    assert Slot(front, 0) == front && Slot(front, 9) == (front + 1) % NUMFILES;
    if found != 9 { OnlyDescent(files, front, found); }
    forall i | 0 <= i < NUMFILES ensures files[i].stamp == files[front].stamp { OneStamp(files, front, i); }
  }

  lemma OneStamp(files: seq<File>, front: nat, i: nat)
    requires Complete(files) && front < NUMFILES && StampsOrdered(files, front) && i < NUMFILES
    requires files[front].stamp <= files[Slot(front, 9)].stamp
    ensures files[i].stamp == files[front].stamp
  {
    var age := (front + NUMFILES - i) % NUMFILES;
    assert Slot(front, age) == i && Slot(front, 0) == front;
    if age > 0 { assert files[Slot(front, age)].stamp <= files[Slot(front, 0)].stamp; }
    if age < 9 { assert files[Slot(front, 9)].stamp <= files[Slot(front, age)].stamp; }
  }

  /** Wherever the scan makes the boot start, the stamps are in order from there. */
  lemma FoundOrdered(run: seq<State>, steps: seq<Step>, i: nat, found: nat)
    requires IsRun(run, steps) && i < |run| && StampInv(run[0]) && ClockRun(run, steps)
    requires CrashPoint(run[i]) && Complete(run[i].store.files) && Scanned(run[i].store.files, found)
    ensures StampsOrdered(run[i].store.files, found) && (found == Front(run[i]) || found == 9)
    ensures run[i].store.files[found].stamp == run[i].store.files[Front(run[i])].stamp
  {
    BootFindsNewest(run, steps, i, found);
    RunStamps(run, steps, i);
    DiskOrdered(run[i]);
    if found != Front(run[i]) { EqualStamps(run[i].store.files, Front(run[i]), found); }
  }

  /**
   From one life of the store to the next: after any run, a crash, the boot scan and both replays,
   the stamps are ordered again. The boot has started at the newest file, exactly when the stamps
   tell, or else in the last slot. Every key answers as before exactly when the logs tell the order
   of their trees and the files, read from there, answer as those that count do; from the newest
   file that means the crash was recoverable. Then the next run can begin.
   */
  lemma NextLife(run: seq<State>, steps: seq<Step>, i: nat, found: nat, now0: nat, now1: nat)
    requires IsRun(run, steps) && i < |run| && StampInv(run[0]) && ClockRun(run, steps)
    requires CrashPoint(run[i]) && Complete(run[i].store.files) && Scanned(run[i].store.files, found)
    requires run[i].store.files[Front(run[i])].stamp <= now0 <= now1
    ensures if Tell(run[i]) then found == Front(run[i]) else found == 9
    ensures var s, db := run[i].store, run[i].db;
      var boot := Booted(s.files, found, s.backups, s.bloom, now0, now1);
      && boot.Shaped() && StampInv(State(boot, Idle, 0, db, map[]))
      && (AnswersAs(boot, db) <==> LogsTell(run[i]) && DiskTells(run[i], found))
      && (AnswersAs(boot, db) ==> StoreInv(State(boot, Idle, 0, db, map[])))
    ensures Tell(run[i]) ==> (LogsTell(run[i]) && DiskTells(run[i], found) <==> Recoverable(run[i]))
  {
    FoundOrdered(run, steps, i, found);
    BootFindsNewest(run, steps, i, found);
    var s := run[i].store;
    BootedStamps(s.files, found, s.backups, s.bloom, now0, now1, run[i].db);
    RecoveryFrom(run[i], found, now0, now1);
    FrontTells(run[i]);
    if LogsTell(run[i]) && DiskTells(run[i], found) { RecoveryConsistent(run[i], found, now0, now1); }
  }
}
