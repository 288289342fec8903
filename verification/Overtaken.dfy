/**
 The other half of `Reads`: a read that loses its place does go wrong. For a key that is not
 written meanwhile and has no second copy, the read is right exactly when it has not lost its place.
 */
module Overtaken {
  import opened Options
  import opened Entries
  import opened SortedEntries
  import opened MergeFiles
  import opened Ring
  import opened Store
  import opened Machine
  import opened Reads

  /** Only the second oldest place in the ring can hold the key, if any place can. */
  ghost predicate Bare(st: State, k: Key)
    requires st.store.Shaped()
  {
    && Find(st.store.tree, k).None? && ReserveFind(st.store, k).None?
    && forall i {:trigger Ringed(st)[i]} :: 0 <= i < |Ringed(st)| && i != 8 ==> FileFind(Ringed(st)[i], k).None?
  }

  /** And what it holds is no deletion mark. */
  ghost predicate Alone(st: State, k: Key)
    requires st.store.Shaped()
  {
    && Bare(st, k) && Live(FileFind(Ringed(st)[8], k)) == FileFind(Ringed(st)[8], k)
  }

  /** The key is behind the read, or in the oldest file, which the read does not come to any more. */
  ghost predicate Gone(st: State, r: Reader, age: nat)
    requires st.store.Shaped()
  {
    && Placed(st, r) && Turns(st, r) + age >= 9 && age <= 8
    && Find(st.store.tree, r.key).None? && ReserveFind(st.store, r.key).None?
    && (forall i {:trigger Ringed(st)[i]} :: 0 <= i < 8 ==> FileFind(Ringed(st)[i], r.key).None?)
    && (Turns(st, r) + age == 9 ==>
          st.phase in {Cleared, HasMerged, HasDumped} && FileFind(OldestFile(st), r.key).None?)
  }

  ghost predicate Fruitless(st: State, r: Reader)
    requires st.store.Shaped()
  {
    match r.progress
    case Scanning(age) => Gone(st, r, age)
    case Returned(v) => v.None?
  }

  lemma WriteView(st: State, k: Key, v: Value, q: Key)
    requires st.store.Shaped() && Ascending(st.store.tree)
    ensures var after := Do(st, DoWrite(k, v));
      && after.store.Shaped() && Ringed(after) == Ringed(st) && OldestFile(after) == OldestFile(st)
      && after.phase == st.phase && after.epoch == st.epoch && after.store.recent == st.store.recent
      && after.store.reserve == st.store.reserve
      && (q != k ==> Find(after.store.tree, q) == Find(st.store.tree, q))
  {
    PutFind(st.store.tree, k, v, q);
    assert Do(st, DoWrite(k, v)).store.files == st.store.files;
  }

  lemma GoneWrite(st: State, k: Key, v: Value, r: Reader, age: nat)
    requires st.store.Shaped() && Ascending(st.store.tree) && Gone(st, r, age) && k != r.key
    requires r.progress == Scanning(age)
    ensures Do(st, DoWrite(k, v)).store.Shaped() && Gone(Do(st, DoWrite(k, v)), Note(r, st.db[k := v]), age)
  {
    WriteView(st, k, v, r.key);
  }

  lemma GoneMerge(st: State, r: Reader, age: nat)
    requires StoreInv(st) && Enabled(st, DoMerge) && Gone(st, r, age)
    ensures Gone(Do(st, DoMerge), r, age)
  {
    OldestSlots(st.store);
    RingedMerges(st);
    SlotsApart(st.store.recent, 8, 9);
    var after := Do(st, DoMerge);
    forall i | 0 <= i < 8 ensures FileFind(Ringed(after)[i], r.key).None? {
      assert Ringed(after)[i] == Ringed(st)[i];
    }
  }

  lemma PublishPlaced(st: State, r: Reader)
    requires st.store.Shaped() && Enabled(st, DoPublish) && Placed(st, r)
    ensures var after := Do(st, DoPublish);
      && after.store.Shaped() && Placed(after, r) && Turns(after, r) == Turns(st, r) + 1
      && after.store.tree == st.store.tree && after.store.reserve.None?
  {
    TurnOn(r.recent, Turns(st, r));
  }

  lemma GonePublish(st: State, r: Reader, age: nat)
    requires StoreInv(st) && Enabled(st, DoPublish) && Gone(st, r, age)
    ensures Gone(Do(st, DoPublish), r, age)
  {
    RingedPublish(st, r.key);
    PublishPlaced(st, r);
    var after := Do(st, DoPublish);
    forall i | 0 <= i < 8 ensures FileFind(Ringed(after)[i], r.key).None? {
      if i > 0 { assert Ringed(after)[i] == Ringed(st)[i - 1]; }
    }
  }

  lemma GoneClear(st: State, r: Reader, age: nat)
    requires StoreInv(st) && Enabled(st, DoClear) && Gone(st, r, age)
    ensures Do(st, DoClear).store.Shaped() && Gone(Do(st, DoClear), r, age)
  {
    RingedClear(st);
  }

  lemma GoneDump(st: State, now: nat, r: Reader, age: nat)
    requires StoreInv(st) && Enabled(st, DoDump(now)) && Gone(st, r, age)
    ensures Do(st, DoDump(now)).store.Shaped() && Gone(Do(st, DoDump(now)), r, age)
  {
    RingedDump(st, now);
  }

  lemma GoneQuiet(st: State, step: Step, r: Reader, age: nat)
    requires st.store.Shaped() && Enabled(st, step) && Gone(st, r, age) && (IsQuiet(step) || step == DoSwap)
    ensures Do(st, step).store.Shaped() && Gone(Do(st, step), r, age)
  {
    QuietFiles(st, step);
    RingedSame(st, Do(st, step));
    assert Turns(Do(st, step), r) == Turns(st, r);
  }

  /** What such a read still looks at does not have the key, until the ring has come round. */
  lemma GoneLooksAt(st: State, r: Reader, age: nat)
    requires StoreInv(st) && age < 8 && Gone(st, r, age) && Turns(st, r) + age <= 17
    ensures FileAt(st, r, age).None?
  {
    var place := (Turns(st, r) + age) % NUMFILES;
    AgeNow(r.recent, Turns(st, r), age);
    OldestSlots(st.store);
    if place == 9 {
      assert st.store.files[Slot(r.recent, age)] == OldestFile(st);
    } else {
      assert place < 8;
      assert st.store.files[Slot(r.recent, age)] == Ringed(st)[place];
    }
  }

  lemma GoneLook(st: State, r: Reader, age: nat)
    requires StoreInv(st) && r.progress == Scanning(age) && age < 8 && Gone(st, r, age) && Turns(st, r) + age <= 17
    ensures Fruitless(st, ReadOne(st, r))
  {
    GoneLooksAt(st, r, age);
    assert Turns(st, ReadOne(st, r)) == Turns(st, r);
  }

  lemma GoneLocked(st: State, r: Reader)
    requires st.store.Shaped() && r.progress == Scanning(8) && st.phase == Idle && Gone(st, r, 8) && Turns(st, r) <= 8
    ensures Fruitless(st, ReadLast(st, r))
  {
    IdleLook(st, r, 8);
    IdleLook(st, r, 9);
    var p, q := (Turns(st, r) + 8) % NUMFILES, (Turns(st, r) + 9) % NUMFILES;
    assert p < 8 && q < 8;
  }

  lemma StepFruitless(st: State, step: Step, id: nat)
    requires StoreInv(st) && Enabled(st, step) && id in st.readers && Fruitless(st, st.readers[id])
    requires Turns(st, st.readers[id]) <= 8 && !Writes(step, st.readers[id].key)
    ensures Do(st, step).store.Shaped() && id in Do(st, step).readers
    ensures Fruitless(Do(st, step), Do(st, step).readers[id])
  {
    var r := st.readers[id];
    if r.progress.Scanning? {
      var age := r.progress.age;
      match step
      case DoWrite(k, v) => GoneWrite(st, k, v, r, age);
      case DoClear => GoneClear(st, r, age);
      case DoMerge => GoneMerge(st, r, age);
      case DoDump(now) => GoneDump(st, now, r, age);
      case DoPublish => GonePublish(st, r, age);
      case DoRead(i) =>
        if i == id { GoneLook(st, r, age); }
        StillFruitless(st, step, if i == id then ReadOne(st, r) else r);
      case DoReadLocked(i) =>
        if i == id { GoneLocked(st, r); }
        StillFruitless(st, step, if i == id then ReadLast(st, r) else r);
      case _ => GoneQuiet(st, step, r, age);
    }
  }

  lemma StillFruitless(st: State, step: Step, r: Reader)
    requires StoreInv(st) && Enabled(st, step) && IsQuiet(step) && Fruitless(st, r)
    ensures Do(st, step).store.Shaped() && Fruitless(Do(st, step), r)
  {
    if r.progress.Scanning? { GoneQuiet(st, step, r, r.progress.age); }
  }

  /** A look that skips the only place that holds the key. */
  lemma SkipsGone(st: State, id: nat)
    requires StoreInv(st) && Enabled(st, DoRead(id)) && Placed(st, st.readers[id])
    requires SkipsEmptied(st, st.readers[id], st.readers[id].progress.age) && Bare(st, st.readers[id].key)
    ensures Fruitless(st, ReadOne(st, st.readers[id]))
  {
    var r := st.readers[id];
    var age := r.progress.age;
    AgeNow(r.recent, Turns(st, r), age);
    Unturned(8);
    OldestSlots(st.store);
    assert st.store.files[Slot(r.recent, age)] == MergedSlot(st);
    assert OldestFile(st) == Ringed(st)[9];
    assert Turns(st, ReadOne(st, r)) == Turns(st, r);
  }

  /** A dump over the file the read was to look at next. */
  lemma MissesGone(st: State, now: nat, r: Reader, age: nat)
    requires StoreInv(st) && Enabled(st, DoDump(now)) && Placed(st, r) && age <= 8
    requires MissesMerged(st, r, age) && Bare(st, r.key)
    ensures Do(st, DoDump(now)).store.Shaped() && Gone(Do(st, DoDump(now)), r, age)
  {
    RingedDump(st, now);
  }

  predicate Writes(step: Step, k: Key) {
    step.DoWrite? && step.key == k
  }

  /** No step from position `from` up to position `to` writes the key. */
  ghost predicate Unwritten(steps: seq<Step>, k: Key, from: nat, to: nat) {
    forall j :: from <= j < to && j < |steps| ==> !Writes(steps[j], k)
  }

  lemma StepUntouched(st: State, step: Step, k: Key)
    requires st.store.Shaped() && Enabled(st, step) && !Writes(step, k)
    ensures Lookup(Do(st, step).db, k) == Lookup(st.db, k)
  {
  }

  lemma {:induction false} KeyUntouched(run: seq<State>, steps: seq<Step>, k: Key, a: nat, i: nat)
    requires IsRun(run, steps) && a <= i < |run| && Unwritten(steps, k, a, i)
    ensures Lookup(run[i].db, k) == Lookup(run[a].db, k)
    decreases i - a
  {
    if a < i {
      KeyUntouched(run, steps, k, a, i - 1);
      assert Follows(run[i - 1], steps[i - 1], run[i]);
      StepUntouched(run[i - 1], steps[i - 1], k);
    }
  }

  lemma {:induction false} RunFruitless(run: seq<State>, steps: seq<Step>, id: nat, m: nat, i: nat)
    requires IsRun(run, steps) && m <= i < |run| && id in run[m].readers
    requires Unwritten(steps, run[m].readers[id].key, m, i)
    requires run[m].store.Shaped() && Fruitless(run[m], run[m].readers[id])
    requires run[i].epoch <= run[m].readers[id].epoch + 8
    ensures id in run[i].readers && run[i].store.Shaped() && Fruitless(run[i], run[i].readers[id])
    decreases i - m
  {
    if m < i {
      assert Follows(run[i - 1], steps[i - 1], run[i]);
      SameRead(run, steps, id, m, i - 1);
      StepAges(run[i - 1], steps[i - 1], id);
      RunFruitless(run, steps, id, m, i - 1);
      RunInv(run, steps, i - 1);
      StepFruitless(run[i - 1], steps[i - 1], id);
    }
  }

  /** The value a read is about to lose, alone in its place, is the key's. */
  lemma AloneAnswer(st: State, k: Key)
    requires StoreInv(st) && Alone(st, k)
    ensures Live(Lookup(st.db, k)) == FileFind(Ringed(st)[8], k)
  {
    var order := Ringed(st);
    if FileFind(order[8], k).Some? { FindInAt(order, 8, k); } else { FindInNowhere(order, k); }
    assert Live(Layers(st, k)) == Live(Lookup(st.db, k));
  }

  /** Right after the losing step the read holds a dropped value, or will find nothing any more. */
  lemma LossTakes(st: State, step: Step, id: nat)
    requires StoreInv(st) && Enabled(st, step) && Loses(st, step, id) && Placed(st, st.readers[id])
    requires st.readers[id].progress.age <= 8 && Alone(st, st.readers[id].key)
    ensures Do(st, step).store.Shaped() && id in Do(st, step).readers
    ensures var q := Do(st, step).readers[id];
      if FileFind(Ringed(st)[8], q.key).Some? then Fruitless(Do(st, step), q)
      else q.progress.Returned? && Live(q.progress.value).Some?
  {
    var r := st.readers[id];
    var age := r.progress.age;
    if step.DoDump? {
      MergedIsLast(st);
      MissesGone(st, step.now, r, age);
    } else if SkipsEmptied(st, r, age) {
      SkipsGone(st, id);
      StillFruitless(st, step, ReadOne(st, r));
    } else {
      MergedIsLast(st);
    }
  }

  /** A returned answer stays. */
  lemma {:induction false} Stays(run: seq<State>, steps: seq<Step>, id: nat, m: nat, i: nat)
    requires IsRun(run, steps) && m <= i < |run| && id in run[m].readers && run[m].readers[id].progress.Returned?
    ensures id in run[i].readers && run[i].readers[id].progress == run[m].readers[id].progress
    decreases i - m
  {
    if m < i {
      Stays(run, steps, id, m, i - 1);
      assert Follows(run[i - 1], steps[i - 1], run[i]);
      StepAges(run[i - 1], steps[i - 1], id);
    }
  }

  /** The losing step, found on a run. */
  lemma AfterLoss(run: seq<State>, steps: seq<Step>, id: nat, m: nat)
    requires IsRun(run, steps) && LosesAt(run, steps, id, m) && Alone(run[m], run[m].readers[id].key)
    ensures m + 1 < |run| && run[m + 1].store.Shaped() && id in run[m + 1].readers
    ensures var q := run[m + 1].readers[id];
      && q.key == run[m].readers[id].key
      && if FileFind(Ringed(run[m])[8], q.key).Some? then Fruitless(run[m + 1], q)
         else q.progress.Returned? && Live(q.progress.value).Some?
    ensures Live(Lookup(run[m].db, run[m].readers[id].key)) == FileFind(Ringed(run[m])[8], run[m].readers[id].key)
  {
    RunInv(run, steps, m);
    RunPlaced(run, steps, id, m);
    AgeBound(run, steps, id, m);
    assert Follows(run[m], steps[m], run[m + 1]);
    LossTakes(run[m], steps[m], id);
    StepAges(run[m], steps[m], id);
    AloneAnswer(run[m], run[m].readers[id].key);
  }

  /** What such a read returns is not what its key has. */
  lemma LossReturns(run: seq<State>, steps: seq<Step>, id: nat, m: nat, i: nat)
    requires IsRun(run, steps) && m < i < |run| && LosesAt(run, steps, id, m)
    requires id in run[i].readers && run[i].readers[id].progress.Returned?
    requires Unwritten(steps, run[i].readers[id].key, m, i) && run[i].epoch <= run[i].readers[id].epoch + 8
    requires Alone(run[m], run[i].readers[id].key)
    ensures Live(run[i].readers[id].progress.value) != Live(Lookup(run[m].db, run[i].readers[id].key))
  {
    SameRead(run, steps, id, m, i);
    AfterLoss(run, steps, id, m);
    SameRead(run, steps, id, m + 1, i);
    if FileFind(Ringed(run[m])[8], run[i].readers[id].key).Some? {
      RunFruitless(run, steps, id, m + 1, i);
    } else {
      Stays(run, steps, id, m + 1, i);
    }
  }

  /** Reads are not forgotten: one that is not there at `a` comes later. */
  lemma ComesAfter(run: seq<State>, steps: seq<Step>, id: nat, a: nat, m: nat)
    requires IsRun(run, steps) && a < |run| && m < |run| && id !in run[a].readers && id in run[m].readers
    ensures a < m
  {
    if m <= a { SameRead(run, steps, id, m, a); }
  }

  /** A key not written since before the read has one answer all through the read. */
  lemma OneAnswer(run: seq<State>, steps: seq<Step>, id: nat, k: Key, v: Option<Value>, a: nat, m: nat, i: nat)
    requires IsRun(run, steps) && a <= m < i < |run| && id !in run[a].readers && Unwritten(steps, k, a, i)
    requires v != Live(Lookup(run[m].db, k))
    ensures !HadAnswer(run, id, k, v, i)
  {
    KeyUntouched(run, steps, k, a, m);
    forall n | 0 <= n <= i && During(run, id, n) ensures Lookup(run[n].db, k) == Lookup(run[a].db, k) {
      ComesAfter(run, steps, id, a, n);
      KeyUntouched(run, steps, k, a, n);
    }
  }

  /**
   A key that is not written from before the read until its return has one answer all that time,
   and the read that has lost its place gives another.
   */
  lemma LossIsWrong(run: seq<State>, steps: seq<Step>, id: nat, a: nat, m: nat, i: nat)
    requires IsRun(run, steps) && a < i < |run| && m < i && LosesAt(run, steps, id, m)
    requires id !in run[a].readers && id in run[i].readers && run[i].readers[id].progress.Returned?
    requires Unwritten(steps, run[i].readers[id].key, a, i) && run[i].epoch <= run[i].readers[id].epoch + 8
    requires Alone(run[m], run[i].readers[id].key)
    ensures !HadAnswer(run, id, run[i].readers[id].key, Live(run[i].readers[id].progress.value), i)
  {
    ComesAfter(run, steps, id, a, m);
    LossReturns(run, steps, id, m, i);
    OneAnswer(run, steps, id, run[i].readers[id].key, Live(run[i].readers[id].progress.value), a, m, i);
  }

  /**
   For a key that is not written from some moment before the read until its return, and whose
   value, when the read loses its place, is nowhere else: the read is right exactly when it has not
   lost its place. (Once the ring has come all the way round, the value can be ahead of the read
   again.)
   */
  lemma RightIffNotLost(run: seq<State>, steps: seq<Step>, id: nat, a: nat, i: nat)
    requires IsRun(run, steps) && a < i < |run|
    requires id !in run[a].readers && id in run[i].readers && run[i].readers[id].progress.Returned?
    requires Unwritten(steps, run[i].readers[id].key, a, i) && run[i].epoch <= run[i].readers[id].epoch + 8
    requires forall m {:trigger LosesAt(run, steps, id, m)} :: 0 <= m < i && LosesAt(run, steps, id, m) ==>
      Alone(run[m], run[i].readers[id].key)
    ensures HadAnswer(run, id, run[i].readers[id].key, Live(run[i].readers[id].progress.value), i)
      <==> !Lost(run, steps, id, i)
  {
    if Lost(run, steps, id, i) {
      var m :| 0 <= m < i && LosesAt(run, steps, id, m);
      LossIsWrong(run, steps, id, a, m, i);
    } else {
      ReadIsCurrent(run, steps, id, i);
    }
  }
}
