/**
 What a lock-split read returns. While it goes down the ring, finished adjusts push the files the
 other way, and each one folds the two oldest files into one. A read is right as long as the folded
 file does not pass it unseen; the three ways that can happen are the steps that `Loses` names.
 */
module Reads {
  import opened Options
  import opened Entries
  import opened SortedEntries
  import opened MergeFiles
  import opened Ring
  import opened Store
  import opened Machine

  /** How often the ring has turned since the read's snapshot. */
  function Turns(st: State, r: Reader): nat {
    if r.epoch <= st.epoch then st.epoch - r.epoch else 0
  }

  /** The look falls on the second oldest file while only its copy holds the entries, the key among them. */
  predicate SkipsEmptied(st: State, r: Reader, age: nat) {
    st.phase == Cleared && Turns(st, r) + age == 8 && FileFind(st.store.temp, r.key).Some?
  }

  /** The read waits at the oldest file when that is overwritten, and the merged file holds its key. */
  predicate MissesMerged(st: State, r: Reader, age: nat)
    requires st.store.Shaped()
  {
    Turns(st, r) + age == 9 && FileFind(MergedSlot(st), r.key).Some?
  }

  /** The look finds in the oldest file a value that the merge has just dropped under a deletion mark. */
  predicate FindsDropped(st: State, r: Reader, age: nat)
    requires st.store.Shaped() && r.recent < NUMFILES && age < NUMFILES
  {
    && st.phase == HasMerged && Slot(r.recent, age) == st.store.Oldest1()
    && Live(FileFind(OldestFile(st), r.key)).Some? && FileFind(MergedSlot(st), r.key).None?
  }

  /** With this step the read loses the place where its key's value is. */
  predicate Loses(st: State, step: Step, id: nat)
    requires st.store.Shaped()
  {
    && IsScanning(st, id)
    && var r := st.readers[id]; var age := r.progress.age;
       match step
       case DoRead(i) => i == id && age < 8 && (SkipsEmptied(st, r, age) || FindsDropped(st, r, age))
       case DoDump(_) => MissesMerged(st, r, age)
       case _ => false
  }

  // What holds of a read that has lost nothing

  ghost predicate SeenFile(f: File, r: Reader) {
    FileFind(f, r.key).Some? ==> Live(FileFind(f, r.key)) in r.seen
  }

  ghost predicate SeenUpTo(order: seq<File>, n: nat, r: Reader) {
    forall i :: 0 <= i < n && i < |order| ==> SeenFile(order[i], r)
  }

  /**
   The files that were in the ring at the snapshot, folded or not, follow the `turns` dumps made
   since. The read has passed `age` of them, none with its key, and is not past the last.
   */
  ghost predicate Ahead(order: seq<File>, turns: nat, age: nat, r: Reader) {
    && turns + age < |order| && SeenUpTo(order, turns, r)
    && (forall i {:trigger order[i]} :: turns <= i < turns + age ==> FileFind(order[i], r.key).None?)
    && Live(FindIn(order[turns..], r.key)) in r.seen
  }

  /** The read is about to look at the oldest file, already merged, not yet overwritten. */
  ghost predicate LastChance(st: State, turns: nat, age: nat, r: Reader)
    requires st.store.Shaped()
  {
    && st.phase == HasMerged && turns + age == 9 && SeenUpTo(Ringed(st), 9, r)
    && Live(FileFind(OldestFile(st), r.key)) in r.seen
    && (FileFind(MergedSlot(st), r.key).None? ==> None in r.seen)
  }

  /** The read is past the folded files: absence is a right answer, and so is what any file holds now. */
  ghost predicate Past(st: State, r: Reader)
    requires st.store.Shaped()
  {
    && SeenUpTo(Ringed(st), |Ringed(st)|, r) && None in r.seen
    && (st.phase == HasMerged ==> SeenFile(OldestFile(st), r) || FileFind(MergedSlot(st), r.key).None?)
  }

  ghost predicate Bearings(st: State, r: Reader, age: nat)
    requires st.store.Shaped()
  {
    && r.recent < NUMFILES && age <= 8 && r.epoch <= st.epoch
    && st.store.recent == (r.recent + Turns(st, r)) % NUMFILES
    && Live(Lookup(st.db, r.key)) in r.seen
    && (ReserveFind(st.store, r.key).Some? ==> Live(ReserveFind(st.store, r.key)) in r.seen)
  }

  ghost predicate OnCourse(st: State, r: Reader, age: nat)
    requires st.store.Shaped()
  {
    && Bearings(st, r, age)
    && (Ahead(Ringed(st), Turns(st, r), age, r) || LastChance(st, Turns(st, r), age, r) || Past(st, r))
  }

  ghost predicate ReadOk(st: State, r: Reader)
    requires st.store.Shaped()
  {
    match r.progress
    case Returned(v) => Live(v) in r.seen
    case Scanning(age) => OnCourse(st, r, age)
  }

  ghost predicate ReadKept(st: State, id: nat) {
    st.store.Shaped() && (id in st.readers ==> ReadOk(st, st.readers[id]))
  }

  // The steps on the sequence of files

  lemma SeenMore(order: seq<File>, n: nat, r: Reader, q: Reader)
    requires SeenUpTo(order, n, r) && q.key == r.key && r.seen <= q.seen
    ensures SeenUpTo(order, n, q)
  {
    forall i | 0 <= i < n && i < |order| ensures SeenFile(order[i], q) { assert SeenFile(order[i], r); }
  }

  lemma TailMerge(newest: seq<File>, temp: File, last: File, n: nat, k: Key)
    requires n <= |newest| && temp.Stamped? && last.Stamped? && SortedFile(temp) && SortedFile(last)
    ensures Live(FindIn((newest + [temp, last])[n..], k)) == Live(FindIn((newest + [MergedFile(temp, last)])[n..], k))
  {
    var m := MergedFile(temp, last);
    assert (newest + [temp, last])[n..] == newest[n..] + [temp, last];
    assert (newest + [m])[n..] == newest[n..] + [m];
    FindInConcat(newest[n..], [temp, last], k);
    FindInConcat(newest[n..], [m], k);
    assert [temp, last] == [temp] + [last];
    FindInConcat([temp], [last], k);
    MergedFind(temp.entries, last.entries, k);
  }

  /** The merge folds two files that are both still ahead. */
  lemma AheadMerge(newest: seq<File>, temp: File, last: File, turns: nat, age: nat, r: Reader)
    requires temp.Stamped? && last.Stamped? && SortedFile(temp) && SortedFile(last)
    requires Ahead(newest + [temp, last], turns, age, r) && turns + age <= |newest|
    ensures Ahead(newest + [MergedFile(temp, last)], turns, age, r)
  {
    var before, after := newest + [temp, last], newest + [MergedFile(temp, last)];
    TailMerge(newest, temp, last, turns, r.key);
    forall i | 0 <= i < turns ensures SeenFile(after[i], r) { assert SeenFile(before[i], r); }
    forall i | turns <= i < turns + age ensures FileFind(after[i], r.key).None? {
      assert FileFind(before[i], r.key).None?;
    }
  }

  lemma MergedSeen(temp: File, last: File, r: Reader)
    requires temp.Stamped? && last.Stamped? && SortedFile(temp) && SortedFile(last)
    requires SeenFile(temp, r) && Live(FileFind(last, r.key)) in r.seen
    ensures SeenFile(MergedFile(temp, last), r)
    ensures FileFind(MergedFile(temp, last), r.key).None? ==> None in r.seen
  {
    MergedFind(temp.entries, last.entries, r.key);
  }

  /** The merge folds the file the read is about to look at into the one it has just passed. */
  lemma ChanceMerge(newest: seq<File>, temp: File, last: File, turns: nat, age: nat, r: Reader)
    requires temp.Stamped? && last.Stamped? && SortedFile(temp) && SortedFile(last)
    requires Ahead(newest + [temp, last], turns, age, r) && turns + age == |newest| + 1
    ensures SeenUpTo(newest, |newest|, r) && SeenFile(temp, r) && Live(FileFind(last, r.key)) in r.seen
  {
    var before := newest + [temp, last];
    forall i | 0 <= i <= |newest| ensures SeenFile(before[i], r) {
      if i >= turns { assert FileFind(before[i], r.key).None?; }
    }
    assert before[|newest|] == temp && before[|newest| + 1] == last;
    forall i | 0 <= i < |newest| ensures SeenFile(newest[i], r) { assert before[i] == newest[i]; }
    LastDecides(before[turns..], r.key);
  }

  lemma LastDecides(order: seq<File>, k: Key)
    requires order != [] && forall i :: 0 <= i < |order| - 1 ==> FileFind(order[i], k).None?
    ensures FindIn(order, k) == FileFind(order[|order| - 1], k)
  {
    var n := |order| - 1;
    if FileFind(order[n], k).Some? { FindInAt(order, n, k); } else { FindInNowhere(order, k); }
  }

  lemma PastMerge(newest: seq<File>, temp: File, last: File, r: Reader)
    requires temp.Stamped? && last.Stamped? && SortedFile(temp) && SortedFile(last)
    requires SeenUpTo(newest + [temp, last], |newest| + 2, r)
    ensures SeenUpTo(newest + [MergedFile(temp, last)], |newest| + 1, r) && SeenFile(last, r)
  {
    var before, after := newest + [temp, last], newest + [MergedFile(temp, last)];
    assert SeenFile(before[|newest|], r) && SeenFile(before[|newest| + 1], r);
    MergedFind(temp.entries, last.entries, r.key);
    forall i | 0 <= i < |after| ensures SeenFile(after[i], r) {
      if i < |newest| { assert SeenFile(before[i], r); }
    }
  }

  /** A turn of the ring puts the dump in front. */
  lemma AheadFront(dump: File, order: seq<File>, turns: nat, age: nat, r: Reader)
    requires SeenFile(dump, r) && Ahead(order, turns, age, r)
    ensures Ahead([dump] + order, turns + 1, age, r)
  {
    var after := [dump] + order;
    assert after[turns + 1..] == order[turns..];
    SeenFront(dump, order, turns, r);
    forall i | turns + 1 <= i < turns + 1 + age ensures FileFind(after[i], r.key).None? {
      assert after[i] == order[i - 1];
    }
  }

  lemma SeenFront(dump: File, order: seq<File>, n: nat, r: Reader)
    requires SeenFile(dump, r) && SeenUpTo(order, n, r)
    ensures SeenUpTo([dump] + order, n + 1, r)
  {
    var after := [dump] + order;
    forall i | 0 <= i < n + 1 && i < |after| ensures SeenFile(after[i], r) {
      if i > 0 { assert after[i] == order[i - 1] && SeenFile(order[i - 1], r); }
    }
  }

  /** A look at the next file that finds the key. */
  lemma AheadFound(order: seq<File>, turns: nat, age: nat, r: Reader)
    requires Ahead(order, turns, age, r) && FileFind(order[turns + age], r.key).Some?
    ensures Live(FileFind(order[turns + age], r.key)) in r.seen
  {
    var rest := order[turns..];
    forall j | 0 <= j < age ensures FileFind(rest[j], r.key).None? { assert rest[j] == order[turns + j]; }
    FindInAt(rest, age, r.key);
  }

  /** A look that does not, with more files of the snapshot to come. */
  lemma AheadOn(order: seq<File>, turns: nat, age: nat, r: Reader, q: Reader)
    requires Ahead(order, turns, age, r) && FileFind(order[turns + age], r.key).None?
    requires turns + age + 1 < |order| && q.key == r.key && q.seen == r.seen
    ensures Ahead(order, turns, age + 1, q)
  {
    SeenMore(order, turns, r, q);
  }

  /** And one that was the last of them: the key was absent. */
  lemma AheadEnds(order: seq<File>, turns: nat, age: nat, r: Reader)
    requires Ahead(order, turns, age, r) && FileFind(order[turns + age], r.key).None?
    requires turns + age + 1 == |order|
    ensures SeenUpTo(order, |order|, r) && None in r.seen
  {
    var rest := order[turns..];
    forall j | 0 <= j < |rest| ensures FileFind(rest[j], r.key).None? { assert rest[j] == order[turns + j]; }
    FindInNowhere(rest, r.key);
    forall i | 0 <= i < |order| ensures SeenFile(order[i], r) {
      if i >= turns { assert order[i] == rest[i - turns]; }
    }
  }

  // The steps on the state

  lemma AheadMore(order: seq<File>, turns: nat, age: nat, r: Reader, q: Reader)
    requires Ahead(order, turns, age, r) && q.key == r.key && r.seen <= q.seen
    ensures Ahead(order, turns, age, q)
  {
    SeenMore(order, turns, r, q);
  }

  lemma PastMore(st: State, r: Reader, q: Reader)
    requires st.store.Shaped() && Past(st, r) && q.key == r.key && r.seen <= q.seen
    ensures Past(st, q)
  {
    SeenMore(Ringed(st), |Ringed(st)|, r, q);
  }

  lemma ChanceMore(st: State, turns: nat, age: nat, r: Reader, q: Reader)
    requires st.store.Shaped() && LastChance(st, turns, age, r) && q.key == r.key && r.seen <= q.seen
    ensures LastChance(st, turns, age, q)
  {
    SeenMore(Ringed(st), 9, r, q);
  }

  /** The two states show a read the same files. */
  ghost predicate SameView(st: State, after: State)
    requires st.store.Shaped() && after.store.Shaped()
  {
    && Ringed(after) == Ringed(st) && after.epoch == st.epoch && (after.phase == HasMerged <==> st.phase == HasMerged)
    && OldestFile(after) == OldestFile(st) && MergedSlot(after) == MergedSlot(st)
  }

  lemma SameCourse(st: State, after: State, r: Reader, q: Reader, age: nat)
    requires st.store.Shaped() && after.store.Shaped() && SameView(st, after)
    requires OnCourse(st, r, age) && Bearings(after, q, age)
    requires q.key == r.key && q.epoch == r.epoch && r.seen <= q.seen
    ensures OnCourse(after, q, age)
  {
    var order, turns := Ringed(st), Turns(st, r);
    assert Turns(after, q) == turns;
    if Ahead(order, turns, age, r) {
      AheadMore(order, turns, age, r, q);
    } else if LastChance(st, turns, age, r) {
      ChanceMore(st, turns, age, r, q);
      assert LastChance(after, turns, age, q);
    } else {
      PastMore(st, r, q);
      assert Past(after, q);
    }
  }

  lemma WriteCourse(st: State, k: Key, v: Value, r: Reader, age: nat)
    requires StoreInv(st) && r.progress == Scanning(age) && OnCourse(st, r, age)
    ensures OnCourse(Do(st, DoWrite(k, v)), Note(r, st.db[k := v]), age)
  {
    var after := Do(st, DoWrite(k, v));
    assert Ringed(after) == Ringed(st);
    SameCourse(st, after, r, Note(r, st.db[k := v]), age);
  }

  /** The tree set aside answers a key as the map does at that moment. */
  lemma SwapCourse(st: State, r: Reader, age: nat)
    requires StoreInv(st) && Enabled(st, DoSwap) && OnCourse(st, r, age)
    ensures OnCourse(Do(st, DoSwap), r, age)
  {
    var after := Do(st, DoSwap);
    assert Ringed(after) == Ringed(st);
    assert Live(Layers(st, r.key)) == Live(Lookup(st.db, r.key));
    SameCourse(st, after, r, r, age);
  }

  predicate IsQuiet(step: Step) {
    step in {DoBegin, DoCopy, DoRelease} || step.DoStart? || step.DoRead? || step.DoReadLocked?
  }

  /** Steps that leave files, reserve and map alone. */
  lemma QuietView(st: State, step: Step)
    requires st.store.Shaped() && Enabled(st, step) && IsQuiet(step)
    ensures Do(st, step).store.Shaped() && SameView(st, Do(st, step))
    ensures Do(st, step).store.recent == st.store.recent && Do(st, step).store.reserve == st.store.reserve
    ensures Do(st, step).db == st.db
  {
    var after := Do(st, step);
    assert after.store.files == st.store.files && after.store.recent == st.store.recent;
    assert after.phase == Cleared <==> st.phase == Cleared;
    assert Ringed(after) == Ringed(st);
  }

  lemma QuietCourse(st: State, step: Step, r: Reader, age: nat)
    requires st.store.Shaped() && Enabled(st, step) && IsQuiet(step) && OnCourse(st, r, age)
    ensures Do(st, step).store.Shaped() && OnCourse(Do(st, step), r, age)
  {
    QuietView(st, step);
    SameCourse(st, Do(st, step), r, r, age);
  }

  lemma ClearCourse(st: State, r: Reader, age: nat)
    requires StoreInv(st) && Enabled(st, DoClear) && OnCourse(st, r, age)
    ensures OnCourse(Do(st, DoClear), r, age)
  {
    RingedClear(st);
    var after := Do(st, DoClear);
    assert Bearings(after, r, age) && Turns(after, r) == Turns(st, r);
    if !Ahead(Ringed(st), Turns(st, r), age, r) { assert Past(after, r); }
  }

  lemma MergeCourse(st: State, r: Reader, age: nat)
    requires StoreInv(st) && Enabled(st, DoMerge) && OnCourse(st, r, age)
    ensures OnCourse(Do(st, DoMerge), r, age)
  {
    OldestSlots(st.store);
    RingedMerges(st);
    var after, turns := Do(st, DoMerge), Turns(st, r);
    var newest := Newest(st.store.files, st.store.recent)[..8];
    var temp, last := st.store.temp, OldestFile(st);
    var merged := MergedFile(temp, last);
    SlotsApart(st.store.recent, 8, 9);
    assert OldestFile(after) == last && MergedSlot(after) == merged;
    assert Bearings(after, r, age) && Turns(after, r) == turns;
    if !Ahead(Ringed(st), turns, age, r) {
      PastMerge(newest, temp, last, r);
      assert Past(after, r);
    } else if turns + age <= 8 {
      AheadMerge(newest, temp, last, turns, age, r);
    } else {
      ChanceMerge(newest, temp, last, turns, age, r);
      MergedSeen(temp, last, r);
      SeenBack(newest, merged, r);
      assert LastChance(after, turns, age, r);
    }
  }

  lemma SeenBack(newest: seq<File>, last: File, r: Reader)
    requires SeenUpTo(newest, |newest|, r) && SeenFile(last, r)
    ensures SeenUpTo(newest + [last], |newest| + 1, r)
  {
    var all := newest + [last];
    forall i | 0 <= i < |all| ensures SeenFile(all[i], r) {
      if i < |newest| { assert SeenFile(newest[i], r); }
    }
  }

  /** A read that waits at the file overwritten now has it behind it, unless the merged file has its key. */
  lemma DumpCourse(st: State, now: nat, r: Reader, age: nat)
    requires StoreInv(st) && Enabled(st, DoDump(now)) && OnCourse(st, r, age) && !MissesMerged(st, r, age)
    ensures OnCourse(Do(st, DoDump(now)), r, age)
  {
    RingedDump(st, now);
    var after := Do(st, DoDump(now));
    assert Bearings(after, r, age) && Turns(after, r) == Turns(st, r);
    if !Ahead(Ringed(st), Turns(st, r), age, r) { assert Past(after, r); }
  }

  lemma PublishBearings(st: State, r: Reader, age: nat)
    requires st.store.Shaped() && Enabled(st, DoPublish) && Bearings(st, r, age)
    ensures var after := Do(st, DoPublish);
      after.store.Shaped() && Bearings(after, r, age) && Turns(after, r) == Turns(st, r) + 1
  {
    var after := Do(st, DoPublish);
    TurnOn(r.recent, Turns(st, r));
    assert after.store.recent == (st.store.recent + 1) % NUMFILES;
    assert after.epoch - r.epoch == Turns(st, r) + 1;
  }

  /** The dump that becomes the newest file answers as the reserve did. */
  lemma DumpSeen(st: State, r: Reader, age: nat)
    requires st.store.Shaped() && ReserveOk(st) && st.phase == HasDumped && Bearings(st, r, age)
    ensures SeenFile(OldestFile(st), r)
  {
  }

  lemma PublishCourse(st: State, r: Reader, age: nat)
    requires StoreInv(st) && Enabled(st, DoPublish) && OnCourse(st, r, age)
    ensures OnCourse(Do(st, DoPublish), r, age)
  {
    RingedPublish(st, r.key);
    PublishBearings(st, r, age);
    DumpSeen(st, r, age);
    var after, turns := Do(st, DoPublish), Turns(st, r);
    if Ahead(Ringed(st), turns, age, r) {
      AheadFront(OldestFile(st), Ringed(st), turns, age, r);
    } else {
      SeenFront(OldestFile(st), Ringed(st), |Ringed(st)|, r);
      assert Past(after, r);
    }
  }

  lemma TurnOn(recent: nat, turns: nat)
    ensures ((recent + turns) % NUMFILES + 1) % NUMFILES == (recent + (turns + 1)) % NUMFILES
  {
  }

  // The looks of the read itself

  /** Where in the ring, counted from its newest file now, the file of this age at the snapshot lies. */
  lemma AgeNow(recent: nat, turns: nat, age: nat)
    requires recent < NUMFILES && age < NUMFILES
    ensures Slot(recent, age) == Slot((recent + turns) % NUMFILES, (turns + age) % NUMFILES)
  {
    var x, y := (recent + turns) / NUMFILES, (turns + age) / NUMFILES;
    var p, q := (recent + turns) % NUMFILES, (turns + age) % NUMFILES;
    assert recent + turns == NUMFILES * x + p && turns + age == NUMFILES * y + q;
    SameSlot(recent, age, p, q, x - y);
  }

  lemma SameSlot(recent: nat, age: nat, p: nat, q: nat, z: int)
    requires recent < NUMFILES && age < NUMFILES && p < NUMFILES && q < NUMFILES
    requires recent - age == p - q + NUMFILES * z
    ensures Slot(recent, age) == Slot(p, q)
  {
    assert -1 <= z <= 1;
  }

  lemma Unturned(place: nat)
    requires place < NUMFILES
    ensures place % NUMFILES == place
  {
  }

  /** What a look at this age falls on, by its place in the ring. */
  lemma LookedAt(st: State, r: Reader, age: nat, place: nat)
    requires StoreInv(st) && Bearings(st, r, age) && age < 8 && place == (Turns(st, r) + age) % NUMFILES
    ensures var file := st.store.files[Slot(r.recent, age)];
      && (place < 8 || (place == 8 && st.phase != Cleared) ==> file == Ringed(st)[place])
      && (place == 8 && st.phase == Cleared ==> file.Blank? && Ringed(st)[8] == st.store.temp)
      && (place == 9 && st.phase !in {HasMerged, HasDumped} ==> |Ringed(st)| == 10 && file == Ringed(st)[9])
      && (place == 9 && st.phase in {HasMerged, HasDumped} ==>
            |Ringed(st)| == 9 && file == OldestFile(st) && Slot(r.recent, age) == st.store.Oldest1())
      && MergedSlot(st) == st.store.files[Slot(st.store.recent, 8)]
  {
    OldestSlots(st.store);
    AgeNow(r.recent, Turns(st, r), age);
  }

  /** The read that is not past the snapshot's files looks at the next of them. */
  lemma AheadLooksAt(st: State, r: Reader, age: nat)
    requires StoreInv(st) && age < 8 && Bearings(st, r, age)
    requires Ahead(Ringed(st), Turns(st, r), age, r) && !SkipsEmptied(st, r, age)
    ensures FileAt(st, r, age) == FileFind(Ringed(st)[Turns(st, r) + age], r.key)
  {
    var place := Turns(st, r) + age;
    Unturned(place);
    LookedAt(st, r, age, place);
    if place == 8 && st.phase == Cleared { assert FileFind(Ringed(st)[8], r.key).None?; }
  }

  lemma LookAhead(st: State, r: Reader, age: nat)
    requires st.store.Shaped() && r.progress == Scanning(age) && age < 8 && Bearings(st, r, age)
    requires Ahead(Ringed(st), Turns(st, r), age, r)
    requires FileAt(st, r, age) == FileFind(Ringed(st)[Turns(st, r) + age], r.key)
    ensures ReadOk(st, ReadOne(st, r))
  {
    var order, turns, q := Ringed(st), Turns(st, r), ReadOne(st, r);
    if FileAt(st, r, age).Some? {
      AheadFound(order, turns, age, r);
    } else {
      assert Bearings(st, q, age + 1) && Turns(st, q) == turns;
      if turns + age + 1 < |order| {
        AheadOn(order, turns, age, r, q);
      } else {
        AheadEnds(order, turns, age, r);
        SeenMore(order, |order|, r, q);
        if st.phase == HasMerged { MergedIsLast(st); }
        assert Past(st, q);
      }
    }
  }

  lemma MergedIsLast(st: State)
    requires st.store.Shaped() && st.phase == HasMerged
    ensures |Ringed(st)| == 9 && Ringed(st)[8] == MergedSlot(st)
  {
    OldestSlots(st.store);
  }

  lemma LastLooksAt(st: State, r: Reader, age: nat)
    requires StoreInv(st) && age < 8 && Bearings(st, r, age) && LastChance(st, Turns(st, r), age, r)
    ensures FileAt(st, r, age) == FileFind(OldestFile(st), r.key)
  {
    Unturned(9);
    LookedAt(st, r, age, 9);
  }

  lemma LookLast(st: State, r: Reader, age: nat)
    requires st.store.Shaped() && r.progress == Scanning(age) && age < 8 && Bearings(st, r, age)
    requires LastChance(st, Turns(st, r), age, r) && FileAt(st, r, age) == FileFind(OldestFile(st), r.key)
    ensures ReadOk(st, ReadOne(st, r))
  {
    var q := ReadOne(st, r);
    if FileAt(st, r, age).None? {
      SeenMore(Ringed(st), 9, r, q);
      MergedIsLast(st);
      assert Past(st, q) && Bearings(st, q, age + 1);
    }
  }

  /** A read past them finds nothing that is not a right answer. */
  lemma PastLooksAt(st: State, r: Reader, age: nat)
    requires StoreInv(st) && age < 8 && Bearings(st, r, age)
    requires Past(st, r) && !FindsDropped(st, r, age)
    ensures FileAt(st, r, age).Some? ==> Live(FileAt(st, r, age)) in r.seen
  {
    var place := (Turns(st, r) + age) % NUMFILES;
    LookedAt(st, r, age, place);
    if place < |Ringed(st)| {
      assert SeenFile(Ringed(st)[place], r);
    } else if st.phase == HasDumped {
      DumpSeen(st, r, age);
    }
  }

  lemma LookPast(st: State, r: Reader, age: nat)
    requires st.store.Shaped() && r.progress == Scanning(age) && age < 8 && Bearings(st, r, age) && Past(st, r)
    requires FileAt(st, r, age).Some? ==> Live(FileAt(st, r, age)) in r.seen
    ensures ReadOk(st, ReadOne(st, r))
  {
    var q := ReadOne(st, r);
    if FileAt(st, r, age).None? {
      PastMore(st, r, q);
      assert Bearings(st, q, age + 1);
    }
  }

  /** A look that loses nothing leaves the read right. */
  lemma LookOk(st: State, id: nat)
    requires StoreInv(st) && Enabled(st, DoRead(id)) && ReadOk(st, st.readers[id]) && !Loses(st, DoRead(id), id)
    ensures ReadOk(st, ReadOne(st, st.readers[id]))
  {
    var r := st.readers[id];
    var age := r.progress.age;
    assert !SkipsEmptied(st, r, age) && !FindsDropped(st, r, age);
    if Ahead(Ringed(st), Turns(st, r), age, r) {
      AheadLooksAt(st, r, age);
      LookAhead(st, r, age);
    } else if LastChance(st, Turns(st, r), age, r) {
      LastLooksAt(st, r, age);
      LookLast(st, r, age);
    } else {
      PastLooksAt(st, r, age);
      LookPast(st, r, age);
    }
  }

  lemma AheadTwo(order: seq<File>, turns: nat, r: Reader)
    requires |order| == 10 && Ahead(order, turns, 8, r)
    ensures var a, b := FileFind(order[(turns + 8) % NUMFILES], r.key), FileFind(order[(turns + 9) % NUMFILES], r.key);
      Live(Override(a, b)) in r.seen
  {
    if FileFind(order[turns + 8], r.key).Some? {
      AheadFound(order, turns, 8, r);
    } else if turns == 0 {
      AheadOn(order, 0, 8, r, r);
      if FileFind(order[9], r.key).Some? { AheadFound(order, 0, 9, r); } else { AheadEnds(order, 0, 9, r); }
    } else {
      AheadEnds(order, 1, 8, r);
      assert SeenFile(order[0], r);
    }
  }

  lemma PastTwo(order: seq<File>, turns: nat, r: Reader)
    requires |order| == 10 && SeenUpTo(order, 10, r) && None in r.seen
    ensures var a, b := FileFind(order[(turns + 8) % NUMFILES], r.key), FileFind(order[(turns + 9) % NUMFILES], r.key);
      Live(Override(a, b)) in r.seen
  {
    assert SeenFile(order[(turns + 8) % NUMFILES], r) && SeenFile(order[(turns + 9) % NUMFILES], r);
  }

  lemma IdleLook(st: State, r: Reader, age: nat)
    requires st.store.Shaped() && st.phase == Idle && r.recent < NUMFILES && age < NUMFILES
    requires st.store.recent == (r.recent + Turns(st, r)) % NUMFILES
    ensures |Ringed(st)| == 10 && FileAt(st, r, age) == FileFind(Ringed(st)[(Turns(st, r) + age) % NUMFILES], r.key)
  {
    AgeNow(r.recent, Turns(st, r), age);
  }

  /** The locked look at the last two files. */
  lemma LookLocked(st: State, r: Reader)
    requires st.store.Shaped() && r.progress == Scanning(8) && st.phase == Idle && OnCourse(st, r, 8)
    ensures ReadOk(st, ReadLast(st, r))
  {
    IdleLook(st, r, 8);
    IdleLook(st, r, 9);
    if Ahead(Ringed(st), Turns(st, r), 8, r) {
      AheadTwo(Ringed(st), Turns(st, r), r);
    } else {
      PastTwo(Ringed(st), Turns(st, r), r);
    }
  }

  // Every step, every run

  /** A read that starts scanning: nothing in memory, so the files have today's answer. */
  lemma StartOk(st: State, k: Key)
    requires StoreInv(st)
    ensures ReadOk(st, Snapshot(st, k))
  {
    assert Live(Layers(st, k)) == Live(Lookup(st.db, k));
    assert Ringed(st)[0..] == Ringed(st);
  }

  /** The steps of others, seen from a read. */
  lemma OthersKeep(st: State, step: Step, id: nat)
    requires StoreInv(st) && Enabled(st, step) && id in st.readers && ReadOk(st, st.readers[id])
    requires !Loses(st, step, id) && step != DoRead(id) && step != DoReadLocked(id)
    ensures id in Do(st, step).readers && ReadOk(Do(st, step), Do(st, step).readers[id])
  {
    var r := st.readers[id];
    if r.progress.Scanning? {
      var age := r.progress.age;
      match step
      case DoWrite(k, v) => WriteCourse(st, k, v, r, age);
      case DoSwap => SwapCourse(st, r, age);
      case DoClear => ClearCourse(st, r, age);
      case DoMerge => MergeCourse(st, r, age);
      case DoDump(now) => DumpCourse(st, now, r, age);
      case DoPublish => PublishCourse(st, r, age);
      case _ => QuietCourse(st, step, r, age);
    }
  }

  lemma QuietOk(st: State, step: Step, r: Reader)
    requires st.store.Shaped() && Enabled(st, step) && IsQuiet(step) && ReadOk(st, r)
    ensures Do(st, step).store.Shaped() && ReadOk(Do(st, step), r)
  {
    if r.progress.Scanning? { QuietCourse(st, step, r, r.progress.age); }
  }

  /** Every step of a writer, swap, adjust or read keeps a read right, unless it loses its place. */
  lemma StepKeepsRead(st: State, step: Step, id: nat)
    requires StoreInv(st) && Enabled(st, step) && !Loses(st, step, id) && ReadKept(st, id)
    ensures ReadKept(Do(st, step), id)
  {
    if step.DoStart? && step.id == id {
      StartOk(st, step.key);
      QuietOk(st, step, Snapshot(st, step.key));
    } else if step == DoRead(id) {
      LookOk(st, id);
      QuietOk(st, step, ReadOne(st, st.readers[id]));
    } else if step == DoReadLocked(id) {
      LookLocked(st, st.readers[id]);
      QuietOk(st, step, ReadLast(st, st.readers[id]));
    } else if id in st.readers {
      OthersKeep(st, step, id);
    } else {
      StepKeepsStore(st, step);
    }
  }

  ghost predicate LosesAt(run: seq<State>, steps: seq<Step>, id: nat, m: nat) {
    m < |steps| && m < |run| && run[m].store.Shaped() && Loses(run[m], steps[m], id)
  }

  /** Some step before position i made the read lose its place. */
  ghost predicate Lost(run: seq<State>, steps: seq<Step>, id: nat, i: nat) {
    exists m :: 0 <= m < i && LosesAt(run, steps, id, m)
  }

  lemma {:induction false} RunRead(run: seq<State>, steps: seq<Step>, id: nat, i: nat)
    requires IsRun(run, steps) && i < |run| && !Lost(run, steps, id, i)
    ensures ReadKept(run[i], id)
  {
    if i > 0 {
      RunInv(run, steps, i - 1);
      assert Follows(run[i - 1], steps[i - 1], run[i]);
      assert !LosesAt(run, steps, id, i - 1);
      RunRead(run, steps, id, i - 1);
      StepKeepsRead(run[i - 1], steps[i - 1], id);
    }
  }

  /**
   On every run, a read that has not lost its place returns a value, or absence, that its key had
   at some moment between its memory-lock section and its return, deletion marks read as absence.
   */
  lemma ReadIsCurrent(run: seq<State>, steps: seq<Step>, id: nat, i: nat)
    requires IsRun(run, steps) && i < |run| && id in run[i].readers && run[i].readers[id].progress.Returned?
    requires !Lost(run, steps, id, i)
    ensures HadAnswer(run, id, run[i].readers[id].key, Live(run[i].readers[id].progress.value), i)
  {
    RunRead(run, steps, id, i);
    SeenHappened(run, steps, id, i, Live(run[i].readers[id].progress.value));
  }

  ghost predicate HadValue(run: seq<State>, id: nat, k: Key, a: Option<Value>, upto: nat) {
    exists m :: 0 <= m <= upto && During(run, id, m) && Lookup(run[m].db, k) == a
  }

  /** Without deletion marks the read returns the very value, or absence, its key had. */
  lemma ReadIsExact(run: seq<State>, steps: seq<Step>, id: nat, i: nat)
    requires IsRun(run, steps) && i < |run| && id in run[i].readers && run[i].readers[id].progress.Returned?
    requires !Lost(run, steps, id, i) && Clean(run[0])
    requires forall j :: 0 <= j < |steps| ==> NoMarkWritten(steps[j])
    ensures HadValue(run, id, run[i].readers[id].key, run[i].readers[id].progress.value, i)
  {
    ReadIsCurrent(run, steps, id, i);
    RunClean(run, steps, i);
    var r := run[i].readers[id];
    var m :| 0 <= m <= i && During(run, id, m) && Live(Lookup(run[m].db, r.key)) == Live(r.progress.value);
    RunClean(run, steps, m);
  }

  // When a read cannot lose its place

  /** What identifies a read, and where the ring was at its snapshot. */
  ghost predicate Placed(st: State, r: Reader)
    requires st.store.Shaped()
  {
    r.recent < NUMFILES && r.epoch <= st.epoch && st.store.recent == (r.recent + Turns(st, r)) % NUMFILES
  }

  lemma StepKeepsPlaced(st: State, step: Step, id: nat)
    requires st.store.Shaped() && Enabled(st, step) && id in st.readers && Placed(st, st.readers[id])
    ensures var after := Do(st, step); after.store.Shaped() && id in after.readers
    ensures var r, q := st.readers[id], Do(st, step).readers[id];
      Placed(Do(st, step), q) && q.key == r.key && q.recent == r.recent && q.epoch == r.epoch
  {
    var r := st.readers[id];
    TurnOn(r.recent, Turns(st, r));
  }

  lemma StartPlaced(st: State, step: Step, id: nat)
    requires st.store.Shaped() && Enabled(st, step) && id !in st.readers && id in Do(st, step).readers
    ensures Do(st, step).store.Shaped() && Placed(Do(st, step), Do(st, step).readers[id])
  {
    Unturned(st.store.recent);
    assert step.DoStart? && Do(st, step).readers[id] == Snapshot(st, step.key);
  }

  lemma StepPlaced(st: State, step: Step, id: nat)
    requires st.store.Shaped() && Enabled(st, step) && id in Do(st, step).readers
    requires id in st.readers ==> Placed(st, st.readers[id])
    ensures Do(st, step).store.Shaped() && Placed(Do(st, step), Do(st, step).readers[id])
  {
    if id in st.readers { StepKeepsPlaced(st, step, id); } else { StartPlaced(st, step, id); }
  }

  lemma {:induction false} RunPlaced(run: seq<State>, steps: seq<Step>, id: nat, i: nat)
    requires IsRun(run, steps) && i < |run| && id in run[i].readers
    ensures run[i].store.Shaped() && Placed(run[i], run[i].readers[id])
  {
    if i > 0 {
      assert Follows(run[i - 1], steps[i - 1], run[i]);
      if id in run[i - 1].readers { RunPlaced(run, steps, id, i - 1); }
      StepPlaced(run[i - 1], steps[i - 1], id);
    }
  }

  /** A read keeps its identity. */
  lemma {:induction false} SameRead(run: seq<State>, steps: seq<Step>, id: nat, m: nat, i: nat)
    requires IsRun(run, steps) && m <= i < |run| && id in run[m].readers
    ensures id in run[i].readers
    ensures var r, q := run[m].readers[id], run[i].readers[id];
      q.key == r.key && q.recent == r.recent && q.epoch == r.epoch
    ensures run[m].epoch <= run[i].epoch
    ensures run[i].readers[id].progress.Scanning? ==>
      run[m].readers[id].progress.Scanning? && run[m].readers[id].progress.age <= run[i].readers[id].progress.age
    decreases i - m
  {
    if m < i {
      SameRead(run, steps, id, m, i - 1);
      assert Follows(run[i - 1], steps[i - 1], run[i]);
      StepAges(run[i - 1], steps[i - 1], id);
    }
  }

  lemma StepAges(st: State, step: Step, id: nat)
    requires st.store.Shaped() && Enabled(st, step) && id in st.readers
    ensures id in Do(st, step).readers && st.epoch <= Do(st, step).epoch
    ensures var r, q := st.readers[id], Do(st, step).readers[id];
      && q.key == r.key && q.recent == r.recent && q.epoch == r.epoch
      && (q.progress.Scanning? ==> r.progress.Scanning? && r.progress.age <= q.progress.age)
      && (r.progress.Returned? ==> q.progress == r.progress)
  {
  }

  /** To lose its place takes a ring that has turned, and an adjust at work on the files again. */
  lemma LosesLate(st: State, step: Step, id: nat)
    requires st.store.Shaped() && Enabled(st, step) && Loses(st, step, id) && Placed(st, st.readers[id])
    requires st.readers[id].progress.age <= 8
    ensures Turns(st, st.readers[id]) + st.readers[id].progress.age >= 8
    ensures Turns(st, st.readers[id]) >= 1 && st.phase in {Cleared, HasMerged}
  {
    var r := st.readers[id];
    var age, turns := r.progress.age, Turns(st, r);
    if step == DoRead(id) && FindsDropped(st, r, age) {
      OldestSlots(st.store);
      AgeNow(r.recent, turns, age);
      if turns + age < 9 {
        Unturned(turns + age);
        SlotsApart(st.store.recent, turns + age, 9);
      }
    }
  }

  /** The read is under way while an adjust is rewriting files, from emptying the second oldest to publishing. */
  ghost predicate Beside(st: State, id: nat) {
    id in st.readers && st.readers[id].progress.Scanning? && st.phase in {Cleared, HasMerged, HasDumped}
  }

  /** Two adjusts rewrite files while the read is under way; the epoch tells one adjust from another. */
  ghost predicate TwoRewrite(run: seq<State>, id: nat, i: nat) {
    exists m, n :: 0 <= m < n <= i && n < |run| && Beside(run[m], id) && Beside(run[n], id)
      && run[m].epoch != run[n].epoch
  }

  /** A ring that has turned since the snapshot was turned by an adjust that ended beside the read. */
  lemma {:induction false} EarlierAdjust(run: seq<State>, steps: seq<Step>, id: nat, n: nat) returns (m: nat)
    requires IsRun(run, steps) && n < |run| && id in run[n].readers && run[n].readers[id].progress.Scanning?
    requires run[n].epoch > run[n].readers[id].epoch
    ensures m < n && Beside(run[m], id) && run[m].epoch < run[n].epoch
    decreases n
  {
    assert n > 0;
    assert Follows(run[n - 1], steps[n - 1], run[n]);
    assert id in run[n - 1].readers;
    StepAges(run[n - 1], steps[n - 1], id);
    if run[n - 1].epoch < run[n].epoch {
      m := n - 1;
    } else {
      m := EarlierAdjust(run, steps, id, n - 1);
    }
  }

  lemma AgeBound(run: seq<State>, steps: seq<Step>, id: nat, i: nat)
    requires IsRun(run, steps) && i < |run| && id in run[i].readers && run[i].readers[id].progress.Scanning?
    ensures run[i].readers[id].progress.age <= 8
  {
    if i > 0 {
      assert Follows(run[i - 1], steps[i - 1], run[i]);
      if id in run[i - 1].readers && run[i - 1].readers[id].progress.Scanning? { AgeBound(run, steps, id, i - 1); }
    }
  }

  /** A read beside which at most one adjust rewrites files is always right. */
  lemma BesideOneAdjust(run: seq<State>, steps: seq<Step>, id: nat, i: nat)
    requires IsRun(run, steps) && i < |run| && id in run[i].readers && run[i].readers[id].progress.Returned?
    requires !TwoRewrite(run, id, i)
    ensures HadAnswer(run, id, run[i].readers[id].key, Live(run[i].readers[id].progress.value), i)
  {
    if Lost(run, steps, id, i) {
      var m :| 0 <= m < i && LosesAt(run, steps, id, m);
      RunPlaced(run, steps, id, m);
      AgeBound(run, steps, id, m);
      assert Follows(run[m], steps[m], run[m + 1]);
      LosesLate(run[m], steps[m], id);
      var first := EarlierAdjust(run, steps, id, m);
      assert Beside(run[first], id) && Beside(run[m], id);
    }
    ReadIsCurrent(run, steps, id, i);
  }

  /**
   However many adjusts overtake a read, a value found while age and turns of the ring come to at
   most seven is right.
   */
  lemma YoungFileIsRight(run: seq<State>, steps: seq<Step>, id: nat, i: nat)
    requires IsRun(run, steps) && i < |steps| && steps[i] == DoRead(id) && id in run[i].readers
    requires id in run[i + 1].readers && run[i + 1].readers[id].progress.Returned?
    requires run[i].readers[id].progress.Scanning?
    requires Turns(run[i], run[i].readers[id]) + run[i].readers[id].progress.age <= 7
    ensures HadAnswer(run, id, run[i + 1].readers[id].key, Live(run[i + 1].readers[id].progress.value), i + 1)
  {
    if Lost(run, steps, id, i + 1) {
      var m :| 0 <= m < i + 1 && LosesAt(run, steps, id, m);
      RunPlaced(run, steps, id, m);
      AgeBound(run, steps, id, m);
      assert Follows(run[m], steps[m], run[m + 1]);
      LosesLate(run[m], steps[m], id);
      SameRead(run, steps, id, m, i);
    }
    ReadIsCurrent(run, steps, id, i + 1);
  }

  // The third way to lose a place needs a deletion mark

  /** Whatever key the oldest file has, the file it has been merged into has too. */
  ghost predicate Covered(st: State)
    requires st.store.Shaped()
  {
    st.phase == HasMerged ==>
      forall k: Key :: FileFind(OldestFile(st), k).Some? ==> FileFind(MergedSlot(st), k).Some?
  }

  lemma MergeCovers(st: State)
    requires StoreInv(st) && Enabled(st, DoMerge) && CleanStore(st.store)
    ensures Do(st, DoMerge).store.Shaped() && Covered(Do(st, DoMerge))
  {
    OldestSlots(st.store);
    SlotsApart(st.store.recent, 8, 9);
    var after, temp, last := Do(st, DoMerge), st.store.temp, OldestFile(st);
    assert OldestFile(after) == last && MergedSlot(after) == MergedFile(temp, last);
    forall k: Key | FileFind(last, k).Some? ensures FileFind(MergedFile(temp, last), k).Some? {
      MergedFind(temp.entries, last.entries, k);
      CleanFileFind(temp, k);
      CleanFileFind(last, k);
    }
  }

  lemma StepCovers(st: State, step: Step)
    requires StoreInv(st) && Enabled(st, step) && CleanStore(st.store) && Covered(st)
    ensures Do(st, step).store.Shaped() && Covered(Do(st, step))
  {
    if step == DoMerge {
      MergeCovers(st);
    } else if step !in {DoClear, DoPublish} && !step.DoDump? {
      QuietCovers(st, step);
    }
  }

  lemma QuietCovers(st: State, step: Step)
    requires st.store.Shaped() && Enabled(st, step) && Covered(st)
    requires step !in {DoClear, DoMerge, DoPublish} && !step.DoDump?
    ensures Do(st, step).store.Shaped() && Covered(Do(st, step))
  {
    QuietFiles(st, step);
    var after := Do(st, step);
    assert OldestFile(after) == OldestFile(st) && MergedSlot(after) == MergedSlot(st);
    if after.phase == HasMerged {
      forall k: Key | FileFind(OldestFile(after), k).Some? ensures FileFind(MergedSlot(after), k).Some? {
        assert FileFind(OldestFile(st), k).Some?;
      }
    }
  }

  lemma {:induction false} RunCovers(run: seq<State>, steps: seq<Step>, i: nat)
    requires IsRun(run, steps) && i < |run| && Clean(run[0]) && run[0].store.Shaped() && Covered(run[0])
    requires forall j :: 0 <= j < |steps| ==> NoMarkWritten(steps[j])
    ensures run[i].store.Shaped() && Covered(run[i])
  {
    if i > 0 {
      RunCovers(run, steps, i - 1);
      RunInv(run, steps, i - 1);
      RunClean(run, steps, i - 1);
      assert Follows(run[i - 1], steps[i - 1], run[i]);
      StepCovers(run[i - 1], steps[i - 1]);
    }
  }

  /** Where no mark is ever written, a read loses its place only to an emptied or an overwritten file. */
  lemma CleanLosses(run: seq<State>, steps: seq<Step>, id: nat, m: nat)
    requires IsRun(run, steps) && Clean(run[0]) && run[0].store.Shaped() && Covered(run[0])
    requires forall j :: 0 <= j < |steps| ==> NoMarkWritten(steps[j])
    requires LosesAt(run, steps, id, m)
    ensures var r := run[m].readers[id];
      SkipsEmptied(run[m], r, r.progress.age) || MissesMerged(run[m], r, r.progress.age)
  {
    RunCovers(run, steps, m);
  }
}
