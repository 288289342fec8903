/**
 The store itself: two trees, ten sorted files, two logs and the filter, changed in place. Each
 method is one critical section of the source or one step of its adjust; `Store` says what each
 does to the state as a value, and `Machine` interleaves them.
 */
module Master {
  import opened Options
  import opened Entries
  import opened SortedEntries
  import opened MergeFiles
  import opened Log
  import opened Ring
  import opened Store
  import opened BinaryTree
  import opened BlockCache
  import opened FileRead
  import opened Machine
  import Bloom
  import Recovery

  /** The nodes a tree is made of. */
  ghost function Held(t: Tree?): set<Node>
    reads t
  {
    if t == null then {} else t.cells.Keys
  }

  ghost function Contents(t: Tree?): seq<Entry>
    reads t
  {
    if t == null then [] else t.Contents()
  }

  /** Publishing empties the old log, so it does not matter where the dump noted its sync. */
  lemma AdjustAnyLog(s: Store, now: nat, backups: seq<seq<Record>>)
    requires s.Shaped() && s.reserve.Some? && Complete(s.files)
    requires |backups| == 2 && backups[s.current] == s.backups[s.current]
    ensures Published(Dumped(MergedTwo(s), now).(backups := backups)) == AdjustedStore(s, now)
  {
    OldestSlots(s);
    assert backups[s.Other() := []] == s.backups[s.Other() := []];
  }

  /** The logs once a sync is noted on the other one. */
  function Noted(s: Store): seq<seq<Record>>
    requires s.Shaped()
  {
    s.backups[s.Other() := s.backups[s.Other()] + [Sync]]
  }

  lemma SyncNoted(s: Store, backups: seq<seq<Record>>)
    requires s.Shaped() && |backups| == 2 && backups[s.current] == s.backups[s.current]
    requires backups[1 - s.current] == s.backups[1 - s.current] + [Sync]
    ensures backups == Noted(s)
  {
    OldestSlots(s);
  }

  /** A boot round as a value: log i becomes the newest file and is emptied. */
  function Recovered(s: Store, i: nat, now: nat): Store
    requires s.Shaped() && Complete(s.files) && i < 2
  {
    s.(files := Recovery.Round(s.files, s.recent, s.backups[i], now), temp := Blank,
       recent := s.Oldest1(), current := 1 - i, backups := s.backups[i := []])
  }

  lemma RoundIsAdjust(s: Store, loaded: Store, i: nat, now: nat)
    requires s.Shaped() && Complete(s.files) && i < 2 && s.reserve.None?
    requires loaded == s.(current := 1 - i, reserve := Some(Replay(s.backups[i])))
    ensures AdjustedStore(loaded, now) == Recovered(s, i, now)
  {
    OldestSlots(loaded);
    AdjustSteps(loaded, now);
  }

  /** The first round, field by field. */
  lemma RecoveredFirst(s: Store, now: nat)
    requires s.Shaped() && Complete(s.files)
    ensures var files := Recovery.Round(s.files, s.recent, s.backups[0], now);
      Complete(files) && Recovered(s, 0, now)
        == Store(s.tree, s.reserve, files, Blank, (s.recent + 1) % NUMFILES, 1, [[], s.backups[1]], s.bloom)
  {
    Recovery.RoundComplete(s.files, s.recent, s.backups[0], now);
    assert s.backups[0 := []] == [[], s.backups[1]];
  }

  /** And the second. */
  lemma RecoveredSecond(s: Store, now: nat)
    requires s.Shaped() && Complete(s.files) && s.backups[0] == []
    ensures Recovered(s, 1, now)
        == Store(s.tree, s.reserve, Recovery.Round(s.files, s.recent, s.backups[1], now), Blank,
                 (s.recent + 1) % NUMFILES, 0, [[], []], s.bloom)
  {
    assert s.backups[1 := []] == [[], []];
  }

  /** Both rounds, field by field. */
  function RecoveredBoth(s: Store, now0: nat, now1: nat): Store
    requires s.Shaped() && Complete(s.files)
  {
    Recovery.RoundComplete(s.files, s.recent, s.backups[0], now0);
    var once, next := Recovery.Round(s.files, s.recent, s.backups[0], now0), (s.recent + 1) % NUMFILES;
    Store(s.tree, s.reserve, Recovery.Round(once, next, s.backups[1], now1), Blank, (next + 1) % NUMFILES, 0,
          [[], []], s.bloom)
  }

  lemma RoundByRound(s: Store, now0: nat, now1: nat)
    requires s.Shaped() && Complete(s.files)
    ensures var once := Recovered(s, 0, now0);
      once.Shaped() && Complete(once.files) && Recovered(once, 1, now1) == RecoveredBoth(s, now0, now1)
  {
    RecoveredFirst(s, now0);
    RecoveredSecond(Recovered(s, 0, now0), now1);
  }

  /** What both rounds leave on disk and in `recent` is what `Recovery` calls the booted store. */
  lemma BootedAssembles(s: Store, saved: set<nat>, now0: nat, now1: nat)
    requires s.Shaped() && Complete(s.files) && s.tree == [] && s.reserve.None?
    ensures RecoveredBoth(s, now0, now1).(current := 0, bloom := saved)
         == Recovery.Booted(s.files, s.recent, s.backups, saved, now0, now1)
  {
  }

  class Master {
    var bintree: Tree?
    var reserve: Tree?
    var bloom: Bloom.BloomFile?
    var recent: int
    var current: int
    const filesys: array<File>
    const backup0: LogFile
    const backup1: LogFile
    var tempfile: File

    function Backup(i: int): LogFile {
      if i == 0 then backup0 else backup1
    }

    ghost function BloomPart(): set<object>
      reads this
    {
      if bloom == null then {} else {bloom, bloom.arr}
    }

    /**
     The trees share no node, and the reserve does not log to the live tree's file. At boot the live
     tree and the filter come last.
     */
    ghost predicate Valid()
      reads this, bintree, reserve, Held(bintree), Held(reserve), BloomPart()
    {
      && filesys.Length == NUMFILES && 0 <= recent < NUMFILES && 0 <= current < 2 && backup0 != backup1
      && (bintree != null ==> bintree.Valid() && bintree.logfile == Backup(current))
      && (reserve != null ==> reserve.Valid() && reserve.logfile != Backup(current) && reserve != bintree)
      && Held(bintree) !! Held(reserve)
      && (bloom != null ==> bloom.Valid())
    }

    /** In service, the live tree and the filter exist, and the reserve logs to the other file. */
    ghost predicate Serving()
      reads this, bintree, reserve, Held(bintree), Held(reserve), BloomPart()
    {
      Valid() && bintree != null && bloom != null && (reserve != null ==> reserve.logfile == Backup(1 - current))
    }

    ghost function View(): Store
      reads this, bintree, reserve, Held(bintree), Held(reserve), BloomPart(), filesys, backup0, backup1
      requires Valid()
    {
      Store(Contents(bintree),
            if reserve == null then None else Some(Contents(reserve)),
            filesys[..], tempfile, recent, current, [backup0.records, backup1.records],
            if bloom == null then {} else bloom.Marked())
    }

    /** A write: the live tree and its log, then the filter. */
    method DbWrite(k: Key, v: Value)
      requires Serving()
      modifies bintree, Held(bintree), Backup(current), bloom, bloom.arr
      ensures Serving() && fresh(Held(bintree) - old(Held(bintree)))
      ensures old(View()).Shaped() && View() == Written(old(View()), k, v)
    {
      WriteTree(k, v);
      MarkKey(k);
    }

    /** What the tree's insert does to the whole. */
    method WriteTree(k: Key, v: Value)
      requires Serving()
      modifies bintree, Held(bintree), Backup(current)
      ensures Serving() && fresh(Held(bintree) - old(Held(bintree)))
      ensures old(View()).Shaped()
      ensures View() == Written(old(View()), k, v).(bloom := old(View()).bloom)
    {
      ghost var s := View();
      InsertLive(k, v);
      assert View().backups == s.backups[current := s.backups[current] + [Write(k, v)]];
    }

    method InsertLive(k: Key, v: Value)
      requires Serving()
      modifies bintree, Held(bintree), Backup(current)
      ensures Serving() && fresh(Held(bintree) - old(Held(bintree)))
      ensures Contents(bintree) == Put(old(Contents(bintree)), k, v)
      ensures Backup(current).records == old(Backup(current).records) + [Write(k, v)]
    {
      bintree.Insert(k, v);
    }

    method MarkKey(k: Key)
      requires Serving()
      modifies bloom, bloom.arr
      ensures Serving()
      ensures View() == old(View()).(bloom := old(View()).bloom + Bloom.Positions(k))
    {
      bloom.Set(k);
    }

    /** A read, run alone: the answer of the layers, and so of the map they stand for. */
    method DbRead(cache: FileIO, fmt: Format, k: Key, ghost db: map<Key, Value>) returns (v: Option<Value>)
      requires Serving() && cache.Valid() && AllLegible(fmt)
      modifies cache, cache.buffer, cache.labels
      ensures Serving() && View() == old(View()) && cache.Valid() && cache.open == old(cache.open)
      ensures View().Shaped() && v == Answer(View(), k)
      ensures StoreInv(State(View(), Idle, 0, db, map[])) ==> Live(v) == Live(Lookup(db, k))
    {
      ghost var s := View();
      v := LookEverywhere(cache, fmt, k);
      if StoreInv(State(s, Idle, 0, db, map[])) { AnswersLikeMap(State(s, Idle, 0, db, map[]), k); }
    }

    ghost predicate AllLegible(fmt: Format)
      reads filesys
    {
      forall i :: 0 <= i < filesys.Length ==> Legible(fmt, filesys[i])
    }

    method LookEverywhere(cache: FileIO, fmt: Format, k: Key) returns (v: Option<Value>)
      requires Serving() && cache.Valid() && AllLegible(fmt)
      modifies cache, cache.buffer, cache.labels
      ensures Serving() && View() == old(View()) && cache.Valid() && cache.open == old(cache.open)
      ensures View().Shaped() && v == Answer(View(), k)
    {
      var r := recent;
      var absent;
      absent, v := LookAbove(k);
      if !absent && v.None? { v := LookBelow(cache, fmt, r, k); }
    }

    /** Filter and memory. */
    method LookAbove(k: Key) returns (absent: bool, v: Option<Value>)
      requires Serving()
      ensures absent <==> !(Bloom.Positions(k) <= View().bloom)
      ensures v == if absent then None else InMemory(View(), k)
    {
      var maybe := bloom.Get(k);
      if !maybe { return true, None; }
      v := LookInMemory(k);
      absent := false;
    }

    /** The files, seen from the whole. */
    method LookBelow(cache: FileIO, fmt: Format, r: nat, k: Key) returns (v: Option<Value>)
      requires Serving() && cache.Valid() && AllLegible(fmt) && r < NUMFILES
      modifies cache, cache.buffer, cache.labels
      ensures Serving() && View() == old(View()) && cache.Valid() && cache.open == old(cache.open)
      ensures View().Shaped() && v == FindIn(Newest(View().files, r), k)
    {
      v := LookInFiles(cache, fmt, r, k);
    }

    /** All ten files, from `r` down the ring. */
    method LookInFiles(cache: FileIO, fmt: Format, r: nat, k: Key) returns (v: Option<Value>)
      requires filesys.Length == NUMFILES && r < NUMFILES && cache.Valid() && AllLegible(fmt)
      modifies cache, cache.buffer, cache.labels
      ensures cache.Valid() && cache.open == old(cache.open) && filesys[..] == old(filesys[..])
      ensures v == FindIn(Newest(filesys[..], r), k)
    {
      LayeredSplit(filesys[..], r, k);
      v := LookUnlocked(cache, fmt, r, k);
      if v.None? { v := LookLocked(cache, fmt, r, k); }
    }

    /** The section under the memory lock: live tree before reserve. */
    method LookInMemory(k: Key) returns (v: Option<Value>)
      requires Serving()
      ensures v == InMemory(View(), k)
    {
      var n := bintree.Search(k);
      var nr := null;
      if reserve != null { nr := reserve.Search(k); }
      if n != null { return Some(n.value); }
      if nr != null { return Some(nr.value); }
      return None;
    }

    /** The eight newest files, from `r` down the ring. */
    method LookUnlocked(cache: FileIO, fmt: Format, r: nat, k: Key) returns (v: Option<Value>)
      requires filesys.Length == NUMFILES && r < NUMFILES && cache.Valid() && AllLegible(fmt)
      modifies cache, cache.buffer, cache.labels
      ensures cache.Valid() && cache.open == old(cache.open) && filesys[..] == old(filesys[..])
      ensures v == FindIn(Newest(filesys[..], r)[..8], k)
    {
      ghost var order := Newest(filesys[..], r)[..8];
      ghost var age := 0;
      SlotBack(r, 0);
      var i := r;
      while i != (r + 2) % NUMFILES
        invariant cache.Valid() && cache.open == old(cache.open) && filesys[..] == old(filesys[..])
        invariant age <= 8 && i == Slot(r, age)
        invariant forall u :: 0 <= u < age ==> FileFind(order[u], k).None?
        decreases 8 - age
      {
        if age == 8 { assert false; }
        v := LookFile(cache, fmt, filesys[i], k);
        if v.Some? {
          FindInAt(order, age, k);
          return;
        }
        SlotBack(r, age);
        i := (i - 1 + NUMFILES) % NUMFILES;
        age := age + 1;
      }
      if age < 8 { SlotsApart(r, age, 8); }
      FindInNowhere(order, k);
      return None;
    }

    /** The two oldest files, under the file lock. */
    method LookLocked(cache: FileIO, fmt: Format, r: nat, k: Key) returns (v: Option<Value>)
      requires filesys.Length == NUMFILES && r < NUMFILES && cache.Valid() && AllLegible(fmt)
      modifies cache, cache.buffer, cache.labels
      ensures cache.Valid() && cache.open == old(cache.open) && filesys[..] == old(filesys[..])
      ensures var order := Newest(filesys[..], r); v == Override(FileFind(order[8], k), FileFind(order[9], k))
    {
      ghost var order := Newest(filesys[..], r);
      ghost var age := 8;
      SlotBack(r, 0);
      var i := (r + 2) % NUMFILES;
      while i != r
        invariant cache.Valid() && cache.open == old(cache.open) && filesys[..] == old(filesys[..])
        invariant 8 <= age <= 10 && i == if age < 10 then Slot(r, age) else r
        invariant forall u :: 8 <= u < age ==> FileFind(order[u], k).None?
        decreases 10 - age
      {
        v := LookFile(cache, fmt, filesys[i], k);
        if v.Some? { return; }
        SlotBack(r, age);
        i := (i - 1 + NUMFILES) % NUMFILES;
        age := age + 1;
      }
      if age < 10 { SlotsApart(r, age, 0); }
      return None;
    }

    /** A full tree is set aside, if none is being written out already. */
    method MaybeSwap()
      requires Serving()
      modifies this, Backup(1 - current)
      ensures Serving() && old(View()).Shaped()
      ensures View() == if CanSwap(old(View())) then Swapped(old(View())) else old(View())
      ensures if old(|Contents(bintree)|) >= 1024 && old(reserve) == null
        then && reserve == old(bintree) && Contents(bintree) == []
             && current == 1 - old(current) && Backup(current).records == []
        else bintree == old(bintree) && reserve == old(reserve) && current == old(current)
      ensures CanSwap(old(View())) ==> reserve == old(bintree) && fresh(bintree) && Held(bintree) == {}
      ensures !CanSwap(old(View())) ==> bintree == old(bintree) && reserve == old(reserve)
      ensures bloom == old(bloom)
    {
      if bintree.size >= MAX_TREE_SIZE && reserve == null {
        ghost var s := View();
        SetAside();
        assert View().backups == s.backups[s.Other() := []];
      }
    }

    method SetAside()
      requires Serving() && reserve == null
      modifies this`reserve, this`current, this`bintree, Backup(1 - current)
      ensures Serving() && current == 1 - old(current)
      ensures reserve == old(bintree) && Contents(reserve) == old(Contents(bintree))
      ensures fresh(bintree) && Held(bintree) == {} && Contents(bintree) == []
      ensures Backup(current).records == []
    {
      reserve := bintree;
      current := (current + 1) % 2;
      bintree := new Tree(Backup(current));
    }

    // The steps of an adjust

    /** Copies the second oldest file to the temporary one. */
    method CopyOldest2()
      requires Valid()
      modifies this`tempfile
      ensures Valid() && old(View()).Shaped() && View() == Copied(old(View()))
    {
      tempfile := Blank;
      tempfile := filesys[(recent + 2) % NUMFILES];
    }

    method ClearOldest2()
      requires Valid()
      modifies filesys
      ensures Valid() && old(View()).Shaped() && View() == Emptied(old(View()))
    {
      ghost var s := View();
      filesys[(recent + 2) % NUMFILES] := Blank;
      assert filesys[..] == s.files[s.Oldest2() := Blank];
    }

    /** Merges the temporary file with the oldest one, in place of the second oldest. */
    method MergeOldest()
      requires Valid() && View().Shaped() && MergeReady(View())
      modifies this`tempfile, filesys
      ensures Valid() && old(View()).Shaped() && MergeReady(old(View()))
      ensures View() == MergedBack(old(View()))
    {
      ghost var s := View();
      var newfd, _, _ := Merge(tempfile, filesys[(recent + 1) % NUMFILES]);
      filesys[(recent + 2) % NUMFILES] := newfd;
      tempfile := Blank;
      assert filesys[..] == s.files[s.Oldest2() := newfd];
    }

    /** Writes the reserve over the oldest file; its log, wherever that is, notes the sync. */
    method DumpReserve(now: nat)
      requires Valid() && reserve != null
      modifies reserve`stk, reserve.LogPart(), filesys
      ensures Valid() && reserve.logfile == old(reserve.logfile)
      ensures old(View()).Shaped() && old(View()).reserve.Some?
      ensures View() == Dumped(old(View()), now).(backups := View().backups)
      ensures Backup(current).records == old(Backup(current).records)
      ensures reserve.logfile == Backup(1 - current) ==> View() == Dumped(old(View()), now)
    {
      ghost var s := View();
      var f := DumpLogged(now);
      ghost var t := View();
      OverwriteOldest(f);
      assert View() == t.(files := s.files[s.Oldest1() := f]);
    }

    method DumpLogged(now: nat) returns (f: File)
      requires Valid() && reserve != null
      modifies reserve`stk, reserve.LogPart()
      ensures Valid() && reserve.logfile == old(reserve.logfile)
      ensures old(View()).Shaped() && f == Stamped(now, Contents(reserve))
      ensures View() == old(View()).(backups := View().backups)
      ensures Backup(current).records == old(Backup(current).records)
      ensures reserve.logfile == Backup(1 - current) ==>
        View().backups == Noted(old(View()))
    {
      ghost var s := View();
      f := DumpTree(now);
      if reserve.logfile == Backup(1 - current) { SyncNoted(s, View().backups); }
    }

    method DumpTree(now: nat) returns (f: File)
      requires Valid() && reserve != null
      modifies reserve`stk, reserve.LogPart()
      ensures Valid() && reserve.logfile == old(reserve.logfile)
      ensures f == Stamped(now, Contents(reserve)) && Contents(reserve) == old(Contents(reserve))
      ensures reserve.logfile != null ==> reserve.logfile.records == old(reserve.logfile.records) + [Sync]
    {
      f := reserve.Dump(now);
    }

    method OverwriteOldest(f: File)
      requires Valid()
      modifies filesys
      ensures Valid() && old(View()).Shaped()
      ensures View() == old(View()).(files := old(View()).files[old(View()).Oldest1() := f])
    {
      ghost var s := View();
      filesys[(recent + 1) % NUMFILES] := f;
      assert filesys[..] == s.files[s.Oldest1() := f];
    }

    /** The section that ends an adjust: the ring turns, the old log is emptied, the reserve is let go. */
    method Publish()
      requires Valid() && reserve != null
      modifies this`recent, this`reserve, Backup(1 - current)
      ensures Valid() && reserve == null
      ensures old(View()).Shaped() && View() == Published(old(View()))
    {
      recent := (recent + 1) % NUMFILES;
      EmptyBackup();
      reserve := null;
    }

    method EmptyBackup()
      requires Valid()
      modifies Backup(1 - current)
      ensures Valid() && old(View()).Shaped()
      ensures View() == old(View()).(backups := old(View()).backups[old(View()).Other() := []])
    {
      ghost var s := View();
      Backup((current + 1) % 2).records := [];
      assert View().backups == s.backups[s.Other() := []];
    }

    /** A whole adjust, run alone: the value-level steps one after the other. */
    method Adjust(now: nat)
      requires Valid() && reserve != null && Complete(filesys[..])
      modifies this`recent, this`tempfile, this`reserve, filesys, reserve`stk, reserve.LogPart(), Backup(1 - current)
      ensures Valid() && reserve == null
      ensures old(View()).Shaped() && old(View()).reserve.Some?
      ensures View() == AdjustedStore(old(View()), now)
      ensures Turned(old(View()), View(), now)
    {
      ghost var s := View();
      AdjustTells(s, now);
      MergeTwo();
      DumpReserve(now);
      AdjustAnyLog(s, now, View().backups);
      Publish();
    }

    method MergeTwo()
      requires Valid() && Complete(filesys[..])
      modifies this`tempfile, filesys
      ensures Valid() && old(View()).Shaped() && View() == MergedTwo(old(View()))
    {
      ghost var s := View();
      OldestSlots(s);
      CopyOldest2();
      ClearOldest2();
      MergeOldest();
    }

    /** A boot round: one log is replayed into a tree that logs to the temporary file, and adjusted in. */
    method Recover(i: nat, now: nat)
      requires Valid() && reserve == null && bintree == null && i < 2 && Complete(filesys[..])
      modifies this`recent, this`current, this`tempfile, this`reserve, filesys, Backup(i)
      ensures Valid() && reserve == null
      ensures old(View()).Shaped() && View() == Recovered(old(View()), i, now)
    {
      ghost var s := View();
      LoadReserve(i);
      ghost var loaded := View();
      Adjust(now);
      RoundIsAdjust(s, loaded, i, now);
    }

    /** Replays a log; making it the one not current has the adjust empty it afterwards. */
    method LoadReserve(i: nat)
      requires Valid() && reserve == null && bintree == null && i < 2
      modifies this`current, this`reserve
      ensures Valid() && reserve != null && fresh(reserve) && fresh(reserve.LogPart())
      ensures View() == old(View()).(current := 1 - i, reserve := Some(Replay(Backup(i).records)))
    {
      var tree := ReplayTree(Backup(i));
      current := (i + 1) % 2;
      reserve := tree;
      assert Held(reserve) !! Held(bintree);
    }

    method ReplayTree(src: LogFile) returns (tree: Tree)
      ensures tree.Valid() && fresh(tree) && fresh(tree.LogPart()) && tree.logfile != null
      ensures tree.Contents() == Replay(src.records)
    {
      var log := new LogFile();
      tree := new Tree(log);
      tree.FromFile(src);
    }

    /** Both logs, backup0 first. */
    method RecoverBoth(now0: nat, now1: nat)
      requires Valid() && reserve == null && bintree == null && Complete(filesys[..])
      modifies this`recent, this`current, this`tempfile, this`reserve, filesys, backup0, backup1
      ensures Valid() && reserve == null && old(View()).Shaped()
      ensures View() == RecoveredBoth(old(View()), now0, now1)
    {
      RoundByRound(View(), now0, now1);
      Recover(0, now0);
      Recover(1, now1);
    }

    method StartServing(saved: seq<bv8>)
      requires Valid() && reserve == null && bintree == null && bloom == null && |saved| == Bloom.BYTES
      requires backup0.records == []
      modifies this`current, this`bintree, this`bloom, backup0
      ensures Serving() && View() == old(View()).(current := 0, bloom := Bloom.Marks(saved))
    {
      current := 0;
      bintree := new Tree(backup0);
      bloom := new Bloom.BloomFile.Load(saved);
    }

    /** The boot: find the newest file, replay both logs, start a new tree, reload the filter. */
    constructor (disk: seq<File>, logs: seq<seq<Record>>, saved: seq<bv8>, now0: nat, now1: nat)
      requires Complete(disk) && |logs| == 2 && |saved| == Bloom.BYTES
      ensures Serving()
      ensures exists found ::
        (Scanned(disk, found) && View() == Recovery.Booted(disk, found, logs, Bloom.Marks(saved), now0, now1))
    {
      filesys := new File[NUMFILES](i requires 0 <= i < NUMFILES => disk[i]);
      backup0 := new LogFile();
      backup1 := new LogFile();
      bintree, reserve, bloom, recent, current, tempfile := null, null, null, 9, 0, Blank;
      new;
      backup0.records, backup1.records := logs[0], logs[1];
      assert filesys[..] == disk;
      recent := ScanRecent(filesys[..]);
      ghost var s := View();
      assert s.backups == logs;
      BootedAssembles(s, Bloom.Marks(saved), now0, now1);
      RecoverBoth(now0, now1);
      StartServing(saved);
      assert View() == Recovery.Booted(disk, s.recent, logs, Bloom.Marks(saved), now0, now1);
    }
  }
}
