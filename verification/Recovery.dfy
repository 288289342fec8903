/** Restarting after a crash: both logs are replayed, each followed by one adjust. */
module Recovery {
  import opened Options
  import opened Entries
  import opened SortedEntries
  import opened MergeFiles
  import opened Log
  import opened Ring
  import opened Store
  import opened Machine
  import Bloom

  /** The ring after one boot round: a log becomes the newest file. */
  function Round(files: seq<File>, recent: nat, log: seq<Record>, now: nat): seq<File>
    requires Complete(files) && recent < NUMFILES
  {
    Adjusted(files, recent, Replay(log), now)
  }

  lemma RoundComplete(files: seq<File>, recent: nat, log: seq<Record>, now: nat)
    requires Complete(files) && recent < NUMFILES
    ensures Complete(Round(files, recent, log, now))
  {
    ReplayAscending(log);
    AdjustKeepsComplete(files, recent, Replay(log), now);
  }

  /** What the constructor makes of files and logs found on disk. */
  function Booted(files: seq<File>, recent: nat, logs: seq<seq<Record>>, bloom: set<nat>, now0: nat, now1: nat): Store
    requires Complete(files) && recent < NUMFILES && |logs| == 2
  {
    RoundComplete(files, recent, logs[0], now0);
    var once, next := Round(files, recent, logs[0], now0), (recent + 1) % NUMFILES;
    Store([], None, Round(once, next, logs[1], now1), Blank, (next + 1) % NUMFILES, 0, [[], []], bloom)
  }

  /** It starts with nothing in memory, on backup0, both logs empty, the ring turned twice. */
  lemma BootTells(files: seq<File>, found: nat, logs: seq<seq<Record>>, bloom: set<nat>, now0: nat, now1: nat)
    requires Complete(files) && found < 10 && |logs| == 2
    ensures var boot := Booted(files, found, logs, bloom, now0, now1);
      && boot.tree == [] && boot.reserve.None? && boot.current == 0 && boot.backups == [[], []]
      && boot.temp.Blank? && boot.bloom == bloom && boot.recent == (found + 2) % 10
      && |boot.files| == 10 && boot.files[(found + 1) % 10] == Stamped(now0, Replay(logs[0]))
      && boot.files[(found + 2) % 10] == Stamped(now1, Replay(logs[1]))
  {
    RoundComplete(files, found, logs[0], now0);
    var once, next := Round(files, found, logs[0], now0), (found + 1) % 10;
    assert Slot(found, 9) == next && Slot(next, 9) == (found + 2) % 10 && Slot(next, 8) == (found + 3) % 10;
    assert once[next] == Stamped(now0, Replay(logs[0]));
  }

  lemma LiveOverride(a: Option<Value>, b: Option<Value>, c: Option<Value>)
    requires Live(b) == Live(c)
    ensures Live(Override(a, b)) == Live(Override(a, c))
  {
  }

  lemma RoundFind(files: seq<File>, recent: nat, log: seq<Record>, now: nat, k: Key)
    requires Complete(files) && recent < NUMFILES
    ensures Live(FindIn(Newest(Round(files, recent, log, now), (recent + 1) % NUMFILES), k))
         == Live(Layered(Replay(log), files, recent, k))
  {
    AdjustKeepsAnswers(files, recent, Replay(log), now, k);
  }

  /** The restarted store looks in log 1's tree first, then log 0's, then the old ring. */
  lemma BootedFind(files: seq<File>, recent: nat, logs: seq<seq<Record>>, bloom: set<nat>, now0: nat, now1: nat, k: Key)
    requires Complete(files) && recent < NUMFILES && |logs| == 2
    ensures var boot := Booted(files, recent, logs, bloom, now0, now1);
      Live(FindIn(Newest(boot.files, boot.recent), k))
      == Live(Override(Find(Replay(logs[1]), k), Layered(Replay(logs[0]), files, recent, k)))
  {
    RoundComplete(files, recent, logs[0], now0);
    TwoRounds(files, recent, logs[0], logs[1], now0, now1, k);
  }

  lemma TwoRounds(files: seq<File>, recent: nat, log0: seq<Record>, log1: seq<Record>, now0: nat, now1: nat, k: Key)
    requires Complete(files) && recent < NUMFILES && Complete(Round(files, recent, log0, now0))
    ensures var once, next := Round(files, recent, log0, now0), (recent + 1) % NUMFILES;
      Live(FindIn(Newest(Round(once, next, log1, now1), (next + 1) % NUMFILES), k))
      == Live(Override(Find(Replay(log1), k), Layered(Replay(log0), files, recent, k)))
  {
    var once, next := Round(files, recent, log0, now0), (recent + 1) % NUMFILES;
    RoundFind(files, recent, log0, now0, k);
    RoundFind(once, next, log1, now1, k);
    assert Layered(Replay(log1), once, next, k) == Override(Find(Replay(log1), k), FindIn(Newest(once, next), k));
    LiveOverride(Find(Replay(log1), k), FindIn(Newest(once, next), k), Layered(Replay(log0), files, recent, k));
  }

  /**
   A crash that does not catch an adjust with the second oldest file emptied; what was in it is
   then in the temporary file only, which the boot discards.
   */
  ghost predicate CrashPoint(st: State) {
    StoreInv(st) && st.phase != Cleared
  }

  /** The newest file on disk: a finished dump is, though the ring has not turned yet. */
  function Front(st: State): (front: nat)
    requires st.store.Shaped()
    ensures front < NUMFILES
  {
    if st.phase == HasDumped then st.store.Oldest1() else st.store.recent
  }

  lemma CrashFiles(st: State)
    requires CrashPoint(st)
    ensures Complete(st.store.files)
  {
  }

  /** The files on disk from that one on, against those that count. */
  lemma FoundRing(st: State)
    requires CrashPoint(st)
    ensures var found := Newest(st.store.files, Front(st));
      if st.phase == HasDumped then found == [OldestFile(st)] + Ringed(st)
      else if st.phase == HasMerged then found == Ringed(st) + [OldestFile(st)]
      else found == Ringed(st)
  {
    RingFromFront(st);
  }

  lemma RingFromFront(st: State)
    requires st.store.Shaped() && st.phase != Cleared
    ensures var found := Newest(st.store.files, Front(st));
      if st.phase == HasDumped then found == [OldestFile(st)] + Ringed(st)
      else if st.phase == HasMerged then found == Ringed(st) + [OldestFile(st)]
      else found == Ringed(st)
  {
    OldestSlots(st.store);
    var order := Newest(st.store.files, st.store.recent);
    if st.phase == HasDumped {
      OneAndNine(st.store.files, st.store.recent);
    } else if st.phase == HasMerged {
      NineAndOne(order, OldestFile(st));
    }
  }

  lemma OneAndNine(files: seq<File>, recent: nat)
    requires |files| == NUMFILES && recent < NUMFILES
    ensures Newest(files, Slot(recent, 9)) == [files[Slot(recent, 9)]] + Newest(files, recent)[..9]
  {
    var front := Slot(recent, 9);
    forall age | 0 <= age < NUMFILES
      ensures Newest(files, front)[age] == ([files[front]] + Newest(files, recent)[..9])[age]
    {
      if age > 0 { assert Slot(front, age) == Slot(recent, age - 1); }
    }
  }

  lemma NineAndOne(order: seq<File>, last: File)
    requires |order| == 10 && order[9] == last
    ensures order == order[..9] + [last]
  {
  }

  /** The boot that starts from this file. */
  function Restarted(st: State, found: nat, now0: nat, now1: nat): Store
    requires CrashPoint(st) && found < NUMFILES
  {
    CrashFiles(st);
    Booted(st.store.files, found, st.store.backups, st.store.bloom, now0, now1)
  }

  /** No key in both trees with different answers; trivially so when one of the logs is empty. */
  ghost predicate TreesAgree(s: Store) {
    forall k: Key :: AgreeOn(s, k)
  }

  ghost predicate AgreeOn(s: Store, k: Key) {
    Find(s.tree, k).Some? && ReserveFind(s, k).Some? ==> Live(Find(s.tree, k)) == Live(ReserveFind(s, k))
  }

  /** The merge has dropped a mark that hid the oldest file's value, and that file is still there. */
  ghost predicate Revives(st: State, k: Key)
    requires st.store.Shaped()
  {
    && st.phase == HasMerged && InMemory(st.store, k).None?
    && FindIn(Ringed(st), k).None? && Live(FileFind(OldestFile(st), k)).Some?
  }

  /** What decides whether a crash loses nothing when the boot starts at the newest file. */
  ghost predicate Recoverable(st: State)
    requires st.store.Shaped()
  {
    || st.phase == HasDumped
    || ((st.store.current == 1 || TreesAgree(st.store)) && forall k: Key :: !Revives(st, k))
  }

  /** A tree that still counts has the key. */
  predicate InLogs(st: State, k: Key) {
    Find(st.store.tree, k).Some? || (st.phase != HasDumped && ReserveFind(st.store, k).Some?)
  }

  /** The answer of the files that count, a finished dump among them. */
  function Counted(st: State, k: Key): Option<Value>
    requires st.store.Shaped()
  {
    var ring := FindIn(Ringed(st), k);
    if st.phase == HasDumped then Override(ReserveFind(st.store, k), ring) else ring
  }

  /** The answer of all files on disk, read down the ring from this one. */
  function OnDisk(st: State, found: nat, k: Key): Option<Value>
    requires st.store.Shaped() && found < NUMFILES
  {
    FindIn(Newest(st.store.files, found), k)
  }

  /** The order of the trees does not matter, or is the one the boot takes them in. */
  ghost predicate LogsTell(st: State) {
    st.phase == HasDumped || st.store.current == 1 || TreesAgree(st.store)
  }

  /** Read from this file on, the disk answers every key that is in no log as the files that count. */
  ghost predicate DiskTells(st: State, found: nat)
    requires st.store.Shaped() && found < NUMFILES
  {
    forall k: Key :: DiskTellsKey(st, found, k)
  }

  ghost predicate DiskTellsKey(st: State, found: nat, k: Key)
    requires st.store.Shaped() && found < NUMFILES
  {
    InLogs(st, k) || Live(OnDisk(st, found, k)) == Live(Counted(st, k))
  }

  /** Each log answers for its own tree; once the reserve is in a file its log stands for nothing. */
  lemma FromLogs(st: State, k: Key)
    requires CrashPoint(st)
    ensures var s := st.store; s.current == 0 || s.current == 1
    ensures var s := st.store;
      && Find(Replay(s.backups[s.current]), k) == Find(s.tree, k)
      && Find(Replay(s.backups[1 - s.current]), k) == if st.phase == HasDumped then None else ReserveFind(s, k)
  {
    OldestSlots(st.store);
  }

  lemma FrontFind(st: State, k: Key)
    requires CrashPoint(st)
    ensures OnDisk(st, Front(st), k)
         == if st.phase == HasMerged then Override(Counted(st, k), FileFind(OldestFile(st), k)) else Counted(st, k)
  {
    FoundRing(st);
    FindInConcat([OldestFile(st)], Ringed(st), k);
    FindInConcat(Ringed(st), [OldestFile(st)], k);
  }

  /** What a key comes back with. */
  function Comeback(st: State, found: nat, k: Key): Option<Value>
    requires st.store.Shaped() && found < NUMFILES
  {
    var t, r, ring := Find(st.store.tree, k), ReserveFind(st.store, k), OnDisk(st, found, k);
    if st.phase == HasDumped then Override(t, ring)
    else if st.store.current == 1 then Override(t, Override(r, ring))
    else Override(r, Override(t, ring))
  }

  lemma RestartedFind(st: State, found: nat, now0: nat, now1: nat, k: Key)
    requires CrashPoint(st) && found < NUMFILES
    ensures var boot := Restarted(st, found, now0, now1);
      Live(FindIn(Newest(boot.files, boot.recent), k)) == Live(Comeback(st, found, k))
  {
    CrashFiles(st);
    var s := st.store;
    BootedFind(s.files, found, s.backups, s.bloom, now0, now1, k);
    FromLogs(st, k);
    var l0, l1 := Find(Replay(s.backups[0]), k), Find(Replay(s.backups[1]), k);
    assert Layered(Replay(s.backups[0]), s.files, found, k) == Override(l0, OnDisk(st, found, k));
    if s.current == 1 { assert l1 == Find(s.tree, k); } else { assert l0 == Find(s.tree, k); }
  }

  ghost predicate AnswersAs(s: Store, db: map<Key, Value>)
    requires s.Shaped()
  {
    forall k: Key :: Live(FindIn(Newest(s.files, s.recent), k)) == Live(Lookup(db, k))
  }

  /** One key comes back right exactly when the order of its two trees and that of the files do not matter. */
  lemma KeyBack(st: State, found: nat, k: Key)
    requires CrashPoint(st) && found < NUMFILES
    ensures Live(Comeback(st, found, k)) == Live(Lookup(st.db, k)) <==>
      (st.phase == HasDumped || st.store.current == 1 || AgreeOn(st.store, k)) && DiskTellsKey(st, found, k)
  {
    assert Live(Layers(st, k)) == Live(Lookup(st.db, k));
  }

  /**
   Wherever the boot starts, the restarted store answers every key as the map did before the crash
   exactly when the dump was already written, or the live log was backup1, or no key sits in both
   trees with different answers, and the files, read from there, answer every other key as those
   that count.
   */
  lemma RecoveryFrom(st: State, found: nat, now0: nat, now1: nat)
    requires CrashPoint(st) && found < NUMFILES
    ensures AnswersAs(Restarted(st, found, now0, now1), st.db) <==> LogsTell(st) && DiskTells(st, found)
  {
    var boot := Restarted(st, found, now0, now1);
    forall k: Key
      ensures Live(FindIn(Newest(boot.files, boot.recent), k)) == Live(Comeback(st, found, k))
    {
      RestartedFind(st, found, now0, now1, k);
    }
    if LogsTell(st) && DiskTells(st, found) {
      forall k: Key ensures Live(FindIn(Newest(boot.files, boot.recent), k)) == Live(Lookup(st.db, k)) {
        KeyBack(st, found, k);
        assert DiskTellsKey(st, found, k);
      }
    } else {
      var k := Fails(st, found);
      KeyBack(st, found, k);
      assert Live(FindIn(Newest(boot.files, boot.recent), k)) == Live(Comeback(st, found, k));
    }
  }

  lemma Fails(st: State, found: nat) returns (k: Key)
    requires st.store.Shaped() && found < NUMFILES && !(LogsTell(st) && DiskTells(st, found))
    ensures (st.phase != HasDumped && st.store.current != 1 && !AgreeOn(st.store, k)) || !DiskTellsKey(st, found, k)
  {
    if !LogsTell(st) {
      k :| !AgreeOn(st.store, k);
    } else {
      k :| !DiskTellsKey(st, found, k);
    }
  }

  /**
   From the newest file on, the files tell the truth unless a mark the merge has dropped lets an
   older value show again.
   */
  lemma FrontTells(st: State)
    requires CrashPoint(st)
    ensures LogsTell(st) && DiskTells(st, Front(st)) <==> Recoverable(st)
  {
    forall k: Key ensures DiskTellsKey(st, Front(st), k) <==> !Revives(st, k) { FrontFind(st, k); }
    if LogsTell(st) && DiskTells(st, Front(st)) {
      forall k: Key ensures !Revives(st, k) { assert DiskTellsKey(st, Front(st), k); }
    }
  }

  /** So a boot from the newest file restores the map exactly in the recoverable cases. */
  lemma RecoveryExact(st: State, now0: nat, now1: nat)
    requires CrashPoint(st)
    ensures AnswersAs(Restarted(st, Front(st), now0, now1), st.db) <==> Recoverable(st)
  {
    RecoveryFrom(st, Front(st), now0, now1);
    FrontTells(st);
  }

  /** A store that answers as before is a consistent store again, from which runs can go on. */
  lemma RecoveryConsistent(st: State, found: nat, now0: nat, now1: nat)
    requires CrashPoint(st) && found < NUMFILES && LogsTell(st) && DiskTells(st, found)
    ensures StoreInv(State(Restarted(st, found, now0, now1), Idle, 0, st.db, map[]))
  {
    RecoveryFrom(st, found, now0, now1);
    RestartedComplete(st, found, now0, now1);
    FreshStore(Restarted(st, found, now0, now1), st.db);
  }

  lemma RestartedComplete(st: State, found: nat, now0: nat, now1: nat)
    requires CrashPoint(st) && found < NUMFILES
    ensures Complete(Restarted(st, found, now0, now1).files)
  {
    CrashFiles(st);
    var s := st.store;
    RoundComplete(s.files, found, s.backups[0], now0);
    RoundComplete(Round(s.files, found, s.backups[0], now0), (found + 1) % NUMFILES, s.backups[1], now1);
  }

  /** A store with nothing in memory and empty logs is consistent when its files and filter are. */
  lemma FreshStore(s: Store, db: map<Key, Value>)
    requires s.Shaped() && Complete(s.files) && AnswersAs(s, db)
    requires s.tree == [] && s.reserve.None? && s.backups == [[], []]
    requires forall k :: k in db ==> Bloom.Positions(k) <= s.bloom
    ensures StoreInv(State(s, Idle, 0, db, map[]))
  {
    var st := State(s, Idle, 0, db, map[]);
    assert Ringed(st) == Newest(s.files, s.recent);
    forall k: Key ensures Live(Layers(st, k)) == Live(Lookup(db, k)) {
      assert Live(FindIn(Newest(s.files, s.recent), k)) == Live(Lookup(db, k));
    }
  }
}
