/** The write-ahead log of a tree and what replaying it rebuilds. */
module Log {
  import opened Options
  import opened Entries
  import opened SortedEntries

  /** A record's tag byte selects the first three; any other byte is reported and skipped. */
  datatype Record = Write(key: Key, value: Value) | Del(key: Key) | Sync | Other

  function Apply(s: seq<Entry>, r: Record): seq<Entry> {
    match r
    case Write(k, v) => Put(s, k, v)
    case Del(k) => if Find(s, k).Some? then Put(s, k, Tombstone()) else s
    case Sync => s
    case Other => s
  }

  function Fold(s: seq<Entry>, log: seq<Record>): seq<Entry> {
    if log == [] then s else Apply(Fold(s, log[..|log| - 1]), log[|log| - 1])
  }

  /** The records after the last Sync, all of them when there is none. */
  function Unsynced(log: seq<Record>): seq<Record> {
    if log == [] || log[|log| - 1] == Sync then []
    else Unsynced(log[..|log| - 1]) + [log[|log| - 1]]
  }

  function Replay(log: seq<Record>): seq<Entry> {
    Fold([], Unsynced(log))
  }

  lemma ReplayAppend(log: seq<Record>, r: Record)
    ensures Replay(log + [r]) == if r == Sync then [] else Apply(Replay(log), r)
  {
    assert (log + [r])[..|log|] == log;
    if r != Sync {
      var u := Unsynced(log);
      assert Unsynced(log + [r]) == u + [r];
      assert (u + [r])[..|u|] == u;
    }
  }

  // What a replay says of a key, in terms of the records

  /** There is a write of the key after the last sync. */
  ghost predicate WrittenSince(log: seq<Record>, k: Key) {
    exists i :: 0 <= i < |log| && WriteStands(log, k, i)
  }

  ghost predicate WriteStands(log: seq<Record>, k: Key, i: nat)
    requires i < |log|
  {
    log[i].Write? && log[i].key == k && forall j :: i < j < |log| ==> log[j] != Sync
  }

  lemma WrittenAppend(log: seq<Record>, r: Record, k: Key)
    ensures WrittenSince(log + [r], k) <==> r != Sync && ((r.Write? && r.key == k) || WrittenSince(log, k))
  {
    var after := log + [r];
    if WrittenSince(after, k) {
      var i :| 0 <= i < |after| && WriteStands(after, k, i);
      if i < |log| {
        assert after[|log|] == r;
        assert forall j :: i < j < |log| ==> after[j] == log[j];
        assert WriteStands(log, k, i);
      }
    }
    if r != Sync && r.Write? && r.key == k { assert WriteStands(after, k, |log|); }
    if r != Sync && WrittenSince(log, k) {
      var i :| 0 <= i < |log| && WriteStands(log, k, i);
      assert WriteStands(after, k, i);
    }
  }

  /** A replay holds exactly the keys written after the last sync; a delete alone brings none back. */
  lemma {:induction false} ReplayKeys(log: seq<Record>, k: Key)
    ensures Find(Replay(log), k).Some? <==> WrittenSince(log, k)
  {
    if log != [] {
      var init, r := log[..|log| - 1], log[|log| - 1];
      assert log == init + [r];
      ReplayKeys(init, k);
      ReplayAppend(init, r);
      WrittenAppend(init, r, k);
      ReplayAscending(init);
      if r.Write? || r.Del? {
        PutFind(Replay(init), r.key, if r.Write? then r.value else Tombstone(), k);
      }
    }
  }

  /** The log stands for the contents, as far as they were written after the last sync. */
  ghost predicate Backs(log: seq<Record>, s: seq<Entry>) {
    forall k: Key :: BacksKey(log, s, k)
  }

  ghost predicate BacksKey(log: seq<Record>, s: seq<Entry>, k: Key) {
    Find(Replay(log), k) == if WrittenSince(log, k) then Find(s, k) else None
  }

  lemma WriteBacks(log: seq<Record>, s: seq<Entry>, key: Key, v: Value)
    requires Ascending(s) && Backs(log, s)
    ensures Backs(log + [Write(key, v)], Put(s, key, v))
  {
    ReplayAppend(log, Write(key, v));
    ReplayAscending(log);
    forall k: Key ensures BacksKey(log + [Write(key, v)], Put(s, key, v), k) {
      assert BacksKey(log, s, k);
      WrittenAppend(log, Write(key, v), k);
      PutFind(s, key, v, k);
      PutFind(Replay(log), key, v, k);
    }
  }

  lemma DeleteBacks(log: seq<Record>, s: seq<Entry>, key: Key)
    requires Ascending(s) && Backs(log, s) && Find(s, key).Some?
    ensures Backs(log + [Del(key)], Put(s, key, Tombstone()))
  {
    ReplayAppend(log, Del(key));
    ReplayAscending(log);
    forall k: Key ensures BacksKey(log + [Del(key)], Put(s, key, Tombstone()), k) {
      assert BacksKey(log, s, k);
      WrittenAppend(log, Del(key), k);
      ReplayKeys(log, k);
      PutFind(s, key, Tombstone(), k);
      PutFind(Replay(log), key, Tombstone(), k);
    }
  }

  lemma SyncBacks(log: seq<Record>, s: seq<Entry>)
    ensures Backs(log + [Sync], s)
  {
    ReplayAppend(log, Sync);
    forall k: Key ensures BacksKey(log + [Sync], s, k) { WrittenAppend(log, Sync, k); }
  }

  lemma FoldAppend(s: seq<Entry>, log: seq<Record>, r: Record)
    ensures Fold(s, log + [r]) == Apply(Fold(s, log), r)
  {
    assert (log + [r])[..|log|] == log;
  }

  lemma ApplyAscending(s: seq<Entry>, r: Record)
    requires Ascending(s)
    ensures Ascending(Apply(s, r))
  {
    match r
    case Write(k, v) => PutAscending(s, k, v);
    case Del(k) => PutAscending(s, k, Tombstone());
    case Sync =>
    case Other =>
  }

  lemma {:induction false} FoldAscending(s: seq<Entry>, log: seq<Record>)
    requires Ascending(s)
    ensures Ascending(Fold(s, log))
  {
    if log != [] {
      FoldAscending(s, log[..|log| - 1]);
      ApplyAscending(Fold(s, log[..|log| - 1]), log[|log| - 1]);
    }
  }

  lemma ReplayAscending(log: seq<Record>)
    ensures Ascending(Replay(log))
  {
    FoldAscending([], Unsynced(log));
  }

  lemma {:induction false} PutTwice(s: seq<Entry>, k: Key, v: Value)
    ensures Put(Put(s, k, v), k, v) == Put(s, k, v)
  {
    var t := Put(s, k, v);
    if s == [] || k < s[0].key {
      assert t[1..] == s;
    } else if s[0].key == k {
      assert t[1..] == s[1..];
    } else {
      assert t[1..] == Put(s[1..], k, v);
      PutTwice(s[1..], k, v);
    }
  }

  /** Applying a record twice in a row is the same as applying it once. */
  lemma ApplyTwice(s: seq<Entry>, r: Record)
    requires Ascending(s)
    ensures Apply(Apply(s, r), r) == Apply(s, r)
  {
    match r
    case Write(k, v) => PutTwice(s, k, v);
    case Del(k) =>
      PutTwice(s, k, Tombstone());
      PutFind(s, k, Tombstone(), k);
    case Sync =>
    case Other =>
  }

  // Client operations and the log they leave

  datatype Op = Insert(key: Key, value: Value) | Delete(key: Key)

  /** Insert always logs; a delete logs only when the key is there. */
  function Logged(s: seq<Entry>, op: Op): seq<Record> {
    match op
    case Insert(k, v) => [Write(k, v)]
    case Delete(k) => if Find(s, k).Some? then [Del(k)] else []
  }

  function Perform(s: seq<Entry>, op: Op): seq<Entry> {
    match op
    case Insert(k, v) => Put(s, k, v)
    case Delete(k) => if Find(s, k).Some? then Put(s, k, Tombstone()) else s
  }

  function PerformAll(ops: seq<Op>): (seq<Entry>, seq<Record>) {
    if ops == [] then ([], [])
    else
      var (s, log) := PerformAll(ops[..|ops| - 1]);
      var op := ops[|ops| - 1];
      (Perform(s, op), log + Logged(s, op))
  }

  /** Replaying the log of any sequence of inserts and deletes rebuilds the tree's contents. */
  lemma {:induction false} LogRoundTrip(ops: seq<Op>)
    ensures Replay(PerformAll(ops).1) == PerformAll(ops).0
  {
    if ops != [] {
      LogRoundTrip(ops[..|ops| - 1]);
      var (s, log) := PerformAll(ops[..|ops| - 1]);
      var op := ops[|ops| - 1];
      match op {
        case Insert(k, v) => ReplayAppend(log, Write(k, v));
        case Delete(k) =>
          if Find(s, k).Some? { ReplayAppend(log, Del(k)); } else { assert log + [] == log; }
      }
    }
  }

  lemma {:induction false} UnsyncedSplit(log: seq<Record>, i: nat)
    requires i <= |log|
    requires i == 0 || log[i - 1] == Sync
    requires forall j :: i <= j < |log| ==> log[j] != Sync
    ensures Unsynced(log) == log[i..]
  {
    if i < |log| {
      var init := log[..|log| - 1];
      UnsyncedSplit(init, i);
      assert log[i..] == init[i..] + [log[|log| - 1]];
    }
  }

  /** A log on disk, shared between the store that names it and the tree that appends to it. */
  class LogFile {
    var records: seq<Record>

    constructor ()
      ensures records == []
    {
      records := [];
    }
  }
}
