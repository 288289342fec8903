/**
 Association lists in strictly ascending key order: what a tree holds in order, and what a
 sorted file holds after its header. `Find` is the answer such a list gives for a key.
 */
module SortedEntries {
  import opened Options
  import opened Entries

  /** Every entry's key is below every later one's. */
  ghost predicate Ascending(s: seq<Entry>) {
    forall i, j :: 0 <= i < j < |s| ==> s[i].key < s[j].key
  }

  function Find(s: seq<Entry>, k: Key): (r: Option<Value>)
  {
    if s == [] then None
    else if s[0].key == k then Some(s[0].value)
    else Find(s[1..], k)
  }

  function Lookup(m: map<Key, Value>, k: Key): Option<Value> {
    if k in m then Some(m[k]) else None
  }

  /** An ascending list answers a key with exactly the entry that carries it. */
  lemma {:induction false} FindAt(s: seq<Entry>, i: nat)
    requires Ascending(s) && i < |s|
    ensures Find(s, s[i].key) == Some(s[i].value)
  {
    if i > 0 {
      FindAt(s[1..], i - 1);
    }
  }

  lemma {:induction false} FindNowhere(s: seq<Entry>, k: Key)
    ensures Find(s, k).None? <==> forall i :: 0 <= i < |s| ==> s[i].key != k
  {
    if s != [] {
      FindNowhere(s[1..], k);
      if Find(s, k).None? {
        forall i | 0 <= i < |s| ensures s[i].key != k {
          if i > 0 { assert s[i] == s[1..][i - 1]; }
        }
      } else if s[0].key != k {
        var i :| 0 <= i < |s[1..]| && s[1..][i].key == k;
        assert s[i + 1].key == k;
      }
    }
  }

  lemma FindBelow(s: seq<Entry>, k: Key)
    requires Ascending(s)
    requires s != [] ==> k < s[0].key
    ensures Find(s, k).None?
  {
    FindNowhere(s, k);
  }

  lemma {:induction false} FindConcat(a: seq<Entry>, b: seq<Entry>, k: Key)
    ensures Find(a + b, k) == if Find(a, k).Some? then Find(a, k) else Find(b, k)
  {
    if a == [] {
      assert a + b == b;
    } else {
      assert (a + b)[1..] == a[1..] + b;
      FindConcat(a[1..], b, k);
    }
  }

  /** Answers determine the list: two ascending lists that answer alike are the same list. */
  lemma {:induction false} AnswersDetermine(a: seq<Entry>, b: seq<Entry>)
    requires Ascending(a) && Ascending(b)
    requires forall k: Key :: Find(a, k) == Find(b, k)
    ensures a == b
  {
    var ka := if a == [] then 0 else a[0].key;
    var kb := if b == [] then 0 else b[0].key;
    assert Find(a, ka) == Find(b, ka) && Find(a, kb) == Find(b, kb);
    if a != [] && b != [] {
      if a[0].key < b[0].key { FindBelow(b, a[0].key); }
      if b[0].key < a[0].key { FindBelow(a, b[0].key); }
      forall k: Key ensures Find(a[1..], k) == Find(b[1..], k) {
        assert Find(a, k) == Find(b, k);
        if k == a[0].key { FindBelow(a[1..], k); FindBelow(b[1..], k); }
      }
      AnswersDetermine(a[1..], b[1..]);
    }
  }

  // Updating an entry

  function Put(s: seq<Entry>, k: Key, v: Value): seq<Entry> {
    if s == [] || k < s[0].key then [Entry(k, v)] + s
    else if s[0].key == k then [Entry(k, v)] + s[1..]
    else [s[0]] + Put(s[1..], k, v)
  }

  /** Only key k changes its answer, and the order is kept. */
  lemma {:induction false} PutFind(s: seq<Entry>, k: Key, v: Value, q: Key)
    requires Ascending(s)
    ensures Find(Put(s, k, v), q) == if q == k then Some(v) else Find(s, q)
  {
    if s != [] && s[0].key < k {
      PutFind(s[1..], k, v, q);
      assert Put(s, k, v)[1..] == Put(s[1..], k, v);
    } else if s != [] && s[0].key == k {
      assert Put(s, k, v)[1..] == s[1..];
      if q == k { FindBelow(s[1..], k); }
    } else {
      assert Put(s, k, v)[1..] == s;
      FindBelow(s, k);
    }
  }

  lemma PrependAscending(e: Entry, s: seq<Entry>)
    requires Ascending(s)
    requires forall x :: x in s ==> e.key < x.key
    ensures Ascending([e] + s)
  {
    assert forall i :: 0 <= i < |s| ==> s[i] in s;
  }

  lemma AllAbove(s: seq<Entry>)
    requires Ascending(s) && s != []
    ensures forall x :: x in s[1..] ==> s[0].key < x.key
    ensures forall x :: x in s ==> s[0].key <= x.key
    ensures Ascending(s[1..])
  {
  }

  lemma {:induction false} PutKeys(s: seq<Entry>, k: Key, v: Value)
    ensures forall e :: e in Put(s, k, v) ==> e.key == k || e in s
  {
    if s != [] && s[0].key < k { PutKeys(s[1..], k, v); }
  }

  /** The order is kept, and the list grows just when k is new. */
  lemma {:induction false} PutAscending(s: seq<Entry>, k: Key, v: Value)
    requires Ascending(s)
    ensures Ascending(Put(s, k, v))
    ensures |Put(s, k, v)| == |s| + if Find(s, k).Some? then 0 else 1
  {
    if s == [] || k < s[0].key {
      FindBelow(s, k);
      if s != [] { AllAbove(s); }
      PrependAscending(Entry(k, v), s);
    } else if s[0].key == k {
      AllAbove(s);
      PrependAscending(Entry(k, v), s[1..]);
    } else {
      AllAbove(s);
      PutAscending(s[1..], k, v);
      PutKeys(s[1..], k, v);
      PrependAscending(s[0], Put(s[1..], k, v));
    }
  }

  lemma {:induction false} PutConcat(a: seq<Entry>, b: seq<Entry>, k: Key, v: Value)
    requires forall i :: 0 <= i < |a| ==> a[i].key < k
    ensures Put(a + b, k, v) == a + Put(b, k, v)
  {
    if a == [] {
      assert a + b == b;
    } else {
      assert (a + b)[1..] == a[1..] + b;
      PutConcat(a[1..], b, k, v);
    }
  }

  lemma {:induction false} PutBefore(a: seq<Entry>, b: seq<Entry>, k: Key, v: Value)
    requires b != [] && k < b[0].key
    ensures Put(a + b, k, v) == Put(a, k, v) + b
  {
    if a == [] {
      assert a + b == b;
    } else {
      assert (a + b)[1..] == a[1..] + b && (a + b)[0] == a[0];
      if a[0].key < k {
        PutBefore(a[1..], b, k, v);
        assert [a[0]] + (Put(a[1..], k, v) + b) == ([a[0]] + Put(a[1..], k, v)) + b;
      } else if a[0].key == k {
        assert [Entry(k, v)] + (a[1..] + b) == ([Entry(k, v)] + a[1..]) + b;
      } else {
        assert [Entry(k, v)] + (a + b) == ([Entry(k, v)] + a) + b;
      }
    }
  }

  ghost predicate NoTombs(s: seq<Entry>) {
    forall e :: e in s ==> !IsTomb(e.value)
  }

  lemma {:induction false} NoTombsFind(s: seq<Entry>, k: Key)
    requires NoTombs(s)
    ensures Live(Find(s, k)) == Find(s, k)
  {
    if s != [] {
      assert s[0] in s;
      NoTombsFind(s[1..], k);
    }
  }

  lemma {:induction false} PutNoTombs(s: seq<Entry>, k: Key, v: Value)
    requires NoTombs(s) && !IsTomb(v)
    ensures NoTombs(Put(s, k, v))
  {
    if s != [] && s[0].key < k {
      PutNoTombs(s[1..], k, v);
    }
  }
}
