/** The ring of ten sorted files, read from the newest to the oldest, and its rotation. */
module Ring {
  import opened Options
  import opened Entries
  import opened SortedEntries
  import opened MergeFiles

  const NUMFILES := 10

  ghost predicate Complete(files: seq<File>) {
    |files| == NUMFILES && forall i :: 0 <= i < NUMFILES ==> files[i].Stamped? && SortedFile(files[i])
  }

  /** The ring index of the file with `age` newer ones. */
  function Slot(recent: nat, age: nat): (i: nat)
    requires recent < NUMFILES && age < NUMFILES
    ensures i < NUMFILES && (i == recent - age || i == recent - age + NUMFILES)
  {
    (recent + NUMFILES - age) % NUMFILES
  }

  lemma SlotsApart(recent: nat, a: nat, b: nat)
    requires recent < NUMFILES && a < NUMFILES && b < NUMFILES && a != b
    ensures Slot(recent, a) != Slot(recent, b)
  {
  }

  /** One slot further back. */
  lemma SlotBack(recent: nat, age: nat)
    requires recent < NUMFILES && age < NUMFILES
    ensures age < 9 ==> (Slot(recent, age) - 1 + NUMFILES) % NUMFILES == Slot(recent, age + 1)
    ensures age == 9 ==> (Slot(recent, age) - 1 + NUMFILES) % NUMFILES == recent
    ensures Slot(recent, 0) == recent && Slot(recent, 8) == (recent + 2) % NUMFILES
    ensures Slot(recent, 9) == (recent + 1) % NUMFILES
  {
  }

  function Newest(files: seq<File>, recent: nat): (order: seq<File>)
    requires |files| == NUMFILES && recent < NUMFILES
    ensures |order| == NUMFILES
    ensures forall age {:trigger order[age]} :: 0 <= age < NUMFILES ==> order[age] == files[Slot(recent, age)]
  {
    seq(NUMFILES, age requires 0 <= age < NUMFILES => files[Slot(recent, age)])
  }

  /** The answer of the first file that has one. */
  function FindIn(order: seq<File>, k: Key): Option<Value> {
    if order == [] then None
    else if FileFind(order[0], k).Some? then FileFind(order[0], k)
    else FindIn(order[1..], k)
  }

  lemma {:induction false} FindInConcat(a: seq<File>, b: seq<File>, k: Key)
    ensures FindIn(a + b, k) == Override(FindIn(a, k), FindIn(b, k))
  {
    if a == [] {
      assert a + b == b;
    } else {
      assert (a + b)[1..] == a[1..] + b;
      FindInConcat(a[1..], b, k);
    }
  }

  /** The file at position i decides when the ones before it are silent. */
  lemma {:induction false} FindInAt(order: seq<File>, i: nat, k: Key)
    requires i < |order| && FileFind(order[i], k).Some?
    requires forall j :: 0 <= j < i ==> FileFind(order[j], k).None?
    ensures FindIn(order, k) == FileFind(order[i], k)
  {
    if i > 0 { FindInAt(order[1..], i - 1, k); }
  }

  lemma {:induction false} FindInNowhere(order: seq<File>, k: Key)
    requires forall j :: 0 <= j < |order| ==> FileFind(order[j], k).None?
    ensures FindIn(order, k).None?
  {
    if order != [] { FindInNowhere(order[1..], k); }
  }

  /** What a finished adjust has made of the files: two merged into one, the reserve's dump in. */
  function Adjusted(files: seq<File>, recent: nat, reserve: seq<Entry>, now: nat): seq<File>
    requires |files| == NUMFILES && recent < NUMFILES
    requires files[Slot(recent, 8)].Stamped? && files[Slot(recent, 9)].Stamped?
  {
    files[Slot(recent, 8) := MergedFile(files[Slot(recent, 8)], files[Slot(recent, 9)])]
         [Slot(recent, 9) := Stamped(now, reserve)]
  }

  /** Seen from the new `recent`, everything ages by one and the two oldest become one. */
  lemma AdjustRotates(files: seq<File>, recent: nat, reserve: seq<Entry>, now: nat)
    requires |files| == NUMFILES && recent < NUMFILES
    requires files[Slot(recent, 8)].Stamped? && files[Slot(recent, 9)].Stamped?
    ensures var order := Newest(files, recent);
      Newest(Adjusted(files, recent, reserve, now), (recent + 1) % NUMFILES)
      == [Stamped(now, reserve)] + order[..8] + [MergedFile(order[8], order[9])]
  {
    var order, next := Newest(files, recent), (recent + 1) % NUMFILES;
    var after := Newest(Adjusted(files, recent, reserve, now), next);
    forall age | 0 <= age < NUMFILES
      ensures after[age] == ([Stamped(now, reserve)] + order[..8] + [MergedFile(order[8], order[9])])[age]
    {
      if age > 0 { assert Slot(next, age) == Slot(recent, age - 1); }
    }
  }

  /** The entry that the merge of the two oldest files drops as a deletion mark. */
  ghost predicate DropsMark(files: seq<File>, recent: nat, reserve: seq<Entry>, k: Key)
    requires |files| == NUMFILES && recent < NUMFILES
  {
    var order := Newest(files, recent);
    var oldest := Override(FileFind(order[8], k), FileFind(order[9], k));
    Find(reserve, k).None? && FindIn(order[..8], k).None? && oldest.Some? && IsTomb(oldest.value)
  }

  /** Answers of a reserve tree in front of the ring. */
  function Layered(reserve: seq<Entry>, files: seq<File>, recent: nat, k: Key): Option<Value>
    requires |files| == NUMFILES && recent < NUMFILES
  {
    Override(Find(reserve, k), FindIn(Newest(files, recent), k))
  }

  lemma LayeredSplit(files: seq<File>, recent: nat, k: Key)
    requires |files| == NUMFILES && recent < NUMFILES
    ensures var order := Newest(files, recent);
      FindIn(order, k) == Override(FindIn(order[..8], k), Override(FileFind(order[8], k), FileFind(order[9], k)))
  {
    var order := Newest(files, recent);
    assert order == order[..8] + [order[8], order[9]];
    FindInConcat(order[..8], [order[8], order[9]], k);
    FindInConcat([order[8]], [order[9]], k);
    assert [order[8]] + [order[9]] == [order[8], order[9]];
  }

  lemma AdjustedFind(files: seq<File>, recent: nat, reserve: seq<Entry>, now: nat, k: Key)
    requires Complete(files) && recent < NUMFILES
    ensures var order := Newest(files, recent);
      FindIn(Newest(Adjusted(files, recent, reserve, now), (recent + 1) % NUMFILES), k)
      == Override(Find(reserve, k), Override(FindIn(order[..8], k),
                  Live(Override(FileFind(order[8], k), FileFind(order[9], k)))))
  {
    var order := Newest(files, recent);
    var merged := MergedFile(order[8], order[9]);
    AdjustRotates(files, recent, reserve, now);
    FindInConcat([Stamped(now, reserve)] + order[..8], [merged], k);
    FindInConcat([Stamped(now, reserve)], order[..8], k);
    MergedFind(order[8].entries, order[9].entries, k);
  }

  /**
   A finished adjust answers every key as the reserve in front of the ring did before, deletion
   marks read as absence; and it answers alike in every byte exactly when it drops no mark.
   */
  lemma AdjustKeepsAnswers(files: seq<File>, recent: nat, reserve: seq<Entry>, now: nat, k: Key)
    requires Complete(files) && recent < NUMFILES
    ensures var before := Layered(reserve, files, recent, k);
      var after := Layered([], Adjusted(files, recent, reserve, now), (recent + 1) % NUMFILES, k);
      && Live(after) == Live(before)
      && (after == before <==> !DropsMark(files, recent, reserve, k))
  {
    AdjustedFind(files, recent, reserve, now, k);
    LayeredSplit(files, recent, k);
  }

  lemma AdjustKeepsComplete(files: seq<File>, recent: nat, reserve: seq<Entry>, now: nat)
    requires Complete(files) && recent < NUMFILES && Ascending(reserve)
    ensures Complete(Adjusted(files, recent, reserve, now))
  {
    MergedAscending(files[Slot(recent, 8)].entries, files[Slot(recent, 9)].entries);
  }

  // Header stamps and the boot scan

  ghost predicate StampsOrdered(files: seq<File>, recent: nat)
    requires Complete(files) && recent < NUMFILES
  {
    forall a, b :: 0 <= a < b < NUMFILES ==> files[Slot(recent, b)].stamp <= files[Slot(recent, a)].stamp
  }

  /** With a clock that does not run backwards, stamps stay ordered by age under every adjust. */
  lemma AdjustKeepsStamps(files: seq<File>, recent: nat, reserve: seq<Entry>, now: nat)
    requires Complete(files) && recent < NUMFILES && Ascending(reserve)
    requires StampsOrdered(files, recent) && files[recent].stamp <= now
    ensures Complete(Adjusted(files, recent, reserve, now))
    ensures StampsOrdered(Adjusted(files, recent, reserve, now), (recent + 1) % NUMFILES)
  {
    AdjustKeepsComplete(files, recent, reserve, now);
    AdjustRotates(files, recent, reserve, now);
    var next, after := (recent + 1) % NUMFILES, Adjusted(files, recent, reserve, now);
    var order, rotated := Newest(files, recent), Newest(after, next);
    assert Slot(recent, 0) == recent;
    forall a, b | 0 <= a < b < NUMFILES ensures after[Slot(next, b)].stamp <= after[Slot(next, a)].stamp {
      assert after[Slot(next, a)] == rotated[a] && after[Slot(next, b)] == rotated[b];
      assert rotated[b].stamp == order[b - 1].stamp;
      if a == 0 {
        if b > 1 { assert order[b - 1].stamp <= order[0].stamp; }
      } else {
        assert rotated[a].stamp == order[a - 1].stamp;
      }
    }
  }

  /** The file after slot i carries an earlier stamp than the one in slot i. */
  predicate Descends(files: seq<File>, i: nat)
    requires |files| == NUMFILES && i < NUMFILES
    requires forall j :: 0 <= j < NUMFILES ==> files[j].Stamped?
  {
    files[(i + 1) % NUMFILES].stamp < files[i].stamp
  }

  /** The first index whose successor carries an earlier stamp, else the last. */
  ghost predicate Scanned(files: seq<File>, found: nat)
    requires Complete(files)
  {
    && found < NUMFILES && (forall i :: 0 <= i < found ==> !Descends(files, i))
    && (found == 9 || Descends(files, found))
  }

  /** The boot scan. */
  method ScanRecent(files: seq<File>) returns (recent: nat)
    requires Complete(files)
    ensures Scanned(files, recent) && recent < 10
    ensures forall i :: 0 <= i < recent ==> files[i].stamp <= files[i + 1].stamp
    ensures recent < 9 ==> files[recent + 1].stamp < files[recent].stamp
  {
    recent := 9;
    var i := 0;
    while i < NUMFILES
      invariant 0 <= i <= NUMFILES && recent == 9
      invariant forall j :: 0 <= j < i ==> !Descends(files, j)
    {
      if Descends(files, i) {
        recent := i;
        break;
      }
      i := i + 1;
    }
    forall j | 0 <= j < recent ensures files[j].stamp <= files[j + 1].stamp { assert !Descends(files, j); }
  }

  /**
   On ordered stamps the scan finds the newest file exactly when the oldest stamp is strictly
   older than the newest, or the newest file happens to sit in the last slot.
   */
  lemma ScanFindsRecent(files: seq<File>, recent: nat, found: nat)
    requires Complete(files) && recent < NUMFILES && StampsOrdered(files, recent)
    requires Scanned(files, found)
    ensures found == recent <==> files[Slot(recent, 9)].stamp < files[recent].stamp || recent == 9
  {
    assert Slot(recent, 0) == recent && Slot(recent, 9) == (recent + 1) % NUMFILES;
    if found != recent { OnlyDescent(files, recent, found); }
    if recent < found { assert !Descends(files, recent); }
  }

  lemma OnlyDescent(files: seq<File>, recent: nat, i: nat)
    requires Complete(files) && recent < NUMFILES && StampsOrdered(files, recent)
    requires i < NUMFILES && i != recent
    ensures !Descends(files, i)
  {
    var age := (recent + NUMFILES - i) % NUMFILES;
    assert Slot(recent, age) == i && Slot(recent, age - 1) == (i + 1) % NUMFILES;
  }
}
