/** Sorted files, and the five-loop merge of the two oldest ones. */
module MergeFiles {
  import opened Options
  import opened Entries
  import opened SortedEntries

  /** A file is empty (just truncated) or a time-stamp header followed by entries. */
  datatype File = Blank | Stamped(stamp: nat, entries: seq<Entry>)

  function FileFind(f: File, k: Key): Option<Value> {
    if f.Blank? then None else Find(f.entries, k)
  }

  ghost predicate SortedFile(f: File) {
    f.Stamped? ==> Ascending(f.entries)
  }

  // The merge as a function on the unread parts of the two inputs

  function Keep(e: Entry): seq<Entry> {
    if IsTomb(e.value) then [] else [e]
  }

  function Merged(newer: seq<Entry>, older: seq<Entry>): seq<Entry>
    decreases |newer| + |older|
  {
    if newer == [] && older == [] then []
    else if newer == [] || (older != [] && older[0].key < newer[0].key) then
      Keep(older[0]) + Merged(newer, older[1..])
    else if older == [] || newer[0].key < older[0].key then
      Keep(newer[0]) + Merged(newer[1..], older)
    else
      Keep(newer[0]) + Merged(newer[1..], older[1..])
  }

  /** The output file keeps the header of the newer input. */
  function MergedFile(newer: File, older: File): File
    requires newer.Stamped? && older.Stamped?
  {
    Stamped(newer.stamp, Merged(newer.entries, older.entries))
  }

  lemma {:induction false} MergedEntries(newer: seq<Entry>, older: seq<Entry>)
    ensures forall e :: e in Merged(newer, older) ==> (e in newer || e in older) && !IsTomb(e.value)
    decreases |newer| + |older|
  {
    if newer == [] && older == [] {
    } else if newer == [] || (older != [] && older[0].key < newer[0].key) {
      MergedEntries(newer, older[1..]);
    } else if older == [] || newer[0].key < older[0].key {
      MergedEntries(newer[1..], older);
    } else {
      MergedEntries(newer[1..], older[1..]);
    }
  }

  lemma KeepAscending(e: Entry, s: seq<Entry>)
    requires Ascending(s)
    requires forall x :: x in s ==> e.key < x.key
    ensures Ascending(Keep(e) + s)
  {
    PrependAscending(e, s);
    assert [] + s == s;
  }

  /** The merged entries are again strictly ascending. */
  lemma {:induction false} MergedAscending(newer: seq<Entry>, older: seq<Entry>)
    requires Ascending(newer) && Ascending(older)
    ensures Ascending(Merged(newer, older))
    decreases |newer| + |older|
  {
    if newer != [] { AllAbove(newer); }
    if older != [] { AllAbove(older); }
    if newer == [] && older == [] {
    } else if newer == [] || (older != [] && older[0].key < newer[0].key) {
      MergedAscending(newer, older[1..]);
      MergedEntries(newer, older[1..]);
      KeepAscending(older[0], Merged(newer, older[1..]));
    } else if older == [] || newer[0].key < older[0].key {
      MergedAscending(newer[1..], older);
      MergedEntries(newer[1..], older);
      KeepAscending(newer[0], Merged(newer[1..], older));
    } else {
      MergedAscending(newer[1..], older[1..]);
      MergedEntries(newer[1..], older[1..]);
      KeepAscending(newer[0], Merged(newer[1..], older[1..]));
    }
  }

  /** The newer file's answer where it has one, else the older's, deletions read as absence. */
  function Override(newer: Option<Value>, older: Option<Value>): Option<Value> {
    if newer.Some? then newer else older
  }

  lemma KeepFind(e: Entry, s: seq<Entry>, k: Key)
    ensures Find(Keep(e) + s, k) == if k == e.key && !IsTomb(e.value) then Some(e.value) else Find(s, k)
  {
    FindConcat(Keep(e), s, k);
  }

  /**
   The merged file answers every key as the older map overridden by the newer one, with the
   deleted keys gone.
   */
  lemma {:induction false} MergedFind(newer: seq<Entry>, older: seq<Entry>, k: Key)
    requires Ascending(newer) && Ascending(older)
    ensures Find(Merged(newer, older), k) == Live(Override(Find(newer, k), Find(older, k)))
    decreases |newer| + |older|
  {
    if newer == [] && older == [] {
    } else if newer == [] || (older != [] && older[0].key < newer[0].key) {
      MergedFind(newer, older[1..], k);
      KeepFind(older[0], Merged(newer, older[1..]), k);
      if k == older[0].key { FindBelow(newer, k); FindBelow(older[1..], k); }
    } else if older == [] || newer[0].key < older[0].key {
      MergedFind(newer[1..], older, k);
      KeepFind(newer[0], Merged(newer[1..], older), k);
      if k == newer[0].key { FindBelow(older, k); FindBelow(newer[1..], k); }
    } else {
      MergedFind(newer[1..], older[1..], k);
      KeepFind(newer[0], Merged(newer[1..], older[1..]), k);
      if k == newer[0].key { FindBelow(newer[1..], k); FindBelow(older[1..], k); }
    }
  }

  /** In so many words: the newer answer, or else the older one, unless it is all 0xFF. */
  lemma MergedTells(newer: seq<Entry>, older: seq<Entry>, k: Key)
    requires Ascending(newer) && Ascending(older)
    ensures Find(Merged(newer, older), k) ==
      var found := if Find(newer, k).Some? then Find(newer, k) else Find(older, k);
      if found.Some? && forall i :: 0 <= i < |found.value| ==> found.value[i] == 0xFF then None else found
  {
    MergedFind(newer, older, k);
  }

  /** Order and answers leave no choice: any other file with both is this one. */
  lemma MergedUnique(newer: seq<Entry>, older: seq<Entry>, out: seq<Entry>)
    requires Ascending(newer) && Ascending(older) && Ascending(out)
    requires forall k: Key :: Find(out, k) == Live(Override(Find(newer, k), Find(older, k)))
    ensures out == Merged(newer, older)
  {
    MergedAscending(newer, older);
    forall k: Key ensures Find(out, k) == Find(Merged(newer, older), k) {
      MergedFind(newer, older, k);
    }
    AnswersDetermine(out, Merged(newer, older));
  }

  /** An input opened for reading: end-of-file is noticed by the read that finds nothing. */
  class Stream {
    const entries: seq<Entry>
    var pos: nat
    var eof: bool

    ghost predicate Valid()
      reads this
    {
      pos <= |entries| && (eof ==> pos == |entries|)
    }

    constructor (entries: seq<Entry>)
      ensures Valid() && pos == 0 && !eof && this.entries == entries
    {
      this.entries := entries;
      pos, eof := 0, false;
    }

    /** Reads the next entry; at the end the buffer keeps what it held. */
    method Read(buffer: Entry) returns (e: Entry)
      requires Valid()
      modifies this
      ensures Valid()
      ensures old(pos) < |entries| ==> e == entries[old(pos)] && pos == old(pos) + 1 && eof == old(eof)
      ensures old(pos) == |entries| ==> e == buffer && pos == old(pos) && eof
    {
      if pos < |entries| {
        e := entries[pos];
        pos := pos + 1;
      } else {
        e := buffer;
        eof := true;
      }
    }
  }

  /** The stream is at its end, or e is the entry it last handed out. */
  ghost predicate Holds(f: Stream, e: Entry)
    reads f
  {
    f.Valid() && (f.eof || (f.pos > 0 && f.entries[f.pos - 1] == e))
  }

  /** The entries not yet dealt with: the buffered one and those behind it. */
  ghost function Rest(f: Stream, e: Entry): seq<Entry>
    reads f
    requires Holds(f, e)
  {
    if f.eof then [] else f.entries[f.pos - 1..]
  }

  /** Reading on drops exactly the buffered entry. */
  method Advance(f: Stream, e: Entry) returns (next: Entry)
    requires Holds(f, e) && !f.eof
    modifies f
    ensures Holds(f, next)
    ensures old(Rest(f, e)) == [e] + Rest(f, next)
  {
    next := f.Read(e);
  }

  method Emit(e: Entry, out: seq<Entry>) returns (more: seq<Entry>)
    ensures more == out + Keep(e)
  {
    var tomb := TombLoop(e.value);
    more := if tomb then out else out + [e];
  }

  /** What the output will be when `out` is written and these inputs are still unread. */
  ghost function Onto(out: seq<Entry>, newer: seq<Entry>, older: seq<Entry>): seq<Entry> {
    out + Merged(newer, older)
  }

  lemma OntoStep(out: seq<Entry>, e: Entry, newer: seq<Entry>, older: seq<Entry>)
    ensures Onto(out + Keep(e), newer, older) == out + (Keep(e) + Merged(newer, older))
  {
  }

  lemma OntoOlder(out: seq<Entry>, newer: seq<Entry>, e: Entry, older: seq<Entry>)
    requires newer == [] || e.key < newer[0].key
    ensures Onto(out, newer, [e] + older) == Onto(out + Keep(e), newer, older)
  {
    assert ([e] + older)[1..] == older;
    OntoStep(out, e, newer, older);
  }

  lemma OntoNewer(out: seq<Entry>, e: Entry, newer: seq<Entry>, older: seq<Entry>)
    requires older == [] || e.key < older[0].key
    ensures Onto(out, [e] + newer, older) == Onto(out + Keep(e), newer, older)
  {
    assert ([e] + newer)[1..] == newer;
    OntoStep(out, e, newer, older);
  }

  lemma OntoBoth(out: seq<Entry>, e: Entry, newer: seq<Entry>, d: Entry, older: seq<Entry>)
    requires e.key == d.key
    ensures Onto(out, [e] + newer, [d] + older) == Onto(out + Keep(e), newer, older)
  {
    assert ([e] + newer)[1..] == newer && ([d] + older)[1..] == older;
    OntoStep(out, e, newer, older);
  }

  /** Copies what is left of the older input; does nothing once it is at its end. */
  method DrainOlder(f: Stream, e: Entry, out: seq<Entry>) returns (last: Entry, more: seq<Entry>)
    requires Holds(f, e)
    modifies f
    ensures Holds(f, last) && f.eof
    ensures more == old(Onto(out, [], Rest(f, e)))
  {
    last, more := e, out;
    while true
      invariant Holds(f, last)
      invariant Onto(more, [], Rest(f, last)) == old(Onto(out, [], Rest(f, e)))
      decreases |Rest(f, last)|
    {
      if f.eof { break; }
      ghost var before, taken := more, last;
      more := Emit(last, more);
      last := Advance(f, last);
      OntoOlder(before, [], taken, Rest(f, last));
    }
  }

  /** The same for the newer input. */
  method DrainNewer(f: Stream, e: Entry, out: seq<Entry>) returns (last: Entry, more: seq<Entry>)
    requires Holds(f, e)
    modifies f
    ensures Holds(f, last) && f.eof
    ensures more == old(Onto(out, Rest(f, e), []))
  {
    last, more := e, out;
    while true
      invariant Holds(f, last)
      invariant Onto(more, Rest(f, last), []) == old(Onto(out, Rest(f, e), []))
      decreases |Rest(f, last)|
    {
      if f.eof { break; }
      ghost var before, taken := more, last;
      more := Emit(last, more);
      last := Advance(f, last);
      OntoNewer(before, taken, Rest(f, last), []);
    }
  }

  /** One round of the comparing loop: the smaller key leaves, or both copies of an equal one. */
  method MergeRound(s2: Stream, s1: Stream, e2: Entry, e1: Entry, out: seq<Entry>)
    returns (n2: Entry, n1: Entry, more: seq<Entry>)
    requires s1 != s2 && Holds(s1, e1) && Holds(s2, e2) && !s1.eof && !s2.eof
    modifies s1, s2
    ensures Holds(s1, n1) && Holds(s2, n2)
    ensures Onto(more, Rest(s2, n2), Rest(s1, n1)) == old(Onto(out, Rest(s2, e2), Rest(s1, e1)))
    ensures |Rest(s2, n2)| + |Rest(s1, n1)| < old(|Rest(s2, e2)| + |Rest(s1, e1)|)
  {
    n1, n2 := e1, e2;
    if e1.key < e2.key {
      more := Emit(e1, out);
      n1 := Advance(s1, e1);
      OntoOlder(out, Rest(s2, n2), e1, Rest(s1, n1));
    } else if e2.key < e1.key {
      more := Emit(e2, out);
      n2 := Advance(s2, e2);
      OntoNewer(out, e2, Rest(s2, n2), Rest(s1, n1));
    } else {
      more := Emit(e2, out);
      n1 := Advance(s1, e1);
      n2 := Advance(s2, e2);
      OntoBoth(out, e2, Rest(s2, n2), e1, Rest(s1, n1));
    }
  }

  /** The comparing loop, left as soon as one input is at its end. */
  method Compare(s2: Stream, s1: Stream, e2: Entry, e1: Entry, out: seq<Entry>)
    returns (n2: Entry, n1: Entry, more: seq<Entry>)
    requires s1 != s2 && Holds(s1, e1) && Holds(s2, e2) && !s1.eof && !s2.eof
    modifies s1, s2
    ensures Holds(s1, n1) && Holds(s2, n2) && (s1.eof || s2.eof)
    ensures Onto(more, Rest(s2, n2), Rest(s1, n1)) == old(Onto(out, Rest(s2, e2), Rest(s1, e1)))
  {
    n2, n1, more := e2, e1, out;
    while true
      invariant Holds(s1, n1) && Holds(s2, n2) && !s1.eof && !s2.eof
      invariant Onto(more, Rest(s2, n2), Rest(s1, n1)) == old(Onto(out, Rest(s2, e2), Rest(s1, e1)))
      decreases |Rest(s2, n2)| + |Rest(s1, n1)|
    {
      n2, n1, more := MergeRound(s2, s1, n2, n1, more);
      if s1.eof { break; }
      if s2.eof { break; }
    }
  }

  /** The two draining loops in the source's order, run when one of the inputs is at its end. */
  method DrainBoth(s2: Stream, s1: Stream, e2: Entry, e1: Entry, out: seq<Entry>)
    returns (n2: Entry, n1: Entry, more: seq<Entry>)
    requires s1 != s2 && Holds(s1, e1) && Holds(s2, e2) && (s1.eof || s2.eof)
    modifies s1, s2
    ensures Holds(s1, n1) && Holds(s2, n2) && s1.eof && s2.eof
    ensures more == old(Onto(out, Rest(s2, e2), Rest(s1, e1)))
  {
    n1, more := DrainOlder(s1, e1, out);
    n2, more := DrainNewer(s2, e2, more);
  }

  /** All five loops: the comparing one, and the draining ones after it and for an empty input. */
  method FiveLoops(s2: Stream, s1: Stream, e2: Entry, e1: Entry) returns (out: seq<Entry>)
    requires s1 != s2 && Holds(s1, e1) && Holds(s2, e2)
    modifies s1, s2
    ensures s1.Valid() && s2.Valid() && s1.eof && s2.eof
    ensures out == old(Merged(Rest(s2, e2), Rest(s1, e1)))
  {
    var entry1, entry2 := e1, e2;
    out := [];
    assert Onto(out, Rest(s2, e2), Rest(s1, e1)) == Merged(Rest(s2, e2), Rest(s1, e1));
    if !s1.eof && !s2.eof {
      entry2, entry1, out := Compare(s2, s1, entry2, entry1, out);
      entry2, entry1, out := DrainBoth(s2, s1, entry2, entry1, out);
    }
    entry2, entry1, out := DrainBoth(s2, s1, entry2, entry1, out);
  }

  /**
   Merges the second oldest file with the oldest one. Both inputs are read to the end, and
   whichever loop meets an end first, the output is the same.
   */
  method Merge(oldest2: File, oldest1: File) returns (newfd: File, s2: Stream, s1: Stream)
    requires oldest2.Stamped? && oldest1.Stamped?
    ensures newfd == MergedFile(oldest2, oldest1)
    ensures newfd.Stamped? && newfd.stamp == oldest2.stamp
    ensures fresh(s2) && s2.eof && s2.Valid() && s2.entries == oldest2.entries
    ensures fresh(s1) && s1.eof && s1.Valid() && s1.entries == oldest1.entries
  {
    s1 := new Stream(oldest1.entries);
    s2 := new Stream(oldest2.entries);
    var entry1 := s1.Read(Entry(0, []));
    var entry2 := s2.Read(Entry(0, []));
    assert Rest(s2, entry2) == oldest2.entries && Rest(s1, entry1) == oldest1.entries;
    var out := FiveLoops(s2, s1, entry2, entry1);
    newfd := Stamped(oldest2.stamp, out);
  }
}
