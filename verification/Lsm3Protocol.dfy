/**
 Any number of inserters, merges asked for by hand, and the background merger of one lsm3 index.
 Every spinlock section is one step; storing a tuple, copying a tuple and truncating are steps of
 their own; the test for overflow may come out either way.
 */
module Lsm3Protocol {
  import opened Lsm3Control
  import Lsm3Order

  /** A (key, TID) pair, opaque to the protocol. */
  type Tuple = Lsm3Order.Tuple

  /** An insert in flight; `flips` records how many flips there had been when it was counted in. */
  datatype Insert = Insert(tuple: Tuple, index: nat, merges: nat, flips: nat, stored: bool)

  datatype Merger =
    | Waiting
    | Woken
    | Checking
    | Copying(index: nat, copied: set<Tuple>)
    | Truncating(index: nat)
    | Finishing(index: nat)
  {
    predicate Running() {
      Copying? || Truncating? || Finishing?
    }
  }

  /** `initial` and `added` record what the index should hold; `flips` and `signals` are counted. */
  datatype State = State(
    control: Control,
    top: seq<set<Tuple>>,
    base: set<Tuple>,
    inserts: map<nat, Insert>,
    merger: Merger,
    initial: set<Tuple>,
    added: set<Tuple>,
    flips: nat,
    signals: nat)
  {
    ghost predicate Shaped() {
      control.Shaped() && |top| == 2
    }

    function Union(): set<Tuple>
      requires |top| == 2
    {
      top[0] + top[1] + base
    }
  }

  datatype Step =
    | Enter(id: nat, tuple: Tuple)
    | StoreTuple(id: nat)
    | Leave(id: nat, overflow: bool)
    | Request
    | Wake | Reset | Check
    | CopyOne(tuple: Tuple)
    | EndCopy | Truncate | Finish

  ghost predicate Enabled(st: State, step: Step)
    requires st.Shaped()
  {
    match step
    case Enter(id, _) => id !in st.inserts
    case StoreTuple(id) => id in st.inserts && !st.inserts[id].stored && st.inserts[id].index < 2
    case Leave(id, _) =>
      id in st.inserts && st.inserts[id].stored && st.inserts[id].index < 2
      && st.control.access[st.inserts[id].index] > 0
    case Request => true
    case Wake => st.merger == Waiting && st.control.latch
    case Reset => st.merger == Woken
    case Check => st.merger == Checking
    case CopyOne(t) => st.merger.Copying? && st.merger.index < 2 && t in st.top[st.merger.index] - st.merger.copied
    case EndCopy => st.merger.Copying? && st.merger.index < 2 && st.top[st.merger.index] <= st.merger.copied
    case Truncate => st.merger.Truncating? && st.merger.index < 2
    case Finish => st.merger.Finishing?
  }

  function One(b: bool): nat {
    if b then 1 else 0
  }

  function Do(st: State, step: Step): State
    requires st.Shaped() && Enabled(st, step)
  {
    var c := st.control;
    match step
    case Enter(id, t) =>
      st.(control := Entered(c), inserts := st.inserts[id := Insert(t, c.active, c.nMerges, st.flips, false)])
    case StoreTuple(id) =>
      var i := st.inserts[id];
      st.(top := st.top[i.index := st.top[i.index] + {i.tuple}], added := st.added + {i.tuple},
          inserts := st.inserts[id := i.(stored := true)])
    case Leave(id, overflow) =>
      var i := st.inserts[id];
      var c1 := Left(c, i.index, i.merges, overflow);
      st.(control := c1, inserts := st.inserts - {id},
          flips := st.flips + One(Flips(c, i.merges, overflow)),
          signals := st.signals + One(c1.startMerge && !c.startMerge))
    case Request =>
      var c1 := Requested(c);
      st.(control := c1, flips := st.flips + One(!c.inProgress),
          signals := st.signals + One(c1.startMerge && !c.startMerge))
    case Wake => st.(merger := Woken)
    case Reset => st.(control := c.(latch := false), merger := Checking)
    case Check =>
      st.(control := Taken(c), merger := if c.startMerge then Copying(c.Merging(), {}) else Waiting)
    case CopyOne(t) => st.(base := st.base + {t}, merger := Copying(st.merger.index, st.merger.copied + {t}))
    case EndCopy => st.(merger := Truncating(st.merger.index))
    case Truncate => st.(top := st.top[st.merger.index := {}], merger := Finishing(st.merger.index))
    case Finish => st.(control := Done(c), merger := Waiting)
  }

  // The invariant

  function On(inserts: map<nat, Insert>, index: nat): set<nat> {
    set id | id in inserts && inserts[id].index == index
  }

  ghost predicate Counted(st: State)
    requires st.Shaped()
  {
    st.control.access[0] == |On(st.inserts, 0)| && st.control.access[1] == |On(st.inserts, 1)|
  }

  /** An insert is on the active index and of the current merge count, or on the other and one behind. */
  ghost predicate Recent(st: State, i: Insert)
    requires st.Shaped()
  {
    var c := st.control;
    || (i.index == c.active && i.merges == c.nMerges && i.flips == st.flips)
    || (i.index == c.Merging() && Next(i.merges) == c.nMerges && i.flips + 1 == st.flips && c.inProgress)
  }

  ghost predicate InsertsOk(st: State)
    requires st.Shaped()
  {
    forall id :: id in st.inserts ==>
      st.inserts[id].merges < COUNTER && Recent(st, st.inserts[id])
      && (st.inserts[id].stored ==> st.inserts[id].tuple in st.added)
  }

  /** The merge that is in progress waits for an insert, or is requested, or is being done. */
  ghost predicate Waits(st: State)
    requires st.Shaped()
  {
    st.control.access[st.control.Merging()] > 0
  }

  ghost predicate Asked(st: State) {
    st.control.startMerge && (st.control.latch || st.merger == Checking)
  }

  ghost predicate MergeOk(st: State)
    requires st.Shaped()
  {
    && (st.control.inProgress ==> Waits(st) || Asked(st) || st.merger.Running())
    && (st.control.startMerge ==> st.control.inProgress && !Waits(st) && !st.merger.Running())
    && (st.merger.Running() ==>
          st.control.inProgress && !Waits(st) && st.merger.index == st.control.Merging())
    && (st.merger == Woken ==> st.control.latch)
    && st.flips == st.signals + One(st.control.inProgress && Waits(st))
  }

  ghost predicate DataOk(st: State)
    requires st.Shaped()
  {
    && st.Union() == st.initial + st.added
    && (st.merger.Running() ==> st.merger.index < 2)
    && (st.merger.Copying? ==> st.merger.copied <= st.top[st.merger.index] && st.merger.copied <= st.base)
    && (st.merger.Truncating? ==> st.top[st.merger.index] <= st.base)
  }

  ghost predicate Inv(st: State) {
    st.Shaped() && Counted(st) && InsertsOk(st) && MergeOk(st) && DataOk(st)
  }

  /** After a start or restart: nothing in flight, either top index may hold tuples. */
  ghost predicate Init(st: State) {
    && st.Shaped() && st.control.access == [0, 0]
    && !st.control.startMerge && !st.control.inProgress && !st.control.latch
    && st.inserts == map[] && st.merger == Waiting
    && st.initial == st.Union() && st.added == {} && st.flips == 0 && st.signals == 0
  }

  lemma InitInv(st: State)
    requires Init(st)
    ensures Inv(st)
  {
    assert On(st.inserts, 0) == {} && On(st.inserts, 1) == {};
  }

  lemma OnAdd(inserts: map<nat, Insert>, id: nat, i: Insert, index: nat)
    requires id !in inserts
    ensures |On(inserts[id := i], index)| == |On(inserts, index)| + One(i.index == index)
  {
    var after := On(inserts[id := i], index);
    assert after == if i.index == index then On(inserts, index) + {id} else On(inserts, index);
  }

  lemma OnRemove(inserts: map<nat, Insert>, id: nat, index: nat)
    requires id in inserts
    ensures |On(inserts, index)| == |On(inserts - {id}, index)| + One(inserts[id].index == index)
  {
    OnAdd(inserts - {id}, id, inserts[id], index);
    assert (inserts - {id})[id := inserts[id]] == inserts;
  }

  lemma OnUpdate(inserts: map<nat, Insert>, id: nat, i: Insert, index: nat)
    requires id in inserts && inserts[id].index == i.index
    ensures On(inserts[id := i], index) == On(inserts, index)
  {
  }

  /** The counter of an index nobody is on is zero, and only that one. */
  lemma NobodyOn(st: State, index: nat)
    requires st.Shaped() && Counted(st) && index < 2
    ensures st.control.access[index] == 0 <==> forall id :: id in st.inserts ==> st.inserts[id].index != index
  {
    assert st.control.access[index] == |On(st.inserts, index)|;
    if forall id :: id in st.inserts ==> st.inserts[id].index != index {
      assert On(st.inserts, index) == {};
    } else {
      var id :| id in st.inserts && st.inserts[id].index == index;
      assert id in On(st.inserts, index);
    }
  }

  lemma EnterKeeps(st: State, id: nat, t: Tuple)
    requires Inv(st) && Enabled(st, Enter(id, t))
    ensures Inv(Do(st, Enter(id, t)))
  {
    var i := Insert(t, st.control.active, st.control.nMerges, st.flips, false);
    OnAdd(st.inserts, id, i, 0);
    OnAdd(st.inserts, id, i, 1);
  }

  lemma StoreKeeps(st: State, id: nat)
    requires Inv(st) && Enabled(st, StoreTuple(id))
    ensures Inv(Do(st, StoreTuple(id)))
  {
    var i := st.inserts[id];
    OnUpdate(st.inserts, id, i.(stored := true), 0);
    OnUpdate(st.inserts, id, i.(stored := true), 1);
    NobodyOn(st, st.control.Merging());
  }

  /** The flip of an insert happens on the index it took itself: the source's own assertion. */
  lemma FlipOnOwnIndex(st: State, id: nat, overflow: bool)
    requires Inv(st) && Enabled(st, Leave(id, overflow))
    ensures st.control.nMerges == st.inserts[id].merges <==> st.control.active == st.inserts[id].index
    ensures Flips(st.control, st.inserts[id].merges, overflow) ==> st.control.active == st.inserts[id].index
  {
  }

  lemma LeaveCounted(st: State, id: nat, overflow: bool)
    requires Inv(st) && Enabled(st, Leave(id, overflow))
    ensures Do(st, Leave(id, overflow)).Shaped() && Counted(Do(st, Leave(id, overflow)))
  {
    OnRemove(st.inserts, id, 0);
    OnRemove(st.inserts, id, 1);
  }

  lemma LeaveInserts(st: State, id: nat, overflow: bool)
    requires Inv(st) && Enabled(st, Leave(id, overflow))
    ensures Do(st, Leave(id, overflow)).Shaped() && InsertsOk(Do(st, Leave(id, overflow)))
  {
    FlipOnOwnIndex(st, id, overflow);
  }

  lemma LeaveMerge(st: State, id: nat, overflow: bool)
    requires Inv(st) && Enabled(st, Leave(id, overflow))
    ensures Do(st, Leave(id, overflow)).Shaped() && MergeOk(Do(st, Leave(id, overflow)))
  {
    FlipOnOwnIndex(st, id, overflow);
  }

  lemma LeaveKeeps(st: State, id: nat, overflow: bool)
    requires Inv(st) && Enabled(st, Leave(id, overflow))
    ensures Inv(Do(st, Leave(id, overflow)))
  {
    LeaveCounted(st, id, overflow);
    LeaveInserts(st, id, overflow);
    LeaveMerge(st, id, overflow);
  }

  lemma RequestKeeps(st: State)
    requires Inv(st)
    ensures Inv(Do(st, Request))
  {
  }

  lemma CheckKeeps(st: State)
    requires Inv(st) && Enabled(st, Check)
    ensures Inv(Do(st, Check))
  {
    NobodyOn(st, st.control.Merging());
  }

  lemma CopyKeeps(st: State, t: Tuple)
    requires Inv(st) && Enabled(st, CopyOne(t))
    ensures Inv(Do(st, CopyOne(t)))
  {
  }

  lemma MergerKeeps(st: State, step: Step)
    requires Inv(st) && Enabled(st, step)
    requires step in {Wake, Reset, EndCopy, Truncate, Finish}
    ensures Inv(Do(st, step))
  {
    NobodyOn(st, st.control.Merging());
  }

  lemma StepKeepsInv(st: State, step: Step)
    requires Inv(st) && Enabled(st, step)
    ensures Inv(Do(st, step))
  {
    match step
    case Enter(id, t) => EnterKeeps(st, id, t);
    case StoreTuple(id) => StoreKeeps(st, id);
    case Leave(id, overflow) => LeaveKeeps(st, id, overflow);
    case Request => RequestKeeps(st);
    case Check => CheckKeeps(st);
    case CopyOne(t) => CopyKeeps(st, t);
    case _ => MergerKeeps(st, step);
  }

  // Runs

  ghost predicate Follows(before: State, step: Step, after: State) {
    before.Shaped() && Enabled(before, step) && after == Do(before, step)
  }

  ghost predicate IsRun(run: seq<State>, steps: seq<Step>) {
    && |run| == |steps| + 1 && Init(run[0])
    && forall i {:trigger steps[i]} :: 0 <= i < |steps| ==> Follows(run[i], steps[i], run[i + 1])
  }

  lemma {:induction false} RunInv(run: seq<State>, steps: seq<Step>, i: nat)
    requires IsRun(run, steps) && i < |run|
    ensures Inv(run[i])
  {
    if i == 0 {
      InitInv(run[0]);
    } else {
      RunInv(run, steps, i - 1);
      assert Follows(run[i - 1], steps[i - 1], run[i]);
      StepKeepsInv(run[i - 1], steps[i - 1]);
    }
  }

  /**
   While the merger copies or truncates a top index, no insert is in flight on it, it is not the
   active one, and no step of anybody makes it active before the merge is marked done.
   */
  lemma MergeIsAlone(run: seq<State>, steps: seq<Step>, i: nat)
    requires IsRun(run, steps) && i < |run| && run[i].merger.Running()
    ensures forall id :: id in run[i].inserts ==> run[i].inserts[id].index != run[i].merger.index
    ensures run[i].merger.index == 1 - run[i].control.active && run[i].control.inProgress
    ensures i < |steps| ==> run[i + 1].control.active == run[i].control.active
    ensures i < |steps| && steps[i] != Finish ==>
      run[i + 1].merger.Running() && run[i + 1].merger.index == run[i].merger.index
  {
    RunInv(run, steps, i);
    NobodyOn(run[i], run[i].merger.index);
    if i < |steps| { assert Follows(run[i], steps[i], run[i + 1]); }
  }

  lemma {:induction false} InitialFixed(run: seq<State>, steps: seq<Step>, i: nat)
    requires IsRun(run, steps) && i < |run|
    ensures run[0].Shaped() && run[i].initial == run[0].Union()
  {
    if i > 0 {
      InitialFixed(run, steps, i - 1);
      assert Follows(run[i - 1], steps[i - 1], run[i]);
    }
  }

  /** No tuple is ever lost or invented: the three indexes together hold what was there and what was stored. */
  lemma NothingLost(run: seq<State>, steps: seq<Step>, i: nat)
    requires IsRun(run, steps) && i < |run|
    ensures run[i].Shaped() && run[0].Shaped() && run[i].Union() == run[0].Union() + run[i].added
    ensures forall id :: id in run[i].inserts && run[i].inserts[id].stored ==>
      run[i].inserts[id].tuple in run[i].Union()
  {
    RunInv(run, steps, i);
    InitialFixed(run, steps, i);
  }

  /** Copying a tuple, ending the copy and truncating leave the union as it was; storing adds just the tuple. */
  lemma UnionStep(run: seq<State>, steps: seq<Step>, i: nat)
    requires IsRun(run, steps) && i < |steps|
    ensures run[i].Shaped() && run[i + 1].Shaped()
    ensures steps[i].StoreTuple? ==> steps[i].id in run[i].inserts
    ensures run[i + 1].Union()
         == run[i].Union() + if steps[i].StoreTuple? then {run[i].inserts[steps[i].id].tuple} else {}
  {
    RunInv(run, steps, i);
    RunInv(run, steps, i + 1);
    InitialFixed(run, steps, i);
    InitialFixed(run, steps, i + 1);
    assert Follows(run[i], steps[i], run[i + 1]);
  }

  /**
   A merge in progress is never forgotten: an insert is still in flight on the index to merge, or
   the request is up with the latch raised or the merger about to check, or the merger is at it.
   Every flip raises the request exactly once.
   */
  lemma NoMergeForgotten(run: seq<State>, steps: seq<Step>, i: nat)
    requires IsRun(run, steps) && i < |run|
    ensures run[i].control.inProgress ==>
      || (exists id :: id in run[i].inserts && run[i].inserts[id].index == run[i].control.Merging())
      || Asked(run[i]) || run[i].merger.Running()
    ensures run[i].signals <= run[i].flips <= run[i].signals + 1
    ensures run[i].flips == run[i].signals <==>
      !run[i].control.inProgress
      || forall id :: id in run[i].inserts ==> run[i].inserts[id].index != run[i].control.Merging()
  {
    RunInv(run, steps, i);
    NobodyOn(run[i], run[i].control.Merging());
  }

  /**
   An insert in flight spans at most one flip, so comparing the 64-bit merge counts, wrap-around
   included, tells exactly whether there was one, and whether its index is still the active one.
   */
  lemma CountIsExact(run: seq<State>, steps: seq<Step>, i: nat, id: nat)
    requires IsRun(run, steps) && i < |run| && id in run[i].inserts
    ensures var ins := run[i].inserts[id];
      && ins.flips <= run[i].flips <= ins.flips + 1
      && (run[i].control.nMerges == ins.merges <==> run[i].flips == ins.flips)
      && (run[i].control.nMerges == ins.merges <==> run[i].control.active == ins.index)
  {
    RunInv(run, steps, i);
    assert Recent(run[i], run[i].inserts[id]);
  }

  /**
   The source's other assertion: the counter of an insert's own index is positive when it counts
   itself out, so an insert that has stored its tuple is never kept from leaving.
   */
  lemma LeaveNeverBlocked(run: seq<State>, steps: seq<Step>, i: nat, id: nat)
    requires IsRun(run, steps) && i < |run| && id in run[i].inserts
    ensures run[i].Shaped() && run[i].inserts[id].index < 2
    ensures run[i].control.access[run[i].inserts[id].index] > 0
    ensures run[i].inserts[id].stored ==> forall overflow :: Enabled(run[i], Leave(id, overflow))
  {
    RunInv(run, steps, i);
    NobodyOn(run[i], run[i].inserts[id].index);
  }

  // A merge in progress can always be finished

  /** Steps of inserts already in flight and of the merger: nobody new is needed. */
  predicate Drains(step: Step) {
    !step.Enter? && !step.Request?
  }

  /** These steps, one after the other, lead from a to b. */
  ghost predicate Path(a: State, steps: seq<Step>, b: State)
    decreases |steps|
  {
    if steps == [] then a == b
    else a.Shaped() && Enabled(a, steps[0]) && Path(Do(a, steps[0]), steps[1..], b)
  }

  lemma PathThree(a: State, x: Step, y: Step, z: Step)
    requires a.Shaped() && Enabled(a, x)
    requires Do(a, x).Shaped() && Enabled(Do(a, x), y)
    requires Do(Do(a, x), y).Shaped() && Enabled(Do(Do(a, x), y), z)
    ensures Path(a, [x, y, z], Do(Do(Do(a, x), y), z))
  {
    var b, c := Do(a, x), Do(Do(a, x), y);
    assert [x, y, z][1..] == [y, z] && [y, z][1..] == [z] && [z][1..] == [];
    assert Path(c, [z], Do(c, z));
    assert Path(b, [y, z], Do(c, z));
  }

  lemma {:induction false} PathThen(a: State, steps: seq<Step>, b: State, step: Step)
    requires Path(a, steps, b) && b.Shaped() && Enabled(b, step)
    ensures Path(a, steps + [step], Do(b, step))
    decreases |steps|
  {
    var more := steps + [step];
    if steps != [] {
      PathThen(Do(a, steps[0]), steps[1..], b, step);
      assert more[1..] == steps[1..] + [step];
    }
  }

  function Unstored(inserts: map<nat, Insert>, index: nat): set<nat> {
    set id | id in inserts && inserts[id].index == index && !inserts[id].stored
  }

  ghost function StagesLeft(st: State): nat
    requires Inv(st)
  {
    match st.merger
    case Waiting => 5
    case Woken => 4
    case Checking => 3
    case Copying(m, copied) => 2 + |st.top[m] - copied|
    case Truncating(_) => 1
    case Finishing(_) => 0
  }

  /**
   From any point of a merge in progress, inserts already in flight and the merger alone can bring
   it to its end.
   */
  lemma {:induction false} MergeCanFinish(st: State) returns (steps: seq<Step>, end: State)
    requires Inv(st) && st.control.inProgress
    ensures Path(st, steps, end) && !end.control.inProgress
    ensures forall i :: 0 <= i < |steps| ==> Drains(steps[i])
    decreases |On(st.inserts, st.control.Merging())|, |Unstored(st.inserts, st.control.Merging())|,
              One(st.control.startMerge), StagesLeft(st)
  {
    var step := NextDrain(st);
    StepKeepsInv(st, step);
    var next := Do(st, step);
    if step == Finish {
      steps, end := [step], next;
    } else {
      DrainProgress(st, step);
      var more;
      more, end := MergeCanFinish(next);
      steps := [step] + more;
      assert steps[1..] == more;
    }
  }

  /** The step to take: let the inserts on the old index finish, then wake the merger and let it work. */
  ghost predicate Best(st: State, step: Step)
    requires Inv(st) && st.control.inProgress
  {
    var m := st.control.Merging();
    match step
    case StoreTuple(id) => id in Unstored(st.inserts, m)
    case Leave(id, overflow) => id in On(st.inserts, m) && st.inserts[id].stored && !overflow
    case Wake => On(st.inserts, m) == {} && st.control.startMerge && st.merger == Waiting
    case Reset => On(st.inserts, m) == {} && st.control.startMerge && st.merger == Woken
    case Check => On(st.inserts, m) == {} && st.control.startMerge && st.merger == Checking
    case CopyOne(t) => st.merger.Copying? && t in st.top[st.merger.index] - st.merger.copied
    case EndCopy => st.merger.Copying? && st.top[st.merger.index] <= st.merger.copied
    case Truncate => st.merger.Truncating?
    case Finish => st.merger.Finishing?
    case _ => false
  }

  lemma NextDrain(st: State) returns (step: Step)
    requires Inv(st) && st.control.inProgress
    ensures Drains(step) && Enabled(st, step) && Best(st, step)
  {
    var m := st.control.Merging();
    NobodyOn(st, m);
    if id :| id in Unstored(st.inserts, m) {
      step := StoreTuple(id);
    } else if id :| id in On(st.inserts, m) {
      assert id !in Unstored(st.inserts, m);
      step := Leave(id, false);
    } else if st.control.startMerge {
      step := if st.merger == Waiting then Wake else if st.merger == Woken then Reset else Check;
    } else {
      match st.merger
      case Copying(_, copied) =>
        if t :| t in st.top[m] - copied {
          step := CopyOne(t);
        } else {
          assert forall t :: t in st.top[m] ==> t in copied || t in st.top[m] - copied;
          step := EndCopy;
        }
      case Truncating(_) => step := Truncate;
      case Finishing(_) => step := Finish;
    }
  }

  /** Less is left to do: inserts on the old index, those not yet stored, the request, the merger's work. */
  ghost predicate Shrinks(st: State, next: State)
    requires Inv(st) && Inv(next)
  {
    var m, n := st.control.Merging(), next.control.Merging();
    (|On(st.inserts, m)|, |Unstored(st.inserts, m)|, One(st.control.startMerge), StagesLeft(st)
     decreases to
     |On(next.inserts, n)|, |Unstored(next.inserts, n)|, One(next.control.startMerge), StagesLeft(next))
  }

  lemma StoreShrinks(st: State, id: nat)
    requires Inv(st) && Enabled(st, StoreTuple(id)) && id in Unstored(st.inserts, st.control.Merging())
    requires Inv(Do(st, StoreTuple(id)))
    ensures Shrinks(st, Do(st, StoreTuple(id)))
  {
    var m, next := st.control.Merging(), Do(st, StoreTuple(id));
    OnUpdate(st.inserts, id, next.inserts[id], m);
    assert Unstored(next.inserts, m) == Unstored(st.inserts, m) - {id};
  }

  lemma LeaveShrinks(st: State, id: nat)
    requires Inv(st) && Enabled(st, Leave(id, false)) && id in On(st.inserts, st.control.Merging())
    requires Inv(Do(st, Leave(id, false)))
    ensures Shrinks(st, Do(st, Leave(id, false)))
  {
    OnRemove(st.inserts, id, st.control.Merging());
    assert Do(st, Leave(id, false)).control.Merging() == st.control.Merging();
  }

  lemma CopyShrinks(st: State, t: Tuple)
    requires Inv(st) && Enabled(st, CopyOne(t)) && Inv(Do(st, CopyOne(t)))
    ensures Shrinks(st, Do(st, CopyOne(t)))
  {
    var m, next := st.merger.index, Do(st, CopyOne(t));
    assert next.inserts == st.inserts && next.control == st.control;
    var left := st.top[m] - st.merger.copied;
    assert st.top[m] - next.merger.copied == left - {t};
    assert |left - {t}| < |left|;
  }

  lemma MergerShrinks(st: State, step: Step)
    requires Inv(st) && st.control.inProgress && Enabled(st, step) && Best(st, step) && Inv(Do(st, step))
    requires step in {Wake, Reset, EndCopy, Truncate}
    ensures Shrinks(st, Do(st, step))
  {
    var next := Do(st, step);
    assert next.inserts == st.inserts && next.control.Merging() == st.control.Merging();
    assert next.control.startMerge == st.control.startMerge;
    assert StagesLeft(next) < StagesLeft(st);
  }

  lemma CheckShrinks(st: State)
    requires Inv(st) && Enabled(st, Check) && st.control.startMerge && Inv(Do(st, Check))
    ensures Shrinks(st, Do(st, Check))
  {
    var next := Do(st, Check);
    assert next.inserts == st.inserts && next.control.Merging() == st.control.Merging();
    assert !next.control.startMerge;
  }

  /** Every such step shrinks the measure of what is left to do. */
  lemma DrainProgress(st: State, step: Step)
    requires Inv(st) && st.control.inProgress && Enabled(st, step) && Best(st, step) && step != Finish
    requires Inv(Do(st, step))
    ensures Do(st, step).control.inProgress && Shrinks(st, Do(st, step))
  {
    match step
    case StoreTuple(id) => StoreShrinks(st, id);
    case Leave(id, _) => LeaveShrinks(st, id);
    case CopyOne(t) => CopyShrinks(st, t);
    case Check => CheckShrinks(st);
    case _ => MergerShrinks(st, step);
  }
}
