/**
 A scan looks at the three indexes one after the other, while inserts and a merge go on. The order
 in which it looks, active top index, other top index, base, is what keeps it from missing a tuple
 on its way down.
 */
module Lsm3Visiting {
  import opened Lsm3Control
  import opened Lsm3Order
  import opened Lsm3Protocol
  import Lsm3Cursors

  /** One step moves tuples only downwards: nothing leaves the base, or a top index other than into it. */
  lemma StepMovesDown(st: State, step: Step, x: nat)
    requires Inv(st) && Enabled(st, step) && x < 2
    ensures Do(st, step).Shaped() && st.base <= Do(st, step).base
    ensures st.top[x] <= Do(st, step).top[x] + Do(st, step).base
  {
  }

  lemma {:induction false} RunMovesDown(run: seq<State>, steps: seq<Step>, i: nat, j: nat, x: nat)
    requires IsRun(run, steps) && i <= j < |run| && x < 2
    ensures run[i].Shaped() && run[j].Shaped() && run[i].base <= run[j].base
    ensures run[i].top[x] <= run[j].top[x] + run[j].base
    decreases j - i
  {
    RunInv(run, steps, i);
    if i < j {
      assert Follows(run[i], steps[i], run[i + 1]);
      StepMovesDown(run[i], steps[i], x);
      RunMovesDown(run, steps, i + 1, j, x);
    }
  }

  /**
   Looking at the active top index at one moment, at the other one later and at the base later
   still misses nothing that was stored before the first look, and finds nothing that was not
   stored by the last.
   */
  lemma LooksMissNothing(run: seq<State>, steps: seq<Step>, i: nat, j: nat, k: nat)
    requires IsRun(run, steps) && i <= j <= k < |run|
    ensures run[i].Shaped() && run[j].Shaped() && run[k].Shaped()
    ensures var a := run[i].control.active; var found := run[i].top[a] + run[j].top[1 - a] + run[k].base;
      run[i].Union() <= found <= run[k].Union()
  {
    var a := run[i].control.active;
    RunInv(run, steps, i);
    RunMovesDown(run, steps, i, j, 1 - a);
    RunMovesDown(run, steps, j, k, 1 - a);
    RunMovesDown(run, steps, i, k, a);
  }

  /** So the output of a full scan lies between what was stored at its start and at its end. */
  lemma ScanSeesItsPast(run: seq<State>, steps: seq<Step>, i: nat, j: nat, k: nat, scan: seq<Lsm3Cursors.Cursor>,
                        out: seq<Tuple>)
    requires IsRun(run, steps) && i <= j <= k < |run| && |scan| == 3
    requires run[i].Shaped() && run[j].Shaped()
    requires var order := Lsm3Cursors.VisitingOrder(run[i].control.active);
      && Elements(scan[order[0]].tuples) == run[i].top[order[0]]
      && Elements(scan[order[1]].tuples) == run[j].top[order[1]]
      && Elements(scan[order[2]].tuples) == run[k].base
    requires Elements(out) == Lsm3Cursors.Everything(scan)
    ensures run[0].Shaped() && run[0].Union() + run[i].added <= Elements(out) <= run[0].Union() + run[k].added
  {
    LooksMissNothing(run, steps, i, j, k);
    NothingLost(run, steps, i);
    NothingLost(run, steps, k);
  }

  // Looking at the base first would not do

  function Start(t: Tuple): State {
    State(Control(0, [0, 0], 0, false, false, false), [{t}, {}], {}, map[], Waiting, {t}, {}, 0, 0)
  }

  function OneMerge(t: Tuple): seq<Step> {
    [Request, Wake, Reset, Check, CopyOne(t), EndCopy, Truncate]
  }

  /** The states a path goes through. */
  lemma {:induction false} PathIsRun(a: State, steps: seq<Step>, b: State) returns (run: seq<State>)
    requires Path(a, steps, b)
    ensures |run| == |steps| + 1 && run[0] == a && run[|steps|] == b
    ensures forall i {:trigger steps[i]} :: 0 <= i < |steps| ==> Follows(run[i], steps[i], run[i + 1])
    decreases |steps|
  {
    if steps == [] {
      run := [a];
    } else {
      var more := PathIsRun(Do(a, steps[0]), steps[1..], b);
      run := [a] + more;
      forall i | 0 <= i < |steps| ensures Follows(run[i], steps[i], run[i + 1]) {
        if i > 0 { assert Follows(more[i - 1], steps[1..][i - 1], more[i]); }
      }
    }
  }

  lemma OneMergePath(t: Tuple) returns (end: State)
    ensures Path(Start(t), OneMerge(t), end) && end.top == [{}, {}] && end.base == {t}
  {
    var a, soFar := Start(t), [Request, Wake, Reset] + [Check];
    var c := OneMergeBegins(t);
    OneMergeEnds(t, c);
    var d := Do(c, CopyOne(t));
    var e := Do(d, EndCopy);
    end := Do(e, Truncate);
    PathThen(a, soFar, c, CopyOne(t));
    PathThen(a, soFar + [CopyOne(t)], d, EndCopy);
    PathThen(a, soFar + [CopyOne(t)] + [EndCopy], e, Truncate);
    assert soFar + [CopyOne(t)] + [EndCopy] + [Truncate] == OneMerge(t);
  }

  lemma OneMergeBegins(t: Tuple) returns (c: State)
    ensures Path(Start(t), [Request, Wake, Reset] + [Check], c) && c.Shaped()
    ensures c.merger == Copying(0, {}) && c.top == [{t}, {}] && c.base == {}
  {
    var a := Start(t);
    PathThree(a, Request, Wake, Reset);
    var b := Do(Do(Do(a, Request), Wake), Reset);
    assert b == a.(control := Control(1, [0, 0], 1, true, true, false), merger := Checking, flips := 1, signals := 1);
    PathThen(a, [Request, Wake, Reset], b, Check);
    c := Do(b, Check);
  }

  lemma OneMergeEnds(t: Tuple, c: State)
    requires c.Shaped() && c.merger == Copying(0, {}) && c.top == [{t}, {}] && c.base == {}
    ensures Enabled(c, CopyOne(t)) && Do(c, CopyOne(t)).Shaped() && Enabled(Do(c, CopyOne(t)), EndCopy)
    ensures Do(Do(c, CopyOne(t)), EndCopy).Shaped() && Enabled(Do(Do(c, CopyOne(t)), EndCopy), Truncate)
    ensures var end := Do(Do(Do(c, CopyOne(t)), EndCopy), Truncate); end.top == [{}, {}] && end.base == {t}
  {
  }

  /** A run on which a look at the base first and at the top indexes later misses a tuple that is never gone. */
  lemma BaseFirstMisses(t: Tuple) returns (run: seq<State>, steps: seq<Step>, k: nat)
    ensures IsRun(run, steps) && k < |run| && run[0].Shaped() && run[k].Shaped()
    ensures t in run[0].Union() && t !in run[0].base + run[k].top[0] + run[k].top[1]
  {
    steps := OneMerge(t);
    assert Start(t).Union() == {t} && Init(Start(t));
    var end := OneMergePath(t);
    run := PathIsRun(Start(t), steps, end);
    k := |steps|;
    RunInv(run, steps, k);
    assert run[k].top[0] == {} && run[k].top[1] == {};
  }
}
