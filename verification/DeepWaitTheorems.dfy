/** What the deep-wait protocol guarantees in every run: safety, the life cycle of its
    signals, termination, and that the action runs. */
module DeepWaitTheorems {
  import opened DeepWait
  import opened DeepWaitInvariant
  import opened DeepWaitSafety

  // ---------------------------------------------------------------- every reachable state

  lemma ExtendsTrans(a: World, b: World, c: World)
    requires Extends(a, b) && Extends(b, c)
    ensures Extends(a, c)
  {
  }

  lemma ClosedGrows(st: State, e: Event)
    requires Enabled(st, e)
    ensures Extends(st.closed, Apply(st, e).closed)
  {
  }

  /** The invariant holds in every state of a run, against any later set of closed data. */
  lemma {:induction false} RunInv(run: seq<State>, i: nat, C: World)
    requires IsRun(run) && i < |run| && Extends(run[i].closed, C)
    ensures Inv(C, run[i])
  {
    hide *;
    if i > 0 {
      var e := StepOf(run, i);
      ClosedGrows(run[i-1], e);
      ExtendsTrans(run[i-1].closed, run[i].closed, C);
      RunInv(run, i - 1, C);
      StepKeepsInv(C, run[i-1], e);
    } else {
      StartInv(run, C);
    }
  }

  lemma {:induction false} StepOf(run: seq<State>, i: nat) returns (e: Event)
    requires IsRun(run) && 0 < i < |run|
    ensures Enabled(run[i-1], e) && run[i] == Apply(run[i-1], e)
  {
    hide Enabled, Apply;
    assert IsStep(run[i-1], run[i]);
    e :| Enabled(run[i-1], e) && run[i] == Apply(run[i-1], e);
  }

  lemma {:induction false} StartInv(run: seq<State>, C: World)
    requires IsRun(run)
    ensures |run| > 0 && Inv(C, run[0])
  {
    hide IsStep;
  }

  ghost predicate Reachable(st: State) {
    exists run :: IsRun(run) && run[|run| - 1] == st
  }

  lemma {:induction false} ReachableInv(st: State)
    requires Reachable(st)
    ensures Inv(st.closed, st)
  {
    var run :| IsRun(run) && run[|run| - 1] == st;
    RunInv(run, |run| - 1, st.closed);
  }

  /** The states that count: the system starts with nothing; at any time a call of `deeprule` with any
      inputs may be added, any more data may be closed, and any task that can move may move. */
  lemma {:induction false} SystemMay(st: State, inputs: seq<Input>, w: World, k: nat)
    ensures Reachable(INIT)
    ensures Reachable(st) ==> Reachable(Call(st, inputs))
    ensures Reachable(st) && (forall t :: t in st.closed ==> t in w && w[t] == st.closed[t]) ==>
      Reachable(st.(closed := w))
    ensures Reachable(st) && k < |st.slots| && st.slots[k].Running? ==> Reachable(Advance(st, k))
    ensures Reachable(st) && k < |st.slots| && st.slots[k].Waiting?
            && (forall t :: t in st.slots[k].inputs ==> Closed(st, t)) ==>
      Reachable(SetSlot(st, k, Running(st.slots[k].proc)))
  {
    assert IsRun([INIT]) && [INIT][0] == INIT;
    if Reachable(st) {
      ReachableAfter(st, NewCall(inputs));
      if Enabled(st, Close(w)) { ReachableAfter(st, Close(w)); }
      if Enabled(st, Task(k)) { ReachableAfter(st, Task(k)); }
    }
  }

  lemma {:induction false} ReachableAfter(st: State, e: Event)
    requires Reachable(st) && Enabled(st, e)
    ensures Reachable(Apply(st, e))
  {
    hide Enabled, Apply;
    var run :| IsRun(run) && run[|run| - 1] == st;
    var run' := run + [Apply(st, e)];
    assert IsStep(run'[|run| - 1], run'[|run|]);
    assert forall i :: 0 < i < |run| ==> IsStep(run[i-1], run[i]);
    assert IsRun(run') && run'[|run'| - 1] == Apply(st, e);
  }

  /** Safety: whenever an action has run, everything it had to wait for is closed.  As this
      holds in every reachable state, it holds at the moment the action runs. */
  lemma {:induction false} ActionRunsAfterDeepClose(st: State, j: nat)
    requires Reachable(st) && j < |st.jobs|
    ensures st.jobs[j].ran <= 1
    ensures st.jobs[j].ran == 1 ==> AllDeepClosed(st.closed, st.jobs[j].inputs)
  {
    ReachableInv(st);
    assert JobOk(st.closed, st, j);
  }

  // ---------------------------------------------------------------- the life of a signal

  /** No run stores a signal twice or drops a reference twice, and a signal that is still
      open keeps its reference: a rule never waits for a variable that was freed. */
  lemma {:induction false} SignalsAreWriteOnce(st: State, s: nat)
    requires Reachable(st) && s < |st.signals|
    ensures !st.fault
    ensures st.signals[s].writeRefs <= 1 && st.signals[s].readRefs <= 1
    ensures st.signals[s].writeRefs == 1 ==> st.signals[s].readRefs == 1
  {
    ReachableInv(st);
    assert SignalOk(st.closed, st, s);
  }

  /** Once its action has run, a call of `deeprule` has stored every signal it allocated, at
      any level, and has dropped its reference. */
  lemma {:induction false} NoSignalLeftBehind(st: State, s: nat)
    requires Reachable(st) && s < |st.signals| == |st.purposes|
    requires st.purposes[s].job < |st.jobs| && st.jobs[st.purposes[s].job].ran == 1
    ensures st.signals[s] == SignalVar(0, 0)
    decreases s
  {
    hide *;
    ReachableInv(st);
    SignalCounts(st.closed, st, s);
    if st.signals[s].readRefs == 1 {
      var o := OuterSignal(st.closed, st, s);
      NoSignalLeftBehind(st, o);
    }
  }

  lemma {:induction false} SignalCounts(C: World, st: State, s: nat)
    requires Inv(C, st) && s < |st.signals|
    ensures st.signals[s].readRefs <= 1 && (st.signals[s].readRefs == 0 ==> st.signals[s] == SignalVar(0, 0))
  {
    assert SignalOk(C, st, s);
  }

  /** A signal not yet dropped, of a call whose action has run, would be held by the task that
      has still to store another signal of the call. */
  lemma {:induction false} OuterSignal(C: World, st: State, s: nat) returns (o: nat)
    requires Inv(C, st) && s < |st.signals| == |st.purposes| && st.signals[s].readRefs == 1
    requires st.purposes[s].job < |st.jobs| && st.jobs[st.purposes[s].job].ran == 1
    ensures o < s && st.purposes[o].job == st.purposes[s].job && st.signals[o] != SignalVar(0, 0)
  {
    HolderDrops(C, st, s);
    var k := st.purposes[s].holder;
    HolderHasOut(C, st, s);
    o := Out(st.slots[k].proc);
    hide Inv;
    assert st.signals[o].writeRefs == 1;
  }

  lemma {:induction false} HolderDrops(C: World, st: State, s: nat)
    requires Inv(C, st) && s < |st.signals| == |st.purposes| && st.signals[s].readRefs == 1
    ensures DropsSignal(st.slots, st.purposes[s].holder, s)
    ensures SlotOk(C, st, st.purposes[s].holder)
    ensures st.purposes[s].job < |st.jobs| && JobOk(C, st, st.purposes[s].job)
  {
    assert SignalOk(C, st, s);
    hide TargetIn, AllDeepClosed, Owns, PointOk;
  }

  /** The task of the call itself has dropped all it had to, as its action has run. */
  lemma {:induction false} HolderHasOut(C: World, st: State, s: nat)
    requires Inv(C, st) && s < |st.signals| == |st.purposes| && st.signals[s].readRefs == 1
    requires st.purposes[s].job < |st.jobs| && st.jobs[st.purposes[s].job].ran == 1
    requires DropsSignal(st.slots, st.purposes[s].holder, s) && SlotOk(C, st, st.purposes[s].holder)
    ensures var p := st.slots[st.purposes[s].holder].proc;
      HasOut(p) && Out(p) < s && Out(p) < |st.signals| && st.signals[Out(p)].writeRefs == 1
      && st.purposes[Out(p)].job == st.purposes[s].job
  {
    hide Inv, DeepClosed, AllDeepClosed, Covers;
    var p := st.slots[st.purposes[s].holder].proc;
    var i :| Dropped(p) <= i < |ToDrop(p)| && ToDrop(p)[i] == s;
  }

  // ---------------------------------------------------------------- progress

  ghost predicate Quiet(st: State) {
    forall k :: 0 <= k < |st.slots| ==> !CanStep(st, k)
  }

  /** The signal serves a call whose inputs are deeply closed. */
  predicate CallCompletes(st: State, s: nat) {
    && s < |st.signals| == |st.purposes| && st.purposes[s].job < |st.jobs|
    && AllDeepClosed(st.closed, st.jobs[st.purposes[s].job].inputs)
  }

  /** A signal whose call can complete is not open when nothing can move. */
  lemma {:induction false} QuietMeansStored(st: State, s: nat)
    requires Inv(st.closed, st) && Quiet(st)
    requires CallCompletes(st, s)
    ensures st.signals[s].writeRefs == 0
    decreases st.purposes[s].target.nest
  {
    var C := st.closed;
    assert SignalOk(C, st, s);
    if st.signals[s].writeRefs != 0 {
      var k := st.purposes[s].owner;
      assert StoresSignal(st.slots, k, s) && SlotOk(C, st, k) && !CanStep(st, k);
      var inputs := st.slots[k].inputs;
      if st.slots[k].proc.FireSignal? {
        FireIsReady(st, s, st.slots[k].proc.inner);
      } else {
        DataIsReady(st, inputs, st.slots[k].proc);
      }
      assert false;
    }
  }

  lemma {:induction false} FireIsReady(st: State, s: nat, inner: seq<nat>)
    requires Inv(st.closed, st) && Quiet(st)
    requires CallCompletes(st, s)
    requires AllSignalsOf(st.purposes, inner, st.purposes[s].job)
    requires Below(st.purposes, inner, st.purposes[s].target.nest)
    ensures Ready(st, AsTds(inner))
    decreases st.purposes[s].target.nest, 0
  {
    forall t <- AsTds(inner) ensures Closed(st, t) {
      var i :| 0 <= i < |inner| && t == Signal(inner[i]);
      QuietMeansStored(st, inner[i]);
    }
  }

  lemma {:induction false} DataIsReady(st: State, inputs: seq<Td>, p: Proc)
    requires HasOut(p) && !p.FireSignal? && TargetIn(st.closed, st.purposes, Out(p))
    requires PointOk(st.closed, st.closed, st.purposes, st.signals, st.jobs, 0, true, inputs, p)
    ensures Ready(st, inputs)
  {
    assert |inputs| == 1;
    if p.Iterate? && p.n != -1 {
      var members := st.closed[User(p.container)];
      assert DeepClosed(st.closed, Input(members[p.progress], 0, p.base));
    }
    assert Closed(st, inputs[0]);
  }

  /** When nothing can move, exactly the calls whose inputs are deeply closed have run. */
  lemma {:induction false} QuietMeansRun(st: State, j: nat)
    requires Reachable(st) && Quiet(st) && j < |st.jobs|
    ensures st.jobs[j].ran == 1 <==> AllDeepClosed(st.closed, st.jobs[j].inputs)
  {
    ReachableInv(st);
    var C := st.closed;
    assert JobOk(C, st, j);
    if st.jobs[j].ran == 0 && AllDeepClosed(C, st.jobs[j].inputs) {
      var k := st.jobs[j].slot;
      assert ServesJob(st.slots, k, j) && SlotOk(C, st, k) && !CanStep(st, k);
      forall t <- st.slots[k].inputs ensures Closed(st, t) {
        var i :| 0 <= i < |st.slots[k].inputs| && st.slots[k].inputs[i] == t;
        assert TdIn(C, st.purposes, st.slots[k].inputs[i]);
        if t.Signal? {
          assert SignalOf(st.purposes, t.n, j);
          QuietMeansStored(st, t.n);
        }
      }
      assert false;
    }
  }
}
