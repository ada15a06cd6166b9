/** Between two events of the outside world the tasks of the deep-wait protocol do only
    finitely much: every step of a task lowers a measure.  The measure covers the part of the
    nesting tree not visited yet and the members the suspended scans have still to pass. */
module DeepWaitTermination {
  import opened DeepWait
  import opened DeepWaitInvariant
  import opened DeepWaitSafety
  import opened DeepWaitTheorems

  // ---------------------------------------------------------------- the measure

  /** Work of a scan that has passed `p` members; a scan that finds an open member leaves a
      rule and comes back. */
  function ScanWork(w: World, c: Id, base: BaseType, p: nat): nat {
    var members := Members(w, c);
    if p < |members| then
      3 * (|members| - p) + (if BaseTd(base, members[p]) in w then 1 else 3)
    else 1
  }

  /** Work that follows the rule of `container_deep_wait`. */
  function WaitWork(w: World, x: Input): nat
    decreases x.nest, 1, 0
  {
    if x.nest == 1 then (if x.base.Scalar? then 2 else 2 + ScanWork(w, x.id, x.base, 0))
    else 1 + VisitWork(w, Members(w, x.id), x.nest, x.base, 0)
  }

  /** Work of `container_rec_deep_wait` once `i` members have their signals. */
  function VisitWork(w: World, members: seq<Id>, nest: nat, base: BaseType, i: nat): nat
    decreases nest, 0, |members| - i
  {
    if nest == 0 || |members| == 0 then 1
    else if |members| == 1 then 1 + WaitWork(w, Input(members[0], nest - 1, base))
    else if i < |members| then
      1 + WaitWork(w, Input(members[i], nest - 1, base)) + VisitWork(w, members, nest, base, i + 1)
    else |members| + 3
  }

  function InputsWork(w: World, inputs: seq<Input>, i: nat): nat
    decreases |inputs| - i
  {
    if i < |inputs| then 2 + WaitWork(w, inputs[i]) + InputsWork(w, inputs, i + 1) else 0
  }

  function ProcWork(w: World, jobs: seq<Job>, p: Proc): nat {
    match p
    case StoreVoid(_) => 1
    case Iterate(c, progress, n, base, _) => ScanWork(w, c, base, progress) + (if n == -1 then 1 else 0)
    case RecWait(c, nest, base, inner, _) => VisitWork(w, Members(w, c), nest, base, |inner|)
    case FireSignal(inner, i, _) => if i <= |inner| then |inner| - i + 1 else 1
    case Deeprule(job, i, _, toFree) =>
      (if job < |jobs| then InputsWork(w, jobs[job].inputs, i) else 0) + |toFree| + 3
    case DeepruleAction(toFree, i, _) => if i <= |toFree| then |toFree| - i + 1 else 1
  }

  function SlotWork(w: World, jobs: seq<Job>, s: Slot): nat {
    match s
    case Waiting(_, p) =>
      if p.Iterate? && p.n != -1 then 3 * (|Members(w, p.container)| - Min(p.progress, |Members(w, p.container)|)) + 2
      else 1 + ProcWork(w, jobs, p)
    case Running(p) => ProcWork(w, jobs, p)
    case Done => 0
  }

  function Min(a: nat, b: nat): nat { if a < b then a else b }

  function Work(w: World, jobs: seq<Job>, slots: seq<Slot>): nat {
    if |slots| == 0 then 0
    else Work(w, jobs, slots[..|slots| - 1]) + SlotWork(w, jobs, slots[|slots| - 1])
  }

  function Measure(st: State): nat { Work(st.closed, st.jobs, st.slots) }

  // ---------------------------------------------------------------- sums

  lemma {:induction false} WorkUpdate(w: World, jobs: seq<Job>, slots: seq<Slot>, k: nat, s: Slot)
    requires k < |slots|
    ensures Work(w, jobs, slots[k := s]) + SlotWork(w, jobs, slots[k]) ==
            Work(w, jobs, slots) + SlotWork(w, jobs, s)
  {
    var n := |slots| - 1;
    if k < n {
      assert slots[k := s][..n] == slots[..n][k := s];
      WorkUpdate(w, jobs, slots[..n], k, s);
    } else {
      assert slots[k := s][..n] == slots[..n];
    }
  }

  lemma WorkAppend(w: World, jobs: seq<Job>, slots: seq<Slot>, s: Slot)
    ensures Work(w, jobs, slots + [s]) == Work(w, jobs, slots) + SlotWork(w, jobs, s)
  {
  }

  lemma {:induction false} WorkOfInputs(w: World, jobs: seq<Job>, jobs': seq<Job>, slots: seq<Slot>)
    requires |jobs| == |jobs'| && forall j :: 0 <= j < |jobs| ==> jobs[j].inputs == jobs'[j].inputs
    ensures Work(w, jobs, slots) == Work(w, jobs', slots)
  {
    if |slots| > 0 { WorkOfInputs(w, jobs, jobs', slots[..|slots| - 1]); }
  }

  // ---------------------------------------------------------------- every step lowers it

  lemma StoreSignalKeeps(st: State, s: nat)
    ensures var st' := StoreSignal(st, s);
      st'.closed == st.closed && st'.jobs == st.jobs && st'.slots == st.slots
    ensures var st' := ReadDecr(st, s);
      st'.closed == st.closed && st'.jobs == st.jobs && st'.slots == st.slots
  {
  }

  lemma {:induction false} SetSlotLowers(st: State, k: nat, s: Slot)
    requires k < |st.slots|
    requires SlotWork(st.closed, st.jobs, s) < SlotWork(st.closed, st.jobs, st.slots[k])
    ensures Measure(SetSlot(st, k, s)) < Measure(st)
  {
    WorkUpdate(st.closed, st.jobs, st.slots, k, s);
  }

  lemma {:induction false} SpawnLowers(st: State, k: nat, p: Proc, job: nat, x: Input)
    requires k < |st.slots| && x.nest >= 1
    requires ProcWork(st.closed, st.jobs, p) + WaitWork(st.closed, x) < SlotWork(st.closed, st.jobs, st.slots[k])
    ensures Measure(Spawn(SetSlot(st, k, Running(p)), k, job, x)) < Measure(st)
  {
    WorkUpdate(st.closed, st.jobs, st.slots, k, Running(p));
    WorkAppend(st.closed, st.jobs, st.slots[k := Running(p)],
               DeepWaitSlot(x.id, x.nest, x.base, |st.signals|));
    DeepWaitSlotWork(st.closed, st.jobs, x, |st.signals|);
  }

  lemma DeepWaitSlotWork(w: World, jobs: seq<Job>, x: Input, s: nat)
    ensures SlotWork(w, jobs, DeepWaitSlot(x.id, x.nest, x.base, s)) == WaitWork(w, x)
  {
  }

  lemma {:induction false} StartLowers(C: World, st: State, k: nat)
    requires Inv(C, st) && CanStep(st, k) && st.slots[k].Waiting?
    ensures Measure(StepSlot(st, k)) < Measure(st)
  {
    var p := st.slots[k].proc;
    assert SlotOk(C, st, k);
    if p.Iterate? && p.n != -1 { assert Closed(st, st.slots[k].inputs[0]); }
    SetSlotLowers(st, k, Running(p));
  }

  lemma SlotOfInv(C: World, st: State, k: nat)
    requires Inv(C, st) && k < |st.slots| && st.slots[k].Running?
    ensures IsRunning(C, st, k)
  {
  }

  lemma {:induction false} AdvanceLowers(C: World, st: State, k: nat)
    requires Inv(C, st) && k < |st.slots| && st.slots[k].Running?
    ensures Measure(Advance(st, k)) < Measure(st)
  {
    SlotOfInv(C, st, k);
    hide *;
    match st.slots[k].proc {
      case StoreVoid(_) => StoreVoidLowers(st, k);
      case Iterate(_, _, _, _, _) => ScanLowers(C, st, k);
      case RecWait(_, _, _, _, _) => VisitLowers(C, st, k);
      case FireSignal(_, _, _) => FireLowers(st, k);
      case Deeprule(_, _, _, _) => DeepruleLowers(C, st, k);
      case DeepruleAction(toFree, i, _) =>
        if i < |toFree| { ActionDropLowers(st, k); } else { ActionLowers(st, k); }
    }
  }

  lemma {:induction false} StoreVoidLowers(st: State, k: nat)
    requires k < |st.slots| && st.slots[k].Running? && st.slots[k].proc.StoreVoid?
    ensures Measure(Advance(st, k)) < Measure(st)
  {
    hide Measure;
    StoreLowers(st, k, st.slots[k].proc.signal);
  }

  lemma {:induction false} FireLowers(st: State, k: nat)
    requires k < |st.slots| && st.slots[k].Running? && st.slots[k].proc.FireSignal?
    ensures Measure(Advance(st, k)) < Measure(st)
  {
    hide Measure, StoreSignal, ReadDecr;
    var p := st.slots[k].proc;
    if p.i < |p.inner| { DropLowers(st, k, p.inner[p.i], FireSignal(p.inner, p.i + 1, p.signal)); }
    else { StoreLowers(st, k, p.signal); }
  }

  lemma {:induction false} ActionDropLowers(st: State, k: nat)
    requires k < |st.slots| && st.slots[k].Running? && st.slots[k].proc.DeepruleAction?
    requires st.slots[k].proc.i < |st.slots[k].proc.toFree|
    ensures Measure(Advance(st, k)) < Measure(st)
  {
    hide Measure, StoreSignal, ReadDecr;
    var p := st.slots[k].proc;
    DropLowers(st, k, p.toFree[p.i], DeepruleAction(p.toFree, p.i + 1, p.job));
  }

  lemma {:induction false} ActionLowers(st: State, k: nat)
    requires k < |st.slots| && st.slots[k].Running? && st.slots[k].proc.DeepruleAction?
    requires st.slots[k].proc.i >= |st.slots[k].proc.toFree|
    ensures Measure(Advance(st, k)) < Measure(st)
  {
    WorkOfInputs(st.closed, st.jobs, Advance(st, k).jobs, st.slots[k := Done]);
    SetSlotLowers(st, k, Done);
  }

  lemma {:induction false} ScanLowers(C: World, st: State, k: nat)
    requires IsRunning(C, st, k) && st.slots[k].proc.Iterate?
    ensures Measure(Advance(st, k)) < Measure(st)
  {
    var p := st.slots[k].proc;
    if p.n != -1 && p.progress == p.n { StoreLowers(st, k, p.signal); }
    else { SetSlotLowers(st, k, Advance(st, k).slots[k]); }
  }

  lemma {:induction false} StoreLowers(st: State, k: nat, s: nat)
    requires k < |st.slots| && SlotWork(st.closed, st.jobs, st.slots[k]) > 0
    ensures Measure(SetSlot(StoreSignal(st, s), k, Done)) < Measure(st)
  {
    StoreSignalKeeps(st, s);
    SetSlotLowers(st, k, Done);
  }

  lemma {:induction false} DropLowers(st: State, k: nat, s: nat, p: Proc)
    requires k < |st.slots|
    requires ProcWork(st.closed, st.jobs, p) < SlotWork(st.closed, st.jobs, st.slots[k])
    ensures Measure(SetSlot(ReadDecr(st, s), k, Running(p))) < Measure(st)
  {
    StoreSignalKeeps(st, s);
    SetSlotLowers(st, k, Running(p));
  }

  lemma {:induction false} VisitLowers(C: World, st: State, k: nat)
    requires IsRunning(C, st, k) && st.slots[k].proc.RecWait?
    ensures Measure(Advance(st, k)) < Measure(st)
  {
    var p := st.slots[k].proc;
    var members := Members(st.closed, p.container);
    if |members| == 0 {
      StoreLowers(st, k, p.signal);
    } else if |members| == 1 {
      DeepWaitSlotWork(st.closed, st.jobs, Input(members[0], p.nest - 1, p.base), p.signal);
      SetSlotLowers(st, k, DeepWaitSlot(members[0], p.nest - 1, p.base, p.signal));
    } else if |p.inner| < |members| {
      SpawnLowers(st, k, RecWait(p.container, p.nest, p.base, p.inner + [|st.signals|], p.signal),
                  st.purposes[p.signal].job, Input(members[|p.inner|], p.nest - 1, p.base));
    } else {
      SetSlotLowers(st, k, Waiting(AsTds(p.inner), FireSignal(p.inner, 0, p.signal)));
    }
  }

  lemma {:induction false} DeepruleLowers(C: World, st: State, k: nat)
    requires IsRunning(C, st, k) && st.slots[k].proc.Deeprule?
    ensures Measure(Advance(st, k)) < Measure(st)
  {
    DeepruleJob(C, st, k);
    hide *;
    if st.slots[k].proc.i < |st.jobs[st.slots[k].proc.job].inputs| { InputLowers(st, k); } else { CallLowers(st, k); }
  }

  lemma DeepruleJob(C: World, st: State, k: nat)
    requires IsRunning(C, st, k) && st.slots[k].proc.Deeprule?
    ensures k < |st.slots| && st.slots[k].Running? && st.slots[k].proc.job < |st.jobs|
  {
  }

  /** All inputs have their signals. */
  lemma {:induction false} CallLowers(st: State, k: nat)
    requires k < |st.slots| && st.slots[k].Running? && st.slots[k].proc.Deeprule?
    requires st.slots[k].proc.job < |st.jobs| && st.slots[k].proc.i >= |st.jobs[st.slots[k].proc.job].inputs|
    ensures Measure(Advance(st, k)) < Measure(st)
  {
    hide Measure;
    var p := st.slots[k].proc;
    SetSlotLowers(st, k, Waiting(p.signals, DeepruleAction(p.toFree, 0, p.job)));
  }

  lemma {:induction false} InputLowers(st: State, k: nat)
    requires k < |st.slots| && st.slots[k].Running? && st.slots[k].proc.Deeprule?
    requires st.slots[k].proc.job < |st.jobs| && st.slots[k].proc.i < |st.jobs[st.slots[k].proc.job].inputs|
    ensures Measure(Advance(st, k)) < Measure(st)
  {
    hide Measure, WaitWork, Spawn, BaseSignals;
    var p := st.slots[k].proc;
    var x := st.jobs[p.job].inputs[p.i];
    if x.nest >= 1 {
      var s := |st.signals|;
      SpawnLowers(st, k, Deeprule(p.job, p.i + 1, p.signals + [Signal(s)], p.toFree + [s]), p.job, x);
    } else {
      SetSlotLowers(st, k, Running(Deeprule(p.job, p.i + 1, p.signals + BaseSignals(x.base, x.id), p.toFree)));
    }
  }

  lemma {:induction false} StepLowers(C: World, st: State, k: nat)
    requires Inv(C, st) && CanStep(st, k)
    ensures Measure(StepSlot(st, k)) < Measure(st)
  {
    if st.slots[k].Waiting? { StartLowers(C, st, k); } else { AdvanceLowers(C, st, k); }
  }

  // ---------------------------------------------------------------- termination

  ghost predicate TaskStep(st: State, st': State) {
    exists k: nat :: CanStep(st, k) && st' == StepSlot(st, k)
  }

  /** A run in which only tasks of the protocol move, in any order. */
  ghost predicate IsTaskRun(trace: seq<State>) {
    |trace| > 0 && forall i :: 0 < i < |trace| ==> TaskStep(trace[i-1], trace[i])
  }

  predicate SameCalls(st: State, st': State) {
    && st'.closed == st.closed && |st'.jobs| == |st.jobs|
    && forall j :: 0 <= j < |st.jobs| ==> st'.jobs[j].inputs == st.jobs[j].inputs
  }

  lemma {:induction false} StepKeepsCalls(st: State, k: nat)
    requires CanStep(st, k)
    ensures SameCalls(st, StepSlot(st, k))
  {
    hide Advance;
    if st.slots[k].Running? { AdvanceKeepsCalls(st, k); }
  }

  lemma {:induction false} AdvanceKeepsCalls(st: State, k: nat)
    requires k < |st.slots| && st.slots[k].Running?
    ensures SameCalls(st, Advance(st, k))
  {
    hide *;
    var p := st.slots[k].proc;
    if p.Deeprule? || p.RecWait? { SpawningKeepsCalls(st, k); }
    else if p.DeepruleAction? { ActionKeepsCalls(st, k); }
    else { StoringKeepsCalls(st, k); }
  }

  lemma {:induction false} SpawningKeepsCalls(st: State, k: nat)
    requires k < |st.slots| && st.slots[k].Running? && (st.slots[k].proc.Deeprule? || st.slots[k].proc.RecWait?)
    ensures SameCalls(st, Advance(st, k))
  {
    hide DeepWaitSlot, BaseSignals, AsTds, Members;
  }

  lemma {:induction false} StoringKeepsCalls(st: State, k: nat)
    requires k < |st.slots| && st.slots[k].Running?
    requires st.slots[k].proc.StoreVoid? || st.slots[k].proc.Iterate? || st.slots[k].proc.FireSignal?
    ensures SameCalls(st, Advance(st, k))
  {
    hide Members, BaseTd;
  }

  lemma ActionKeepsCalls(st: State, k: nat)
    requires k < |st.slots| && st.slots[k].Running? && st.slots[k].proc.DeepruleAction?
    ensures SameCalls(st, Advance(st, k))
  {
  }

  lemma {:induction false} ReachableStep(st: State, st': State)
    requires Reachable(st) && TaskStep(st, st')
    ensures Reachable(st') && Measure(st') < Measure(st) && SameCalls(st, st')
  {
    hide Inv, CanStep, StepSlot, Measure, SameCalls, Reachable;
    var k: nat :| CanStep(st, k) && st' == StepSlot(st, k);
    assert Enabled(st, Task(k)) && st' == Apply(st, Task(k));
    ReachableAfter(st, Task(k));
    ReachableInv(st);
    StepLowers(st.closed, st, k);
    StepKeepsCalls(st, k);
  }

  lemma {:induction false} TaskRunBound(trace: seq<State>)
    requires IsTaskRun(trace) && Reachable(trace[0])
    ensures var last := trace[|trace| - 1];
      && Reachable(last) && SameCalls(trace[0], last)
      && Measure(last) + |trace| - 1 <= Measure(trace[0])
  {
    if |trace| > 1 {
      var init := trace[..|trace| - 1];
      TaskRunBound(init);
      assert TaskStep(trace[|trace| - 2], trace[|trace| - 1]);
      ReachableStep(trace[|trace| - 2], trace[|trace| - 1]);
    }
  }

  /** Termination: from any reachable state, the tasks make at most `Measure` steps, in
      whatever order they are released.  When none of them can move, the actions of exactly
      those calls have run, once each, whose inputs are deeply closed; all their signals have
      been stored and dropped. */
  lemma {:induction false} DeepWaitTerminates(trace: seq<State>, j: nat)
    requires IsTaskRun(trace) && Reachable(trace[0]) && j < |trace[0].jobs|
    ensures |trace| - 1 <= Measure(trace[0])
    ensures var last := trace[|trace| - 1];
      Quiet(last) ==>
        && j < |last.jobs| && |last.signals| == |last.purposes|
        && (last.jobs[j].ran == 1 <==> AllDeepClosed(trace[0].closed, trace[0].jobs[j].inputs))
        && last.jobs[j].ran <= 1
        && (last.jobs[j].ran == 1 ==>
              forall s :: 0 <= s < |last.signals| && last.purposes[s].job == j
                ==> last.signals[s] == SignalVar(0, 0))
  {
    TaskRunBound(trace);
    var last := trace[|trace| - 1];
    if Quiet(last) {
      QuietMeansRun(last, j);
      ActionRunsAfterDeepClose(last, j);
      ReachableInv(last);
      if last.jobs[j].ran == 1 {
        forall s | 0 <= s < |last.signals| && last.purposes[s].job == j
          ensures last.signals[s] == SignalVar(0, 0)
        {
          NoSignalLeftBehind(last, s);
        }
      }
    }
  }
}
