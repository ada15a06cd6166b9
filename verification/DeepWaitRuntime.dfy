/** The procedures of code/lib/container.tcl as they are written: loops that change the
    data store in place.  Each is proved to be a sequence of the atomic operations of
    `DeepWait.Advance` for its own slot, so what holds for every interleaving of those
    operations holds for the loops. */
module DeepWaitRuntime {
  import opened DeepWait
  import opened DeepWaitTheorems
  import opened DeepWaitTermination

  const MAX_CHUNK_SIZE: nat := 64

  /** `st'` is `st` after `n` operations of the task in slot `k`. */
  ghost predicate Runs(st: State, k: nat, n: nat, st': State)
    decreases n
  {
    if n == 0 then st' == st
    else k < |st.slots| && st.slots[k].Running? && Runs(Advance(st, k), k, n - 1, st')
  }

  lemma {:induction false} RunsMore(st: State, k: nat, n: nat, st': State)
    requires Runs(st, k, n, st') && k < |st'.slots| && st'.slots[k].Running?
    ensures Runs(st, k, n + 1, Advance(st', k))
    decreases n
  {
    hide Advance;
    if n == 0 {
      assert Runs(Advance(st', k), k, 0, Advance(st', k));
    } else {
      RunsMore(Advance(st, k), k, n - 1, st');
    }
  }

  /** What a loop of this module does is a run of the protocol. */
  lemma {:induction false} RunsReachable(st: State, k: nat, n: nat, st': State)
    requires Reachable(st) && Runs(st, k, n, st')
    ensures Reachable(st') && SameCalls(st, st')
    decreases n
  {
    hide Advance, Reachable, Measure;
    if n > 0 {
      assert CanStep(st, k) && Advance(st, k) == StepSlot(st, k);
      assert TaskStep(st, Advance(st, k));
      ReachableStep(st, Advance(st, k));
      RunsReachable(Advance(st, k), k, n - 1, st');
    }
  }

  /** So is a call of `deeprule` from any state of the system. */
  lemma {:induction false} CallReachable(st: State, inputs: seq<Input>, k: nat, n: nat, st': State)
    requires Reachable(st) && Runs(Call(st, inputs), k, n, st')
    ensures Reachable(st')
  {
    hide Advance, Reachable, Runs;
    SystemMay(st, inputs, map[], 0);
    RunsReachable(Call(st, inputs), k, n, st');
  }

  /** One operation of a task that is about to do `p` and only moves on. */
  lemma {:induction false} Moves(st0: State, st: State, k: nat, n: nat, p: Proc, slot: Slot)
    requires k < |st.slots|
    requires Runs(st0, k, n, SetSlot(st, k, Running(p)))
    requires Advance(SetSlot(st, k, Running(p)), k) == SetSlot(SetSlot(st, k, Running(p)), k, slot)
    ensures Runs(st0, k, n + 1, SetSlot(st, k, slot))
  {
    hide Advance;
    RunsMore(st0, k, n, SetSlot(st, k, Running(p)));
    assert st.slots[k := Running(p)][k := slot] == st.slots[k := slot];
  }

  /** The scan looks at one member: it goes on, or leaves a rule for that member. */
  lemma {:induction false} ScanMoves(st0: State, st: State, k: nat, n: nat, p: Proc)
    requires k < |st.slots| && p.Iterate? && Runs(st0, k, n, SetSlot(st, k, Running(p)))
    requires p.progress < p.n == |Members(st.closed, p.container)|
    ensures var t := BaseTd(p.base, Members(st.closed, p.container)[p.progress]);
      Runs(st0, k, n + 1, SetSlot(st, k,
        if t in st.closed then Running(Iterate(p.container, p.progress + 1, p.n, p.base, p.signal))
        else Waiting([Data(t)], p)))
  {
    hide Runs;
    var t := BaseTd(p.base, Members(st.closed, p.container)[p.progress]);
    Moves(st0, st, k, n, p,
          if t in st.closed then Running(Iterate(p.container, p.progress + 1, p.n, p.base, p.signal))
          else Waiting([Data(t)], p));
  }

  /** The last operation of a task that stores its signal. */
  lemma {:induction false} StoreEnds(st0: State, st: State, k: nat, n: nat, p: Proc, s: nat)
    requires k < |st.slots| && Runs(st0, k, n, SetSlot(st, k, Running(p)))
    requires Advance(SetSlot(st, k, Running(p)), k) ==
             SetSlot(StoreSignal(SetSlot(st, k, Running(p)), s), k, Done)
    ensures k < |StoreSignal(st, s).slots|
    ensures Runs(st0, k, n + 1, SetSlot(StoreSignal(st, s), k, Done))
  {
    hide Advance, Runs;
    RunsMore(st0, k, n, SetSlot(st, k, Running(p)));
    assert st.slots[k := Running(p)][k := Done] == st.slots[k := Done];
  }

  lemma ScanStarts(st: State, k: nat, p: Proc)
    requires k < |st.slots| && p.Iterate? && p.n == -1 && st.slots[k] == Running(p)
    ensures Runs(st, k, 1, SetSlot(st, k,
      Running(Iterate(p.container, p.progress, |Members(st.closed, p.container)|, p.base, p.signal))))
  {
  }

  lemma {:induction false} ScanEnds(st0: State, st: State, k: nat, n: nat, p: Proc)
    requires k < |st.slots| && p.Iterate? && Runs(st0, k, n, SetSlot(st, k, Running(p)))
    requires p.progress >= p.n == |Members(st.closed, p.container)|
    ensures k < |StoreSignal(st, p.signal).slots|
    ensures Runs(st0, k, n + 1, SetSlot(StoreSignal(st, p.signal), k, Done))
  {
    StoreEnds(st0, st, k, n, p, p.signal);
  }

  /** A task allocates a signal, starts the wait that will store it, and moves on. */
  lemma {:induction false} Spawns(st0: State, st: State, k: nat, n: nat, p: Proc, p': Proc, job: nat, x: Input)
    requires k < |st.slots| && Runs(st0, k, n, SetSlot(st, k, Running(p)))
    requires Advance(SetSlot(st, k, Running(p)), k) ==
             Spawn(SetSlot(SetSlot(st, k, Running(p)), k, Running(p')), k, job, x)
    ensures Runs(st0, k, n + 1, SetSlot(Spawn(st, k, job, x), k, Running(p')))
  {
    hide Advance, Runs;
    RunsMore(st0, k, n, SetSlot(st, k, Running(p)));
    assert st.slots[k := Running(p)][k := Running(p')] == st.slots[k := Running(p')];
    var slot := DeepWaitSlot(x.id, x.nest, x.base, |st.signals|);
    assert (st.slots + [slot])[k := Running(p')] == st.slots[k := Running(p')] + [slot];
  }

  /** A task drops the reference of a signal and moves on. */
  lemma {:induction false} Drops(st0: State, st: State, k: nat, n: nat, p: Proc, p': Proc, s: nat)
    requires k < |st.slots| && Runs(st0, k, n, SetSlot(st, k, Running(p)))
    requires Advance(SetSlot(st, k, Running(p)), k) ==
             SetSlot(ReadDecr(SetSlot(st, k, Running(p)), s), k, Running(p'))
    ensures k < |ReadDecr(st, s).slots|
    ensures Runs(st0, k, n + 1, SetSlot(ReadDecr(st, s), k, Running(p')))
  {
    hide Advance, Runs;
    RunsMore(st0, k, n, SetSlot(st, k, Running(p)));
    assert st.slots[k := Running(p)][k := Running(p')] == st.slots[k := Running(p')];
  }

  lemma RunsZero(st: State, k: nat)
    ensures Runs(st, k, 0, st)
  {
  }

  /** `ReadDecr` for each signal of a list, from an index on. */
  function ReadDecrAll(st: State, list: seq<nat>, i: nat): State
    decreases |list| - i
  {
    if i < |list| then ReadDecrAll(ReadDecr(st, list[i]), list, i + 1) else st
  }

  lemma {:induction false} ReadDecrKeepsJobs(st: State, list: seq<nat>, i: nat)
    ensures ReadDecrAll(st, list, i).jobs == st.jobs
    ensures ReadDecrAll(st, list, i).slots == st.slots
    decreases |list| - i
  {
    if i < |list| { ReadDecrKeepsJobs(ReadDecr(st, list[i]), list, i + 1); }
  }

  lemma {:induction false} FireRuns(st0: State, st: State, k: nat, n: nat, inner: seq<nat>, i: nat, signal: nat)
    requires k < |st.slots| && i <= |inner|
    requires Runs(st0, k, n, SetSlot(st, k, Running(FireSignal(inner, i, signal))))
    ensures var st' := StoreSignal(ReadDecrAll(st, inner, i), signal);
      && k < |st'.slots|
      && Runs(st0, k, n + (|inner| - i) + 1, SetSlot(st', k, Done))
    decreases |inner| - i
  {
    hide Advance, Runs, ReadDecr;
    if i < |inner| {
      FireDrops(st0, st, k, n, inner, i, signal);
      FireRuns(st0, ReadDecr(st, inner[i]), k, n + 1, inner, i + 1, signal);
    } else {
      FireEnds(st0, st, k, n, inner, signal);
    }
  }

  lemma {:induction false} FireDrops(st0: State, st: State, k: nat, n: nat, inner: seq<nat>, i: nat, signal: nat)
    requires k < |st.slots| && i < |inner|
    requires Runs(st0, k, n, SetSlot(st, k, Running(FireSignal(inner, i, signal))))
    ensures k < |ReadDecr(st, inner[i]).slots|
    ensures Runs(st0, k, n + 1,
      SetSlot(ReadDecr(st, inner[i]), k, Running(FireSignal(inner, i + 1, signal))))
  {
    FireAdvance(SetSlot(st, k, Running(FireSignal(inner, i, signal))), k);
    hide Advance, Runs, ReadDecr;
    Drops(st0, st, k, n, FireSignal(inner, i, signal), FireSignal(inner, i + 1, signal), inner[i]);
  }

  lemma FireAdvance(st: State, k: nat)
    requires k < |st.slots| && st.slots[k].Running? && st.slots[k].proc.FireSignal?
    ensures var p := st.slots[k].proc;
      p.i < |p.inner| ==>
        k < |ReadDecr(st, p.inner[p.i]).slots|
        && Advance(st, k) == SetSlot(ReadDecr(st, p.inner[p.i]), k, Running(FireSignal(p.inner, p.i + 1, p.signal)))
  {
  }

  lemma {:induction false} FireEnds(st0: State, st: State, k: nat, n: nat, inner: seq<nat>, signal: nat)
    requires k < |st.slots|
    requires Runs(st0, k, n, SetSlot(st, k, Running(FireSignal(inner, |inner|, signal))))
    ensures k < |StoreSignal(st, signal).slots|
    ensures Runs(st0, k, n + 1, SetSlot(StoreSignal(st, signal), k, Done))
  {
    StoreEnds(st0, st, k, n, FireSignal(inner, |inner|, signal), signal);
  }

  lemma {:induction false} ActionRuns(st0: State, st: State, k: nat, n: nat, toFree: seq<nat>, i: nat, job: nat)
    requires k < |st.slots| && i <= |toFree|
    requires Runs(st0, k, n, SetSlot(st, k, Running(DeepruleAction(toFree, i, job))))
    ensures var st' := ReadDecrAll(st, toFree, i);
      && k < |st'.slots|
      && Runs(st0, k, n + (|toFree| - i), SetSlot(st', k, Running(DeepruleAction(toFree, |toFree|, job))))
    decreases |toFree| - i
  {
    hide Advance, Runs, ReadDecr;
    if i < |toFree| {
      ActionDrops(st0, st, k, n, toFree, i, job);
      ActionRuns(st0, ReadDecr(st, toFree[i]), k, n + 1, toFree, i + 1, job);
    }
  }

  lemma {:induction false} ActionDrops(st0: State, st: State, k: nat, n: nat, toFree: seq<nat>, i: nat, job: nat)
    requires k < |st.slots| && i < |toFree|
    requires Runs(st0, k, n, SetSlot(st, k, Running(DeepruleAction(toFree, i, job))))
    ensures k < |ReadDecr(st, toFree[i]).slots|
    ensures Runs(st0, k, n + 1,
      SetSlot(ReadDecr(st, toFree[i]), k, Running(DeepruleAction(toFree, i + 1, job))))
  {
    ActionAdvance(SetSlot(st, k, Running(DeepruleAction(toFree, i, job))), k);
    hide Advance, Runs, ReadDecr;
    Drops(st0, st, k, n, DeepruleAction(toFree, i, job), DeepruleAction(toFree, i + 1, job), toFree[i]);
  }

  lemma ActionAdvance(st: State, k: nat)
    requires k < |st.slots| && st.slots[k].Running? && st.slots[k].proc.DeepruleAction?
    ensures var p := st.slots[k].proc;
      p.i < |p.toFree| ==>
        k < |ReadDecr(st, p.toFree[p.i]).slots|
        && Advance(st, k) == SetSlot(ReadDecr(st, p.toFree[p.i]), k, Running(DeepruleAction(p.toFree, p.i + 1, p.job)))
  {
  }

  lemma {:induction false} ActionEnds(st0: State, st: State, k: nat, n: nat, toFree: seq<nat>, job: nat)
    requires k < |st.slots| && job < |st.jobs|
    requires Runs(st0, k, n, SetSlot(st, k, Running(DeepruleAction(toFree, |toFree|, job))))
    ensures Runs(st0, k, n + 1, SetSlot(
      st.(jobs := st.jobs[job := st.jobs[job].(ran := st.jobs[job].ran + 1)]), k, Done))
  {
    hide Runs;
    var p := DeepruleAction(toFree, |toFree|, job);
    RunsMore(st0, k, n, SetSlot(st, k, Running(p)));
    assert st.slots[k := Running(p)][k := Done] == st.slots[k := Done];
  }

  lemma {:induction false} MemberSpawns(st0: State, st: State, k: nat, n: nat, p: Proc)
    requires k < |st.slots| && p.RecWait? && Runs(st0, k, n, SetSlot(st, k, Running(p)))
    requires p.nest >= 1 && p.signal < |st.purposes|
    requires |p.inner| < |Members(st.closed, p.container)| && |Members(st.closed, p.container)| > 1
    ensures Runs(st0, k, n + 1, SetSlot(
      Spawn(st, k, st.purposes[p.signal].job,
            Input(Members(st.closed, p.container)[|p.inner|], p.nest - 1, p.base)), k,
      Running(RecWait(p.container, p.nest, p.base, p.inner + [|st.signals|], p.signal))))
  {
    Spawns(st0, st, k, n, p,
           RecWait(p.container, p.nest, p.base, p.inner + [|st.signals|], p.signal),
           st.purposes[p.signal].job,
           Input(Members(st.closed, p.container)[|p.inner|], p.nest - 1, p.base));
  }

  lemma {:induction false} MembersSpawned(st0: State, st: State, k: nat, n: nat, p: Proc)
    requires k < |st.slots| && p.RecWait? && Runs(st0, k, n, SetSlot(st, k, Running(p)))
    requires p.nest >= 1 && |p.inner| >= |Members(st.closed, p.container)| > 1
    ensures Runs(st0, k, n + 1, SetSlot(st, k, Waiting(AsTds(p.inner), FireSignal(p.inner, 0, p.signal))))
  {
    Moves(st0, st, k, n, p, Waiting(AsTds(p.inner), FireSignal(p.inner, 0, p.signal)));
  }

  lemma {:induction false} FewMembers(st0: State, st: State, k: nat, n: nat, p: Proc)
    requires k < |st.slots| && p.RecWait? && Runs(st0, k, n, SetSlot(st, k, Running(p)))
    requires p.nest >= 1
    ensures |Members(st.closed, p.container)| == 0 ==>
      && k < |StoreSignal(st, p.signal).slots|
      && Runs(st0, k, n + 1, SetSlot(StoreSignal(st, p.signal), k, Done))
    ensures |Members(st.closed, p.container)| == 1 ==>
      Runs(st0, k, n + 1, SetSlot(st, k,
        DeepWaitSlot(Members(st.closed, p.container)[0], p.nest - 1, p.base, p.signal)))
  {
    if |Members(st.closed, p.container)| == 0 {
      StoreEnds(st0, st, k, n, p, p.signal);
    } else if |Members(st.closed, p.container)| == 1 {
      Moves(st0, st, k, n, p,
            DeepWaitSlot(Members(st.closed, p.container)[0], p.nest - 1, p.base, p.signal));
    }
  }

  lemma {:induction false} InputMoves(st0: State, st: State, k: nat, n: nat, p: Proc)
    requires k < |st.slots| && p.Deeprule? && Runs(st0, k, n, SetSlot(st, k, Running(p)))
    requires p.job < |st.jobs| && p.i <= |st.jobs[p.job].inputs|
    ensures p.i == |st.jobs[p.job].inputs| ==>
      Runs(st0, k, n + 1, SetSlot(st, k, Waiting(p.signals, DeepruleAction(p.toFree, 0, p.job))))
    ensures p.i < |st.jobs[p.job].inputs| && st.jobs[p.job].inputs[p.i].nest == 0 ==>
      var x := st.jobs[p.job].inputs[p.i];
      Runs(st0, k, n + 1, SetSlot(st, k,
        Running(Deeprule(p.job, p.i + 1, p.signals + BaseSignals(x.base, x.id), p.toFree))))
    ensures p.i < |st.jobs[p.job].inputs| && st.jobs[p.job].inputs[p.i].nest >= 1 ==>
      var s := |st.signals|;
      Runs(st0, k, n + 1, SetSlot(Spawn(st, k, p.job, st.jobs[p.job].inputs[p.i]), k,
        Running(Deeprule(p.job, p.i + 1, p.signals + [Signal(s)], p.toFree + [s]))))
  {
    if p.i == |st.jobs[p.job].inputs| {
      Moves(st0, st, k, n, p, Waiting(p.signals, DeepruleAction(p.toFree, 0, p.job)));
    } else {
      var x := st.jobs[p.job].inputs[p.i];
      var s := |st.signals|;
      if x.nest == 0 {
        Moves(st0, st, k, n, p,
              Running(Deeprule(p.job, p.i + 1, p.signals + BaseSignals(x.base, x.id), p.toFree)));
      } else {
        Spawns(st0, st, k, n, p,
               Deeprule(p.job, p.i + 1, p.signals + [Signal(s)], p.toFree + [s]), p.job, x);
      }
    }
  }

  class Runtime {
    var closed: World
    var signals: seq<SignalVar>
    ghost var purposes: seq<Purpose>
    var slots: seq<Slot>
    var jobs: seq<Job>
    var fault: bool

    constructor ()
      ensures View() == INIT
    {
      closed, signals, purposes, slots, jobs, fault := map[], [], [], [], [], false;
    }

    ghost function View(): State
      reads this
    {
      State(closed, signals, purposes, slots, jobs, fault)
    }

    /** The state in which the task of slot `k` has still the procedure `p` to execute. */
    ghost function At(k: nat, p: Proc): State
      reads this
      requires k < |slots|
    {
      SetSlot(View(), k, Running(p))
    }

    method StoreVoidSignal(s: nat)
      modifies this
      ensures View() == StoreSignal(old(View()), s)
    {
      if s >= |signals| || signals[s].writeRefs == 0 { fault := true; }
      else { signals := signals[s := SignalVar(signals[s].writeRefs - 1, signals[s].readRefs)]; }
    }

    method ReadRefcountDecr(s: nat)
      modifies this
      ensures View() == ReadDecr(old(View()), s)
    {
      if s >= |signals| || signals[s].readRefs == 0 { fault := true; }
      else { signals := signals[s := SignalVar(signals[s].writeRefs, signals[s].readRefs - 1)]; }
    }

    /** `allocate void` and `container_deep_wait` with the new signal. */
    method ContainerDeepWait(k: nat, ghost job: nat, c: Id, nest: nat, base: BaseType) returns (s: nat)
      modifies this
      ensures s == |old(signals)|
      ensures View() == Spawn(old(View()), k, job, Input(c, nest, base))
    {
      s := |signals|;
      signals := signals + [SignalVar(1, 1)];
      purposes := purposes + [Purpose(Input(c, nest, base), job, |slots|, k)];
      slots := slots + [DeepWaitSlot(c, nest, base, s)];
    }

    /** The task of slot `k` has done `n` operations of its scan and goes on with `p`. */
    ghost predicate Scanning(st: State, k: nat, n: nat, p: Proc)
      reads this
    {
      && k < |slots| && View() == st && p.Iterate? && p.n == |Members(closed, p.container)|
      && Runs(st, k, n, SetSlot(st, k, Running(p)))
    }

    lemma {:induction false} ScanBegins(k: nat, p: Proc)
      requires k < |slots| && slots[k] == Running(p) && p.Iterate? && (p.n == -1 || p.n == |Members(closed, p.container)|)
      ensures if p.n == -1 then Scanning(View(), k, 1, p.(n := |Members(closed, p.container)|))
              else Scanning(View(), k, 0, p)
    {
      hide Advance;
      if p.n == -1 {
        ScanStarts(View(), k, p);
      } else {
        assert slots[k := slots[k]] == slots;
        RunsZero(View(), k);
      }
    }

    lemma {:induction false} ScanGoesOn(st: State, k: nat, n: nat, p: Proc)
      requires Scanning(st, k, n, p) && p.progress < p.n
      ensures p.progress < |Members(closed, p.container)| && k < |st.slots| && st == View()
      ensures var t := BaseTd(p.base, Members(closed, p.container)[p.progress]);
        if t in closed then Scanning(st, k, n + 1, p.(progress := p.progress + 1))
        else Runs(st, k, n + 1, SetSlot(st, k, Waiting([Data(t)], p)))
    {
      hide Advance, Runs;
      ScanMoves(st, st, k, n, p);
    }

    lemma {:induction false} ScanStops(st: State, k: nat, n: nat, p: Proc)
      requires Scanning(st, k, n, p) && p.progress >= p.n
      ensures k < |slots| && st == View() && k < |StoreSignal(st, p.signal).slots|
      ensures Runs(st, k, n + 1, SetSlot(StoreSignal(st, p.signal), k, Done))
    {
      hide Advance, Runs, StoreSignal;
      ScanEnds(st, st, k, n, p);
    }

    /** The scan for an open member, in chunks; it suspends at the first one it finds. */
    method ContainerDeepWaitIterate(k: nat, c: Id, start: nat, size: int, base: BaseType, signal: nat)
      returns (ghost n: nat)
      requires k < |slots| && slots[k] == Running(Iterate(c, start, size, base, signal))
      requires size == -1 || size == |Members(closed, c)|
      modifies this
      ensures Runs(old(View()), k, n, View()) && k < |slots| && !slots[k].Running?
    {
      hide *;
      ghost var st := View();
      var total, progress := size, start;
      ScanBegins(k, Iterate(c, start, size, base, signal));
      n := if size == -1 then 1 else 0;
      if total == -1 { total := |Members(closed, c)|; }
      while progress < total
        invariant Scanning(st, k, n, Iterate(c, progress, total, base, signal))
        invariant total == |Members(closed, c)| && View() == st
        decreases total - progress
      {
        var open;
        progress, open, n := ScanChunk(k, Iterate(c, progress, total, base, signal), st, n);
        if open { return; }
      }
      ScanStops(st, k, n, Iterate(c, progress, total, base, signal));
      n := n + 1;
      FinishStore(k, signal);
    }

    /** One chunk of the members. */
    method ScanChunk(k: nat, p: Proc, ghost st: State, ghost n0: nat) returns (progress: nat, open: bool, ghost n: nat)
      requires Scanning(st, k, n0, p) && p.Iterate? && p.progress < p.n
      modifies this
      ensures open ==> Runs(st, k, n, View()) && k < |slots| && !slots[k].Running?
      ensures !open ==> Scanning(st, k, n, p.(progress := progress)) && p.progress < progress <= p.n && View() == st
      ensures closed == old(closed)
    {
      ChunkBounds(st, k, n0, p);
      hide *;
      var chunkSize := if p.n - p.progress < MAX_CHUNK_SIZE then p.n - p.progress else MAX_CHUNK_SIZE;
      var members := Members(closed, p.container)[p.progress..p.progress + chunkSize];
      progress, open, n := p.progress, false, n0;
      var i := 0;
      while i < |members|
        invariant 0 <= i <= |members| && progress == p.progress + i
        invariant Scanning(st, k, n, p.(progress := progress)) && View() == st
        invariant closed == old(closed)
      {
        open, n := ScanMember(k, p.(progress := progress), members[i], st, n);
        if open { return; }
        progress := progress + 1;
        i := i + 1;
      }
    }

    /** One member: the scan goes on, or leaves a rule for it. */
    method ScanMember(k: nat, p: Proc, member: Id, ghost st: State, ghost n0: nat) returns (open: bool, ghost n: nat)
      requires Scanning(st, k, n0, p) && p.Iterate? && p.progress < p.n
      requires p.progress < |Members(closed, p.container)| && member == Members(closed, p.container)[p.progress]
      modifies this
      ensures open ==> Runs(st, k, n, View()) && k < |slots| && !slots[k].Running?
      ensures !open ==> Scanning(st, k, n, p.(progress := p.progress + 1)) && View() == st
      ensures closed == old(closed)
    {
      ScanGoesOn(st, k, n0, p);
      hide *;
      var t := BaseTd(p.base, member);
      n := n0 + 1;
      open := t !in closed;
      if open { Leave(k, Waiting([Data(t)], p)); }
    }

    lemma ChunkBounds(st: State, k: nat, n: nat, p: Proc)
      requires Scanning(st, k, n, p)
      ensures p.Iterate? && p.n == |Members(closed, p.container)| && p.(progress := p.progress) == p
      ensures View() == st && MAX_CHUNK_SIZE == 64
    {
    }

    /** The task leaves a rule, or is over. */
    method Leave(k: nat, slot: Slot)
      requires k < |slots|
      modifies this
      ensures View() == SetSlot(old(View()), k, slot) && |slots| == |old(slots)| && slots[k] == slot
      ensures closed == old(closed)
    {
      slots := slots[k := slot];
    }

    /** The task stores its signal and is over. */
    method FinishStore(k: nat, signal: nat)
      requires k < |slots|
      modifies this
      ensures k < |StoreSignal(old(View()), signal).slots|
      ensures View() == SetSlot(StoreSignal(old(View()), signal), k, Done) && k < |slots| && slots[k] == Done
    {
      StoreVoidSignal(signal);
      slots := slots[k := Done];
    }

    /** Signals for the members of a closed container, or none for an empty or single one. */
    method ContainerRecDeepWait(k: nat, c: Id, nest: nat, base: BaseType, signal: nat)
      returns (ghost n: nat)
      requires k < |slots| && slots[k] == Running(RecWait(c, nest, base, [], signal))
      requires nest >= 1 && signal < |purposes|
      modifies this
      ensures Runs(old(View()), k, n, View()) && k < |slots| && !slots[k].Running?
    {
      hide Advance, Runs, DeepWaitSlot, StoreSignal;
      ghost var st0 := View();
      assert st0.slots[k := slots[k]] == st0.slots;
      RunsZero(st0, k);
      var members := Members(closed, c);
      n := 1;
      if |members| == 0 {
        FewMembers(st0, View(), k, 0, RecWait(c, nest, base, [], signal));
        FinishStore(k, signal);
      } else if |members| == 1 {
        FewMembers(st0, View(), k, 0, RecWait(c, nest, base, [], signal));
        slots := slots[k := DeepWaitSlot(members[0], nest - 1, base, signal)];
        WaitIsRule(members[0], nest - 1, base, signal);
      } else {
        n := WaitForMembers(k, RecWait(c, nest, base, [], signal));
      }
    }

    /** A signal for each member, and the rule that waits for them all. */
    method WaitForMembers(k: nat, p: Proc) returns (ghost n: nat)
      requires k < |slots| && slots[k] == Running(p) && p.RecWait? && p.inner == []
      requires p.nest >= 1 && p.signal < |purposes| && |Members(closed, p.container)| > 1
      modifies this
      ensures Runs(old(View()), k, n, View()) && k < |slots| && !slots[k].Running?
    {
      hide Advance, Runs, DeepWaitSlot;
      ghost var st0 := View();
      assert st0.slots[k := slots[k]] == st0.slots;
      RunsZero(st0, k);
      var members := Members(closed, p.container);
      var inner: seq<nat> := [];
      n := 0;
      ghost var job := purposes[p.signal].job;
      while |inner| < |members|
        invariant |inner| <= |members| && members == Members(closed, p.container)
        invariant k < |slots| && p.signal < |purposes| && purposes[p.signal].job == job
        invariant Runs(st0, k, n, At(k, RecWait(p.container, p.nest, p.base, inner, p.signal)))
        decreases |members| - |inner|
      {
        MemberSpawns(st0, View(), k, n, RecWait(p.container, p.nest, p.base, inner, p.signal));
        var s := ContainerDeepWait(k, job, members[|inner|], p.nest - 1, p.base);
        n := n + 1;
        inner := inner + [s];
      }
      MembersSpawned(st0, View(), k, n, RecWait(p.container, p.nest, p.base, inner, p.signal));
      n := n + 1;
      slots := slots[k := Waiting(AsTds(inner), FireSignal(inner, 0, p.signal))];
    }

    lemma WaitIsRule(c: Id, nest: nat, base: BaseType, s: nat)
      ensures DeepWaitSlot(c, nest, base, s).Waiting?
    {
    }

    /** `deeprule_finish`: drop the reference of each signal. */
    method DeepruleFinish(list: seq<nat>)
      modifies this
      ensures View() == ReadDecrAll(old(View()), list, 0)
    {
      var i := 0;
      while i < |list|
        invariant 0 <= i <= |list|
        invariant ReadDecrAll(View(), list, i) == ReadDecrAll(old(View()), list, 0)
      {
        ReadRefcountDecr(list[i]);
        i := i + 1;
      }
    }

    method DeepruleFireSignal(k: nat, inner: seq<nat>, signal: nat) returns (ghost n: nat)
      requires k < |slots| && slots[k] == Running(FireSignal(inner, 0, signal))
      modifies this
      ensures Runs(old(View()), k, n, View()) && k < |slots| && slots[k] == Done
    {
      ghost var st0 := View();
      assert st0.slots[k := slots[k]] == st0.slots;
      FireRuns(st0, st0, k, 0, inner, 0, signal);
      n := |inner| + 1;
      DeepruleFinish(inner);
      StoreVoidSignal(signal);
      slots := slots[k := Done];
    }

    method RunDeepruleAction(k: nat, toFree: seq<nat>, job: nat) returns (ghost n: nat)
      requires k < |slots| && slots[k] == Running(DeepruleAction(toFree, 0, job)) && job < |jobs|
      modifies this
      ensures Runs(old(View()), k, n, View()) && k < |slots| && slots[k] == Done
      ensures job < |jobs| && jobs[job].ran == old(jobs[job].ran) + 1
    {
      ghost var st0 := View();
      assert st0.slots[k := slots[k]] == st0.slots;
      ActionRuns(st0, st0, k, 0, toFree, 0, job);
      ReadDecrKeepsJobs(st0, toFree, 0);
      n := |toFree| + 1;
      DeepruleFinish(toFree);
      ActionEnds(st0, View(), k, |toFree|, toFree, job);
      jobs := jobs[job := Job(jobs[job].inputs, jobs[job].ran + 1, jobs[job].slot)];
      slots := slots[k := Done];
    }

    /** `deeprule`: a new call, from its start to the rule that waits for all its signals. */
    method CallDeeprule(inputs: seq<Input>) returns (k: nat, ghost n: nat)
      modifies this
      ensures k == |old(slots)|
      ensures Runs(Call(old(View()), inputs), k, n, View()) && k < |slots| && slots[k].Waiting?
    {
      ghost var st0 := Call(View(), inputs);
      k, n := |slots|, 0;
      var job := |jobs|;
      jobs := jobs + [Job(inputs, 0, k)];
      slots := slots + [Running(Deeprule(job, 0, [], []))];
      assert st0 == View() && st0.slots[k := slots[k]] == st0.slots;
      hide Advance, Runs;
      var signals': seq<Td>, toFree: seq<nat>, i := [], [], 0;
      assert Runs(st0, k, n, At(k, Deeprule(job, 0, [], []))) by { RunsZero(st0, k); }
      while i < |inputs|
        invariant 0 <= i <= |inputs| && k < |slots| && job < |jobs| && jobs[job].inputs == inputs
        invariant Runs(st0, k, n, At(k, Deeprule(job, i, signals', toFree)))
      {
        InputMoves(st0, View(), k, n, Deeprule(job, i, signals', toFree));
        if inputs[i].nest == 0 {
          signals' := signals' + BaseSignals(inputs[i].base, inputs[i].id);
        } else {
          var s := ContainerDeepWait(k, job, inputs[i].id, inputs[i].nest, inputs[i].base);
          signals' := signals' + [Signal(s)];
          toFree := toFree + [s];
        }
        n := n + 1;
        i := i + 1;
      }
      InputMoves(st0, View(), k, n, Deeprule(job, i, signals', toFree));
      n := n + 1;
      slots := slots[k := Waiting(signals', DeepruleAction(toFree, 0, job))];
    }
  }
}
