/** Every step of the deep-wait protocol keeps its invariant. */
module DeepWaitSafety {
  import opened DeepWait
  import opened DeepWaitInvariant

  ghost predicate IsRunning(C: World, st: State, k: nat) {
    Inv(C, st) && k < |st.slots| && st.slots[k].Running? && SlotOk(C, st, k)
  }

  // ---------------------------------------------------------------- storing and dropping

  /** The last operation of a task: store its signal. */
  lemma {:induction false} StoreKeepsInv(C: World, st: State, k: nat)
    requires IsRunning(C, st, k) && HasOut(st.slots[k].proc)
    requires Dropped(st.slots[k].proc) >= |ToDrop(st.slots[k].proc)|
    requires TargetIn(C, st.purposes, Out(st.slots[k].proc))
    ensures Inv(C, SetSlot(StoreSignal(st, Out(st.slots[k].proc)), k, Done))
  {
    var st' := SetSlot(StoreSignal(st, Out(st.slots[k].proc)), k, Done);
    forall s | 0 <= s < |st'.signals| && Touches(st.purposes, s, k) ensures SignalOk(C, st', s) {
      assert SignalOk(C, st, s);
    }
    forall j | 0 <= j < |st.jobs| && st.jobs[j].slot == k ensures JobOk(C, st', j) {
      assert JobOk(C, st, j);
    }
    OnlySlotInv(C, st, st', k);
  }

  /** The next reference a task has to drop. */
  function NextDrop(p: Proc): nat
    requires Dropped(p) < |ToDrop(p)|
  {
    ToDrop(p)[Dropped(p)]
  }

  /** The duties of a task after one step, except that it may have dropped a reference. */
  ghost predicate SameDuties(p: Proc, p': Proc) {
    && ToDrop(p') == ToDrop(p)
    && HasOut(p') == HasOut(p) && (HasOut(p) ==> Out(p') == Out(p))
    && forall j :: Serves(p, j) ==> Serves(p', j)
  }

  lemma {:induction false} DropKeepsInv(C: World, st: State, k: nat, p: Proc, p': Proc)
    requires IsRunning(C, st, k) && st.slots[k].proc == p && SameDuties(p, p')
    requires Dropped(p) < |ToDrop(p)| && Dropped(p') == Dropped(p) + 1
    requires Stored(st.signals, NextDrop(p))
    requires SlotOk(C, SetSlot(ReadDecr(st, NextDrop(p)), k, Running(p')), k)
    ensures Inv(C, SetSlot(ReadDecr(st, NextDrop(p)), k, Running(p')))
  {
    hide PointOk;
    var st' := SetSlot(ReadDecr(st, NextDrop(p)), k, Running(p'));
    assert OnlySlot(st, st', k);
    hide Owns;
    forall s | 0 <= s < |st'.signals| && Touches(st.purposes, s, k) ensures SignalOk(C, st', s) {
      DropSignalOk(C, st, k, p, p', s);
    }
    forall j | 0 <= j < |st.jobs| && st.jobs[j].slot == k ensures JobOk(C, st', j) {
      assert JobOk(C, st, j);
    }
    OnlySlotInv(C, st, st', k);
  }

  lemma DropSignalOk(C: World, st: State, k: nat, p: Proc, p': Proc, s: nat)
    requires |st.purposes| == |st.signals| && s < |st.signals| && SignalOk(C, st, s)
    requires k < |st.slots| && st.slots[k] == Running(p) && SameDuties(p, p')
    requires Dropped(p) < |ToDrop(p)| && Dropped(p') == Dropped(p) + 1
    requires Stored(st.signals, NextDrop(p)) && st.signals[NextDrop(p)].readRefs == 1
    ensures SignalOk(C, SetSlot(ReadDecr(st, NextDrop(p)), k, Running(p')), s)
  {
  }

  lemma StillToDrop(p: Proc, p': Proc, s: nat)
    requires HasToDrop(p, s) && ToDrop(p) <= ToDrop(p') && Dropped(p') <= Dropped(p) + 1
    requires Dropped(p') == Dropped(p) + 1 ==> Dropped(p) < |ToDrop(p)| && s != NextDrop(p)
    ensures HasToDrop(p', s)
  {
  }

  lemma {:induction false} FireDropKeepsInv(C: World, st: State, k: nat)
    requires IsRunning(C, st, k)
    requires st.slots[k].proc.FireSignal? && st.slots[k].proc.i < |st.slots[k].proc.inner|
    ensures Inv(C, Advance(st, k))
  {
    var p := st.slots[k].proc;
    DropKeepsInv(C, st, k, p, FireSignal(p.inner, p.i + 1, p.signal));
  }

  lemma {:induction false} ActionDropKeepsInv(C: World, st: State, k: nat)
    requires IsRunning(C, st, k)
    requires st.slots[k].proc.DeepruleAction? && st.slots[k].proc.i < |st.slots[k].proc.toFree|
    ensures Inv(C, Advance(st, k))
  {
    var p := st.slots[k].proc;
    DropKeepsInv(C, st, k, p, DeepruleAction(p.toFree, p.i + 1, p.job));
  }

  // ---------------------------------------------------------------- changing a slot only

  /** A task that only moves on, or that leaves a rule behind, with the same duties. */
  lemma {:induction false} QuietKeepsInv(C: World, st: State, k: nat, slot: Slot)
    requires Inv(C, st) && k < |st.slots| && !st.slots[k].Done? && !slot.Done?
    requires SameDuties(st.slots[k].proc, slot.proc) && Dropped(slot.proc) == Dropped(st.slots[k].proc)
    requires SlotOk(C, SetSlot(st, k, slot), k)
    ensures Inv(C, SetSlot(st, k, slot))
  {
    hide PointOk, Owns;
    var st' := SetSlot(st, k, slot);
    forall s | 0 <= s < |st'.signals| && Touches(st.purposes, s, k) ensures SignalOk(C, st', s) {
      assert SignalOk(C, st, s);
      if HasToDrop(st.slots[k].proc, s) { StillToDrop(st.slots[k].proc, slot.proc, s); }
    }
    forall j | 0 <= j < |st.jobs| && st.jobs[j].slot == k ensures JobOk(C, st', j) {
      assert JobOk(C, st, j);
    }
    OnlySlotInv(C, st, st', k);
  }

  // ---------------------------------------------------------------- the scan of the members

  lemma {:induction false} IterateKeepsInv(C: World, st: State, k: nat)
    requires IsRunning(C, st, k) && st.slots[k].proc.Iterate?
    ensures Inv(C, Advance(st, k))
  {
    var p := st.slots[k].proc;
    if p.n != -1 && p.progress == p.n {
      IterateDone(C, st, p);
      StoreKeepsInv(C, st, k);
    } else {
      QuietKeepsInv(C, st, k, Advance(st, k).slots[k]);
    }
  }

  lemma {:induction false} IterateDone(C: World, st: State, p: Proc)
    requires Extends(st.closed, C) && p.Iterate? && p.n != -1 && p.progress == p.n
    requires IterateOk(C, st.closed, st.purposes, false, [], p)
    ensures TargetIn(C, st.purposes, p.signal)
  {
    var members := st.closed[User(p.container)];
    forall i | 0 <= i < |members| ensures DeepClosed(C, Input(members[i], 0, p.base)) {
      assert BaseTd(p.base, members[i]) in st.closed;
    }
    assert C[User(p.container)] == members;
  }

  // ---------------------------------------------------------------- nested containers

  /** A step that allocates a signal and starts the wait that will store it. */
  lemma {:induction false} SpawnKeepsInv(C: World, st: State, k: nat, p: Proc, p': Proc, job: nat, target: Input)
    requires IsRunning(C, st, k) && st.slots[k].proc == p
    requires MoreDuties(p, p', |st.signals|) && target.nest >= 1 && job < |st.jobs|
    requires AllDeepClosed(C, st.jobs[job].inputs) ==> DeepClosed(C, target)
    requires SlotOk(C, Spawn(SetSlot(st, k, Running(p')), k, job, target), k)
    ensures Inv(C, Spawn(SetSlot(st, k, Running(p')), k, job, target))
  {
    assert k < |st.slots|;
    hide *;
    var st' := Spawn(SetSlot(st, k, Running(p')), k, job, target);
    SpawnIs(C, st, k, p, p', job, target);
    SpawnNewSlotOk(C, st, st', k, p, p', job, target);
    SpawnSignalsOk(C, st, st', k, p, p', job, target);
    SpawnJobsOk(C, st, st', k, p, p', job, target);
    SpawnOnlySlot(st, st', k, p, p', job, target);
    OnlySlotInv(C, st, st', k);
  }

  /** What such a step changes. */
  ghost predicate Spawned(st: State, st': State, k: nat, p: Proc, p': Proc, job: nat, target: Input) {
    && |st.signals| == |st.purposes| && k < |st.slots| && st.slots[k] == Running(p)
    && |st'.signals| == |st'.purposes| == |st.signals| + 1 && |st'.slots| == |st.slots| + 1
    && st'.slots[k] == Running(p') && st'.jobs == st.jobs
    && st'.purposes[|st.signals|] == Purpose(target, job, |st.slots|, k)
    && st'.signals[|st.signals|] == SignalVar(1, 1)
    && st'.slots[|st.slots|] == DeepWaitSlot(target.id, target.nest, target.base, |st.signals|)
    && (forall i :: 0 <= i < |st.slots| && i != k ==> st'.slots[i] == st.slots[i])
    && (forall s :: 0 <= s < |st.signals| ==> st'.signals[s] == st.signals[s])
    && Prefix(st.purposes, st'.purposes) && st'.closed == st.closed && st'.fault == st.fault
  }

  /** The duties of the task, with the new signal as one more to drop. */
  ghost predicate MoreDuties(p: Proc, p': Proc, s: nat) {
    && ToDrop(p') == ToDrop(p) + [s] && Dropped(p') == Dropped(p) == 0
    && HasOut(p') == HasOut(p) && (HasOut(p) ==> Out(p') == Out(p))
    && forall j :: Serves(p, j) ==> Serves(p', j)
  }

  lemma {:induction false} SpawnIs(C: World, st: State, k: nat, p: Proc, p': Proc, job: nat, target: Input)
    requires IsRunning(C, st, k) && st.slots[k].proc == p
    ensures Inv(C, st) && |st.purposes| == |st.signals|
    ensures Spawned(st, Spawn(SetSlot(st, k, Running(p')), k, job, target), k, p, p', job, target)
  {
    hide SlotOk, SignalOk, JobOk, DeepWaitSlot;
  }

  lemma {:induction false} SpawnOnlySlot(st: State, st': State, k: nat, p: Proc, p': Proc, job: nat, target: Input)
    requires Spawned(st, st', k, p, p', job, target)
    ensures OnlySlot(st, st', k)
  {
    hide DeepWaitSlot;
  }

  lemma {:induction false} SpawnNewSlotOk(C: World, st: State, st': State, k: nat, p: Proc, p': Proc, job: nat,
                                          target: Input)
    requires Spawned(st, st', k, p, p', job, target) && target.nest >= 1
    ensures |st'.purposes| == |st'.signals| && forall i :: |st.slots| <= i < |st'.slots| ==> SlotOk(C, st', i)
  {
    hide SlotOk;
    SpawnedSlotOk(C, st', |st.slots|, |st.signals|);
  }

  lemma {:induction false} SpawnSignalsOk(C: World, st: State, st': State, k: nat, p: Proc, p': Proc, job: nat,
                                          target: Input)
    requires Inv(C, st) && Spawned(st, st', k, p, p', job, target) && MoreDuties(p, p', |st.signals|)
    requires target.nest >= 1 && job < |st.jobs|
    requires AllDeepClosed(C, st.jobs[job].inputs) ==> DeepClosed(C, target)
    ensures |st'.purposes| == |st'.signals| && forall s :: 0 <= s < |st'.signals| ==> SignalOk(C, st', s)
  {
    hide Inv, SignalOk, DeepClosed, AllDeepClosed, DeepWaitSlot, ToDrop, Dropped, HasOut, Out, Serves;
    assert ToDrop(p')[|ToDrop(p)|] == |st.signals|;
    forall s | 0 <= s < |st'.signals| ensures SignalOk(C, st', s) {
      if s < |st.signals| { SpawnOldSignalOk(C, st, st', k, s); }
      else { SpawnNewSignalOk(C, st', k, |st.slots|, s, p'); }
    }
  }

  lemma {:induction false} SpawnJobsOk(C: World, st: State, st': State, k: nat, p: Proc, p': Proc, job: nat,
                                       target: Input)
    requires Inv(C, st) && Spawned(st, st', k, p, p', job, target) && MoreDuties(p, p', |st.signals|)
    ensures |st.jobs| == |st'.jobs|
    ensures forall j :: 0 <= j < |st.jobs| && st.jobs[j].slot == k ==> JobOk(C, st', j)
  {
    hide Inv, JobOk, DeepWaitSlot;
    forall j | 0 <= j < |st.jobs| && st.jobs[j].slot == k ensures JobOk(C, st', j) {
      SpawnJobOk(C, st, st', k, p, p', j);
    }
  }

  lemma {:induction false} SpawnJobOk(C: World, st: State, st': State, k: nat, p: Proc, p': Proc, j: nat)
    requires Inv(C, st) && j < |st.jobs| && st.jobs[j].slot == k && st'.jobs == st.jobs
    requires k < |st.slots| <= |st'.slots| && st.slots[k] == Running(p) && st'.slots[k] == Running(p')
    requires forall j :: Serves(p, j) ==> Serves(p', j)
    ensures JobOk(C, st', j)
  {
    assert JobOk(C, st, j);
    hide Inv, AllDeepClosed;
  }

  lemma SpawnNewSignalOk(C: World, st: State, k: nat, owner: nat, s: nat, p: Proc)
    requires s < |st.signals| == |st.purposes| && st.signals[s] == SignalVar(1, 1)
    requires k < |st.slots| && st.slots[k] == Running(p) && owner < |st.slots|
    requires var u := st.purposes[s];
      && u.owner == owner && u.holder == k && u.target.nest >= 1 && u.job < |st.jobs|
      && st.slots[owner] == DeepWaitSlot(u.target.id, u.target.nest, u.target.base, s)
      && (AllDeepClosed(C, st.jobs[u.job].inputs) ==> DeepClosed(C, u.target))
    requires |ToDrop(p)| > 0 && ToDrop(p)[|ToDrop(p)| - 1] == s && Dropped(p) == 0
    ensures SignalOk(C, st, s)
  {
  }

  lemma {:induction false} SpawnOldSignalOk(C: World, st: State, st': State, k: nat, s: nat)
    requires Inv(C, st) && s < |st.signals| && Prefix(st.purposes, st'.purposes)
    requires |st'.purposes| == |st'.signals| >= |st.signals| && st'.signals[s] == st.signals[s]
    requires k < |st.slots| <= |st'.slots| && st'.jobs == st.jobs
    requires forall i :: 0 <= i < |st.slots| && i != k ==> st'.slots[i] == st.slots[i]
    requires st.slots[k].Running? && st'.slots[k].Running?
    requires var p, p' := st.slots[k].proc, st'.slots[k].proc;
      && ToDrop(p) <= ToDrop(p') && Dropped(p') == Dropped(p) == 0
      && HasOut(p') == HasOut(p) && (HasOut(p) ==> Out(p') == Out(p))
    ensures SignalOk(C, st', s)
  {
    assert SignalOk(C, st, s);
    if HasToDrop(st.slots[k].proc, s) { StillToDrop(st.slots[k].proc, st'.slots[k].proc, s); }
  }

  lemma OwnsMore(ps: Purposes, ps': Purposes, sigs: Signals, k: nat, p: Proc, p': Proc)
    requires |ps| == |sigs| && Owns(ps, sigs, k, p)
    requires |ps'| == |ps| + 1 && Prefix(ps, ps') && ps'[|ps|].holder == k
    requires ToDrop(p') == ToDrop(p) + [|sigs|] && Dropped(p') == Dropped(p) == 0
    requires HasOut(p') == HasOut(p) && (HasOut(p) ==> Out(p') == Out(p))
    ensures Owns(ps', sigs + [SignalVar(1, 1)], k, p')
  {
  }

  lemma {:induction false} SpawnedSlotOk(C: World, st: State, k: nat, s: nat)
    requires k < |st.slots| && s < |st.signals| == |st.purposes|
    requires var u := st.purposes[s];
      && st.signals[s].writeRefs == 1 && u.owner == k && u.target.nest >= 1
      && st.slots[k] == DeepWaitSlot(u.target.id, u.target.nest, u.target.base, s)
    ensures SlotOk(C, st, k)
  {
    WaitForContainer(C, st.closed, st.purposes, st.slots[k], st.purposes[s].target, s);
  }

  /** The rule of `container_deep_wait` is right for a signal that stands for the container. */
  lemma WaitForContainer(C: World, w: World, ps: Purposes, slot: Slot, x: Input, s: nat)
    requires x.nest >= 1 && s < |ps| && x.nest <= ps[s].target.nest
    requires slot == DeepWaitSlot(x.id, x.nest, x.base, s)
    requires DeepClosed(C, x) <==> TargetIn(C, ps, s)
    ensures forall sigs, jobs, k :: PointOk(C, w, ps, sigs, jobs, k, true, slot.inputs, slot.proc)
  {
  }

  /** A closed container is deeply closed when all its members are. */
  lemma MembersDecide(C: World, w: World, c: Id, nest: nat, base: BaseType)
    requires Extends(w, C) && User(c) in w && nest >= 1
    ensures DeepClosed(C, Input(c, nest, base)) <==>
            forall i :: 0 <= i < |w[User(c)]| ==> DeepClosed(C, Input(w[User(c)][i], nest - 1, base))
  {
  }

  lemma {:induction false} RecWaitKeepsInv(C: World, st: State, k: nat)
    requires IsRunning(C, st, k) && st.slots[k].proc.RecWait?
    ensures Inv(C, Advance(st, k))
  {
    var p := st.slots[k].proc;
    var members := Members(st.closed, p.container);
    if |members| == 0 {
      MembersDecide(C, st.closed, p.container, p.nest, p.base);
      StoreKeepsInv(C, st, k);
    } else if |members| == 1 {
      RecWaitSingle(C, st, k, members[0]);
    } else if |p.inner| < |members| {
      RecWaitSpawn(C, st, k);
    } else {
      RecWaitFire(C, st.closed, st.purposes, p);
      QuietKeepsInv(C, st, k, Waiting(AsTds(p.inner), FireSignal(p.inner, 0, p.signal)));
    }
  }

  /** A container with one member passes its own signal down. */
  lemma {:induction false} RecWaitSingle(C: World, st: State, k: nat, member: Id)
    requires IsRunning(C, st, k) && st.slots[k].proc.RecWait?
    requires Members(st.closed, st.slots[k].proc.container) == [member]
    ensures Inv(C, Advance(st, k))
  {
    var p := st.slots[k].proc;
    var slot := DeepWaitSlot(member, p.nest - 1, p.base, p.signal);
    MembersDecide(C, st.closed, p.container, p.nest, p.base);
    assert st.closed[User(p.container)][0] == member;
    WaitForContainer(C, st.closed, st.purposes, slot, Input(member, p.nest - 1, p.base), p.signal);
    QuietKeepsInv(C, st, k, slot);
  }

  /** A container with several members gets a signal for each. */
  lemma {:induction false} RecWaitSpawn(C: World, st: State, k: nat)
    requires IsRunning(C, st, k) && st.slots[k].proc.RecWait?
    requires var p := st.slots[k].proc;
      |p.inner| < |Members(st.closed, p.container)| && |Members(st.closed, p.container)| > 1
    ensures Inv(C, Advance(st, k))
  {
    hide *;
    SpawnFacts(C, st, k);
    var p := st.slots[k].proc;
    var target := Input(Members(st.closed, p.container)[|p.inner|], p.nest - 1, p.base);
    SpawnKeepsInv(C, st, k, p, MemberSpawned(p, |st.signals|), st.purposes[p.signal].job, target);
  }

  function MemberSpawned(p: Proc, s: nat): Proc
    requires p.RecWait?
  {
    RecWait(p.container, p.nest, p.base, p.inner + [s], p.signal)
  }

  /** What the step that allocates a signal for a member has to respect. */
  lemma {:induction false} SpawnFacts(C: World, st: State, k: nat)
    requires IsRunning(C, st, k) && st.slots[k].proc.RecWait?
    requires var p := st.slots[k].proc;
      |p.inner| < |Members(st.closed, p.container)| && |Members(st.closed, p.container)| > 1
    ensures k < |st.slots| && st.slots[k].Running?
    ensures var p := st.slots[k].proc;
      var p' := MemberSpawned(p, |st.signals|);
      && p.nest >= 2 && p.signal < |st.purposes| && st.purposes[p.signal].job < |st.jobs|
      && MoreDuties(p, p', |st.signals|)
      && (var job := st.purposes[p.signal].job;
          var target := Input(Members(st.closed, p.container)[|p.inner|], p.nest - 1, p.base);
          && (AllDeepClosed(C, st.jobs[job].inputs) ==> DeepClosed(C, target))
          && Advance(st, k) == Spawn(SetSlot(st, k, Running(p')), k, job, target)
          && SlotOk(C, Spawn(SetSlot(st, k, Running(p')), k, job, target), k))
  {
    RecWaitTarget(C, st, k);
    SpawnedRecWaitOk(C, st, k);
    hide Inv, SlotOk, DeepClosed, AllDeepClosed, Spawn, PointOk;
  }

  lemma {:induction false} RecWaitTarget(C: World, st: State, k: nat)
    requires IsRunning(C, st, k) && st.slots[k].proc.RecWait?
    requires var p := st.slots[k].proc;
      |p.inner| < |Members(st.closed, p.container)| && |Members(st.closed, p.container)| > 1
    ensures k < |st.slots| && st.slots[k].Running?
    ensures var p := st.slots[k].proc;
      && p.nest >= 2 && p.signal < |st.purposes| == |st.signals| && st.purposes[p.signal].job < |st.jobs|
      && (AllDeepClosed(C, st.jobs[st.purposes[p.signal].job].inputs) ==>
            DeepClosed(C, Input(Members(st.closed, p.container)[|p.inner|], p.nest - 1, p.base)))
  {
    var p := st.slots[k].proc;
    assert SignalOk(C, st, p.signal);
    MembersDecide(C, st.closed, p.container, p.nest, p.base);
  }

  lemma {:induction false} SpawnedRecWaitOk(C: World, st: State, k: nat)
    requires IsRunning(C, st, k) && st.slots[k].proc.RecWait?
    requires var p := st.slots[k].proc;
      |p.inner| < |Members(st.closed, p.container)| && |Members(st.closed, p.container)| > 1
    requires var p := st.slots[k].proc;
      p.nest >= 2 && p.signal < |st.purposes| == |st.signals| && st.purposes[p.signal].job < |st.jobs|
    ensures var p := st.slots[k].proc;
      SlotOk(C, Spawn(SetSlot(st, k, Running(MemberSpawned(p, |st.signals|))), k, st.purposes[p.signal].job,
                      Input(Members(st.closed, p.container)[|p.inner|], p.nest - 1, p.base)), k)
  {
    var p := st.slots[k].proc;
    var p' := MemberSpawned(p, |st.signals|);
    var job := st.purposes[p.signal].job;
    var target := Input(Members(st.closed, p.container)[|p.inner|], p.nest - 1, p.base);
    var ps' := st.purposes + [Purpose(target, job, |st.slots|, k)];
    RecWaitParts(C, st, k);
    hide *;
    RecWaitMoreSpawned(C, st, k, ps', job, target);
    SpawnedSlot(C, st, k, p', job, target);
  }

  lemma {:induction false} RecWaitParts(C: World, st: State, k: nat)
    requires IsRunning(C, st, k) && st.slots[k].proc.RecWait?
    ensures k < |st.slots| && |st.purposes| == |st.signals|
    ensures RecWaitOk(C, st.closed, st.purposes, false, [], st.slots[k].proc)
    ensures Owns(st.purposes, st.signals, k, st.slots[k].proc)
  {
    hide Owns, RecWaitOk, Inv;
    InvSizes(C, st);
  }

  lemma {:induction false} RecWaitMoreSpawned(C: World, st: State, k: nat, ps': Purposes, job: nat, target: Input)
    requires k < |st.slots| && |st.purposes| == |st.signals| && st.slots[k].Running? && st.slots[k].proc.RecWait?
    requires var p := st.slots[k].proc;
      && |p.inner| < |Members(st.closed, p.container)| && |Members(st.closed, p.container)| > 1
      && p.signal < |st.purposes| && job == st.purposes[p.signal].job && p.nest >= 1
      && target == Input(Members(st.closed, p.container)[|p.inner|], p.nest - 1, p.base)
      && RecWaitOk(C, st.closed, st.purposes, false, [], p) && Owns(st.purposes, st.signals, k, p)
    requires ps' == st.purposes + [Purpose(target, job, |st.slots|, k)]
    ensures var p' := MemberSpawned(st.slots[k].proc, |st.signals|);
      RecWaitOk(C, st.closed, ps', false, [], p') && Owns(ps', st.signals + [SignalVar(1, 1)], k, p')
  {
    hide RecWaitOk, Owns;
    var p := st.slots[k].proc;
    RecWaitMore(C, st.closed, st.purposes, ps', p, MemberSpawned(p, |st.signals|));
    OwnsMore(st.purposes, ps', st.signals, k, p, MemberSpawned(p, |st.signals|));
  }

  lemma {:induction false} SpawnedSlot(C: World, st: State, k: nat, p': Proc, job: nat, target: Input)
    requires k < |st.slots| && |st.purposes| == |st.signals| && p'.RecWait?
    requires var ps' := st.purposes + [Purpose(target, job, |st.slots|, k)];
      RecWaitOk(C, st.closed, ps', false, [], p') && Owns(ps', st.signals + [SignalVar(1, 1)], k, p')
    ensures SlotOk(C, Spawn(SetSlot(st, k, Running(p')), k, job, target), k)
  {
    hide RecWaitOk, Owns, DeepWaitSlot;
    OutOfRecWait(C, st.closed, st.purposes + [Purpose(target, job, |st.slots|, k)], p');
  }

  lemma {:induction false} OutOfRecWait(C: World, w: World, ps: Purposes, p: Proc)
    requires p.RecWait? && RecWaitOk(C, w, ps, false, [], p)
    ensures p.signal < |ps|
  {
  }

  lemma RecWaitMore(C: World, w: World, ps: Purposes, ps': Purposes, p: Proc, p': Proc)
    requires p.RecWait? && RecWaitOk(C, w, ps, false, [], p)
    requires |p.inner| < |w[User(p.container)]| && |w[User(p.container)]| > 1
    requires |ps'| == |ps| + 1 && Prefix(ps, ps') && ps'[|ps|].job == ps[p.signal].job
    requires ps'[|ps|].target == Input(w[User(p.container)][|p.inner|], p.nest - 1, p.base)
    requires p' == RecWait(p.container, p.nest, p.base, p.inner + [|ps|], p.signal)
    ensures RecWaitOk(C, w, ps', false, [], p')
  {
  }

  /** Once every member has its signal, the rule that stores the outer signal is left. */
  lemma RecWaitFire(C: World, w: World, ps: Purposes, p: Proc)
    requires p.RecWait? && RecWaitOk(C, w, ps, false, [], p) && Extends(w, C)
    requires |p.inner| == |w[User(p.container)]|
    ensures forall sigs :: FireOk(C, ps, sigs, true, AsTds(p.inner), FireSignal(p.inner, 0, p.signal))
  {
  }

  // ---------------------------------------------------------------- deeprule itself

  lemma {:induction false} DeepruleKeepsInv(C: World, st: State, k: nat)
    requires IsRunning(C, st, k) && st.slots[k].proc.Deeprule?
    ensures Inv(C, Advance(st, k))
  {
    hide *;
    DeepruleParts(C, st, k);
    var p := st.slots[k].proc;
    var inputs := st.jobs[p.job].inputs;
    if p.i == |inputs| {
      DeepruleEnds(C, st, k);
    } else if inputs[p.i].nest == 0 {
      DeepruleFlat(C, st, k);
    } else {
      DeepruleNested(C, st, k);
    }
  }

  lemma {:induction false} DeepruleParts(C: World, st: State, k: nat)
    requires IsRunning(C, st, k) && st.slots[k].proc.Deeprule?
    ensures Inv(C, st) && |st.purposes| == |st.signals| && k < |st.slots| && st.slots[k].Running?
    ensures var p := st.slots[k].proc;
      && p.job < |st.jobs| && p.i <= |st.jobs[p.job].inputs|
      && DeepruleOk(C, st.purposes, st.jobs, k, false, p) && Owns(st.purposes, st.signals, k, p)
  {
    InvSizes(C, st);
    hide Inv, Owns, Covers, AllAmong, AllSignalsOf;
  }

  lemma InvSizes(C: World, st: State)
    requires Inv(C, st)
    ensures |st.purposes| == |st.signals|
  {
  }

  /** The task in a slot with the same duties is where it should be. */
  lemma {:induction false} SameDutiesSlotOk(C: World, st: State, k: nat, p: Proc, slot: Slot)
    requires k < |st.slots| && |st.purposes| == |st.signals| && !slot.Done?
    requires Owns(st.purposes, st.signals, k, p) && SameDuties(p, slot.proc) && Dropped(slot.proc) == Dropped(p)
    requires PointOk(C, st.closed, st.purposes, st.signals, st.jobs, k, slot.Waiting?, InputsOf(slot), slot.proc)
    ensures SlotOk(C, SetSlot(st, k, slot), k)
  {
    hide PointOk;
  }

  /** Every input has its signals: the rule for the action is left. */
  lemma {:induction false} DeepruleEnds(C: World, st: State, k: nat)
    requires IsRunning(C, st, k) && st.slots[k].proc.Deeprule?
    requires var p := st.slots[k].proc; p.job < |st.jobs| && p.i == |st.jobs[p.job].inputs|
    ensures Inv(C, Advance(st, k))
  {
    DeepruleParts(C, st, k);
    hide Inv, IsRunning, SlotOk, Owns, Covers, AllAmong, AllSignalsOf;
    var p := st.slots[k].proc;
    var slot := Waiting(p.signals, DeepruleAction(p.toFree, 0, p.job));
    assert st.jobs[p.job].inputs[..p.i] == st.jobs[p.job].inputs;
    SameDutiesSlotOk(C, st, k, p, slot);
    QuietKeepsInv(C, st, k, slot);
  }

  lemma {:induction false} DeepruleFlat(C: World, st: State, k: nat)
    requires IsRunning(C, st, k) && st.slots[k].proc.Deeprule?
    requires var p := st.slots[k].proc;
      p.job < |st.jobs| && p.i < |st.jobs[p.job].inputs| && st.jobs[p.job].inputs[p.i].nest == 0
    ensures Inv(C, Advance(st, k))
  {
    DeepruleParts(C, st, k);
    hide Inv, IsRunning, SlotOk, Owns, DeepruleOk, BaseSignals;
    var p := st.slots[k].proc;
    var x := st.jobs[p.job].inputs[p.i];
    var p' := Deeprule(p.job, p.i + 1, p.signals + BaseSignals(x.base, x.id), p.toFree);
    DeepruleFlatOk(C, st.purposes, st.jobs, k, p, p');
    SameDutiesSlotOk(C, st, k, p, Running(p'));
    QuietKeepsInv(C, st, k, Running(p'));
  }

  lemma MoreInputs(C: World, inputs: seq<Input>, i: nat)
    requires i < |inputs|
    ensures AllDeepClosed(C, inputs[..i + 1]) <==>
            AllDeepClosed(C, inputs[..i]) && DeepClosed(C, inputs[i])
  {
  }

  /** Signals that stand for one more input extend what is covered. */
  lemma {:induction false} CoversMore(C: World, ps: Purposes, job: nat, tds: seq<Td>, more: seq<Td>,
                   inputs: seq<Input>, i: nat)
    requires i < |inputs| && Covers(C, ps, job, tds, inputs[..i])
    requires forall j :: 0 <= j < |more| ==> more[j].Signal? ==> SignalOf(ps, more[j].n, job)
    requires AllTdsIn(C, ps, more) <==> DeepClosed(C, inputs[i])
    ensures Covers(C, ps, job, tds + more, inputs[..i + 1])
  {
    MoreInputs(C, inputs, i);
    var all := tds + more;
    assert AllTdsIn(C, ps, all) ==> AllTdsIn(C, ps, tds) && AllTdsIn(C, ps, more) by {
      assert forall j :: 0 <= j < |tds| ==> all[j] == tds[j];
      assert forall j :: 0 <= j < |more| ==> all[|tds| + j] == more[j];
    }
  }

  lemma MoreSignals(inner: seq<nat>, tds: seq<Td>, more: seq<Td>)
    requires AllAmong(inner, tds)
    ensures AllAmong(inner, tds + more)
  {
  }

  /** An input without nesting: wait for the datum itself, or for nothing. */
  lemma {:induction false} DeepruleFlatOk(C: World, ps: Purposes, jobs: seq<Job>, k: nat, p: Proc, p': Proc)
    requires p.Deeprule? && DeepruleOk(C, ps, jobs, k, false, p)
    requires p.i < |jobs[p.job].inputs| && jobs[p.job].inputs[p.i].nest == 0
    requires var x := jobs[p.job].inputs[p.i];
      p' == Deeprule(p.job, p.i + 1, p.signals + BaseSignals(x.base, x.id), p.toFree)
    ensures DeepruleOk(C, ps, jobs, k, false, p')
  {
    var x := jobs[p.job].inputs[p.i];
    var more := BaseSignals(x.base, x.id);
    assert AllTdsIn(C, ps, more) <==> DeepClosed(C, x) by {
      if |more| == 1 { assert TdIn(C, ps, more[0]) <==> DeepClosed(C, x); }
    }
    CoversMore(C, ps, p.job, p.signals, more, jobs[p.job].inputs, p.i);
    MoreSignals(p.toFree, p.signals, more);
  }

  /** A nested input: wait for a fresh signal. */
  lemma {:induction false} DeepruleNested(C: World, st: State, k: nat)
    requires IsRunning(C, st, k) && st.slots[k].proc.Deeprule?
    requires var p := st.slots[k].proc;
      p.i < |st.jobs[p.job].inputs| && st.jobs[p.job].inputs[p.i].nest >= 1
    ensures Inv(C, Advance(st, k))
  {
    var p := st.slots[k].proc;
    var x := st.jobs[p.job].inputs[p.i];
    var s := |st.signals|;
    var p' := Deeprule(p.job, p.i + 1, p.signals + [Signal(s)], p.toFree + [s]);
    var ps' := st.purposes + [Purpose(x, p.job, |st.slots|, k)];
    DeepruleNestedOk(C, st.purposes, ps', st.jobs, k, p, p');
    OwnsMore(st.purposes, ps', st.signals, k, p, p');
    SpawnKeepsInv(C, st, k, p, p', p.job, x);
  }

  lemma {:induction false} DeepruleNestedOk(C: World, ps: Purposes, ps': Purposes, jobs: seq<Job>, k: nat,
                         p: Proc, p': Proc)
    requires p.Deeprule? && DeepruleOk(C, ps, jobs, k, false, p)
    requires p.i < |jobs[p.job].inputs|
    requires |ps'| == |ps| + 1 && ps == ps'[..|ps|]
    requires ps'[|ps|].target == jobs[p.job].inputs[p.i] && ps'[|ps|].job == p.job
    requires p' == Deeprule(p.job, p.i + 1, p.signals + [Signal(|ps|)], p.toFree + [|ps|])
    ensures DeepruleOk(C, ps', jobs, k, false, p')
  {
    var s: nat := |ps|;
    var x := jobs[p.job].inputs[p.i];
    CoversKept(C, ps, ps', p.job, p.signals, jobs[p.job].inputs[..p.i]);
    assert AllTdsIn(C, ps', [Signal(s)]) <==> DeepClosed(C, x) by {
      assert [Signal(s)][0] == Signal(s) && (TdIn(C, ps', Signal(s)) <==> DeepClosed(C, x));
    }
    CoversMore(C, ps', p.job, p.signals, [Signal(s)], jobs[p.job].inputs, p.i);
    MoreSignals(p.toFree, p.signals, [Signal(s)]);
    assert p'.signals[|p.signals|] == Signal(s);
  }

  // ---------------------------------------------------------------- all steps

  /** The action itself runs: its call is settled and its task is over. */
  lemma {:induction false} ActionRunKeepsInv(C: World, st: State, k: nat)
    requires IsRunning(C, st, k)
    requires st.slots[k].proc.DeepruleAction? && st.slots[k].proc.i >= |st.slots[k].proc.toFree|
    ensures Inv(C, Advance(st, k))
  {
    var st' := Advance(st, k);
    forall s | 0 <= s < |st'.signals| && Touches(st.purposes, s, k) ensures SignalOk(C, st', s) {
      assert SignalOk(C, st, s);
    }
    forall j | 0 <= j < |st.jobs| && st.jobs[j].slot == k ensures JobOk(C, st', j) {
      assert JobOk(C, st, j);
    }
    OnlySlotInv(C, st, st', k);
  }

  lemma {:induction false} FireStoreKeepsInv(C: World, st: State, k: nat)
    requires IsRunning(C, st, k)
    requires st.slots[k].proc.FireSignal? && st.slots[k].proc.i >= |st.slots[k].proc.inner|
    ensures Inv(C, Advance(st, k))
  {
    var p := st.slots[k].proc;
    forall j | 0 <= j < |p.inner| ensures TargetIn(C, st.purposes, p.inner[j]) {
      assert Stored(st.signals, p.inner[j]) && SignalOk(C, st, p.inner[j]);
    }
    StoreKeepsInv(C, st, k);
  }

  lemma {:induction false} AdvanceKeepsInv(C: World, st: State, k: nat)
    requires Inv(C, st) && k < |st.slots| && st.slots[k].Running?
    ensures Inv(C, Advance(st, k))
  {
    assert SlotOk(C, st, k);
    match st.slots[k].proc {
      case StoreVoid(_) => StoreKeepsInv(C, st, k);
      case Iterate(_, _, _, _, _) => IterateKeepsInv(C, st, k);
      case RecWait(_, _, _, _, _) => RecWaitKeepsInv(C, st, k);
      case FireSignal(inner, i, _) =>
        if i < |inner| { FireDropKeepsInv(C, st, k); } else { FireStoreKeepsInv(C, st, k); }
      case Deeprule(_, _, _, _) => DeepruleKeepsInv(C, st, k);
      case DeepruleAction(toFree, i, _) =>
        if i < |toFree| { ActionDropKeepsInv(C, st, k); } else { ActionRunKeepsInv(C, st, k); }
    }
  }

  /** A ready rule is released. */
  lemma {:induction false} StartKeepsInv(C: World, st: State, k: nat)
    requires Inv(C, st) && CanStep(st, k) && st.slots[k].Waiting?
    ensures Inv(C, StepSlot(st, k))
  {
    assert SlotOk(C, st, k);
    StartedPointOk(C, st, k, st.slots[k].inputs, st.slots[k].proc);
    QuietKeepsInv(C, st, k, Running(st.slots[k].proc));
  }

  lemma {:induction false} StartedPointOk(C: World, st: State, k: nat, inputs: seq<Td>, p: Proc)
    requires Inv(C, st) && Ready(st, inputs)
    requires PointOk(C, st.closed, st.purposes, st.signals, st.jobs, k, true, inputs, p)
    ensures PointOk(C, st.closed, st.purposes, st.signals, st.jobs, k, false, [], p)
  {
    assert |inputs| > 0 ==> Closed(st, inputs[0]);
    if p.FireSignal? {
      AllInputsStored(st, inputs, p.inner);
    } else if p.DeepruleAction? {
      AllInputsStored(st, inputs, p.toFree);
      ClosedMeansIn(C, st, inputs);
    }
  }

  lemma {:induction false} AllInputsStored(st: State, inputs: seq<Td>, inner: seq<nat>)
    requires Ready(st, inputs) && (inputs == AsTds(inner) || AllAmong(inner, inputs))
    ensures AllStored(st.signals, inner)
  {
    forall j | 0 <= j < |inner| ensures Stored(st.signals, inner[j]) {
      assert AsTds(inner)[j] == Signal(inner[j]);
      assert Closed(st, Signal(inner[j]));
    }
  }

  lemma {:induction false} ClosedMeansIn(C: World, st: State, inputs: seq<Td>)
    requires Inv(C, st) && Ready(st, inputs)
    ensures AllTdsIn(C, st.purposes, inputs)
  {
    forall j | 0 <= j < |inputs| ensures TdIn(C, st.purposes, inputs[j]) {
      assert Closed(st, inputs[j]);
      if inputs[j].Signal? { assert SignalOk(C, st, inputs[j].n); }
    }
  }

  lemma {:induction false} CallKeepsInv(C: World, st: State, inputs: seq<Input>)
    requires Inv(C, st)
    ensures Inv(C, Call(st, inputs))
  {
    var st' := Call(st, inputs);
    var k := |st.slots|;
    assert inputs[..0] == [];
    assert SlotOk(C, st', k);
    forall i | 0 <= i < |st.slots| ensures SlotOk(C, st', i) { SlotOkKept(C, st, st', i); }
    forall s | 0 <= s < |st.signals| ensures SignalOk(C, st', s) { assert SignalOk(C, st, s); }
    forall j | 0 <= j < |st'.jobs| ensures JobOk(C, st', j) {
      if j < |st.jobs| { assert JobOk(C, st, j); }
    }
  }

  lemma {:induction false} CloseKeepsInv(C: World, st: State, w: World)
    requires Inv(C, st) && Extends(st.closed, w) && Extends(w, C)
    ensures Inv(C, st.(closed := w))
  {
    var st' := st.(closed := w);
    forall i | 0 <= i < |st.slots| ensures SlotOk(C, st', i) { SlotOkKept(C, st, st', i); }
    forall s | 0 <= s < |st.signals| ensures SignalOk(C, st', s) { assert SignalOk(C, st, s); }
    forall j | 0 <= j < |st.jobs| ensures JobOk(C, st', j) { assert JobOk(C, st, j); }
  }

  lemma {:induction false} StepKeepsInv(C: World, st: State, e: Event)
    requires Inv(C, st) && Enabled(st, e) && Extends(Apply(st, e).closed, C)
    ensures Inv(C, Apply(st, e))
  {
    match e {
      case Task(k) =>
        if st.slots[k].Waiting? { StartKeepsInv(C, st, k); } else { AdvanceKeepsInv(C, st, k); }
      case NewCall(inputs) => CallKeepsInv(C, st, inputs);
      case Close(w) => CloseKeepsInv(C, st, w);
    }
  }
}
