/** The invariant of the deep-wait protocol.  It is stated against a fixed set `C` of data
    that will be closed in the end; everything closed so far lies within `C`. */
module DeepWaitInvariant {
  import opened DeepWait

  type Signals = seq<SignalVar>
  type Purposes = seq<Purpose>

  // ---------------------------------------------------------------- what a task owns

  /** The signal that a task has to store, directly or through a rule. */
  predicate HasOut(p: Proc) {
    p.StoreVoid? || p.Iterate? || p.RecWait? || p.FireSignal?
  }

  function Out(p: Proc): nat
    requires HasOut(p)
  {
    p.signal
  }

  /** The signals whose read reference a task has to drop: those of a list, from an index on. */
  function ToDrop(p: Proc): seq<nat> {
    match p
    case RecWait(_, _, _, inner, _) => inner
    case FireSignal(inner, _, _) => inner
    case Deeprule(_, _, _, toFree) => toFree
    case DeepruleAction(toFree, _, _) => toFree
    case _ => []
  }

  function Dropped(p: Proc): nat {
    if p.FireSignal? || p.DeepruleAction? then p.i else 0
  }

  predicate HasToDrop(p: Proc, s: nat) {
    exists j :: Dropped(p) <= j < |ToDrop(p)| && ToDrop(p)[j] == s
  }

  predicate Distinct(s: seq<nat>) {
    forall a, b :: 0 <= a < b < |s| ==> s[a] != s[b]
  }

  /** The call of `deeprule` that a task executes. */
  predicate Serves(p: Proc, j: nat) {
    (p.Deeprule? || p.DeepruleAction?) && p.job == j
  }

  // ---------------------------------------------------------------- slots

  predicate TargetIn(C: World, ps: Purposes, s: nat) {
    s < |ps| && DeepClosed(C, ps[s].target)
  }

  /** User data is closed, or what a signal stands for is deeply closed, in `C`. */
  predicate TdIn(C: World, ps: Purposes, t: Td) {
    if t.Signal? then TargetIn(C, ps, t.n) else t.td in C
  }

  predicate SignalOf(ps: Purposes, s: nat, job: nat) {
    s < |ps| && ps[s].job == job
  }

  predicate Stored(sigs: Signals, s: nat) {
    s < |sigs| && sigs[s].writeRefs == 0
  }

  predicate AllStored(sigs: Signals, inner: seq<nat>) {
    forall j :: 0 <= j < |inner| ==> Stored(sigs, inner[j])
  }

  predicate AllSignalsOf(ps: Purposes, inner: seq<nat>, job: nat) {
    forall j :: 0 <= j < |inner| ==> SignalOf(ps, inner[j], job)
  }

  predicate StoreOk(C: World, ps: Purposes, waiting: bool, inputs: seq<Td>, p: Proc)
    requires p.StoreVoid?
  {
    if waiting then
      |inputs| == 1 && inputs[0].Data? && (inputs[0].td in C <==> TargetIn(C, ps, p.signal))
    else TargetIn(C, ps, p.signal)
  }

  predicate IterateOk(C: World, w: World, ps: Purposes, waiting: bool, inputs: seq<Td>, p: Proc)
    requires p.Iterate?
  {
    && !p.base.Scalar?
    && (DeepClosed(C, Input(p.container, 1, p.base)) <==> TargetIn(C, ps, p.signal))
    && (if p.n == -1 then
          && p.progress == 0
          && (if waiting then inputs == [Data(User(p.container))] else User(p.container) in w)
        else
          && User(p.container) in w
          && p.progress <= p.n == |w[User(p.container)]|
          && (waiting ==> p.progress < p.n
                          && inputs == [Data(BaseTd(p.base, w[User(p.container)][p.progress]))])
          && forall j :: 0 <= j < p.progress ==> BaseTd(p.base, w[User(p.container)][j]) in w)
  }

  /** The signals allocated so far stand for the first members. */
  predicate StandFor(ps: Purposes, inner: seq<nat>, members: seq<Id>, nest: nat, base: BaseType) {
    |inner| <= |members| &&
    forall j :: 0 <= j < |inner| ==>
      inner[j] < |ps| && ps[inner[j]].target == Input(members[j], nest, base)
  }

  predicate RecWaitOk(C: World, w: World, ps: Purposes, waiting: bool, inputs: seq<Td>, p: Proc)
    requires p.RecWait?
  {
    && p.signal < |ps|
    && 2 <= p.nest <= ps[p.signal].target.nest
    && (DeepClosed(C, Input(p.container, p.nest, p.base)) <==> TargetIn(C, ps, p.signal))
    && AllSignalsOf(ps, p.inner, ps[p.signal].job)
    && Later(p.inner, p.signal)
    && (if waiting then inputs == [Data(User(p.container))] && p.inner == []
        else
          && User(p.container) in w
          && (|p.inner| > 0 ==> |w[User(p.container)]| > 1)
          && StandFor(ps, p.inner, w[User(p.container)], p.nest - 1, p.base))
  }

  predicate Later(inner: seq<nat>, s: nat) {
    forall j :: 0 <= j < |inner| ==> inner[j] > s
  }

  predicate AllTargetsIn(C: World, ps: Purposes, inner: seq<nat>) {
    forall j :: 0 <= j < |inner| ==> TargetIn(C, ps, inner[j])
  }

  predicate Below(ps: Purposes, inner: seq<nat>, nest: nat) {
    forall j :: 0 <= j < |inner| ==> inner[j] < |ps| && ps[inner[j]].target.nest < nest
  }

  predicate FireOk(C: World, ps: Purposes, sigs: Signals, waiting: bool, inputs: seq<Td>, p: Proc)
    requires p.FireSignal?
  {
    && p.i <= |p.inner|
    && p.signal < |ps|
    && AllSignalsOf(ps, p.inner, ps[p.signal].job)
    && Later(p.inner, p.signal)
    && Below(ps, p.inner, ps[p.signal].target.nest)
    && (AllTargetsIn(C, ps, p.inner) <==> TargetIn(C, ps, p.signal))
    && (if waiting then inputs == AsTds(p.inner) && p.i == 0 else AllStored(sigs, p.inner))
  }

  predicate AllTdsIn(C: World, ps: Purposes, tds: seq<Td>) {
    forall j :: 0 <= j < |tds| ==> TdIn(C, ps, tds[j])
  }

  /** The signals collected so far, all of one call, stand for the inputs seen so far. */
  predicate Covers(C: World, ps: Purposes, job: nat, tds: seq<Td>, inputs: seq<Input>) {
    && (forall j :: 0 <= j < |tds| ==> tds[j].Signal? ==> SignalOf(ps, tds[j].n, job))
    && (AllTdsIn(C, ps, tds) <==> AllDeepClosed(C, inputs))
  }

  predicate AllAmong(inner: seq<nat>, tds: seq<Td>) {
    forall j :: 0 <= j < |inner| ==> Signal(inner[j]) in tds
  }

  predicate OpenJob(jobs: seq<Job>, j: nat, k: nat) {
    j < |jobs| && jobs[j].slot == k && jobs[j].ran == 0
  }

  predicate DeepruleOk(C: World, ps: Purposes, jobs: seq<Job>, k: nat, waiting: bool, p: Proc)
    requires p.Deeprule?
  {
    && !waiting
    && OpenJob(jobs, p.job, k)
    && p.i <= |jobs[p.job].inputs|
    && AllSignalsOf(ps, p.toFree, p.job)
    && AllAmong(p.toFree, p.signals)
    && Covers(C, ps, p.job, p.signals, jobs[p.job].inputs[..p.i])
  }

  predicate ActionOk(C: World, ps: Purposes, sigs: Signals, jobs: seq<Job>, k: nat,
                     waiting: bool, inputs: seq<Td>, p: Proc)
    requires p.DeepruleAction?
  {
    && OpenJob(jobs, p.job, k)
    && p.i <= |p.toFree|
    && AllSignalsOf(ps, p.toFree, p.job)
    && (if waiting then
          p.i == 0 && Covers(C, ps, p.job, inputs, jobs[p.job].inputs) && AllAmong(p.toFree, inputs)
        else
          AllDeepClosed(C, jobs[p.job].inputs) && AllStored(sigs, p.toFree))
  }

  /** The procedure is at a point where its signal stands for what it still has to find. */
  predicate PointOk(C: World, w: World, ps: Purposes, sigs: Signals, jobs: seq<Job>, k: nat,
                    waiting: bool, inputs: seq<Td>, p: Proc)
  {
    (HasOut(p) ==> Out(p) < |ps|) &&
    match p
    case StoreVoid(_) => StoreOk(C, ps, waiting, inputs, p)
    case Iterate(_, _, _, _, _) => IterateOk(C, w, ps, waiting, inputs, p)
    case RecWait(_, _, _, _, _) => RecWaitOk(C, w, ps, waiting, inputs, p)
    case FireSignal(_, _, _) => FireOk(C, ps, sigs, waiting, inputs, p)
    case Deeprule(_, _, _, _) => DeepruleOk(C, ps, jobs, k, waiting, p)
    case DeepruleAction(_, _, _) => ActionOk(C, ps, sigs, jobs, k, waiting, inputs, p)
  }

  /** The task owns the signal it has to store and the references it has to drop. */
  predicate Owns(ps: Purposes, sigs: Signals, k: nat, p: Proc)
    requires |ps| == |sigs|
  {
    && (HasOut(p) ==>
          && Out(p) < |sigs| && sigs[Out(p)].writeRefs == 1 && ps[Out(p)].owner == k)
    && Distinct(ToDrop(p))
    && (forall j :: Dropped(p) <= j < |ToDrop(p)| ==>
          && ToDrop(p)[j] < |sigs|
          && sigs[ToDrop(p)[j]].readRefs == 1 && ps[ToDrop(p)[j]].holder == k)
  }

  function InputsOf(s: Slot): seq<Td> {
    if s.Waiting? then s.inputs else []
  }

  predicate SlotOk(C: World, st: State, k: nat)
    requires k < |st.slots| && |st.purposes| == |st.signals|
  {
    st.slots[k].Done? ||
    (&& Owns(st.purposes, st.signals, k, st.slots[k].proc)
     && PointOk(C, st.closed, st.purposes, st.signals, st.jobs, k,
                st.slots[k].Waiting?, InputsOf(st.slots[k]), st.slots[k].proc))
  }

  // ---------------------------------------------------------------- signals and calls

  predicate StoresSignal(slots: seq<Slot>, k: nat, s: nat) {
    k < |slots| && !slots[k].Done? && HasOut(slots[k].proc) && Out(slots[k].proc) == s
  }

  predicate DropsSignal(slots: seq<Slot>, k: nat, s: nat) {
    k < |slots| && !slots[k].Done? && HasToDrop(slots[k].proc, s)
  }

  predicate SignalOk(C: World, st: State, s: nat)
    requires s < |st.signals| == |st.purposes|
  {
    var v, u := st.signals[s], st.purposes[s];
    && v.writeRefs <= 1 && v.readRefs <= 1
    && u.owner < |st.slots| && u.holder < |st.slots|
    && (v.writeRefs == 1 ==> v.readRefs == 1 && StoresSignal(st.slots, u.owner, s))
    && (v.readRefs == 1 ==> DropsSignal(st.slots, u.holder, s))
    && (v.writeRefs == 0 ==> TargetIn(C, st.purposes, s))
    && u.target.nest >= 1
    && u.job < |st.jobs|
    && (AllDeepClosed(C, st.jobs[u.job].inputs) ==> TargetIn(C, st.purposes, s))
  }

  predicate ServesJob(slots: seq<Slot>, k: nat, j: nat) {
    k < |slots| && !slots[k].Done? && Serves(slots[k].proc, j)
  }

  predicate JobOk(C: World, st: State, j: nat)
    requires j < |st.jobs|
  {
    var v := st.jobs[j];
    && v.ran <= 1
    && v.slot < |st.slots|
    && (v.ran == 1 ==> AllDeepClosed(C, v.inputs))
    && (v.ran == 0 ==> ServesJob(st.slots, v.slot, j))
  }

  ghost predicate Inv(C: World, st: State) {
    && Extends(st.closed, C)
    && !st.fault
    && |st.purposes| == |st.signals|
    && (forall k :: 0 <= k < |st.slots| ==> SlotOk(C, st, k))
    && (forall s :: 0 <= s < |st.signals| ==> SignalOk(C, st, s))
    && (forall j :: 0 <= j < |st.jobs| ==> JobOk(C, st, j))
  }

  // ---------------------------------------------------------------- frames

  predicate Prefix<T(==)>(a: seq<T>, b: seq<T>) {
    |a| <= |b| && forall i :: 0 <= i < |a| ==> a[i] == b[i]
  }

  /** What no step of a slot other than `k` changes. */
  predicate Keeps(st: State, st': State, k: nat)
    requires |st.purposes| == |st.signals| && |st'.purposes| == |st'.signals|
  {
    && Extends(st.closed, st'.closed)
    && k < |st.slots| <= |st'.slots| && st'.slots[k] == st.slots[k]
    && Prefix(st.purposes, st'.purposes)
    && (forall s :: 0 <= s < |st.signals| ==>
          && st'.signals[s].writeRefs <= st.signals[s].writeRefs
          && (st.purposes[s].owner == k ==> st'.signals[s].writeRefs == st.signals[s].writeRefs)
          && (st.purposes[s].holder == k ==> st'.signals[s].readRefs == st.signals[s].readRefs))
    && |st.jobs| <= |st'.jobs|
    && (forall j :: 0 <= j < |st.jobs| ==>
          && st'.jobs[j].inputs == st.jobs[j].inputs && st'.jobs[j].slot == st.jobs[j].slot
          && (st.jobs[j].slot == k ==> st'.jobs[j].ran == st.jobs[j].ran))
  }

  lemma {:induction false} SlotOkKept(C: World, st: State, st': State, k: nat)
    requires |st.purposes| == |st.signals| && |st'.purposes| == |st'.signals|
    requires Keeps(st, st', k) && SlotOk(C, st, k)
    ensures SlotOk(C, st', k)
  {
    if !st.slots[k].Done? {
      PointOkKept(C, st, st', k, st.slots[k].Waiting?, InputsOf(st.slots[k]), st.slots[k].proc);
    }
  }

  lemma {:induction false} PointOkKept(C: World, st: State, st': State, k: nat, waiting: bool, inputs: seq<Td>, p: Proc)
    requires |st.purposes| == |st.signals| && |st'.purposes| == |st'.signals|
    requires Keeps(st, st', k)
    requires PointOk(C, st.closed, st.purposes, st.signals, st.jobs, k, waiting, inputs, p)
    ensures PointOk(C, st'.closed, st'.purposes, st'.signals, st'.jobs, k, waiting, inputs, p)
  {
    hide StoreOk, IterateOk, RecWaitOk, FireOk, DeepruleOk, ActionOk;
    if p.StoreVoid? || p.Iterate? || p.RecWait? {
      WaitKept(C, st, st', k, waiting, inputs, p);
    } else if p.FireSignal? {
      FireKept(C, st, st', k, waiting, inputs, p);
    } else {
      CallKept(C, st, st', k, waiting, inputs, p);
    }
  }

  lemma {:induction false} WaitKept(C: World, st: State, st': State, k: nat, waiting: bool, inputs: seq<Td>, p: Proc)
    requires |st.purposes| == |st.signals| && |st'.purposes| == |st'.signals| && Keeps(st, st', k)
    requires p.StoreVoid? || p.Iterate? || p.RecWait?
    requires PointOk(C, st.closed, st.purposes, st.signals, st.jobs, k, waiting, inputs, p)
    ensures PointOk(C, st'.closed, st'.purposes, st'.signals, st'.jobs, k, waiting, inputs, p)
  {
    hide DeepClosed;
    assert TargetIn(C, st'.purposes, p.signal) <==> TargetIn(C, st.purposes, p.signal);
  }

  lemma {:induction false} FireKept(C: World, st: State, st': State, k: nat, waiting: bool, inputs: seq<Td>, p: Proc)
    requires |st.purposes| == |st.signals| && |st'.purposes| == |st'.signals| && Keeps(st, st', k) && p.FireSignal?
    requires PointOk(C, st.closed, st.purposes, st.signals, st.jobs, k, waiting, inputs, p)
    ensures PointOk(C, st'.closed, st'.purposes, st'.signals, st'.jobs, k, waiting, inputs, p)
  {
    hide DeepClosed;
    TargetsKept(C, st.purposes, st'.purposes, p.inner);
  }

  lemma {:induction false} CallKept(C: World, st: State, st': State, k: nat, waiting: bool, inputs: seq<Td>, p: Proc)
    requires |st.purposes| == |st.signals| && |st'.purposes| == |st'.signals| && Keeps(st, st', k)
    requires p.Deeprule? || p.DeepruleAction?
    requires PointOk(C, st.closed, st.purposes, st.signals, st.jobs, k, waiting, inputs, p)
    ensures PointOk(C, st'.closed, st'.purposes, st'.signals, st'.jobs, k, waiting, inputs, p)
  {
    hide DeepClosed, AllDeepClosed, Covers;
    if p.Deeprule? {
      CoversKept(C, st.purposes, st'.purposes, p.job, p.signals, st.jobs[p.job].inputs[..p.i]);
    } else if waiting {
      CoversKept(C, st.purposes, st'.purposes, p.job, inputs, st.jobs[p.job].inputs);
    }
  }

  lemma TargetsKept(C: World, ps: Purposes, ps': Purposes, inner: seq<nat>)
    requires Prefix(ps, ps') && forall j :: 0 <= j < |inner| ==> inner[j] < |ps|
    ensures AllTargetsIn(C, ps', inner) <==> AllTargetsIn(C, ps, inner)
  {
  }

  lemma CoversKept(C: World, ps: Purposes, ps': Purposes, job: nat, tds: seq<Td>, inputs: seq<Input>)
    requires Prefix(ps, ps') && Covers(C, ps, job, tds, inputs)
    ensures Covers(C, ps', job, tds, inputs)
  {
  }

  // ---------------------------------------------------------------- one step of one slot

  /** What a step of slot `k` may change: that slot, the signals it has to store or drop,
      its own call, and new slots and signals at the end. */
  predicate OnlySlot(st: State, st': State, k: nat)
    requires |st.purposes| == |st.signals|
  {
    && |st'.purposes| == |st'.signals|
    && k < |st.slots| <= |st'.slots|
    && st'.closed == st.closed && st'.fault == st.fault
    && (forall i :: 0 <= i < |st.slots| && i != k ==> st'.slots[i] == st.slots[i])
    && Prefix(st.purposes, st'.purposes)
    && (forall s :: 0 <= s < |st.signals| ==>
          && st'.signals[s].writeRefs <= st.signals[s].writeRefs
          && (st.purposes[s].owner != k ==> st'.signals[s].writeRefs == st.signals[s].writeRefs)
          && (st.purposes[s].holder != k ==> st'.signals[s].readRefs == st.signals[s].readRefs))
    && |st.jobs| == |st'.jobs|
    && (forall j :: 0 <= j < |st.jobs| ==>
          && st'.jobs[j].inputs == st.jobs[j].inputs && st'.jobs[j].slot == st.jobs[j].slot
          && (st.jobs[j].slot != k ==> st'.jobs[j].ran == st.jobs[j].ran))
  }

  predicate Touches(ps: Purposes, s: nat, k: nat) {
    s < |ps| ==> ps[s].owner == k || ps[s].holder == k
  }

  /** A step of one slot keeps the invariant if it does so for what that slot owns. */
  lemma {:induction false} OnlySlotInv(C: World, st: State, st': State, k: nat)
    requires Inv(C, st) && OnlySlot(st, st', k)
    requires SlotOk(C, st', k)
    requires forall i :: |st.slots| <= i < |st'.slots| ==> SlotOk(C, st', i)
    requires forall s :: 0 <= s < |st'.signals| && Touches(st.purposes, s, k) ==> SignalOk(C, st', s)
    requires forall j :: 0 <= j < |st.jobs| && st.jobs[j].slot == k ==> JobOk(C, st', j)
    ensures Inv(C, st')
  {
    forall i | 0 <= i < |st'.slots| ensures SlotOk(C, st', i) {
      if i < |st.slots| && i != k { SlotOkKept(C, st, st', i); }
    }
    forall s | 0 <= s < |st'.signals| ensures SignalOk(C, st', s) {
      if s < |st.signals| && !Touches(st.purposes, s, k) { SignalOkKept(C, st, st', k, s); }
    }
    forall j | 0 <= j < |st'.jobs| ensures JobOk(C, st', j) {
      assert JobOk(C, st, j);
    }
  }

  lemma {:induction false} SignalOkKept(C: World, st: State, st': State, k: nat, s: nat)
    requires Inv(C, st) && OnlySlot(st, st', k)
    requires s < |st.signals| && !Touches(st.purposes, s, k)
    ensures SignalOk(C, st', s)
  {
    assert SignalOk(C, st, s);
  }
}
