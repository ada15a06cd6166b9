/** The deep-wait protocol of code/lib/container.tcl: `deeprule` runs an action once
    every container down to a nesting level, and every reference at the bottom, is
    closed.  Closing is detected by a tree of write-once signal variables.

    The state machine works at the grain of one data-store operation.  A task that is
    executing a procedure may be interrupted by any other task between two operations,
    and user data may be closed at any moment. */
module DeepWait {

  type Id = int

  /** User data: a datum, or the status variable of a file. */
  datatype UserTd = User(id: Id) | FileStatus(id: Id)

  /** Something a rule can wait for: user data, or a signal allocated by the protocol. */
  datatype Td = Data(td: UserTd) | Signal(n: nat)

  /** The type at the bottom of the nesting. */
  datatype BaseType = Scalar | Ref | FileRef

  /** One argument of `deeprule`: a datum, its nesting level and its base type. */
  datatype Input = Input(id: Id, nest: nat, base: BaseType)

  /** Closed user data.  A closed container can no longer change, so it is given with
      its members in enumeration order. */
  type World = map<UserTd, seq<Id>>

  /** The procedures of the protocol, each with the local variables it still needs. */
  datatype Proc =
    | StoreVoid(signal: nat)
    | Iterate(container: Id, progress: nat, n: int, base: BaseType, signal: nat)
    | RecWait(container: Id, nest: nat, base: BaseType, inner: seq<nat>, signal: nat)
    | FireSignal(inner: seq<nat>, i: nat, signal: nat)
    | Deeprule(job: nat, i: nat, signals: seq<Td>, toFree: seq<nat>)
    | DeepruleAction(toFree: seq<nat>, i: nat, job: nat)

  /** A rule that waits for its inputs, a task in execution, or a finished task.  A rule
      registered by the last statement of a task takes over the slot of that task. */
  datatype Slot = Waiting(inputs: seq<Td>, proc: Proc) | Running(proc: Proc) | Done

  /** The reference counts of a void variable.  It is closed when `writeRefs` is zero. */
  datatype SignalVar = SignalVar(writeRefs: nat, readRefs: nat)

  /** History: what a signal stands for, the call of `deeprule` it serves, the slot that has
      to store it and the slot that has to drop its read reference. */
  datatype Purpose = Purpose(target: Input, job: nat, owner: nat, holder: nat)

  /** One call of `deeprule`.  `slot` is history: the slot that executes it. */
  datatype Job = Job(inputs: seq<Input>, ran: nat, slot: nat)

  /** `fault` records a store to a stored signal or the drop of a dropped reference;
      `purposes` is the history of `signals`. */
  datatype State = State(closed: World, signals: seq<SignalVar>, purposes: seq<Purpose>,
                         slots: seq<Slot>, jobs: seq<Job>, fault: bool)

  const INIT := State(map[], [], [], [], [], false)

  // ---------------------------------------------------------------- data store

  predicate Closed(st: State, t: Td) {
    if t.Signal? then t.n < |st.signals| && st.signals[t.n].writeRefs == 0
    else t.td in st.closed
  }

  predicate Ready(st: State, inputs: seq<Td>) {
    forall t <- inputs :: Closed(st, t)
  }

  function Members(w: World, c: Id): seq<Id> {
    if User(c) in w then w[User(c)] else []
  }

  /** The datum that closes when a value of the base type is complete. */
  function BaseTd(base: BaseType, id: Id): UserTd {
    if base.FileRef? then FileStatus(id) else User(id)
  }

  /** `deeprule_basetype_signal`: what to wait for at the bottom; nothing for a scalar. */
  function BaseSignals(base: BaseType, id: Id): seq<Td> {
    if base.Scalar? then [] else [Data(BaseTd(base, id))]
  }

  function SetSlot(st: State, k: nat, s: Slot): State
    requires k < |st.slots|
  {
    st.(slots := st.slots[k := s])
  }

  function StoreSignal(st: State, s: nat): State {
    if s >= |st.signals| || st.signals[s].writeRefs == 0 then st.(fault := true)
    else st.(signals := st.signals[s := st.signals[s].(writeRefs := st.signals[s].writeRefs - 1)])
  }

  function ReadDecr(st: State, s: nat): State {
    if s >= |st.signals| || st.signals[s].readRefs == 0 then st.(fault := true)
    else st.(signals := st.signals[s := st.signals[s].(readRefs := st.signals[s].readRefs - 1)])
  }

  // ---------------------------------------------------------------- procedures

  /** `container_deep_wait`: the rule that waits for the container itself. */
  function DeepWaitSlot(c: Id, nest: nat, base: BaseType, signal: nat): Slot {
    Waiting([Data(User(c))],
            if nest != 1 then RecWait(c, nest, base, [], signal)
            else if base.Scalar? then StoreVoid(signal)
            else Iterate(c, 0, -1, base, signal))
  }

  /** Allocate a signal and start waiting for a container with it. */
  function Spawn(st: State, k: nat, job: nat, target: Input): State {
    st.(signals := st.signals + [SignalVar(1, 1)],
        purposes := st.purposes + [Purpose(target, job, |st.slots|, k)],
        slots := st.slots + [DeepWaitSlot(target.id, target.nest, target.base, |st.signals|)])
  }

  function AsTds(inner: seq<nat>): (r: seq<Td>)
    ensures |r| == |inner| && forall i :: 0 <= i < |r| ==> r[i] == Signal(inner[i])
  {
    seq(|inner|, i requires 0 <= i < |inner| => Signal(inner[i]))
  }

  /** One operation of the task in slot `k`. */
  function Advance(st: State, k: nat): State
    requires k < |st.slots| && st.slots[k].Running?
  {
    match st.slots[k].proc
    case StoreVoid(signal) => SetSlot(StoreSignal(st, signal), k, Done)
    case Iterate(c, progress, n, base, signal) =>
      var members := Members(st.closed, c);
      if n == -1 then
        SetSlot(st, k, Running(Iterate(c, progress, |members|, base, signal)))
      else if progress < n && progress < |members| then
        var t := Data(BaseTd(base, members[progress]));
        if Closed(st, t) then SetSlot(st, k, Running(Iterate(c, progress + 1, n, base, signal)))
        else SetSlot(st, k, Waiting([t], Iterate(c, progress, n, base, signal)))
      else
        SetSlot(StoreSignal(st, signal), k, Done)
    case RecWait(c, nest, base, inner, signal) =>
      var members := Members(st.closed, c);
      if nest == 0 || |members| == 0 then SetSlot(StoreSignal(st, signal), k, Done)
      else if |members| == 1 then
        SetSlot(st, k, DeepWaitSlot(members[0], nest - 1, base, signal))
      else if |inner| < |members| then
        var st' := SetSlot(st, k, Running(RecWait(c, nest, base, inner + [|st.signals|], signal)));
        Spawn(st', k, if signal < |st.purposes| then st.purposes[signal].job else 0,
              Input(members[|inner|], nest - 1, base))
      else
        SetSlot(st, k, Waiting(AsTds(inner), FireSignal(inner, 0, signal)))
    case FireSignal(inner, i, signal) =>
      if i < |inner| then SetSlot(ReadDecr(st, inner[i]), k, Running(FireSignal(inner, i + 1, signal)))
      else SetSlot(StoreSignal(st, signal), k, Done)
    case Deeprule(job, i, signals, toFree) =>
      if job < |st.jobs| && i < |st.jobs[job].inputs| then
        var x := st.jobs[job].inputs[i];
        if x.nest == 0 then
          SetSlot(st, k, Running(Deeprule(job, i + 1, signals + BaseSignals(x.base, x.id), toFree)))
        else
          var s := |st.signals|;
          Spawn(SetSlot(st, k, Running(Deeprule(job, i + 1, signals + [Signal(s)], toFree + [s]))),
                k, job, x)
      else
        SetSlot(st, k, Waiting(signals, DeepruleAction(toFree, 0, job)))
    case DeepruleAction(toFree, i, job) =>
      if i < |toFree| then
        SetSlot(ReadDecr(st, toFree[i]), k, Running(DeepruleAction(toFree, i + 1, job)))
      else if job < |st.jobs| then
        SetSlot(st.(jobs := st.jobs[job := st.jobs[job].(ran := st.jobs[job].ran + 1)]), k, Done)
      else SetSlot(st, k, Done)
  }

  // ---------------------------------------------------------------- steps and runs

  /** Steps of the protocol: a ready rule is released, or a task does one operation. */
  predicate CanStep(st: State, k: nat) {
    k < |st.slots| &&
    (st.slots[k].Running? || (st.slots[k].Waiting? && Ready(st, st.slots[k].inputs)))
  }

  function StepSlot(st: State, k: nat): State
    requires CanStep(st, k)
  {
    if st.slots[k].Waiting? then SetSlot(st, k, Running(st.slots[k].proc)) else Advance(st, k)
  }

  function Call(st: State, inputs: seq<Input>): State {
    st.(slots := st.slots + [Running(Deeprule(|st.jobs|, 0, [], []))],
        jobs := st.jobs + [Job(inputs, 0, |st.slots|)])
  }

  predicate Extends(w: World, w': World) {
    forall t <- w.Keys :: t in w' && w'[t] == w[t]
  }

  /** One step of any task: the protocol, a new call of `deeprule`, or other tasks that
      close user data. */
  datatype Event = Task(slot: nat) | NewCall(inputs: seq<Input>) | Close(world: World)

  predicate Enabled(st: State, e: Event) {
    match e
    case Task(k) => CanStep(st, k)
    case NewCall(_) => true
    case Close(w) => Extends(st.closed, w)
  }

  function Apply(st: State, e: Event): State
    requires Enabled(st, e)
  {
    match e
    case Task(k) => StepSlot(st, k)
    case NewCall(inputs) => Call(st, inputs)
    case Close(w) => st.(closed := w)
  }

  /** `run` is a sequence of states of the system, from its start, in any interleaving. */
  ghost predicate IsRun(run: seq<State>) {
    && |run| > 0
    && run[0] == INIT
    && forall i :: 0 < i < |run| ==> IsStep(run[i-1], run[i])
  }

  ghost predicate IsStep(st: State, st': State) {
    exists e :: Enabled(st, e) && st' == Apply(st, e)
  }

  // ---------------------------------------------------------------- deep closing

  /** The condition that `deeprule` has to wait for.  At the bottom a scalar is complete by
      itself, a reference when its own datum is closed, and a reference to a file when the
      status of that file is. */
  predicate DeepClosed(w: World, x: Input)
    decreases x.nest
  {
    if x.nest == 0 then
      match x.base
      case Scalar => true
      case Ref => User(x.id) in w
      case FileRef => FileStatus(x.id) in w
    else
      && User(x.id) in w
      && forall i :: 0 <= i < |w[User(x.id)]| ==>
           DeepClosed(w, Input(w[User(x.id)][i], x.nest - 1, x.base))
  }

  predicate AllDeepClosed(w: World, inputs: seq<Input>) {
    forall i :: 0 <= i < |inputs| ==> DeepClosed(w, inputs[i])
  }
}
