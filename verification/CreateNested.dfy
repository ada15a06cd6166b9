/** Create-if-absent of nested data, `ADLB_Create_Nested_Impl` of code/src/tcl/adlb/tcl-adlb.c:
    any number of workers race on one subscript of an outer container.  The steps are the
    calls each worker makes to the data server; every one of them is atomic there. */
module CreateNested {
  import opened Refcounts

  type Id = nat

  /** `2 << 24`: the share of the new datum's refcounts that the outer slot keeps. */
  function Init(): Refs { Refs(33554432, 33554432) }

  /** The arguments of one call: what to add to the inner datum for the caller, and what to
      take from the outer container. */
  datatype Request = Request(incr: Refs, decr: Refs)

  predicate GoodRequests(reqs: seq<Request>) {
    forall i :: 0 <= i < |reqs| ==> AtLeast(reqs[i].incr, Zero()) && AtLeast(reqs[i].decr, Zero())
  }

  /** Where a worker stands.  `Failed(true)` is an error after the slot had been reserved. */
  datatype Worker =
    | Start
    | Creating                            // the slot is reserved for this worker
    | Storing(id: Id)                     // the datum exists, the slot does not hold it yet
    | Polling
    | Finished(id: Id, created: bool)
    | Failed(orphaned: bool)

  /** The subscript: nothing, reserved without a value, or a reference with its share of the
      referand's refcounts. */
  datatype Slot = Absent | Reserved | Present(id: Id, share: Refs)

  /** References to the inner datum so far: given back by callers, let go with the slot's share,
      and added by the server. */
  datatype Totals = Totals(dropped: Refs, released: Refs, added: Refs)

  function Nothing(): Totals { Totals(Zero(), Zero(), Zero()) }

  /** `held` is what callers were handed and have not dropped yet. */
  datatype State =
    State(slot: Slot, outer: Refs, data: map<Id, Refs>, held: Refs, workers: seq<Worker>, totals: Totals)

  predicate Alive(outer: Refs) { outer.read > 0 || outer.write > 0 }
  predicate Open(outer: Refs) { outer.write > 0 }

  /** `topUp` is what the server adds to the inner datum when it hands out references; the
      rest comes out of the slot's share. */
  datatype Event =
    | Insert(w: nat, topUp: Refs)
    | Create(w: nat, id: Id)
    | CreateFails(w: nat)
    | Store(w: nat)
    | Poll(w: nat, topUp: Refs)
    | Drop(refs: Refs)                    // a caller gives references back
    | CloseOuter                          // the outer container was closed: the write share goes
    | FreeOuter                           // and the read share when it is collected

  /** Hand `req.incr` out of the slot and take `req.decr` from the outer container. */
  function HandOut(st: State, w: nat, req: Request, topUp: Refs): State
    requires st.slot.Present? && st.slot.id in st.data && w < |st.workers|
  {
    var id := st.slot.id;
    st.(slot := Present(id, Minus(Plus(st.slot.share, topUp), req.incr)),
        outer := Minus(st.outer, req.decr),
        data := st.data[id := Plus(st.data[id], topUp)],
        held := Plus(st.held, req.incr),
        workers := st.workers[w := Finished(id, false)],
        totals := Added(st.totals, topUp))
  }

  function Added(t: Totals, r: Refs): Totals { t.(added := Plus(t.added, r)) }
  function Dropped(t: Totals, r: Refs): Totals { t.(dropped := Plus(t.dropped, r)) }
  function LetGo(t: Totals, r: Refs): Totals { t.(released := Plus(t.released, r)) }

  predicate CanHandOut(st: State, req: Request, topUp: Refs) {
    st.slot.Present? && st.slot.id in st.data
    && AtLeast(topUp, Zero()) && AtLeast(Plus(st.slot.share, topUp), req.incr)
  }

  function With(st: State, w: nat, pc: Worker): State
    requires w < |st.workers|
  {
    st.(workers := st.workers[w := pc])
  }

  /** The server refuses the first call: the container is gone, or closed with nothing at the
      subscript. */
  predicate Refused(st: State) {
    !Alive(st.outer) || (st.slot.Absent? && !Open(st.outer))
  }

  predicate Enabled(reqs: seq<Request>, st: State, e: Event) {
    |st.workers| == |reqs| &&
    match e
    case Insert(w, t) =>
      w < |reqs| && st.workers[w].Start? && (!Refused(st) && st.slot.Present? ==> CanHandOut(st, reqs[w], t))
    case Create(w, id) => w < |reqs| && st.workers[w].Creating? && id !in st.data
    case CreateFails(w) => w < |reqs| && st.workers[w].Creating?
    case Store(w) => w < |reqs| && st.workers[w].Storing?
    case Poll(w, t) =>
      w < |reqs| && st.workers[w].Polling? && (Alive(st.outer) && st.slot.Present? ==> CanHandOut(st, reqs[w], t))
    case Drop(r) => st.slot.Present? && st.slot.id in st.data && AtLeast(r, Zero()) && AtLeast(st.held, r)
    case CloseOuter => !Open(st.outer) && st.slot.Present? && st.slot.id in st.data
    case FreeOuter => !Alive(st.outer) && st.slot.Present? && st.slot.id in st.data
  }

  /** What the step of a worker, or of those who hold references, does. */
  function Apply(reqs: seq<Request>, st: State, e: Event): State
    requires Enabled(reqs, st, e)
  {
    match e
    case Insert(w, t) =>                                    // ADLB_Insert_atomic
      if Refused(st) then With(st, w, Failed(false))
      else (match st.slot
        case Absent => With(st, w, Creating).(slot := Reserved)
        case Reserved => With(st, w, Polling)
        case Present(_, _) => HandOut(st, w, reqs[w], t))
    case Create(w, id) =>                                   // ADLB_Create
      With(st, w, Storing(id)).(data := st.data[id := Plus(Init(), reqs[w].incr)])
    case CreateFails(w) => With(st, w, Failed(true))
    case Store(w) =>                                        // ADLB_Store with decr_self and init_refs
      if !Open(st.outer) then With(st, w, Failed(true))
      else
        var id := st.workers[w].id;
        With(st, w, Finished(id, true)).(slot := Present(id, Init()),
                                         outer := Minus(st.outer, reqs[w].decr),
                                         held := Plus(st.held, reqs[w].incr))
    case Poll(w, t) =>                                      // ADLB_Retrieve, until there is a value
      if !Alive(st.outer) then With(st, w, Failed(false))
      else if st.slot.Present? then HandOut(st, w, reqs[w], t)
      else st
    case Drop(r) =>
      st.(data := st.data[st.slot.id := Minus(st.data[st.slot.id], r)], held := Minus(st.held, r),
          totals := Dropped(st.totals, r))
    case CloseOuter => Released(st, Refs(0, st.slot.share.write))
    case FreeOuter => Released(st, Refs(st.slot.share.read, 0))
  }

  predicate Step(reqs: seq<Request>, st: State, e: Event, st': State) {
    Enabled(reqs, st, e) && st' == Apply(reqs, st, e)
  }

  function Released(st: State, r: Refs): State
    requires st.slot.Present? && st.slot.id in st.data
  {
    st.(slot := Present(st.slot.id, Minus(st.slot.share, r)),
        data := st.data[st.slot.id := Minus(st.data[st.slot.id], r)],
        totals := LetGo(st.totals, r))
  }

  /** The least the server can add before handing out `incr`. */
  function Shortfall(share: Refs, incr: Refs): Refs {
    Refs(if share.read >= incr.read then 0 else incr.read - share.read,
         if share.write >= incr.write then 0 else incr.write - share.write)
  }

  ghost predicate Initial(reqs: seq<Request>, st: State) {
    st.slot.Absent? && st.held == Zero() && st.totals == Nothing() && |st.workers| == |reqs|
    && forall i :: 0 <= i < |reqs| ==> st.workers[i].Start?
  }

  ghost predicate Next(reqs: seq<Request>, st: State, st': State) {
    exists e :: Step(reqs, st, e, st')
  }

  ghost predicate IsRun(reqs: seq<Request>, run: seq<State>) {
    |run| > 0 && Initial(reqs, run[0]) && forall i :: 0 < i < |run| ==> Next(reqs, run[i-1], run[i])
  }

  // ---------------------------------------------------------------- totals over the workers

  function Given(req: Request, pc: Worker): Refs { if pc.Finished? then req.incr else Zero() }
  function Taken(req: Request, pc: Worker): Refs { if pc.Finished? then req.decr else Zero() }

  /** What the first `n` workers were handed, if finished, and what they took from the outer
      container. */
  function AllGiven(reqs: seq<Request>, ws: seq<Worker>, n: nat): Refs
    requires n <= |ws| && n <= |reqs|
  {
    if n == 0 then Zero() else Plus(AllGiven(reqs, ws, n - 1), Given(reqs[n-1], ws[n-1]))
  }

  function AllTaken(reqs: seq<Request>, ws: seq<Worker>, n: nat): Refs
    requires n <= |ws| && n <= |reqs|
  {
    if n == 0 then Zero() else Plus(AllTaken(reqs, ws, n - 1), Taken(reqs[n-1], ws[n-1]))
  }

  lemma {:induction false} GivenSame(reqs: seq<Request>, ws: seq<Worker>, w: nat, pc: Worker, n: nat)
    requires n <= |reqs| && n <= w < |ws|
    ensures AllGiven(reqs, ws[w := pc], n) == AllGiven(reqs, ws, n)
  {
    hide Plus, Given;
    if n > 0 { GivenSame(reqs, ws, w, pc, n - 1); }
  }

  lemma {:induction false} GivenChange(reqs: seq<Request>, ws: seq<Worker>, w: nat, pc: Worker, n: nat)
    requires w < n <= |ws| && n <= |reqs|
    ensures AllGiven(reqs, ws[w := pc], n) ==
            Plus(Minus(AllGiven(reqs, ws, n), Given(reqs[w], ws[w])), Given(reqs[w], pc))
  {
    hide Given;
    if w == n - 1 { GivenSame(reqs, ws, w, pc, w); } else { GivenChange(reqs, ws, w, pc, n - 1); }
  }

  lemma {:induction false} TakenSame(reqs: seq<Request>, ws: seq<Worker>, w: nat, pc: Worker, n: nat)
    requires n <= |reqs| && n <= w < |ws|
    ensures AllTaken(reqs, ws[w := pc], n) == AllTaken(reqs, ws, n)
  {
    hide Plus, Taken;
    if n > 0 { TakenSame(reqs, ws, w, pc, n - 1); }
  }

  lemma {:induction false} TakenChange(reqs: seq<Request>, ws: seq<Worker>, w: nat, pc: Worker, n: nat)
    requires w < n <= |ws| && n <= |reqs|
    ensures AllTaken(reqs, ws[w := pc], n) ==
            Plus(Minus(AllTaken(reqs, ws, n), Taken(reqs[w], ws[w])), Taken(reqs[w], pc))
  {
    hide Taken;
    if w == n - 1 { TakenSame(reqs, ws, w, pc, w); } else { TakenChange(reqs, ws, w, pc, n - 1); }
  }

  lemma {:induction false} NothingYet(reqs: seq<Request>, ws: seq<Worker>, n: nat)
    requires n <= |ws| && n <= |reqs| && forall i :: 0 <= i < |ws| ==> ws[i].Start?
    ensures AllGiven(reqs, ws, n) == Zero() && AllTaken(reqs, ws, n) == Zero()
  {
    if n > 0 { NothingYet(reqs, ws, n - 1); }
  }

  // ---------------------------------------------------------------- the invariant

  /** Between reserving the slot and storing into it, or stuck there. */
  predicate Reserving(pc: Worker) { pc.Creating? || pc.Storing? || (pc.Failed? && pc.orphaned) }
  predicate Creator(pc: Worker) { pc.Finished? && pc.created }

  /** A reserved slot belongs to exactly one worker; a slot with a value was filled by exactly
      one, and everybody who is finished has that value. */
  ghost predicate OneWinner(slot: Slot, ws: seq<Worker>) {
    && (slot.Reserved? <==> exists i :: 0 <= i < |ws| && Reserving(ws[i]))
    && (forall i, j :: 0 <= i < j < |ws| ==> !(Reserving(ws[i]) && Reserving(ws[j])))
    && (slot.Present? <==> exists i :: 0 <= i < |ws| && Creator(ws[i]))
    && (forall i, j :: 0 <= i < j < |ws| ==> !(Creator(ws[i]) && Creator(ws[j])))
    && (forall i :: 0 <= i < |ws| && ws[i].Finished? ==> slot.Present? && ws[i].id == slot.id)
    && (slot.Absent? ==> forall i :: 0 <= i < |ws| ==> !ws[i].Polling?)
  }

  /** A datum that is not in the slot yet has the counts it was created with. */
  predicate Fresh(reqs: seq<Request>, ws: seq<Worker>, data: map<Id, Refs>)
    requires |ws| == |reqs|
  {
    forall i :: 0 <= i < |reqs| && ws[i].Storing? ==>
      ws[i].id in data && data[ws[i].id] == Plus(Init(), reqs[i].incr)
  }

  /** What was handed out is held or has been dropped; the new datum's counts are the slot's
      share and what callers hold. */
  predicate Accounts(slot: Slot, data: map<Id, Refs>, held: Refs, given: Refs, t: Totals) {
    && AtLeast(held, Zero()) && AtLeast(t.released, Zero()) && given == Plus(held, t.dropped)
    && (if slot.Present? then
          slot.id in data && data[slot.id] == Plus(slot.share, held) && AtLeast(slot.share, Zero())
        else held == Zero() && t == Nothing())
  }

  /** All there ever was of the new datum's counts, the creator's own and what was added, is in
      the slot, held, dropped, or let go. */
  predicate Balance(share: Refs, held: Refs, t: Totals, incr: Refs) {
    Plus(Plus(share, held), Plus(t.dropped, t.released)) == Plus(Init(), Plus(incr, t.added))
  }

  predicate Balanced(reqs: seq<Request>, ws: seq<Worker>, slot: Slot, held: Refs, t: Totals)
    requires |ws| == |reqs|
  {
    slot.Present? ==> forall c :: 0 <= c < |reqs| && Creator(ws[c]) ==> Balance(slot.share, held, t, reqs[c].incr)
  }

  predicate Conserved(reqs: seq<Request>, st: State)
    requires |st.workers| == |reqs|
  {
    && Fresh(reqs, st.workers, st.data)
    && Accounts(st.slot, st.data, st.held, AllGiven(reqs, st.workers, |reqs|), st.totals)
    && Balanced(reqs, st.workers, st.slot, st.held, st.totals)
  }

  ghost predicate Inv(reqs: seq<Request>, outer0: Refs, st: State) {
    |st.workers| == |reqs|
    && OneWinner(st.slot, st.workers)
    && Conserved(reqs, st)
    && st.outer == Minus(outer0, AllTaken(reqs, st.workers, |reqs|))
  }

  lemma {:induction false} InitialInv(reqs: seq<Request>, st: State)
    requires Initial(reqs, st)
    ensures Inv(reqs, st.outer, st)
  {
    hide AllGiven, AllTaken, OneWinner, Conserved;
    NothingYet(reqs, st.workers, |reqs|);
    InitialWinner(st.slot, st.workers);
    InitialConserved(reqs, st);
    MinusZero(st.outer);
  }

  lemma MinusZero(a: Refs)
    ensures Minus(a, Zero()) == a
  {
  }

  lemma {:induction false} InitialConserved(reqs: seq<Request>, st: State)
    requires |st.workers| == |reqs| && st.slot.Absent? && st.held == Zero() && st.totals == Nothing()
    requires AllGiven(reqs, st.workers, |reqs|) == Zero()
    requires forall i :: 0 <= i < |reqs| ==> st.workers[i].Start?
    ensures Conserved(reqs, st)
  {
    hide AllGiven;
  }

  lemma InitialWinner(slot: Slot, ws: seq<Worker>)
    requires slot.Absent? && forall i :: 0 <= i < |ws| ==> ws[i].Start?
    ensures OneWinner(slot, ws)
  {
  }

  /** The winner's steps, and the steps of those who find a value. */
  lemma {:induction false} StepKeepsOneWinner(reqs: seq<Request>, st: State, e: Event, st': State)
    requires Step(reqs, st, e, st') && OneWinner(st.slot, st.workers)
    ensures OneWinner(st'.slot, st'.workers)
  {
    match e {
      case Insert(w, t) => WorkerMoves(st.slot, st.workers, w, st'.slot, st'.workers[w]);
      case Create(w, id) => WorkerMoves(st.slot, st.workers, w, st'.slot, st'.workers[w]);
      case CreateFails(w) => WorkerMoves(st.slot, st.workers, w, st'.slot, st'.workers[w]);
      case Store(w) => WorkerMoves(st.slot, st.workers, w, st'.slot, st'.workers[w]);
      case Poll(w, t) =>
        if st' != st { WorkerMoves(st.slot, st.workers, w, st'.slot, st'.workers[w]); }
      case Drop(r) =>
      case CloseOuter =>
      case FreeOuter =>
    }
  }

  /** The moves a worker can make, as far as the slot is concerned. */
  ghost predicate Move(slot: Slot, pc: Worker, slot': Slot, pc': Worker) {
    || (pc.Start? && slot == slot' && pc' == Failed(false))
    || (pc.Start? && slot.Absent? && slot'.Reserved? && pc'.Creating?)
    || (pc.Start? && slot.Reserved? && slot'.Reserved? && pc'.Polling?)
    || ((pc.Start? || pc.Polling?) && slot.Present? && slot'.Present? && slot'.id == slot.id
        && pc' == Finished(slot.id, false))
    || ((pc.Creating? || pc.Storing?) && slot' == slot && (pc'.Storing? || pc' == Failed(true)))
    || (pc.Storing? && slot'.Present? && pc' == Finished(slot'.id, true))
    || (pc.Polling? && slot' == slot && pc' == Failed(false))
  }

  lemma {:induction false} WorkerMoves(slot: Slot, ws: seq<Worker>, w: nat, slot': Slot, pc': Worker)
    requires w < |ws| && OneWinner(slot, ws) && Move(slot, ws[w], slot', pc')
    ensures OneWinner(slot', ws[w := pc'])
  {
    var ws' := ws[w := pc'];
    if Reserving(ws[w]) { assert slot.Reserved?; }
    if i :| 0 <= i < |ws| && Reserving(ws[i]) && i != w { assert ws'[i] == ws[i]; }
    if i :| 0 <= i < |ws| && Creator(ws[i]) && i != w { assert ws'[i] == ws[i]; }
    assert ws'[w] == pc';
  }

  lemma BalanceHandOut(share: Refs, held: Refs, t: Totals, incr: Refs, topUp: Refs, out: Refs)
    requires Balance(share, held, t, incr)
    ensures Balance(Minus(Plus(share, topUp), out), Plus(held, out), Added(t, topUp), incr)
  {
  }

  lemma AccountsHandOut(slot: Slot, data: map<Id, Refs>, held: Refs, given: Refs, t: Totals,
                                           topUp: Refs, out: Refs)
    requires Accounts(slot, data, held, given, t) && slot.Present? && AtLeast(out, Zero())
    requires AtLeast(Plus(slot.share, topUp), out)
    ensures Accounts(Present(slot.id, Minus(Plus(slot.share, topUp), out)),
                     data[slot.id := Plus(data[slot.id], topUp)], Plus(held, out), Plus(given, out), Added(t, topUp))
  {
  }

  lemma {:induction false} GivenFinishes(reqs: seq<Request>, ws: seq<Worker>, w: nat, pc: Worker)
    requires |ws| == |reqs| && w < |reqs| && !ws[w].Finished? && pc.Finished?
    ensures AllGiven(reqs, ws[w := pc], |reqs|) == Plus(AllGiven(reqs, ws, |reqs|), reqs[w].incr)
  {
    hide AllGiven;
    GivenChange(reqs, ws, w, pc, |reqs|);
  }

  lemma {:induction false} GivenStays(reqs: seq<Request>, ws: seq<Worker>, w: nat, pc: Worker)
    requires |ws| == |reqs| && w < |reqs| && !ws[w].Finished? && !pc.Finished?
    ensures AllGiven(reqs, ws[w := pc], |reqs|) == AllGiven(reqs, ws, |reqs|)
  {
    hide AllGiven;
    GivenChange(reqs, ws, w, pc, |reqs|);
  }

  /** What a handed-out reference leaves. */
  lemma {:induction false} HandOutConserves(reqs: seq<Request>, st: State, w: nat, topUp: Refs)
    requires GoodRequests(reqs) && |st.workers| == |reqs| && w < |reqs| && !st.workers[w].Finished?
    requires Conserved(reqs, st) && CanHandOut(st, reqs[w], topUp) && OneWinner(st.slot, st.workers)
    ensures Conserved(reqs, HandOut(st, w, reqs[w], topUp))
  {
    hide AllGiven, OneWinner, Accounts, Balance, AtLeast, Plus, Minus;
    var out := reqs[w].incr;
    GivenFinishes(reqs, st.workers, w, Finished(st.slot.id, false));
    StoringIsNotPresent(st.slot, st.workers);
    AccountsHandOut(st.slot, st.data, st.held, AllGiven(reqs, st.workers, |reqs|), st.totals, topUp, out);
    forall c | 0 <= c < |reqs| && Creator(st.workers[c])
      ensures Balance(Minus(Plus(st.slot.share, topUp), out), Plus(st.held, out), Added(st.totals, topUp), reqs[c].incr) {
      BalanceHandOut(st.slot.share, st.held, st.totals, reqs[c].incr, topUp, out);
    }
  }

  lemma StoringIsNotPresent(slot: Slot, ws: seq<Worker>)
    requires OneWinner(slot, ws) && slot.Present?
    ensures forall i :: 0 <= i < |ws| ==> !ws[i].Storing?
  {
  }

  lemma {:induction false} StepKeepsConserved(reqs: seq<Request>, st: State, e: Event, st': State)
    requires GoodRequests(reqs) && Step(reqs, st, e, st')
    requires OneWinner(st.slot, st.workers) && Conserved(reqs, st)
    ensures Conserved(reqs, st')
  {
    hide *;
    match e {
      case Insert(w, t) => InsertConserves(reqs, st, w, t, st');
      case Create(w, id) => CreateConserves(reqs, st, w, id, st');
      case CreateFails(w) => FailureConserves(reqs, st, w, st');
      case Store(w) => StoreConserves(reqs, st, w, st');
      case Poll(w, t) => PollConserves(reqs, st, w, t, st');
      case Drop(r) => DropConserves(reqs, st, r, st');
      case CloseOuter => CloseIs(reqs, st, e, st'); ReleaseConserves(reqs, st, Refs(0, st.slot.share.write));
      case FreeOuter => CloseIs(reqs, st, e, st'); ReleaseConserves(reqs, st, Refs(st.slot.share.read, 0));
    }
  }

  /** A worker moves without finishing, and the slot gets no value. */
  lemma {:induction false} MoveConserves(reqs: seq<Request>, st: State, w: nat, pc: Worker, slot: Slot)
    requires |st.workers| == |reqs| && w < |reqs| && !st.workers[w].Finished? && !pc.Finished? && !pc.Storing?
    requires Conserved(reqs, st) && (slot == st.slot || (!slot.Present? && !st.slot.Present?))
    ensures Conserved(reqs, With(st, w, pc).(slot := slot))
  {
    hide AllGiven, Balance, AtLeast, Plus;
    GivenStays(reqs, st.workers, w, pc);
  }

  lemma {:induction false} InsertConserves(reqs: seq<Request>, st: State, w: nat, t: Refs, st': State)
    requires GoodRequests(reqs) && Step(reqs, st, Insert(w, t), st')
    requires OneWinner(st.slot, st.workers) && Conserved(reqs, st)
    ensures Conserved(reqs, st')
  {
    hide OneWinner, Conserved, AtLeast, HandOut, CanHandOut, Refused, GoodRequests;
    if Refused(st) { MoveConserves(reqs, st, w, Failed(false), st.slot); }
    else if st.slot.Absent? { MoveConserves(reqs, st, w, Creating, Reserved); }
    else if st.slot.Reserved? { MoveConserves(reqs, st, w, Polling, Reserved); }
    else { HandOutConserves(reqs, st, w, t); }
  }

  lemma {:induction false} PollConserves(reqs: seq<Request>, st: State, w: nat, t: Refs, st': State)
    requires GoodRequests(reqs) && Step(reqs, st, Poll(w, t), st')
    requires OneWinner(st.slot, st.workers) && Conserved(reqs, st)
    ensures Conserved(reqs, st')
  {
    hide OneWinner, Conserved, AtLeast, HandOut, CanHandOut, GoodRequests;
    if !Alive(st.outer) { MoveConserves(reqs, st, w, Failed(false), st.slot); }
    else if st.slot.Present? { HandOutConserves(reqs, st, w, t); }
  }

  lemma {:induction false} FailureConserves(reqs: seq<Request>, st: State, w: nat, st': State)
    requires Step(reqs, st, CreateFails(w), st') && Conserved(reqs, st)
    ensures Conserved(reqs, st')
  {
    hide Conserved;
    MoveConserves(reqs, st, w, Failed(true), st.slot);
  }

  lemma {:induction false} DropConserves(reqs: seq<Request>, st: State, r: Refs, st': State)
    requires Step(reqs, st, Drop(r), st') && OneWinner(st.slot, st.workers) && Conserved(reqs, st)
    ensures Conserved(reqs, st')
  {
    hide OneWinner, AllGiven, Balance;
    StoringIsNotPresent(st.slot, st.workers);
    forall c | 0 <= c < |reqs| && Creator(st.workers[c])
      ensures Balance(st.slot.share, Minus(st.held, r), Dropped(st.totals, r), reqs[c].incr) {
      BalanceDrop(st.slot.share, st.held, st.totals, reqs[c].incr, r);
    }
  }

  lemma BalanceDrop(share: Refs, held: Refs, t: Totals, incr: Refs, r: Refs)
    requires Balance(share, held, t, incr)
    ensures Balance(share, Minus(held, r), Dropped(t, r), incr)
  {
  }

  lemma CloseIs(reqs: seq<Request>, st: State, e: Event, st': State)
    requires Step(reqs, st, e, st') && (e.CloseOuter? || e.FreeOuter?)
    ensures |st.workers| == |reqs| && st.slot.Present? && st.slot.id in st.data
    ensures st' == Released(st, if e.CloseOuter? then Refs(0, st.slot.share.write) else Refs(st.slot.share.read, 0))
  {
  }

  lemma {:induction false} ReleaseConserves(reqs: seq<Request>, st: State, r: Refs)
    requires |st.workers| == |reqs| && st.slot.Present? && st.slot.id in st.data
    requires r == Refs(0, st.slot.share.write) || r == Refs(st.slot.share.read, 0)
    requires OneWinner(st.slot, st.workers) && Conserved(reqs, st)
    ensures |Released(st, r).workers| == |reqs| && Conserved(reqs, Released(st, r))
  {
    hide OneWinner, AllGiven, Balance;
    StoringIsNotPresent(st.slot, st.workers);
    forall c | 0 <= c < |reqs| && Creator(st.workers[c])
      ensures Balance(Minus(st.slot.share, r), st.held, LetGo(st.totals, r), reqs[c].incr) {
      BalanceRelease(st.slot.share, st.held, st.totals, reqs[c].incr, r);
    }
  }

  lemma BalanceRelease(share: Refs, held: Refs, t: Totals, incr: Refs, r: Refs)
    requires Balance(share, held, t, incr)
    ensures Balance(Minus(share, r), held, LetGo(t, r), incr)
  {
  }

  lemma {:induction false} CreateConserves(reqs: seq<Request>, st: State, w: nat, id: Id, st': State)
    requires Step(reqs, st, Create(w, id), st') && Conserved(reqs, st)
    ensures Conserved(reqs, st')
  {
    hide AllGiven, Balance, Plus, AtLeast;
    GivenStays(reqs, st.workers, w, Storing(id));
  }

  lemma {:induction false} StoreConserves(reqs: seq<Request>, st: State, w: nat, st': State)
    requires GoodRequests(reqs) && Step(reqs, st, Store(w), st')
    requires OneWinner(st.slot, st.workers) && Conserved(reqs, st)
    ensures Conserved(reqs, st')
  {
    hide AllGiven, OneWinner, Balance, Conserved;
    if !Open(st.outer) {
      MoveConserves(reqs, st, w, Failed(true), st.slot);
    } else {
      StoredConserves(reqs, st, w);
    }
  }

  lemma {:induction false} StoredConserves(reqs: seq<Request>, st: State, w: nat)
    requires GoodRequests(reqs) && Enabled(reqs, st, Store(w)) && Open(st.outer)
    requires OneWinner(st.slot, st.workers) && Conserved(reqs, st)
    ensures Conserved(reqs, Apply(reqs, st, Store(w)))
  {
    hide AllGiven, OneWinner, Balance, Accounts, Plus, AtLeast;
    var id := st.workers[w].id;
    OneStores(st.slot, st.workers, w);
    GivenFinishes(reqs, st.workers, w, Finished(id, true));
    NoCreator(st.slot, st.workers);
    FirstAccounts(st.slot, st.data, st.held, AllGiven(reqs, st.workers, |reqs|), st.totals, id, reqs[w].incr);
    FirstBalance(st.held, st.totals, reqs[w].incr);
  }

  lemma {:induction false} FirstAccounts(slot: Slot, data: map<Id, Refs>, held: Refs, given: Refs, t: Totals, id: Id,
                                         incr: Refs)
    requires Accounts(slot, data, held, given, t) && !slot.Present? && AtLeast(incr, Zero())
    requires id in data && data[id] == Plus(Init(), incr)
    ensures Accounts(Present(id, Init()), data, Plus(held, incr), Plus(given, incr), t)
    ensures held == Zero() && t == Nothing()
  {
    PlusZero(incr);
    PlusZero(Zero());
    hide Plus;
  }

  lemma PlusZero(a: Refs)
    ensures Plus(Zero(), a) == a && Plus(a, Zero()) == a
  {
  }

  lemma FirstBalance(held: Refs, t: Totals, incr: Refs)
    requires held == Zero() && t == Nothing()
    ensures Balance(Init(), Plus(held, incr), t, incr)
  {
  }

  lemma NoCreator(slot: Slot, ws: seq<Worker>)
    requires OneWinner(slot, ws) && !slot.Present?
    ensures forall i :: 0 <= i < |ws| ==> !Creator(ws[i])
  {
  }

  lemma OneStores(slot: Slot, ws: seq<Worker>, w: nat)
    requires OneWinner(slot, ws) && w < |ws| && ws[w].Storing?
    ensures slot.Reserved? && forall i :: 0 <= i < |ws| && ws[i].Storing? ==> i == w
  {
  }

  lemma {:induction false} StepKeepsOuter(reqs: seq<Request>, outer0: Refs, st: State, e: Event, st': State)
    requires Step(reqs, st, e, st') && st.outer == Minus(outer0, AllTaken(reqs, st.workers, |reqs|))
    ensures |st'.workers| == |reqs| && st'.outer == Minus(outer0, AllTaken(reqs, st'.workers, |reqs|))
  {
    hide AllTaken;
    if e.Drop? || e.CloseOuter? || e.FreeOuter? || st' == st {
    } else {
      TakenChange(reqs, st.workers, e.w, st'.workers[e.w], |reqs|);
      OuterStep(reqs, st, e, st');
    }
  }

  /** A worker takes its references from the outer container in the step that finishes it. */
  lemma OuterStep(reqs: seq<Request>, st: State, e: Event, st': State)
    requires Step(reqs, st, e, st') && !e.Drop? && !e.CloseOuter? && !e.FreeOuter? && st' != st
    ensures e.w < |reqs| && |st'.workers| == |reqs| && !st.workers[e.w].Finished?
    ensures st'.workers == st.workers[e.w := st'.workers[e.w]]
    ensures st'.outer == Minus(st.outer, Taken(reqs[e.w], st'.workers[e.w]))
  {
  }
}
