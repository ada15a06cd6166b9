/** What racing workers are promised. */
module CreateNestedTheorems {
  import opened Refcounts
  import opened CreateNested

  lemma {:induction false} StepKeepsInv(reqs: seq<Request>, outer0: Refs, st: State, e: Event, st': State)
    requires GoodRequests(reqs) && Step(reqs, st, e, st') && Inv(reqs, outer0, st)
    ensures Inv(reqs, outer0, st')
  {
    StepKeepsOneWinner(reqs, st, e, st');
    StepKeepsConserved(reqs, st, e, st');
    StepKeepsOuter(reqs, outer0, st, e, st');
    hide Step, OneWinner, Conserved, AllTaken;
  }

  /** Every state of every run, whatever the interleaving. */
  lemma {:induction false} RunInv(reqs: seq<Request>, run: seq<State>)
    requires GoodRequests(reqs) && IsRun(reqs, run)
    ensures Inv(reqs, run[0].outer, run[|run| - 1])
  {
    if |run| == 1 {
      InitialInv(reqs, run[0]);
    } else {
      var front := run[..|run| - 1];
      assert forall i :: 0 <= i < |front| ==> front[i] == run[i];
      RunInv(reqs, front);
      assert Next(reqs, run[|run| - 2], run[|run| - 1]);
      var e :| Step(reqs, run[|run| - 2], e, run[|run| - 1]);
      StepKeepsInv(reqs, run[0].outer, run[|run| - 2], e, run[|run| - 1]);
    }
  }

  /** However many workers race, one creates the datum and all return it.  While the slot is
      reserved, exactly one worker stands between reserving and storing. */
  lemma {:induction false} ExactlyOneCreates(reqs: seq<Request>, run: seq<State>)
    requires GoodRequests(reqs) && IsRun(reqs, run)
    ensures var st := run[|run| - 1];
      && |st.workers| == |reqs|
      && (forall i, j :: 0 <= i < |reqs| && 0 <= j < |reqs| && st.workers[i].Finished? && st.workers[j].Finished?
            ==> st.workers[i].id == st.workers[j].id && (st.workers[i].created && st.workers[j].created ==> i == j))
      && ((exists i :: 0 <= i < |reqs| && st.workers[i].Finished?) ==>
            exists c :: 0 <= c < |reqs| && Creator(st.workers[c]))
      && (st.slot.Reserved? <==> exists i :: 0 <= i < |reqs| && Reserving(st.workers[i]))
      && (forall i, j :: 0 <= i < |reqs| && 0 <= j < |reqs| && Reserving(st.workers[i]) && Reserving(st.workers[j])
            ==> i == j)
  {
    RunInv(reqs, run);
    OneWinnerMeans(run[|run| - 1].slot, run[|run| - 1].workers);
  }

  lemma OneWinnerMeans(slot: Slot, ws: seq<Worker>)
    requires OneWinner(slot, ws)
    ensures forall i, j :: 0 <= i < |ws| && 0 <= j < |ws| && ws[i].Finished? && ws[j].Finished? ==>
              ws[i].id == ws[j].id && (ws[i].created && ws[j].created ==> i == j)
    ensures (exists i :: 0 <= i < |ws| && ws[i].Finished?) ==> exists c :: 0 <= c < |ws| && Creator(ws[c])
    ensures forall i, j :: 0 <= i < |ws| && 0 <= j < |ws| && Reserving(ws[i]) && Reserving(ws[j]) ==> i == j
  {
  }

  /** Every worker's references are taken from the outer container and handed out for it exactly
      once, when it finishes: what finished workers were to get is what callers hold or have
      dropped.  The new datum's counts are the slot's share and what callers hold; and with what
      was dropped and let go they are what it was created with, `2 << 24` of each kind and the creator's own, and
      what was added. */
  lemma {:induction false} RefcountsConserved(reqs: seq<Request>, run: seq<State>)
    requires GoodRequests(reqs) && IsRun(reqs, run)
    ensures var st := run[|run| - 1];
      && |st.workers| == |reqs|
      && st.outer == Minus(run[0].outer, AllTaken(reqs, st.workers, |reqs|))
      && AllGiven(reqs, st.workers, |reqs|) == Plus(st.held, st.totals.dropped)
      && (st.slot.Present? ==>
            && st.slot.id in st.data && AtLeast(st.slot.share, Zero())
            && st.data[st.slot.id] == Plus(st.slot.share, st.held)
            && forall c :: 0 <= c < |reqs| && Creator(st.workers[c]) ==>
                 Plus(Plus(st.slot.share, st.held), Plus(st.totals.dropped, st.totals.released))
                 == Plus(Refs(33554432, 33554432), Plus(reqs[c].incr, st.totals.added)))
  {
    RunInv(reqs, run);
    InvParts(reqs, run[0].outer, run[|run| - 1]);
    hide Inv, Step, AllGiven, AllTaken, OneWinner;
  }

  lemma {:induction false} InvParts(reqs: seq<Request>, outer0: Refs, st: State)
    requires Inv(reqs, outer0, st)
    ensures |st.workers| == |reqs| && OneWinner(st.slot, st.workers)
    ensures st.outer == Minus(outer0, AllTaken(reqs, st.workers, |reqs|))
    ensures Accounts(st.slot, st.data, st.held, AllGiven(reqs, st.workers, |reqs|), st.totals)
    ensures Balanced(reqs, st.workers, st.slot, st.held, st.totals)
  {
    hide OneWinner, Accounts, Balanced, AllTaken, AllGiven;
  }

  // ---------------------------------------------------------------- the share suffices

  function TotalIncr(reqs: seq<Request>, n: nat): Refs
    requires n <= |reqs|
  {
    if n == 0 then Zero() else Plus(TotalIncr(reqs, n - 1), reqs[n-1].incr)
  }

  function TotalDecr(reqs: seq<Request>, n: nat): Refs
    requires n <= |reqs|
  {
    if n == 0 then Zero() else Plus(TotalDecr(reqs, n - 1), reqs[n-1].decr)
  }

  lemma {:induction false} GivenWithinTotal(reqs: seq<Request>, ws: seq<Worker>, n: nat)
    requires GoodRequests(reqs) && n <= |ws| && n <= |reqs|
    ensures AtLeast(TotalIncr(reqs, n), AllGiven(reqs, ws, n))
    ensures AtLeast(AllGiven(reqs, ws, n), Zero())
  {
    if n > 0 { GivenWithinTotal(reqs, ws, n - 1); }
  }

  /** An unfinished worker's share of the total is still to come. */
  lemma {:induction false} GivenWithoutOne(reqs: seq<Request>, ws: seq<Worker>, w: nat, n: nat)
    requires GoodRequests(reqs) && w < n <= |ws| && n <= |reqs| && !ws[w].Finished?
    ensures AtLeast(TotalIncr(reqs, n), Plus(AllGiven(reqs, ws, n), reqs[w].incr))
  {
    if w == n - 1 { GivenWithinTotal(reqs, ws, n - 1); } else { GivenWithoutOne(reqs, ws, w, n - 1); }
  }

  lemma {:induction false} TakenWithinTotal(reqs: seq<Request>, ws: seq<Worker>, n: nat)
    requires GoodRequests(reqs) && n <= |ws| && n <= |reqs|
    ensures AtLeast(TotalDecr(reqs, n), AllTaken(reqs, ws, n))
  {
    if n > 0 { TakenWithinTotal(reqs, ws, n - 1); }
  }

  lemma {:induction false} TakenWithoutOne(reqs: seq<Request>, ws: seq<Worker>, w: nat, n: nat)
    requires GoodRequests(reqs) && w < n <= |ws| && n <= |reqs| && !ws[w].Finished?
    ensures AtLeast(TotalDecr(reqs, n), Plus(AllTaken(reqs, ws, n), reqs[w].decr))
  {
    if w == n - 1 { TakenWithinTotal(reqs, ws, n - 1); } else { TakenWithoutOne(reqs, ws, w, n - 1); }
  }

  /** The server adds to the inner datum only what the share is short of. */
  predicate Thrifty(reqs: seq<Request>, st: State, e: Event) {
    match e
    case Insert(w, t) => st.slot.Present? && w < |reqs| ==> t == Shortfall(st.slot.share, reqs[w].incr)
    case Poll(w, t) => st.slot.Present? && w < |reqs| ==> t == Shortfall(st.slot.share, reqs[w].incr)
    case _ => true
  }

  ghost predicate IsThriftyRun(reqs: seq<Request>, run: seq<State>, events: seq<Event>) {
    |run| == |events| + 1 && Initial(reqs, run[0])
    && forall i :: 0 <= i < |events| ==>
         Step(reqs, run[i], events[i], run[i + 1]) && Thrifty(reqs, run[i], events[i])
  }

  /** Nothing is added of a kind of which the slot's share was not let go. */
  predicate AddedAfterRelease(t: Totals) {
    && (t.released.read == 0 ==> t.added.read == 0)
    && (t.released.write == 0 ==> t.added.write == 0)
  }

  /** A worker is served without touching any datum, but for counts whose share was let go. */
  predicate Untouched(st: State, e: Event, st': State) {
    (e.Insert? || e.Poll?) ==>
      forall id :: id in st.data ==>
        id in st'.data
        && (st.totals.released.read == 0 ==> st'.data[id].read == st.data[id].read)
        && (st.totals.released.write == 0 ==> st'.data[id].write == st.data[id].write)
  }

  /** When the requests add up to no more than `2 << 24`, the datum was created with enough for
      everybody: in every run the server touches it to serve a worker only once the share of
      that kind was let go, as the outer container was closed or collected. */
  lemma {:induction false} ShareSuffices(reqs: seq<Request>, run: seq<State>, events: seq<Event>, n: nat)
    requires GoodRequests(reqs) && IsThriftyRun(reqs, run, events) && n < |run|
    requires TotalIncr(reqs, |reqs|).read <= 33554432 && TotalIncr(reqs, |reqs|).write <= 33554432
    ensures Inv(reqs, run[0].outer, run[n]) && AddedAfterRelease(run[n].totals)
    ensures forall i :: 0 <= i < n ==> Untouched(run[i], events[i], run[i + 1])
  {
    hide GoodRequests, Step, Thrifty, Inv, AddedAfterRelease, Untouched, TotalIncr, Initial, AtLeast;
    if n == 0 {
      InitialInv(reqs, run[0]);
      NothingAdded(reqs, run[0]);
    } else {
      ShareSuffices(reqs, run, events, n - 1);
      assert AtLeast(Init(), TotalIncr(reqs, |reqs|)) by { AtLeastIs(TotalIncr(reqs, |reqs|)); }
      StepKeepsInv(reqs, run[0].outer, run[n-1], events[n-1], run[n]);
      StepTouchesNothing(reqs, run[0].outer, run[n-1], events[n-1], run[n]);
    }
  }

  lemma AtLeastIs(total: Refs)
    ensures AtLeast(Init(), total) <==> total.read <= 33554432 && total.write <= 33554432
  {
  }

  lemma NothingAdded(reqs: seq<Request>, st: State)
    requires Initial(reqs, st)
    ensures AddedAfterRelease(st.totals)
  {
  }

  lemma {:induction false} StepTouchesNothing(reqs: seq<Request>, outer0: Refs, st: State, e: Event, st': State)
    requires GoodRequests(reqs) && Step(reqs, st, e, st') && Thrifty(reqs, st, e) && Inv(reqs, outer0, st)
    requires AtLeast(Init(), TotalIncr(reqs, |reqs|)) && AddedAfterRelease(st.totals)
    ensures AddedAfterRelease(st'.totals) && Untouched(st, e, st')
  {
    hide *;
    if e.Insert? || e.Poll? {
      WorkerWaits(reqs, st, e, st');
      if Served(st, e, st') {
        EnoughLeft(reqs, outer0, st, e.w);
        ServedTouchesNothing(reqs, st, e, st');
      } else {
        NotServed(reqs, st, e, st');
      }
    } else {
      OtherTotals(reqs, outer0, st, e, st');
    }
  }

  predicate Served(st: State, e: Event, st': State) {
    (e.Insert? || e.Poll?) && st.slot.Present? && st'.slot.Present? && e.w < |st'.workers| && st'.workers[e.w].Finished?
  }

  lemma WorkerWaits(reqs: seq<Request>, st: State, e: Event, st': State)
    requires Step(reqs, st, e, st') && (e.Insert? || e.Poll?)
    ensures |st.workers| == |reqs| && e.w < |reqs| && !st.workers[e.w].Finished?
    ensures Served(st, e, st') ==> st.slot.Present?
  {
  }

  lemma {:induction false} NotServed(reqs: seq<Request>, st: State, e: Event, st': State)
    requires Step(reqs, st, e, st') && (e.Insert? || e.Poll?) && !Served(st, e, st') && AddedAfterRelease(st.totals)
    ensures AddedAfterRelease(st'.totals) && Untouched(st, e, st')
  {
    hide AddedAfterRelease;
  }

  lemma {:induction false} OtherTotals(reqs: seq<Request>, outer0: Refs, st: State, e: Event, st': State)
    requires Step(reqs, st, e, st') && !e.Insert? && !e.Poll? && AddedAfterRelease(st.totals) && Inv(reqs, outer0, st)
    ensures AddedAfterRelease(st'.totals) && Untouched(st, e, st')
  {
    InvParts(reqs, outer0, st);
    hide Inv, Balanced, OneWinner, AllTaken, AllGiven;
  }

  lemma ServedTouchesNothing(reqs: seq<Request>, st: State, e: Event, st': State)
    requires Step(reqs, st, e, st') && Thrifty(reqs, st, e) && Served(st, e, st') && e.w < |reqs|
    requires AddedAfterRelease(st.totals) && Enough(st, reqs[e.w].incr)
    ensures AddedAfterRelease(st'.totals) && Untouched(st, e, st')
  {
  }

  /** The share covers a request, but for kinds that were let go. */
  predicate Enough(st: State, incr: Refs) {
    st.slot.Present? ==>
      && (st.totals.released.read == 0 ==> st.slot.share.read >= incr.read)
      && (st.totals.released.write == 0 ==> st.slot.share.write >= incr.write)
  }

  lemma {:induction false} EnoughLeft(reqs: seq<Request>, outer0: Refs, st: State, w: nat)
    requires GoodRequests(reqs) && Inv(reqs, outer0, st) && |st.workers| == |reqs| && w < |reqs|
    requires !st.workers[w].Finished? && AddedAfterRelease(st.totals) && st.slot.Present?
    requires AtLeast(Init(), TotalIncr(reqs, |reqs|))
    ensures Enough(st, reqs[w].incr)
  {
    InvParts(reqs, outer0, st);
    GivenWithoutOne(reqs, st.workers, w, |reqs|);
    var c := SomeCreator(st.slot, st.workers);
    hide Inv, OneWinner, AllTaken, AllGiven, TotalIncr;
    assert AtLeast(reqs[c].incr, Zero());
    LeftInShare(st.slot.share, st.held, st.totals, AllGiven(reqs, st.workers, |reqs|), reqs[c].incr,
                TotalIncr(reqs, |reqs|), reqs[w].incr);
  }

  lemma {:induction false} SomeCreator(slot: Slot, ws: seq<Worker>) returns (c: nat)
    requires OneWinner(slot, ws) && slot.Present?
    ensures c < |ws| && Creator(ws[c])
  {
    c :| c < |ws| && Creator(ws[c]);
  }

  lemma LeftInShare(share: Refs, held: Refs, t: Totals, given: Refs, first: Refs, total: Refs, incr: Refs)
    requires Balance(share, held, t, first) && given == Plus(held, t.dropped) && AtLeast(first, Zero())
    requires AtLeast(Init(), total) && AtLeast(total, Plus(given, incr)) && AddedAfterRelease(t)
    ensures t.released.read == 0 ==> share.read >= incr.read
    ensures t.released.write == 0 ==> share.write >= incr.write
  {
  }

  // ---------------------------------------------------------------- errors

  /** The outer container is open whenever an unfinished worker needs it, as long as it has the
      references the workers are to take: one more than that, or one of this worker's own. */
  lemma {:induction false} OpenWhileNeeded(reqs: seq<Request>, run: seq<State>, w: nat)
    requires GoodRequests(reqs) && IsRun(reqs, run) && w < |reqs|
    requires var total := TotalDecr(reqs, |reqs|).write;
      run[0].outer.write > total || (run[0].outer.write == total && reqs[w].decr.write > 0)
    ensures |run[|run| - 1].workers| == |reqs|
    ensures !run[|run| - 1].workers[w].Finished? ==> Open(run[|run| - 1].outer)
  {
    var st := run[|run| - 1];
    RunInv(reqs, run);
    InvParts(reqs, run[0].outer, st);
    if !st.workers[w].Finished? { TakenWithoutOne(reqs, st.workers, w, |reqs|); }
    hide IsRun, Inv, AllTaken, TotalDecr;
    if !st.workers[w].Finished? { assert AtLeast(reqs[w].decr, Zero()); }
  }

  /** The winner failed after reserving the slot: it stays reserved, and nobody is served. */
  predicate Orphaned(st: State, c: nat) {
    && c < |st.workers| && st.workers[c] == Failed(true) && st.slot.Reserved?
    && forall i :: 0 <= i < |st.workers| ==> !st.workers[i].Finished?
  }

  lemma {:induction false} OrphanedOnce(reqs: seq<Request>, outer0: Refs, st: State, c: nat)
    requires Inv(reqs, outer0, st) && c < |reqs| && st.workers[c] == Failed(true)
    ensures Orphaned(st, c)
  {
    InvParts(reqs, outer0, st);
    hide Inv, Accounts, Balanced, AllTaken, AllGiven;
  }

  lemma StepStaysFailed(reqs: seq<Request>, st: State, e: Event, st': State, c: nat)
    requires Step(reqs, st, e, st') && c < |reqs| && st.workers[c] == Failed(true)
    ensures |st'.workers| == |reqs| && st'.workers[c] == Failed(true)
  {
  }

  /** From then on, in every later state of the run, whatever anybody does. */
  lemma {:induction false} OrphanedForever(reqs: seq<Request>, run: seq<State>, i: nat, j: nat, c: nat)
    requires GoodRequests(reqs) && IsRun(reqs, run) && i <= j < |run|
    requires c < |run[i].workers| && run[i].workers[c] == Failed(true)
    ensures Orphaned(run[j], c)
    decreases j
  {
    hide *;
    StateInv(reqs, run, j);
    if i < j {
      OrphanedForever(reqs, run, i, j - 1, c);
      FailedIs(run[j-1], c);
      StateInv(reqs, run, j - 1);
      var e := StepAt(reqs, run, j);
      StepStaysFailed(reqs, run[j-1], e, run[j], c);
    }
    OrphanedOnce(reqs, run[0].outer, run[j], c);
  }

  lemma FailedIs(st: State, c: nat)
    requires Orphaned(st, c)
    ensures c < |st.workers| && st.workers[c] == Failed(true)
  {
  }

  lemma {:induction false} StepAt(reqs: seq<Request>, run: seq<State>, j: nat) returns (e: Event)
    requires IsRun(reqs, run) && 0 < j < |run|
    ensures Step(reqs, run[j-1], e, run[j])
  {
    assert Next(reqs, run[j-1], run[j]);
    e :| Step(reqs, run[j-1], e, run[j]);
  }

  lemma {:induction false} StateInv(reqs: seq<Request>, run: seq<State>, j: nat)
    requires GoodRequests(reqs) && IsRun(reqs, run) && j < |run|
    ensures |run| > 0 && Inv(reqs, run[0].outer, run[j]) && |run[j].workers| == |reqs|
  {
    hide GoodRequests, Next, Initial, Inv;
    var front := run[..j + 1];
    assert forall i :: 0 <= i < |front| ==> front[i] == run[i];
    RunInv(reqs, front);
    InvParts(reqs, run[0].outer, run[j]);
  }

  // ---------------------------------------------------------------- progress

  function Left(pc: Worker): nat {
    match pc
    case Start => 3 case Creating => 2 case Storing(_) => 1 case Polling => 1 case _ => 0
  }

  function AllLeft(ws: seq<Worker>, n: nat): nat
    requires n <= |ws|
  {
    if n == 0 then 0 else AllLeft(ws, n - 1) + Left(ws[n-1])
  }

  lemma {:induction false} LeftChange(ws: seq<Worker>, w: nat, pc: Worker, n: nat)
    requires w < |ws| && n <= |ws|
    ensures AllLeft(ws[w := pc], n) == AllLeft(ws, n) + if w < n then Left(pc) - Left(ws[w]) else 0
  {
    hide Left;
    if n > 0 { LeftChange(ws, w, pc, n - 1); }
  }

  /** A worker's step either finds the slot still reserved and changes nothing, or brings the
      workers closer to their end; so there are at most three such steps for each. */
  lemma {:induction false} WorkerStepsCount(reqs: seq<Request>, st: State, e: Event, st': State)
    requires Step(reqs, st, e, st') && !e.Drop? && !e.CloseOuter? && !e.FreeOuter?
    ensures |st'.workers| == |st.workers|
    ensures st' == st || AllLeft(st'.workers, |reqs|) < AllLeft(st.workers, |reqs|)
  {
    if st' != st {
      OuterStep(reqs, st, e, st');
      LeftChange(st.workers, e.w, st'.workers[e.w], |reqs|);
      hide AllLeft;
    }
  }

  lemma {:induction false} FreshId(ids: set<Id>) returns (id: Id)
    ensures id !in ids && forall x :: x in ids ==> x < id
    decreases |ids|
  {
    id := 0;
    if ids != {} {
      var x :| x in ids;
      var y := FreshId(ids - {x});
      id := if x < y then y else x + 1;
      forall z | z in ids ensures z < id { assert z == x || z in ids - {x}; }
    }
  }

  /** What may happen in a state of a run: callers drop what they hold; the share goes once the outer
      container is closed or collected; a worker under way makes its next call, with any fresh id, and
      its create may fail. */
  lemma {:induction false} EventsMay(reqs: seq<Request>, outer0: Refs, st: State, w: nat, id: Id, r: Refs)
    requires Inv(reqs, outer0, st) && w < |reqs| && id !in st.data
    ensures st.slot.Present? && 0 <= r.read <= st.held.read && 0 <= r.write <= st.held.write ==>
      Enabled(reqs, st, Drop(r))
    ensures st.slot.Present? && st.outer.write <= 0 ==> Enabled(reqs, st, CloseOuter)
    ensures st.slot.Present? && st.outer.write <= 0 && st.outer.read <= 0 ==> Enabled(reqs, st, FreeOuter)
    ensures |st.workers| == |reqs|
    ensures st.workers[w].Creating? ==> Enabled(reqs, st, Create(w, id)) && Enabled(reqs, st, CreateFails(w))
    ensures st.workers[w].Storing? ==> Enabled(reqs, st, Store(w))
    ensures st.workers[w].Start? && r.read >= 0 && r.write >= 0
            && r.read >= reqs[w].incr.read && r.write >= reqs[w].incr.write ==>
      Enabled(reqs, st, Insert(w, r))
    ensures st.workers[w].Polling? && r.read >= 0 && r.write >= 0
            && r.read >= reqs[w].incr.read && r.write >= reqs[w].incr.write ==>
      Enabled(reqs, st, Poll(w, r))
  {
    InvParts(reqs, outer0, st);
    hide Inv, OneWinner, Balanced, AllTaken, AllGiven;
  }

  predicate Over(pc: Worker) { pc.Finished? || pc.Failed? }

  /** Until everybody is done, somebody can take a step that counts, unless the winner failed
      after reserving the slot. */
  lemma {:induction false} NoDeadlock(reqs: seq<Request>, outer0: Refs, st: State, w: nat)
    requires GoodRequests(reqs) && Inv(reqs, outer0, st) && w < |reqs| && !Over(st.workers[w])
    requires forall i :: 0 <= i < |reqs| ==> st.workers[i] != Failed(true)
    ensures exists e, st' :: Step(reqs, st, e, st') && st' != st && !e.Drop? && !e.CloseOuter? && !e.FreeOuter?
  {
    InvParts(reqs, outer0, st);
    hide Inv, Step, OneWinner, Accounts, Balanced, AllTaken, AllGiven, GoodRequests;
    match st.workers[w] {
      case Start => StarterMoves(reqs, outer0, st, w);
      case Creating => CreatorMoves(reqs, st, w);
      case Storing(_) => CreatorMoves(reqs, st, w);
      case Polling => PollerMoves(reqs, outer0, st, w);
    }
  }

  lemma {:induction false} StarterMoves(reqs: seq<Request>, outer0: Refs, st: State, w: nat)
    requires GoodRequests(reqs) && Inv(reqs, outer0, st) && w < |reqs| && st.workers[w].Start?
    ensures exists e, st' :: Step(reqs, st, e, st') && st' != st && !e.Drop? && !e.CloseOuter? && !e.FreeOuter?
  {
    InvParts(reqs, outer0, st);
    hide Inv, OneWinner, AllGiven, AllTaken, Balanced;
    if !Alive(st.outer) || (st.slot.Absent? && !Open(st.outer)) {
      Moves(reqs, st, Insert(w, Zero()), With(st, w, Failed(false)));
    } else if st.slot.Absent? {
      Moves(reqs, st, Insert(w, Zero()), With(st, w, Creating).(slot := Reserved));
    } else if st.slot.Reserved? {
      Moves(reqs, st, Insert(w, Zero()), With(st, w, Polling));
    } else {
      Moves(reqs, st, Insert(w, reqs[w].incr), HandOut(st, w, reqs[w], reqs[w].incr));
    }
  }

  lemma {:induction false} PollerMoves(reqs: seq<Request>, outer0: Refs, st: State, w: nat)
    requires GoodRequests(reqs) && Inv(reqs, outer0, st) && w < |reqs| && st.workers[w].Polling?
    requires forall i :: 0 <= i < |reqs| ==> st.workers[i] != Failed(true)
    ensures exists e, st' :: Step(reqs, st, e, st') && st' != st && !e.Drop? && !e.CloseOuter? && !e.FreeOuter?
  {
    InvParts(reqs, outer0, st);
    hide Inv, AllGiven, AllTaken, Balanced;
    if !Alive(st.outer) {
      Moves(reqs, st, Poll(w, Zero()), With(st, w, Failed(false)));
    } else if st.slot.Present? {
      Moves(reqs, st, Poll(w, reqs[w].incr), HandOut(st, w, reqs[w], reqs[w].incr));
    } else {
      assert st.slot.Reserved?;
      var c :| 0 <= c < |st.workers| && Reserving(st.workers[c]);
      CreatorMoves(reqs, st, c);
    }
  }

  lemma Moves(reqs: seq<Request>, st: State, e: Event, st': State)
    requires Step(reqs, st, e, st') && !e.Drop? && !e.CloseOuter? && !e.FreeOuter?
    requires e.w < |st.workers| && e.w < |st'.workers| && st.workers[e.w] != st'.workers[e.w]
    ensures exists e, st' :: Step(reqs, st, e, st') && st' != st && !e.Drop? && !e.CloseOuter? && !e.FreeOuter?
  {
  }

  lemma {:induction false} CreatorMoves(reqs: seq<Request>, st: State, c: nat)
    requires |st.workers| == |reqs| && c < |reqs| && (st.workers[c].Creating? || st.workers[c].Storing?)
    ensures exists e, st' :: Step(reqs, st, e, st') && st' != st && !e.Drop? && !e.CloseOuter? && !e.FreeOuter?
  {
    if st.workers[c].Creating? {
      var id := FreshId(st.data.Keys);
      Moves(reqs, st, Create(c, id),
            With(st, c, Storing(id)).(data := st.data[id := Plus(Init(), reqs[c].incr)]));
    } else if !Open(st.outer) {
      Moves(reqs, st, Store(c), With(st, c, Failed(true)));
    } else {
      var id := st.workers[c].id;
      Moves(reqs, st, Store(c),
            With(st, c, Finished(id, true)).(slot := Present(id, Init()), outer := Minus(st.outer, reqs[c].decr),
                                             held := Plus(st.held, reqs[c].incr)));
    }
  }
}
