/** `ADLB_Create_Nested_Impl` as the worker runs it, with the other workers' calls in between. */
module CreateNestedRuntime {
  import opened Refcounts
  import opened CreateNested
  import opened CreateNestedTheorems

  datatype Outcome = Returned(id: Id) | TclError | StillPolling

  // ---------------------------------------------------------------- what the others do

  /** A step of somebody else than worker `me`. */
  predicate Foreign(e: Event, me: nat) {
    e.Drop? || e.CloseOuter? || e.FreeOuter? || e.w != me
  }

  /** The state once the others have taken their turn; what cannot be done when its time comes is
      dropped. */
  function Played(reqs: seq<Request>, st: State, me: nat, events: seq<Event>): State
    decreases |events|
  {
    if |events| == 0 then st
    else
      var before := Played(reqs, st, me, events[..|events| - 1]);
      var e := events[|events| - 1];
      if Enabled(reqs, before, e) && Foreign(e, me) then Apply(reqs, before, e) else before
  }

  /** Any steps of the others can be played. */
  lemma {:induction false} PlayedIsAnyRun(reqs: seq<Request>, me: nat, events: seq<Event>, states: seq<State>)
    requires |states| == |events| + 1
    requires forall i :: 0 <= i < |events| ==> Step(reqs, states[i], events[i], states[i + 1])
    requires forall i :: 0 <= i < |events| ==>
      match events[i]
      case Insert(w, _) => w != me case Create(w, _) => w != me case CreateFails(w) => w != me
      case Store(w) => w != me case Poll(w, _) => w != me
      case _ => true
    ensures Played(reqs, states[0], me, events) == states[|events|]
  {
    hide Enabled, Apply;
    if |events| > 0 {
      var n := |events| - 1;
      PlayedIsAnyRun(reqs, me, events[..n], states[..n + 1]);
      assert Step(reqs, states[n], events[n], states[n + 1]);
    }
  }

  function Turn(turns: seq<seq<Event>>, i: nat): seq<Event> {
    if i < |turns| then turns[i] else []
  }

  // ---------------------------------------------------------------- how a call ends

  /** The outer container was closed and collected. */
  predicate Gone(st: State) { st.outer.read <= 0 && st.outer.write <= 0 }

  /** Nobody has stored a value yet. */
  predicate KeepsWaiting(st: State) { !Gone(st) && st.slot.Reserved? }

  /** A worker finds a value: it is handed its references out of the share as far as that goes,
      only what is missing is added, and its references to the outer container are taken. */
  predicate ServedFrom(before: State, st: State, req: Request) {
    && before.slot.Present? && st.slot.Present? && st.slot.id == before.slot.id
    && st.slot.share.read ==
       (if before.slot.share.read > req.incr.read then before.slot.share.read - req.incr.read else 0)
    && st.slot.share.write ==
       (if before.slot.share.write > req.incr.write then before.slot.share.write - req.incr.write else 0)
    && st.held == Refs(before.held.read + req.incr.read, before.held.write + req.incr.write)
    && st.outer == Refs(before.outer.read - req.decr.read, before.outer.write - req.decr.write)
  }

  /** The winner has stored a reference to the new datum, which exists with `2 << 24` references of
      each kind for the slot and those asked for. */
  predicate StoredNew(before: State, st: State, id: Id, req: Request) {
    && st.slot == Present(id, Refs(33554432, 33554432))
    && id in st.data && st.data[id] == Refs(33554432 + req.incr.read, 33554432 + req.incr.write)
    && st.held == Refs(before.held.read + req.incr.read, before.held.write + req.incr.write)
    && st.outer == Refs(before.outer.read - req.decr.read, before.outer.write - req.decr.write)
  }

  /** What the first call decides.  `seen` holds the states in which the worker made its calls. */
  predicate Ends(seen: seq<State>, turns: nat, createFails: bool, req: Request, r: Outcome, pc: Worker, st: State)
    requires |seen| > 0
  {
    var first := seen[0];
    if Gone(first) || (first.slot.Absent? && first.outer.write <= 0) then
      |seen| == 1 && r == TclError && pc == Failed(false)
    else
      match first.slot
      case Present(id, _) => |seen| == 1 && r == Returned(id) && pc == Finished(id, false) && ServedFrom(first, st, req)
      case Absent => WinnerEnds(seen, createFails, req, r, pc, st)
      case Reserved => PollerEnds(seen, turns, req, r, pc, st)
  }

  /** The winner returns the new datum if it could be created and the outer container is still
      open when the reference is stored; otherwise the slot is orphaned. */
  predicate WinnerEnds(seen: seq<State>, createFails: bool, req: Request, r: Outcome, pc: Worker, st: State) {
    if createFails then |seen| == 2 && r == TclError && pc == Failed(true)
    else
      && |seen| == 3
      && (if seen[2].outer.write > 0 then
            r.Returned? && r.id !in seen[1].data && pc == Finished(r.id, true) && StoredNew(seen[2], st, r.id, req)
          else r == TclError && pc == Failed(true))
  }

  /** A poller goes on while the slot is reserved, and ends with the first poll that finds a value
      or the container gone, or when there are no more turns. */
  predicate PollerEnds(seen: seq<State>, turns: nat, req: Request, r: Outcome, pc: Worker, st: State)
    requires |seen| > 0
  {
    var last := seen[|seen| - 1];
    && (forall k :: 1 <= k < |seen| - 1 ==> KeepsWaiting(seen[k]))
    && (if |seen| == 1 || KeepsWaiting(last) then
          r == StillPolling && pc == Polling && |seen| == (if turns == 0 then 1 else turns)
        else if Gone(last) then r == TclError && pc == Failed(false)
        else
          last.slot.Present? && r == Returned(last.slot.id) && pc == Finished(last.slot.id, false)
          && ServedFrom(last, st, req))
  }

  /** Between its calls the worker sees what the others made of what it left. */
  predicate Interleaved(reqs: seq<Request>, st0: State, me: nat, turns: seq<seq<Event>>, seen: seq<State>) {
    && |seen| > 0 && seen[0] == Played(reqs, st0, me, Turn(turns, 0))
    && (|seen| > 1 && seen[0].slot.Reserved? && me < |seen[0].workers| ==>
          PollsInTurn(reqs, With(seen[0], me, Polling), me, turns, seen, |seen|))
    && (|seen| > 1 && seen[0].slot.Absent? && me < |seen[0].workers| ==>
          && seen[1] == Played(reqs, With(seen[0], me, Creating).(slot := Reserved), me, Turn(turns, 1))
          && (|seen| > 2 ==> CreatedBetween(reqs, me, turns, seen[1], seen[2])))
  }

  /** The first `n` calls: a poll that finds nothing changes nothing. */
  predicate PollsInTurn(reqs: seq<Request>, st1: State, me: nat, turns: seq<seq<Event>>, seen: seq<State>, n: nat)
    requires 1 <= n <= |seen|
  {
    && (n > 1 ==> seen[1] == Played(reqs, st1, me, Turn(turns, 1)))
    && forall k :: 2 <= k < n ==> seen[k] == Played(reqs, seen[k-1], me, Turn(turns, k))
  }

  /** The worker creates a new datum, and the others take a turn before it stores a reference. */
  predicate CreatedBetween(reqs: seq<Request>, me: nat, turns: seq<seq<Event>>, before: State, after: State) {
    me < |reqs| && me < |before.workers| && me < |after.workers| && after.workers[me].Storing? &&
    var id := after.workers[me].id;
    var counts := Refs(33554432 + reqs[me].incr.read, 33554432 + reqs[me].incr.write);
    id !in before.data
    && after == Played(reqs, With(before, me, Storing(id)).(data := before.data[id := counts]), me, Turn(turns, 2))
  }

  lemma {:induction false} MorePolls(reqs: seq<Request>, st1: State, me: nat, turns: seq<seq<Event>>, seen: seq<State>,
                                     st: State)
    requires |seen| >= 1 && PollsInTurn(reqs, st1, me, turns, seen, |seen|)
    requires st == Played(reqs, if |seen| == 1 then st1 else seen[|seen| - 1], me, Turn(turns, |seen|))
    ensures PollsInTurn(reqs, st1, me, turns, seen + [st], |seen| + 1)
  {
    hide Played, Turn;
    var all := seen + [st];
    forall k | 2 <= k < |all| ensures all[k] == Played(reqs, all[k-1], me, Turn(turns, k)) {
      if k < |seen| { assert seen[k] == Played(reqs, seen[k-1], me, Turn(turns, k)); }
    }
  }

  // ---------------------------------------------------------------- the call

  /** Everything one process can do, from one state to another without touching worker `me`. */
  class Server {
    const reqs: seq<Request>
    var st: State
    ghost var run: seq<State>

    ghost predicate Valid()
      reads this
    {
      IsRun(reqs, run) && st == run[|run| - 1] && GoodRequests(reqs)
    }

    constructor (reqs: seq<Request>, outer: Refs, data: map<Id, Refs>)
      requires GoodRequests(reqs)
      ensures Valid() && this.reqs == reqs && st.outer == outer && st.data == data
      ensures |st.workers| == |reqs| && forall i :: 0 <= i < |reqs| ==> st.workers[i].Start?
    {
      this.reqs := reqs;
      var first := State(Absent, outer, data, Zero(), seq(|reqs|, i => Start), Nothing());
      st := first;
      run := [first];
    }

    method Perform(e: Event)
      requires Valid() && Enabled(reqs, st, e)
      modifies this
      ensures Valid() && old(run) <= run
      ensures st == Apply(reqs, old(st), e)
    {
      hide Enabled, Apply, Initial, GoodRequests;
      st := Apply(reqs, st, e);
      ghost var run' := run + [st];
      assert Step(reqs, run[|run| - 1], e, st);
      assert Next(reqs, run[|run| - 1], st);
      assert forall i :: 0 < i < |run'| ==> Next(reqs, run'[i-1], run'[i]);
      run := run';
    }

    /** The others' steps, in the order they come; those that cannot be taken are dropped. */
    method Others(me: nat, events: seq<Event>)
      requires Valid() && me < |st.workers|
      modifies this
      ensures Valid() && old(run) <= run && st == Played(reqs, old(st), me, events)
      ensures |st.workers| == |old(st).workers| && st.workers[me] == old(st).workers[me]
    {
      assert events[..|events|] == events;
      for i := 0 to |events|
        invariant Valid() && old(run) <= run && st == Played(reqs, old(st), me, events[..i])
        invariant |st.workers| == |old(st).workers| && st.workers[me] == old(st).workers[me]
      {
        hide GoodRequests, IsRun;
        assert events[..i + 1][..i] == events[..i];
        var e := events[i];
        if Enabled(reqs, st, e) && Foreign(e, me) {
          Perform(e);
        }
      }
    }

    /** What the server adds when it serves `me` now. */
    function Added(me: nat): Refs
      reads this
      requires me < |reqs|
    {
      if st.slot.Present? then Shortfall(st.slot.share, reqs[me].incr) else Zero()
    }

    /** The call.  `turns` holds what the others do before each of the worker's own calls; a
        worker still polling when they run out has not returned.  How it ends is decided by what
        its calls find, and by whether the datum can be created. */
    method CreateNested(me: nat, turns: seq<seq<Event>>, createFails: bool) returns (r: Outcome, ghost seen: seq<State>)
      requires Valid() && me < |reqs| && |st.workers| == |reqs| && st.workers[me].Start?
      modifies this
      ensures Valid() && old(run) <= run && |st.workers| == |reqs|
      ensures Interleaved(reqs, old(st), me, turns, seen)
      ensures Ends(seen, |turns|, createFails, reqs[me], r, st.workers[me], st)
    {
      hide GoodRequests, IsRun, Played, PollerEnds, WinnerEnds, PollsInTurn;
      Others(me, Turn(turns, 0));
      Serve(me);
      seen := [st];
      Perform(Insert(me, Added(me)));
      if st.workers[me].Failed? { return TclError, seen; }
      if st.workers[me].Creating? {
        r, seen := CreateAndStore(me, turns, createFails, seen);
      } else if st.workers[me].Polling? {
        r, seen := Wait(me, turns, seen);
      } else {
        r := Returned(st.workers[me].id);
      }
    }

    /** The slot is reserved: create the datum and store a reference to it. */
    method CreateAndStore(me: nat, turns: seq<seq<Event>>, createFails: bool, ghost first: seq<State>)
      returns (r: Outcome, ghost seen: seq<State>)
      requires Valid() && me < |reqs| && |st.workers| == |reqs| && st.workers[me].Creating? && |first| == 1
      modifies this
      ensures Valid() && old(run) <= run && |st.workers| == |reqs|
      ensures WinnerEnds(seen, createFails, reqs[me], r, st.workers[me], st) && first < seen
      ensures seen[1] == Played(reqs, old(st), me, Turn(turns, 1))
      ensures |seen| > 2 ==> CreatedBetween(reqs, me, turns, seen[1], seen[2])
    {
      hide GoodRequests, IsRun, Played;
      Others(me, Turn(turns, 1));
      seen := first + [st];
      if createFails {
        Perform(CreateFails(me));
        return TclError, seen;
      }
      FreshIdExists(st.data.Keys);
      var id :| id !in st.data;
      Perform(Create(me, id));
      Others(me, Turn(turns, 2));
      seen := seen + [st];
      StillThere(me);
      Perform(Store(me));
      r := if st.workers[me].Finished? then Returned(st.workers[me].id) else TclError;
    }

    /** Poll until there is a value. */
    method Wait(me: nat, turns: seq<seq<Event>>, ghost first: seq<State>) returns (r: Outcome, ghost seen: seq<State>)
      requires Valid() && me < |reqs| && |st.workers| == |reqs| && st.workers[me].Polling? && |first| == 1
      modifies this
      ensures Valid() && old(run) <= run && |st.workers| == |reqs|
      ensures first <= seen && PollerEnds(seen, |turns|, reqs[me], r, st.workers[me], st)
      ensures PollsInTurn(reqs, old(st), me, turns, seen, |seen|)
    {
      hide GoodRequests, IsRun, Played, ServedFrom;
      seen := first;
      r := StillPolling;
      var turn := 1;
      while r.StillPolling? && turn < |turns|
        invariant Valid() && old(run) <= run && |st.workers| == |reqs|
        invariant |seen| == turn && first <= seen && PollsInTurn(reqs, old(st), me, turns, seen, |seen|)
        invariant r.StillPolling? ==> st.workers[me].Polling? && st == if turn == 1 then old(st) else seen[turn-1]
        invariant r.StillPolling? ==> forall k :: 1 <= k < turn ==> KeepsWaiting(seen[k])
        invariant turn <= |turns| || turn == 1
        invariant !r.StillPolling? ==> PollerEnds(seen, |turns|, reqs[me], r, st.workers[me], st)
        decreases |turns| - turn
      {
        Others(me, turns[turn]);
        MorePolls(reqs, old(st), me, turns, seen, st);
        seen := seen + [st];
        r := PollOnce(me);
        turn := turn + 1;
      }
    }

    /** One poll. */
    method PollOnce(me: nat) returns (r: Outcome)
      requires Valid() && me < |reqs| && |st.workers| == |reqs| && st.workers[me].Polling?
      modifies this
      ensures Valid() && old(run) <= run && |st.workers| == |reqs|
      ensures r.StillPolling? <==> KeepsWaiting(old(st))
      ensures r.StillPolling? ==> st == old(st)
      ensures r.TclError? ==> Gone(old(st)) && st.workers[me] == Failed(false)
      ensures r.Returned? ==> !Gone(old(st)) && old(st).slot.Present? && r.id == old(st).slot.id
                              && st.workers[me] == Finished(r.id, false) && ServedFrom(old(st), st, reqs[me])
    {
      hide GoodRequests, IsRun;
      Serve(me);
      Perform(Poll(me, Added(me)));
      r := if st.workers[me].Finished? then Returned(st.workers[me].id)
           else if st.workers[me].Failed? then TclError else StillPolling;
    }

    /** In every state of a run the server can serve a worker, and nobody polls a subscript that is
        not there. */
    lemma {:induction false} Serve(me: nat)
      requires Valid() && me < |reqs|
      ensures st.slot.Present? ==> CanHandOut(st, reqs[me], Added(me))
      ensures |st.workers| == |reqs| && (st.workers[me].Polling? ==> !st.slot.Absent?)
    {
      RunInv(reqs, run);
      InvParts(reqs, run[0].outer, st);
    }

    /** The new datum waits for its reference with the counts it was created with. */
    lemma {:induction false} StillThere(me: nat)
      requires Valid() && me < |reqs| && me < |st.workers| && st.workers[me].Storing?
      ensures var id := st.workers[me].id;
        id in st.data && st.data[id] == Refs(33554432 + reqs[me].incr.read, 33554432 + reqs[me].incr.write)
    {
      RunInv(reqs, run);
      hide OneWinner, Accounts, Balanced, AllTaken, AllGiven;
    }
  }

  lemma {:induction false} FreshIdExists(ids: set<Id>)
    ensures exists id: Id :: id !in ids
  {
    var id := FreshId(ids);
  }
}
