/** `turbine_async_worker_loop` and `get_tasks` of code/src/turbine/async_exec.c. */
module AsyncWorker {
  import opened Options
  import opened AsyncTasks
  import opened AsyncExecutors
  import opened AsyncLoop
  import opened AsyncRing

  datatype ExecCode = Fine | ShutDown | TaskError | Other

  datatype Ending = Stopped | Broken | StillRunning

  /** A work unit left the result variable such that it cannot be set. */
  predicate SomeRefuses(work: seq<Script>) {
    exists k :: 0 <= k < |work| && work[k].leaves == Some(Refusing)
  }

  lemma {:induction false} RefusesLater(work: seq<Script>, s: Script, before: Variable, after: Variable)
    requires before.Refusing? ==> SomeRefuses(work)
    requires after == After(s, before)
    ensures after.Refusing? ==> SomeRefuses(work + [s])
  {
    if after.Refusing? {
      if s.leaves.Some? { assert (work + [s])[|work|] == s; }
      else {
        var k :| 0 <= k < |work| && work[k].leaves == Some(Refusing);
        assert (work + [s])[k] == work[k];
      }
    }
  }

  // ---------------------------------------------------------------- what a pass does

  /** How many requests bring those outstanding up to the smaller of the free slots and the
      buffers; none if there are that many. */
  function Missing(free: nat, buffers: nat, outstanding: nat): nat {
    if outstanding >= free || outstanding >= buffers then 0
    else if free <= buffers then free - outstanding else buffers - outstanding
  }

  /** The call for more requests, if any are missing; it may block if it is given leave to and there
      is no other request outstanding. */
  predicate Issues(issued: seq<Call>, missing: nat, outstanding: nat, mayBlock: bool) {
    if missing == 0 then issued == []
    else
      |issued| == 1 && issued[0].More? && issued[0].n == missing
      && (issued[0].block <==> mayBlock && outstanding == 0)
      && (issued[0].code.Success? || issued[0].code.Failure?)
  }

  predicate IssueFailed(issued: seq<Call>) {
    |issued| > 0 && issued[0].code.Failure?
  }

  /** The answers that were asked for: to the oldest requests in turn, from number `first` on, and
      only the first is waited for, if at all. */
  predicate AsksInTurn(asked: seq<Call>, first: nat, waits: bool) {
    forall k :: 0 <= k < |asked| ==>
      asked[k].Answer? && asked[k].r == first + k && (asked[k].wait <==> waits && k == 0)
  }

  /** All were answered but, at most, the last; how that ended is the code returned.  Without a
      last one that was not answered, none is outstanding. */
  predicate EndsAs(asked: seq<Call>, code: ExecCode, outstanding: nat) {
    && (forall k :: 0 <= k < |asked| - 1 ==> asked[k].code.Success?)
    && match code
       case Fine => if |asked| == 0 || asked[|asked| - 1].code.Success? then outstanding == 0
                    else asked[|asked| - 1].code.Nothing?
       case ShutDown => |asked| > 0 && asked[|asked| - 1].code.Shutdown?
       case TaskError => |asked| > 0 && asked[|asked| - 1].code.Success?
       case Other => |asked| > 0 && asked[|asked| - 1].code.Failure?
  }

  /** The work units run by one call, one for each answer; only the last can have failed, if the
      code says so.  `taken` is whose launch was taken. */
  predicate WorkDone(work: seq<Script>, taken: seq<bool>, asked: seq<Call>, code: ExecCode) {
    && |work| == |taken| == (if |asked| > 0 && !asked[|asked| - 1].code.Success? then |asked| - 1 else |asked|)
    && forall k :: 0 <= k < |work| ==> (Succeeds(work[k], taken[k]) <==> !(code.TaskError? && k == |work| - 1))
  }

  /** Slots taken by the launches of some work units, refused or not. */
  function Launches(work: seq<Script>): nat {
    if |work| == 0 then 0
    else Launches(work[..|work| - 1]) + if work[|work| - 1].launch.Some? then 1 else 0
  }

  lemma LaunchesMore(work: seq<Script>, s: Script)
    ensures Launches(work + [s]) == Launches(work) + |Launched(s)|
  {
    assert (work + [s])[..|work|] == work;
  }

  /** A look for completed tasks: those found, what was reported of them, whether the result variable
      refused to be set, whose launch was taken, and whether all went well. */
  datatype Look = Look(batch: seq<Completed>, report: Report, refusing: bool, taken: seq<bool>, ok: bool)

  /** One pass: what getting tasks came to, if there was a free slot; the slots used after it; and
      the look for completed tasks, if there was one. */
  datatype Round = Round(asked: Option<ExecCode>, running: nat, look: Option<Look>)

  /** It goes well exactly if the client answered and reported jobs of the table only, and every
      callback ended well. */
  predicate GoodLook(l: Look, noop: bool) {
    l.ok <==> (noop || (l.report.answered && |l.batch| == |l.report.jobs|)) && AllSucceed(l.batch, l.refusing, l.taken)
  }

  /** Completed tasks are looked for exactly when getting tasks went well, or was not tried, and
      something is running then; with all slots taken, until there is one. */
  predicate GoodRound(r: Round, used: nat, total: nat, launches: nat, noop: bool) {
    && (r.asked.Some? <==> used < total)
    && r.running == used + launches
    && (r.look.Some? <==> r.running > 0 && (r.asked.None? || r.asked.value.Fine?))
    && (r.look.Some? ==> GoodLook(r.look.value, noop))
    && (r.look.Some? && r.look.value.ok && r.running == total ==> r.look.value.batch != [])
  }

  predicate LookedWell(r: Round) { r.look.None? || r.look.value.ok }

  /** How a pass ends the loop, or lets it go on. */
  predicate RoundEnds(r: Round, ending: Ending) {
    match ending
    case Stopped => r.asked == Some(ShutDown)
    case Broken => r.asked == Some(TaskError) || r.asked == Some(Other) || !LookedWell(r)
    case StillRunning => (r.asked.None? || r.asked == Some(Fine)) && LookedWell(r)
  }

  /** The passes of the loop: all that were given, or those up to the one that ended it. */
  predicate AllPasses(before: seq<Round>, rounds: seq<Round>, passes: nat, ending: Ending) {
    && before <= rounds
    && |rounds| - |before| <= passes
    && (forall k :: |before| <= k < |rounds| - 1 ==> RoundEnds(rounds[k], StillRunning))
    && (if ending.StillRunning? then
          |rounds| - |before| == passes && (passes > 0 ==> RoundEnds(rounds[|rounds| - 1], StillRunning))
        else |rounds| > |before| && RoundEnds(rounds[|rounds| - 1], ending))
  }

  /** The last call of the client since then was answered with a shutdown. */
  predicate StoppedBy(before: seq<Call>, calls: seq<Call>) {
    |calls| > |before| && calls[|calls| - 1].code.Shutdown?
  }

  lemma NoStop(calls: seq<Call>)
    ensures !StoppedBy(calls, calls)
  {
  }

  lemma IssuesOnce(issued: seq<Call>, missing: nat, outstanding: nat, mayBlock: bool)
    requires Issues(issued, missing, outstanding, mayBlock)
    ensures |issued| <= 1 && (IssueFailed(issued) ==> |issued| == 1)
    ensures |issued| == 1 ==> !issued[0].code.Shutdown?
  {
  }

  lemma EarlyRound(r: Round, used: nat, total: nat, launches: nat, noop: bool, ending: Ending)
    requires used < total && r.running == used + launches && r.asked.Some? && !r.asked.value.Fine?
    requires r.look.None?
    requires ending == if r.asked.value.ShutDown? then Stopped else Broken
    ensures GoodRound(r, used, total, launches, noop) && RoundEnds(r, ending)
  {
  }

  lemma FullRound(r: Round, used: nat, total: nat, launches: nat, noop: bool, ending: Ending)
    requires (r.asked.Some? <==> used < total) && r.running == used + launches
    requires r.asked.None? || r.asked.value.Fine?
    requires (r.look.Some? <==> r.running > 0) && (r.look.Some? ==> GoodLook(r.look.value, noop))
    requires r.look.Some? && r.look.value.ok && r.running == total ==> r.look.value.batch != []
    requires ending == if LookedWell(r) then StillRunning else Broken
    ensures GoodRound(r, used, total, launches, noop) && RoundEnds(r, ending)
  {
  }

  lemma NoLaunches(work: seq<Script>)
    ensures Launches(work[|work|..]) == 0
  {
  }

  lemma StopsOnlyThen(before: seq<Call>, issued: seq<Call>, asked: seq<Call>, code: ExecCode, outstanding: nat,
                      failed: bool)
    requires failed ==> code.Other? && asked == [] && IssueFailed(issued) && |issued| == 1
    requires !failed ==> EndsAs(asked, code, outstanding)
    requires |issued| <= 1 && (|issued| == 1 ==> !issued[0].code.Shutdown?)
    ensures code.ShutDown? <==> StoppedBy(before, before + issued + asked)
  {
  }

  // ---------------------------------------------------------------- the calls of get_tasks

  /** So far every request asked for was answered, and its work unit ended well. */
  predicate AllAnswered(asked: seq<Call>, first: nat, waits: bool, work: seq<Script>, taken: seq<bool>) {
    && AsksInTurn(asked, first, waits) && |work| == |taken| == |asked|
    && (forall k :: 0 <= k < |asked| ==> asked[k].code.Success?)
    && (forall k :: 0 <= k < |work| ==> Succeeds(work[k], taken[k]))
  }

  lemma NothingAsked(start: seq<Script>, poll: bool)
    ensures AllAnswered([], |start|, !poll, start[|start|..], []) && AllTaken([])
    ensures Launches(start[|start|..]) == 0 && start == start + start[|start|..] && Launches([]) == 0
  {
  }

  lemma AskedParts(asked: seq<Call>, first: nat, waits: bool, work: seq<Script>, taken: seq<bool>)
    requires AllAnswered(asked, first, waits, work, taken)
    ensures |asked| == |work| == |taken|
  {
  }

  lemma AppendWork(start: seq<Script>, before: seq<Script>, after: seq<Script>)
    requires start <= before < after && |after| == |before| + 1
    ensures after[|start|..] == before[|start|..] + [after[|before|]] && after == start + after[|start|..]
  {
  }

  lemma AllTakenMore(taken: seq<bool>, launched: bool)
    ensures AllTaken(taken) && launched ==> AllTaken(taken + [launched])
  {
  }

  lemma OneAnswered(asked: seq<Call>, first: nat, waits: bool, work: seq<Script>, taken: seq<bool>, call: Call,
                    s: Script, launched: bool)
    requires AllAnswered(asked, first, waits, work, taken) && Succeeds(s, launched)
    requires call == Answer(first + |asked|, waits && |asked| == 0, Success)
    ensures AllAnswered(asked + [call], first, waits, work + [s], taken + [launched])
  {
  }

  lemma NotAnswered(asked: seq<Call>, first: nat, waits: bool, work: seq<Script>, taken: seq<bool>, call: Call,
                    code: ExecCode, outstanding: nat)
    requires AllAnswered(asked, first, waits, work, taken) && !call.code.Success?
    requires call.Answer? && call.r == first + |asked| && (call.wait <==> waits && |asked| == 0)
    requires code == if call.code.Shutdown? then ShutDown else if call.code.Nothing? then Fine else Other
    ensures AsksInTurn(asked + [call], first, waits) && EndsAs(asked + [call], code, outstanding)
    ensures WorkDone(work, taken, asked + [call], code)
  {
  }

  lemma LastFails(asked: seq<Call>, first: nat, waits: bool, work: seq<Script>, taken: seq<bool>, call: Call,
                  s: Script, launched: bool, outstanding: nat)
    requires AllAnswered(asked, first, waits, work, taken) && !Succeeds(s, launched)
    requires call == Answer(first + |asked|, waits && |asked| == 0, Success)
    ensures AsksInTurn(asked + [call], first, waits) && EndsAs(asked + [call], TaskError, outstanding)
    ensures WorkDone(work + [s], taken + [launched], asked + [call], TaskError)
  {
  }

  lemma AllAnsweredEnds(asked: seq<Call>, first: nat, waits: bool, work: seq<Script>, taken: seq<bool>)
    requires AllAnswered(asked, first, waits, work, taken)
    ensures AsksInTurn(asked, first, waits) && EndsAs(asked, Fine, 0) && WorkDone(work, taken, asked, Fine)
  {
  }

  /** One worker: its executor, its requests, and the work units it has run, in order. */
  class Worker {
    const e: Executor
    const interp: Interp
    const adlb: Adlb
    const reqs: GetReqState
    ghost var evaluated: seq<Script>
    ghost var rounds: seq<Round>

    ghost function Objects(): set<object> {
      Footprint(e) + {interp, adlb, reqs, reqs.requests}
    }

    /** The slots taken and the requests outstanding never exceed the slots there are; the work
        units run are those that were answered, each once and in order of the requests; and the
        references held are those of the running tasks.  The result variable can be set unless a
        work unit left it otherwise: callbacks do not. */
    ghost predicate Inv()
      reads this, Objects()
    {
      Valid(e) && reqs.Holds(adlb) && Used(e) + reqs.nreqs <= Total(e)
      && evaluated == adlb.given && Balanced(e, interp) && (interp.variable.Refusing? ==> SomeRefuses(evaluated))
    }

    /** The loop starts with an executor that is running nothing. */
    constructor (e: Executor, nbuffers: nat)
      requires nbuffers >= 1 && Valid(e) && Used(e) == 0 && Bag(e) == multiset{}
      ensures Inv() && fresh(interp) && fresh(adlb) && fresh(reqs) && fresh(reqs.requests) && this.e == e
      ensures reqs.max_reqs == (if nbuffers > 256 then 256 else nbuffers) && rounds == []
    {
      this.e := e;
      var n := if nbuffers > TURBINE_ASYNC_EXEC_MAX_REQS then TURBINE_ASYNC_EXEC_MAX_REQS else nbuffers;
      interp := new Interp();
      adlb := new Adlb();
      reqs := new GetReqState(n);
      evaluated, rounds := [], [];
      new;
      NoRefs();
      UsedIsBag(e);
    }

    /** More requests, as many as there are free slots and buffers.  The call blocks only when
        nothing is running. */
    method IssueMore(poll: bool, maxTasks: nat) returns (code: GetCode, ghost issued: seq<Call>)
      requires Inv() && maxTasks == Total(e) - Used(e) && (poll <==> Used(e) != 0)
      modifies Objects()
      ensures Inv() && Used(e) == old(Used(e)) && evaluated == old(evaluated) && Bag(e) == old(Bag(e))
      ensures rounds == old(rounds)
      ensures adlb.calls == old(adlb.calls) + issued && (code.Failure? <==> IssueFailed(issued))
      ensures Issues(issued, Missing(maxTasks, reqs.max_reqs, old(reqs.nreqs)), old(reqs.nreqs), !poll)
      ensures |adlb.bufferOf| == |old(adlb.bufferOf)| +
        if code.Failure? then 0 else Missing(maxTasks, reqs.max_reqs, old(reqs.nreqs))
    {
      hide Valid, Used, Bag, BagRefs, Place, Numbered, Buffered;
      var desired := if maxTasks < reqs.max_reqs then maxTasks else reqs.max_reqs;
      code, issued := Success, [];
      if desired > reqs.nreqs {
        var block := !poll && reqs.nreqs == 0;
        ghost var extra := desired - reqs.nreqs;
        code := reqs.Issue(adlb, desired - reqs.nreqs, block, Used(e));
        issued := [More(extra, block, code)];
      }
    }

    /** A work unit is run; there is a free slot for the task it may launch.  `taken` is whether
        that launch, if any, was taken. */
    method RunWork(work: Script) returns (ok: bool, ghost taken: bool)
      requires Valid(e) && Used(e) < Total(e) && Balanced(e, interp)
      modifies Footprint(e), interp
      ensures Valid(e) && Balanced(e, interp) && Used(e) == old(Used(e)) + |Launched(work)|
      ensures (ok <==> Succeeds(work, taken)) && (e.Noop? ==> taken)
      ensures interp.variable == After(work, old(interp.variable))
    {
      hide Valid, Used, Bag, BagRefs, Launched, Succeeds;
      ghost var added;
      UsedLimit(work);
      ok, added := Eval(e, interp, work);
      taken := added == Launched(work);
      BagRefsUnion(old(Bag(e)), added, work);
    }

    /** The oldest request: when it is answered, its work unit is run. */
    method RunNext(wait: bool) returns (code: GetCode, ok: bool, ghost taken: bool)
      requires Inv() && reqs.nreqs > 0 && (wait ==> Used(e) == 0)
      modifies this, Objects()
      ensures Valid(e) && Balanced(e, interp) && evaluated == adlb.given && rounds == old(rounds)
      ensures ok ==> Inv()
      ensures adlb.calls == old(adlb.calls) + [Answer(|old(evaluated)|, wait, code)]
      ensures adlb.bufferOf == old(adlb.bufferOf)
      ensures !code.Success? ==> ok && evaluated == old(evaluated) && (code.Nothing? ==> !wait)
                                 && Used(e) == old(Used(e)) && reqs.nreqs == old(reqs.nreqs)
      ensures code.Success? ==>
        |evaluated| == |old(evaluated)| + 1 && old(evaluated) < evaluated
        && var work := evaluated[|old(evaluated)|];
           Used(e) == old(Used(e)) + |Launched(work)| && (ok <==> Succeeds(work, taken)) && (e.Noop? ==> taken)
      ensures ok && code.Success? ==> reqs.nreqs == old(reqs.nreqs) - 1
    {
      hide Valid, Used, Bag, Balanced, Succeeds, GetReqState.Holds, GetReqState.Answered;
      UsedFits();
      ok, taken := true, true;
      var work;
      code, work := reqs.Ask(adlb, wait, Used(e));
      if code.Success? {
        ghost var before := interp.variable;
        UsedLimit(work);
        ok, taken := RunWork(work);
        RefusesLater(evaluated, work, before, interp.variable);
        evaluated := evaluated + [work];
        if ok { reqs.Advance(adlb); }
      }
    }

    lemma UsedFits()
      requires Inv()
      ensures reqs.Holds(adlb) && Used(e) + reqs.nreqs <= Total(e)
    {
    }

    lemma UsedLimit(s: Script)
      ensures |Launched(s)| <= 1
    {
    }

    /** `get_tasks`.  It first issues exactly the requests that are missing, and then asks for the
        answers to the oldest requests in turn and runs their work units, until one is not answered
        or none is outstanding.  Only the first is waited for, and only when nothing is running. */
    method GetTasks(poll: bool, maxTasks: nat)
      returns (code: ExecCode, got: bool, ghost issued: seq<Call>, ghost asked: seq<Call>, ghost taken: seq<bool>)
      requires Inv() && maxTasks == Total(e) - Used(e) && (poll <==> Used(e) != 0)
      modifies this, Objects()
      ensures Valid(e) && Balanced(e, interp) && evaluated == adlb.given && rounds == old(rounds)
      ensures old(evaluated) <= evaluated
      ensures !code.TaskError? ==> Inv()
      ensures adlb.calls == old(adlb.calls) + issued + asked
      ensures Issues(issued, Missing(maxTasks, reqs.max_reqs, old(reqs.nreqs)), old(reqs.nreqs), !poll)
      ensures |adlb.bufferOf| == |old(adlb.bufferOf)| +
        if IssueFailed(issued) then 0 else Missing(maxTasks, reqs.max_reqs, old(reqs.nreqs))
      ensures IssueFailed(issued) ==> code.Other? && asked == [] && evaluated == old(evaluated)
      ensures !IssueFailed(issued) ==>
        AsksInTurn(asked, |old(evaluated)|, !poll) && EndsAs(asked, code, reqs.nreqs)
        && WorkDone(evaluated[|old(evaluated)|..], taken, asked, code) && (e.Noop? ==> AllTaken(taken))
      ensures Used(e) == old(Used(e)) + Launches(evaluated[|old(evaluated)|..])
      ensures got <==> |evaluated| > |old(evaluated)| + if code.TaskError? then 1 else 0
    {
      hide *;
      var issue;
      issue, issued := IssueMore(poll, maxTasks);
      InvParts();
      NothingAsked(evaluated, poll);
      if issue.Failure? { return Other, false, issued, [], []; }
      code, got, asked, taken := RunAnswered(poll);
    }

    /** Its loop over the oldest requests. */
    method RunAnswered(poll: bool) returns (code: ExecCode, got: bool, ghost asked: seq<Call>, ghost taken: seq<bool>)
      requires Inv() && (poll <==> Used(e) != 0)
      modifies this, Objects()
      ensures Valid(e) && Balanced(e, interp) && evaluated == adlb.given && rounds == old(rounds)
      ensures old(evaluated) <= evaluated && (!code.TaskError? ==> Inv())
      ensures adlb.calls == old(adlb.calls) + asked && adlb.bufferOf == old(adlb.bufferOf)
      ensures AsksInTurn(asked, |old(evaluated)|, !poll) && EndsAs(asked, code, reqs.nreqs)
      ensures WorkDone(evaluated[|old(evaluated)|..], taken, asked, code) && (e.Noop? ==> AllTaken(taken))
      ensures Used(e) == old(Used(e)) + Launches(evaluated[|old(evaluated)|..])
      ensures got <==> |evaluated| > |old(evaluated)| + if code.TaskError? then 1 else 0
    {
      hide *;
      got, asked, taken := false, [], [];
      ghost var start := evaluated;
      NothingAsked(start, poll);
      var test := poll;
      while reqs.nreqs > 0
        invariant Inv() && start == old(evaluated) && start <= evaluated && rounds == old(rounds)
        invariant adlb.calls == old(adlb.calls) + asked && adlb.bufferOf == old(adlb.bufferOf)
        invariant evaluated == start + evaluated[|start|..]
        invariant Used(e) == old(Used(e)) + Launches(evaluated[|start|..])
        invariant AllAnswered(asked, |start|, !poll, evaluated[|start|..], taken) && (e.Noop? ==> AllTaken(taken))
        invariant (got <==> |asked| > 0) && (test <==> poll || got)
        invariant !test ==> Used(e) == 0
        decreases reqs.nreqs
      {
        ghost var before := evaluated;
        InvParts();
        AskedParts(asked, |start|, !poll, before[|start|..], taken);
        var answer, ok;
        ghost var launched;
        answer, ok, launched := RunNext(!test);
        ghost var call := Answer(|before|, !test, answer);
        if !answer.Success? {
          code := if answer.Shutdown? then ShutDown else if answer.Nothing? then Fine else Other;
          NotAnswered(asked, |start|, !poll, before[|start|..], taken, call, code, reqs.nreqs);
          asked := asked + [call];
          return;
        }
        AppendWork(start, before, evaluated);
        LaunchesMore(before[|start|..], evaluated[|before|]);
        AllTakenMore(taken, launched);
        if !ok {
          LastFails(asked, |start|, !poll, before[|start|..], taken, call, evaluated[|before|], launched, reqs.nreqs);
          asked, taken := asked + [call], taken + [launched];
          return TaskError, got, asked, taken;
        }
        OneAnswered(asked, |start|, !poll, before[|start|..], taken, call, evaluated[|before|], launched);
        asked, taken := asked + [call], taken + [launched];
        got, test := true, true;
      }
      code := Fine;
      InvParts();
      AskedParts(asked, |start|, !poll, evaluated[|start|..], taken);
      AllAnsweredEnds(asked, |start|, !poll, evaluated[|start|..], taken);
    }

    lemma InvParts()
      requires Inv()
      ensures Valid(e) && Balanced(e, interp) && evaluated == adlb.given
    {
    }

    /** One pass of the loop: get tasks when there is a free slot, then look for completed ones
        when something is running; `wait` is called only when all slots are taken. */
    method Pass() returns (ending: Ending, ghost round: Round)
      requires Inv()
      modifies this, Objects()
      ensures old(evaluated) <= evaluated && evaluated == adlb.given && Valid(e)
      ensures ending.StillRunning? || ending.Stopped? ==> Inv()
      ensures rounds == old(rounds) + [round] && RoundEnds(round, ending)
      ensures GoodRound(round, old(Used(e)), Total(e), Launches(evaluated[|old(evaluated)|..]), e.Noop?)
      ensures ending.Stopped? <==> StoppedBy(old(adlb.calls), adlb.calls)
    {
      hide Inv, Valid, Used, Total, Bag, Balanced, GetReqState.Holds, Missing, Issues, IssueFailed, EndsAs, WorkDone,
        AsksInTurn, Launches, GoodRound, RoundEnds, GoodLook, StoppedBy, AllTaken, RunOf, Tasks;
      UsedFits();
      InvParts();
      ghost var used, work, calls := Used(e), evaluated, adlb.calls;
      ghost var asked: Option<ExecCode> := None;
      NoLaunches(work);
      NoStop(calls);
      if Used(e) < Total(e) {
        var code, got;
        ghost var issued, answers, taken;
        code, got, issued, answers, taken := GetTasks(Used(e) != 0, Total(e) - Used(e));
        IssuesOnce(issued, Missing(Total(e) - used, reqs.max_reqs, old(reqs.nreqs)), old(reqs.nreqs), used == 0);
        StopsOnlyThen(calls, issued, answers, code, reqs.nreqs, IssueFailed(issued));
        asked := Some(code);
        if !code.Fine? {
          ending := if code.ShutDown? then Stopped else Broken;
          round := Round(asked, Used(e), None);
          EarlyRound(round, used, Total(e), Launches(evaluated[|work|..]), e.Noop?, ending);
          Record(round);
          return;
        }
      }
      UsedFits();
      InvParts();
      round := Round(asked, Used(e), None);
      ending := StillRunning;
      if Used(e) > 0 {
        var ok;
        ghost var look;
        ok, look := LookForCompleted();
        round := round.(look := Some(look));
        ending := if ok then StillRunning else Broken;
      }
      FullRound(round, used, Total(e), Launches(evaluated[|work|..]), e.Noop?, ending);
      Record(round);
    }

    /** The history of the passes. */
    ghost method Record(round: Round)
      modifies this`rounds
      ensures rounds == old(rounds) + [round]
      ensures (old(Inv()) ==> Inv()) && (old(Valid(e)) ==> Valid(e))
    {
      hide Valid, Bag, Used, BagRefs, Balanced, GetReqState.Holds, SomeRefuses;
      assert (this as object) !in Footprint(e);
      rounds := rounds + [round];
    }

    /** The tasks found were running, and unless there is a free slot there is one. */
    method LookForCompleted() returns (ok: bool, ghost look: Look)
      requires Inv() && Used(e) > 0
      modifies Footprint(e), interp
      ensures Valid(e) && evaluated == adlb.given && reqs.Holds(adlb) && (ok ==> Inv())
      ensures evaluated == old(evaluated) && rounds == old(rounds) && adlb.calls == old(adlb.calls)
      ensures look.ok == ok && GoodLook(look, e.Noop?) && look.refusing == old(interp.variable).Refusing?
      ensures ok && old(Used(e)) == Total(e) ==> look.batch != []
      ensures Tasks(look.batch) <= old(Bag(e)) && |look.taken| <= |look.batch|
      ensures interp.ran == old(interp.ran) + RunOf(look.batch[..|look.taken|], look.refusing)
    {
      hide Valid, Bag, BagRefs, BatchRefs, Tasks, LaunchedBy, RunOf, Matching, Used, AllSucceed, AsReported,
        GetReqState.Holds;
      var something;
      ghost var checked, batch, dropped, taken, added, report;
      ok, something, checked, batch, dropped, taken, added, report := CheckTasks(e, interp, Used(e) < Total(e));
      look := Look(batch, report, interp.variable.Refusing?, taken, ok);
    }

    /** `turbine_async_worker_loop`, for as many passes as it is given, unless one ends it: a
        shutdown answer stops it, an error breaks it.  The executor is stopped if the loop started
        it.  After a shutdown every callback's reference count is back where it was; an error leaves
        the loop without stopping the executor. */
    method Loop(passes: nat, mustStart: bool) returns (ending: Ending)
      requires Inv()
      modifies this, Objects()
      ensures old(evaluated) <= evaluated && evaluated == adlb.given
      ensures ending.StillRunning? ==> Inv()
      ensures ending.Stopped? && mustStart ==> interp.refs == multiset{}
      ensures ending.Stopped? && !mustStart ==> Inv()
      ensures AllPasses(old(rounds), rounds, passes, ending)
      ensures ending.Stopped? ==> |adlb.calls| > 0 && adlb.calls[|adlb.calls| - 1].code.Shutdown?
    {
      hide Valid, Bag, Used, GetReqState.Holds, Balanced, BagRefs;
      ending := StillRunning;
      var pass := 0;
      while pass < passes && ending.StillRunning?
        invariant old(evaluated) <= evaluated && evaluated == adlb.given
        invariant ending.StillRunning? || ending.Stopped? ==> Inv()
        invariant AllPasses(old(rounds), rounds, pass, ending) && pass <= passes
        invariant ending.Stopped? ==> |adlb.calls| > 0 && adlb.calls[|adlb.calls| - 1].code.Shutdown?
        decreases passes - pass
      {
        ghost var round;
        ending, round := Pass();
        pass := pass + 1;
      }
      if ending.Stopped? && mustStart {
        Stop(e, interp);
      }
    }
  }
}
