/** The worker loop of code/src/turbine/async_exec.c over either executor. */
module AsyncLoop {
  import opened Options
  import opened AsyncTasks
  import opened AsyncExecutors

  const COMPLETED_BUFFER_SIZE: nat := 16
  const TURBINE_ASYNC_EXEC_MAX_REQS: nat := 256

  // ---------------------------------------------------------------- an executor is a bag of tasks

  datatype Executor = Noop(noop: NoopExecutor) | Coaster(coaster: CoasterExecutor)

  function Footprint(e: Executor): set<object> {
    match e
    case Noop(x) => {x, x.tasks}
    case Coaster(x) => {x}
  }

  ghost predicate Valid(e: Executor)
    reads Footprint(e)
  {
    match e
    case Noop(x) => x.Valid()
    case Coaster(x) => x.Valid()
  }

  ghost function Bag(e: Executor): multiset<Task>
    reads Footprint(e)
  {
    match e
    case Noop(x) => x.Bag()
    case Coaster(x) => x.Bag()
  }

  /** `exec->slots`. */
  function Used(e: Executor): nat
    reads Footprint(e)
  {
    match e
    case Noop(x) => x.used
    case Coaster(x) => x.used
  }

  function Total(e: Executor): nat {
    match e
    case Noop(_) => NOOP_EXEC_SLOTS
    case Coaster(x) => x.total
  }

  /** Slots lost to launches that failed; the array of slots loses none. */
  ghost function Leaked(e: Executor): nat
    reads Footprint(e)
  {
    match e
    case Noop(_) => 0
    case Coaster(x) => x.leaked
  }

  /** The slots used are the running tasks and the slots lost. */
  lemma UsedIsBag(e: Executor)
    requires Valid(e)
    ensures Used(e) == |Bag(e)| + Leaked(e) && Total(e) >= 1
  {
  }

  /** Executors hold a reference to each callback of a running task, and no other. */
  ghost predicate Balanced(e: Executor, interp: Interp)
    reads Footprint(e), interp
  {
    interp.refs == BagRefs(Bag(e))
  }

  /** `noop_execute` or `coaster_execute`, called from Tcl code. */
  method Execute(e: Executor, interp: Interp, task: Task) returns (ok: bool)
    requires Valid(e) && Used(e) < Total(e)
    modifies Footprint(e), interp`refs
    ensures Valid(e) && Used(e) == old(Used(e)) + 1 && interp.ran == old(interp.ran)
    ensures Bag(e) == old(Bag(e)) + if ok then multiset{task} else multiset{}
    ensures interp.refs == old(interp.refs) + if ok then TaskRefs(task) else multiset{}
    ensures Leaked(e) == old(Leaked(e)) + if ok then 0 else 1
    ensures e.Noop? ==> ok
  {
    match e {
      case Noop(x) =>
        x.Execute(interp, task);
        ok := true;
      case Coaster(x) =>
        var submitted: bool := *;
        var jobId: int := *;
        ok := x.Execute(interp, task, jobId, submitted);
    }
  }

  /** When all slots are taken, a task is running exactly if not all slots were lost. */
  lemma WaitHasTask(e: Executor)
    requires Valid(e) && Used(e) == Total(e)
    ensures Bag(e) != multiset{} <==> Leaked(e) < Total(e)
  {
  }

  /** The jobs under way, by number; the array of slots has no numbers. */
  function Table(e: Executor): map<int, Task>
    reads Footprint(e)
  {
    match e
    case Noop(_) => map[]
    case Coaster(x) => x.jobs
  }

  /** How the tasks of a batch ended: always well in the array of slots; otherwise as was reported
      for the jobs, which were in the table.  The call fails exactly if the client did not answer, or
      reported a job that is not in the table. */
  ghost predicate Outcomes(e: Executor, jobs: map<int, Task>, batch: seq<Completed>, ok: bool, report: Report) {
    match e
    case Noop(_) => ok && AllSuccess(batch)
    case Coaster(_) =>
      (ok <==> report.answered && |batch| == |report.jobs|)
      && exists left :: AsReported(jobs, left, batch, report.jobs)
                        && (|batch| < |report.jobs| ==> report.jobs[|batch|].id !in left)
  }

  /** `executor->wait` and `executor->poll`.  Waiting with no task running does not succeed: the
      call does not come back. */
  method Check(e: Executor, completed: array<Completed>, wait: bool)
    returns (ok: bool, n: nat, ghost report: Report)
    requires Valid(e) && Used(e) > 0 && completed.Length >= 1
    requires wait ==> Used(e) == Total(e)
    modifies Footprint(e), completed
    ensures Valid(e) && n <= completed.Length
    ensures old(Bag(e)) == Bag(e) + Tasks(completed[..n])
    ensures ok ==> Used(e) + n == old(Used(e)) && Leaked(e) == old(Leaked(e))
    ensures !ok ==> Used(e) == old(Used(e))
    ensures (ok && wait ==> n >= 1) && (e.Noop? ==> ok)
    ensures wait && old(Leaked(e)) == Total(e) ==> !ok
    ensures Outcomes(e, old(Table(e)), completed[..n], ok, report)
  {
    if wait { WaitHasTask(e); }
    report := Report([], true);
    match e {
      case Noop(x) =>
        var lucky: bool := *;
        var two: bool := *;
        n := x.Check(completed, wait, lucky, two);
        ok := true;
      case Coaster(x) =>
        ghost var last;
        ok, n, report, last := x.CheckCompleted(completed, wait);
    }
  }

  method Stop(e: Executor, interp: Interp)
    requires Valid(e) && Balanced(e, interp)
    modifies Footprint(e), interp`refs
    ensures interp.refs == multiset{} && interp.ran == old(interp.ran)
  {
    match e {
      case Noop(x) => x.Stop(interp);
      case Coaster(x) => x.Stop(interp);
    }
    NothingHeld(interp.refs, old(interp.refs));
  }

  lemma {:induction false} NothingHeld(a: multiset<nat>, b: multiset<nat>)
    requires a + b == b
    ensures a == multiset{}
  {
    forall x ensures a[x] == 0 { assert (a + b)[x] == a[x] + b[x]; }
  }

  // ---------------------------------------------------------------- running code

  /** `Tcl_EvalEx` of a work unit, or of a callback.  There is a free slot for what it may
      launch. */
  method Eval(e: Executor, interp: Interp, s: Script) returns (ok: bool, ghost added: multiset<Task>)
    requires Valid(e) && Used(e) < Total(e)
    modifies Footprint(e), interp
    ensures Valid(e) && Used(e) == old(Used(e)) + |Launched(s)| && interp.ran == old(interp.ran)
    ensures added <= Launched(s) && Bag(e) == old(Bag(e)) + added
    ensures interp.refs == old(interp.refs) + BagRefs(added)
    ensures Leaked(e) + |added| == old(Leaked(e)) + |Launched(s)|
    ensures ok <==> Succeeds(s, added == Launched(s))
    ensures interp.variable == After(s, old(interp.variable))
    ensures e.Noop? ==> added == Launched(s)
  {
    hide Valid, Bag, Used, Leaked, BagRefs;
    ok, added := true, multiset{};
    if s.launch.Some? { ok, added := Launch(e, interp, s.launch.value); }
    else { NoneAdded(Bag(e)); }
    ok := !s.fails && (ok || s.catches);
    interp.Affect(s);
  }

  /** The launch of a script: the task joins the executor, or is refused. */
  method Launch(e: Executor, interp: Interp, task: Task) returns (ok: bool, ghost added: multiset<Task>)
    requires Valid(e) && Used(e) < Total(e)
    modifies Footprint(e), interp`refs
    ensures Valid(e) && Used(e) == old(Used(e)) + 1 && Bag(e) == old(Bag(e)) + added
    ensures added == if ok then multiset{task} else multiset{}
    ensures interp.refs == old(interp.refs) + BagRefs(added)
    ensures Leaked(e) + |added| == old(Leaked(e)) + 1
    ensures interp.ran == old(interp.ran) && interp.variable == old(interp.variable) && (e.Noop? ==> ok)
  {
    hide Valid, Bag, Used, Leaked, BagRefs;
    NoneAdded(Bag(e));
    OneRefs(task);
    ok := Execute(e, interp, task);
    added := if ok then multiset{task} else multiset{};
  }

  lemma OneRefs(task: Task)
    ensures BagRefs(multiset{task}) == TaskRefs(task)
  {
  }

  lemma {:induction false} BagRefsUnion(bag: multiset<Task>, added: multiset<Task>, s: Script)
    requires added <= Launched(s)
    ensures BagRefs(bag + added) == BagRefs(bag) + BagRefs(added)
  {
    hide TaskRefs, BagRefs;
    NoRefs();
    if s.launch.Some? && added == multiset{s.launch.value} {
      BagRefsAdd(bag, s.launch.value);
      OneRefs(s.launch.value);
    } else {
      assert added == multiset{};
      assert bag + added == bag;
    }
  }

  // ---------------------------------------------------------------- completed tasks

  function MatchingList(c: Completed): seq<Callback> {
    if Matching(c).Some? then [Matching(c).value] else []
  }

  /** The callback that runs, if one does. */
  function RunList(c: Completed, refusing: bool): seq<Callback> {
    if refusing then [] else MatchingList(c)
  }

  /** The result variable is set for a callback and unset after it, if it could be set. */
  function VariableAfter(c: Completed, v: Variable): Variable {
    if Matching(c).None? || v.Refusing? then v else Absent
  }

  /** The evaluation of a callback, with its result variable set: it is unset again, which fails
      when the script did that itself. */
  method EvalCallback(e: Executor, interp: Interp, cb: Callback)
    returns (ok: bool, ghost taken: bool, ghost added: multiset<Task>)
    requires Valid(e) && Used(e) < Total(e) && interp.variable == Plain
    modifies Footprint(e), interp
    ensures Valid(e) && old(Used(e)) <= Used(e) <= old(Used(e)) + 1
    ensures added <= LaunchedBy([cb]) && Bag(e) == old(Bag(e)) + added
    ensures BagRefs(Bag(e)) == BagRefs(old(Bag(e))) + BagRefs(added)
    ensures interp.ran == old(interp.ran) + [cb] && interp.variable == Absent
    ensures interp.refs == old(interp.refs) + BagRefs(added)
    ensures (ok <==> EndsWell(cb.code, taken)) && (e.Noop? ==> taken)
  {
    hide TaskRefs, BagRefs, Valid, Bag, Used, LaunchedBy, Launched, Succeeds;
    OneLaunch(cb);
    interp.Ran(cb);
    ok, added := Eval(e, interp, cb.code);
    taken := added == Launched(cb.code);
    BagRefsUnion(old(Bag(e)), added, cb.code);
    var unset := interp.UnsetVariable();
    ok := ok && unset;
  }

  /** `run_callback`: the callback that matches how the task ended, if there is one, with the
      result variable set for it.  The call succeeds exactly if there is none or it ends well;
      when the variable cannot be set, the callback does not run. */
  method RunCallback(e: Executor, interp: Interp, c: Completed)
    returns (ok: bool, ghost taken: bool, ghost added: multiset<Task>)
    requires Valid(e) && Used(e) < Total(e)
    modifies Footprint(e), interp
    ensures Valid(e) && old(Used(e)) <= Used(e) <= old(Used(e)) + 1
    ensures added <= LaunchedBy(RunList(c, old(interp.variable).Refusing?)) && Bag(e) == old(Bag(e)) + added
    ensures BagRefs(Bag(e)) == BagRefs(old(Bag(e))) + BagRefs(added)
    ensures interp.ran == old(interp.ran) + RunList(c, old(interp.variable).Refusing?)
    ensures interp.refs == old(interp.refs) + BagRefs(added)
    ensures interp.variable == VariableAfter(c, old(interp.variable))
    ensures (ok <==> CallbackSucceeds(c, old(interp.variable).Refusing?, taken)) && (e.Noop? ==> taken)
  {
    hide TaskRefs, BagRefs, Valid, Bag, Used, LaunchedBy, Matching, EndsWell;
    var cb := Matching(c);
    NoneAdded(Bag(e));
    NoLaunch();
    ok, taken, added := true, true, multiset{};
    if cb.Some? {
      ok := interp.SetVariable();
      if ok { ok, taken, added := EvalCallback(e, interp, cb.value); }
    }
  }

  lemma NoLaunch()
    ensures LaunchedBy([]) == multiset{}
  {
  }

  lemma NoneAdded(bag: multiset<Task>)
    ensures BagRefs(multiset{}) == multiset{}
    ensures bag + multiset{} == bag && BagRefs(bag) + multiset{} == BagRefs(bag)
  {
  }

  lemma Regroup(b: multiset<nat>, held: multiset<nat>, a: multiset<nat>)
    ensures b + held + a == b + a + held
  {
  }

  /** One completed task: its callback runs, then both references are dropped, unless the
      callback failed. */
  method FinishTask(e: Executor, interp: Interp, c: Completed, ghost rest: multiset<nat>)
    returns (ok: bool, ghost taken: bool, ghost added: multiset<Task>)
    requires Valid(e) && Used(e) < Total(e)
    requires interp.refs == BagRefs(Bag(e)) + (TaskRefs(c.task) + rest)
    modifies Footprint(e), interp
    ensures Valid(e) && old(Used(e)) <= Used(e) <= old(Used(e)) + 1
    ensures added <= LaunchedBy(RunList(c, old(interp.variable).Refusing?)) && Bag(e) == old(Bag(e)) + added
    ensures interp.ran == old(interp.ran) + RunList(c, old(interp.variable).Refusing?)
    ensures interp.refs == BagRefs(Bag(e)) + if ok then rest else TaskRefs(c.task) + rest
    ensures interp.variable.Refusing? == old(interp.variable).Refusing?
    ensures (ok <==> CallbackSucceeds(c, interp.variable.Refusing?, taken)) && (e.Noop? ==> taken)
  {
    hide TaskRefs, BagRefs, Valid, Bag, Used, LaunchedBy, RunList, CallbackSucceeds, Matching;
    ok, taken, added := RunCallback(e, interp, c);
    Regroup(BagRefs(old(Bag(e))), TaskRefs(c.task) + rest, BagRefs(added));
    if ok {
      ghost var held := BagRefs(Bag(e));
      DropRefs(held, TaskRefs(c.task), rest, interp.refs);
      interp.GiveBack(c.task);
      Dropped(held, TaskRefs(c.task), rest, interp.refs);
    }
  }

  lemma DropRefs(a: multiset<nat>, t: multiset<nat>, rest: multiset<nat>, refs: multiset<nat>)
    requires refs == a + (t + rest)
    ensures t <= refs
  {
  }

  lemma {:induction false} Dropped(a: multiset<nat>, t: multiset<nat>, rest: multiset<nat>, refs: multiset<nat>)
    requires refs + t == a + (t + rest)
    ensures refs == a + rest
  {
    forall x ensures refs[x] == (a + rest)[x] {
      assert (refs + t)[x] == refs[x] + t[x];
      assert (a + (t + rest))[x] == a[x] + t[x] + rest[x];
    }
  }

  lemma OneLaunch(cb: Callback)
    ensures LaunchedBy([cb]) == Launched(cb.code) && |Launched(cb.code)| <= 1
  {
  }

  /** The account of a batch while it is worked on: `ran` of its tasks have had their callback
      run, `dropped` have given their references back, and the scripts added `added`. */
  ghost predicate Accounts(e: Executor, interp: Interp, batch: seq<Completed>, ran: nat, dropped: nat,
                           bag0: multiset<Task>, ran0: seq<Callback>, added: multiset<Task>, refusing: bool)
    reads Footprint(e), interp
  {
    && dropped <= ran <= |batch| && Bag(e) == bag0 + added && interp.variable.Refusing? == refusing
    && added <= LaunchedBy(RunOf(batch[..ran], refusing))
    && interp.ran == ran0 + RunOf(batch[..ran], refusing)
    && interp.refs == BagRefs(Bag(e)) + BatchRefs(batch[dropped..])
  }

  /** One round of the loop of `check_tasks`. */
  method FinishNext(e: Executor, interp: Interp, c: Completed, ghost batch: seq<Completed>, ghost i: nat,
                    ghost bag0: multiset<Task>, ghost ran0: seq<Callback>, ghost added: multiset<Task>,
                    ghost refusing: bool)
    returns (ok: bool, ghost taken: bool, ghost added': multiset<Task>)
    requires Valid(e) && Used(e) < Total(e) && i < |batch| && c == batch[i]
    requires Accounts(e, interp, batch, i, i, bag0, ran0, added, refusing)
    modifies Footprint(e), interp
    ensures Valid(e) && Used(e) <= old(Used(e)) + 1
    ensures Accounts(e, interp, batch, i + 1, if ok then i + 1 else i, bag0, ran0, added', refusing)
    ensures (ok <==> CallbackSucceeds(c, refusing, taken)) && (e.Noop? ==> taken)
  {
    hide TaskRefs, BagRefs, Valid, Bag, Used, BatchRefs, LaunchedBy, RunOf, RunList, CallbackSucceeds;
    ghost var more;
    NextInBatch(batch, i);
    ok, taken, more := FinishTask(e, interp, c, BatchRefs(batch[i + 1..]));
    MoreLaunched(batch, i, added, more, refusing);
    Associate(bag0, added, more);
    added' := added + more;
  }

  /** The same, with who has run so far. */
  method FinishRound(e: Executor, interp: Interp, c: Completed, ghost batch: seq<Completed>, ghost done: seq<bool>,
                     ghost bag0: multiset<Task>, ghost ran0: seq<Callback>, ghost added: multiset<Task>,
                     ghost refusing: bool)
    returns (ok: bool, ghost taken: seq<bool>, ghost added': multiset<Task>)
    requires Valid(e) && Used(e) < Total(e) && |done| < |batch| && c == batch[|done|]
    requires SoFar(batch, refusing, done, |done|, true) && (e.Noop? ==> AllTaken(done))
    requires Accounts(e, interp, batch, |done|, |done|, bag0, ran0, added, refusing)
    modifies Footprint(e), interp
    ensures Valid(e) && Used(e) <= old(Used(e)) + 1 && |taken| == |done| + 1
    ensures Accounts(e, interp, batch, |taken|, if ok then |taken| else |done|, bag0, ran0, added', refusing)
    ensures SoFar(batch, refusing, taken, if ok then |taken| else |done|, ok) && (e.Noop? ==> AllTaken(taken))
  {
    hide *;
    ghost var launched;
    ok, launched, added' := FinishNext(e, interp, c, batch, |done|, bag0, ran0, added, refusing);
    SoFarNext(batch, refusing, done, |done|, launched, ok);
    taken := done + [launched];
  }

  /** The loop of `check_tasks` over a batch that has left the executor.  It goes through the
      whole batch exactly if every callback ends well, and stops at the first that does not. */
  method FinishBatch(e: Executor, interp: Interp, batch: seq<Completed>)
    returns (ok: bool, ghost dropped: nat, ghost taken: seq<bool>, ghost added: multiset<Task>)
    requires Valid(e) && Used(e) + |batch| <= Total(e)
    requires interp.refs == BagRefs(Bag(e)) + BatchRefs(batch)
    modifies Footprint(e), interp
    ensures Valid(e) && Used(e) <= old(Used(e)) + |batch|
    ensures Accounts(e, interp, batch, |taken|, dropped, old(Bag(e)), old(interp.ran), added,
                     old(interp.variable).Refusing?)
    ensures (ok <==> AllSucceed(batch, old(interp.variable).Refusing?, taken)) && (e.Noop? ==> AllTaken(taken))
    ensures StopsAt(batch, old(interp.variable).Refusing?, taken, dropped)
  {
    hide *;
    ghost var bag0, ran0, refusing := Bag(e), interp.ran, interp.variable.Refusing?;
    ok, dropped, taken, added := true, 0, [], multiset{};
    NoneTaken(batch, refusing);
    NothingDone(e, interp, batch);
    var i := 0;
    while i < |batch| && ok
      invariant i <= |batch| && Valid(e) && Used(e) <= old(Used(e)) + i
      invariant |taken| == i && dropped == (if ok then i else i - 1)
      invariant Accounts(e, interp, batch, i, dropped, bag0, ran0, added, refusing)
      invariant SoFar(batch, refusing, taken, dropped, ok) && (e.Noop? ==> AllTaken(taken))
      decreases |batch| - i, ok
    {
      ok, taken, added := FinishRound(e, interp, batch[i], batch, taken, bag0, ran0, added, refusing);
      i := i + 1;
      dropped := if ok then i else i - 1;
    }
    SoFarEnd(batch, refusing, taken, dropped, ok);
  }

  lemma {:induction false} NothingDone(e: Executor, interp: Interp, batch: seq<Completed>)
    requires interp.refs == BagRefs(Bag(e)) + BatchRefs(batch)
    ensures Accounts(e, interp, batch, 0, 0, Bag(e), interp.ran, multiset{}, interp.variable.Refusing?)
  {
    hide BagRefs, BatchRefs, Bag;
    StartBatch(batch, interp.variable.Refusing?);
    NoneAdded(Bag(e));
  }

  /** Those who ran ended well, except the last if `ok` does not hold. */
  predicate SoFar(batch: seq<Completed>, refusing: bool, taken: seq<bool>, dropped: nat, ok: bool) {
    && |taken| <= |batch| && |taken| == (if ok then dropped else dropped + 1)
    && (forall k :: 0 <= k < dropped ==> CallbackSucceeds(batch[k], refusing, taken[k]))
    && (!ok ==> !CallbackSucceeds(batch[dropped], refusing, taken[dropped]))
  }

  lemma NoneTaken(batch: seq<Completed>, refusing: bool)
    ensures SoFar(batch, refusing, [], 0, true) && AllTaken([])
  {
  }

  lemma {:induction false} SoFarNext(batch: seq<Completed>, refusing: bool, taken: seq<bool>, dropped: nat, launched: bool,
                                     ok: bool)
    requires SoFar(batch, refusing, taken, dropped, true) && dropped < |batch|
    requires ok <==> CallbackSucceeds(batch[dropped], refusing, launched)
    ensures SoFar(batch, refusing, taken + [launched], if ok then dropped + 1 else dropped, ok)
    ensures AllTaken(taken) && launched ==> AllTaken(taken + [launched])
  {
    hide CallbackSucceeds;
  }

  lemma {:induction false} SoFarEnd(batch: seq<Completed>, refusing: bool, taken: seq<bool>, dropped: nat, ok: bool)
    requires SoFar(batch, refusing, taken, dropped, ok) && (ok ==> |taken| == |batch|)
    ensures StopsAt(batch, refusing, taken, dropped) && (ok <==> AllSucceed(batch, refusing, taken))
    ensures dropped <= |taken| <= |batch|
  {
    hide CallbackSucceeds;
  }

  /** Everybody before `dropped` ended well; if that is not everybody, the next one failed and
      was the last to run. */
  predicate StopsAt(batch: seq<Completed>, refusing: bool, taken: seq<bool>, dropped: nat) {
    && dropped <= |taken| <= |batch|
    && (forall k :: 0 <= k < dropped ==> CallbackSucceeds(batch[k], refusing, taken[k]))
    && (dropped < |batch| ==> |taken| == dropped + 1 && !CallbackSucceeds(batch[dropped], refusing, taken[dropped]))
  }

  lemma Associate(a: multiset<Task>, b: multiset<Task>, c: multiset<Task>)
    ensures a + b + c == a + (b + c)
  {
  }

  /** `check_tasks`.  The batch holds running tasks, no more than the buffer has room for; for
      each of them in turn the matching callback runs once.  The call succeeds, and the references
      held are again those of the running tasks, exactly if every callback of the batch ends
      well.  A callback that does not ends the call: it and the rest of the batch have left the
      executor, but keep their references.  `checked` is whether the executor answered; it does
      not when it is to wait and all slots were lost. */
  method CheckTasks(e: Executor, interp: Interp, poll: bool)
    returns (ok: bool, something: bool, ghost checked: bool, ghost batch: seq<Completed>, ghost dropped: nat,
             ghost taken: seq<bool>, ghost added: multiset<Task>, ghost report: Report)
    requires Valid(e) && Used(e) > 0 && Used(e) <= Total(e) && Balanced(e, interp)
    requires !poll ==> Used(e) == Total(e)
    modifies Footprint(e), interp
    ensures Valid(e) && Used(e) <= old(Used(e))
    ensures |batch| <= 16 && dropped <= |taken| <= |batch|
    ensures exists left :: old(Bag(e)) == left + Tasks(batch) && Bag(e) == left + added
    ensures Outcomes(e, old(Table(e)), batch, checked, report)
    ensures interp.variable.Refusing? == old(interp.variable).Refusing?
    ensures added <= LaunchedBy(RunOf(batch[..|taken|], interp.variable.Refusing?))
    ensures interp.ran == old(interp.ran) + RunOf(batch[..|taken|], interp.variable.Refusing?)
    ensures interp.refs == BagRefs(Bag(e)) + BatchRefs(batch[dropped..])
    ensures if checked then (ok <==> AllSucceed(batch, interp.variable.Refusing?, taken)) && (Balanced(e, interp) <==> ok)
            else !ok && taken == []
    ensures checked ==> StopsAt(batch, interp.variable.Refusing?, taken, dropped) && (e.Noop? ==> AllTaken(taken))
    ensures ok ==> (something <==> batch != []) && (!poll ==> something)
    ensures (e.Noop? ==> checked) && (!poll && old(Leaked(e)) == Total(e) ==> !checked)
  {
    hide TaskRefs, BagRefs, Valid, Bag, Used, Leaked, Table, Outcomes, Tasks, BatchRefs, LaunchedBy, RunOf, AllSucceed,
      StopsAt, AllTaken;
    var completed;
    ok, completed, report := CollectCompleted(e, interp, poll);
    checked, batch, dropped, taken, added := ok, completed, 0, [], multiset{};
    something := completed != [];
    ghost var left := Bag(e);
    StartBatch(batch, interp.variable.Refusing?);
    if ok {
      ok, dropped, taken, added := FinishChecked(e, interp, completed);
    } else {
      assert left + added == left;
    }
  }

  /** The completed tasks leave the executor, with their references. */
  method CollectCompleted(e: Executor, interp: Interp, poll: bool)
    returns (ok: bool, batch: seq<Completed>, ghost report: Report)
    requires Valid(e) && Used(e) > 0 && Balanced(e, interp)
    requires !poll ==> Used(e) == Total(e)
    modifies Footprint(e)
    ensures Valid(e) && |batch| <= 16
    ensures old(Bag(e)) == Bag(e) + Tasks(batch) && Outcomes(e, old(Table(e)), batch, ok, report)
    ensures Used(e) == old(Used(e)) - if ok then |batch| else 0
    ensures interp.refs == BagRefs(Bag(e)) + BatchRefs(batch)
    ensures (ok && !poll ==> batch != []) && (e.Noop? ==> ok) && (!poll && old(Leaked(e)) == Total(e) ==> !ok)
  {
    hide TaskRefs, BagRefs, Valid, Bag, Used, Leaked, Table, Outcomes, Tasks, BatchRefs;
    var completed := new Completed[COMPLETED_BUFFER_SIZE];
    var n;
    ok, n, report := Check(e, completed, !poll);
    batch := completed[..n];
    BatchRefsSplit(Bag(e), batch);
  }

  /** What the loop leaves, and what its success says about the references. */
  method FinishChecked(e: Executor, interp: Interp, batch: seq<Completed>)
    returns (ok: bool, ghost dropped: nat, ghost taken: seq<bool>, ghost added: multiset<Task>)
    requires Valid(e) && Used(e) + |batch| <= Total(e)
    requires interp.refs == BagRefs(Bag(e)) + BatchRefs(batch)
    modifies Footprint(e), interp
    ensures Valid(e) && Used(e) <= old(Used(e)) + |batch| && dropped <= |taken| <= |batch|
    ensures Bag(e) == old(Bag(e)) + added && interp.variable.Refusing? == old(interp.variable).Refusing?
    ensures added <= LaunchedBy(RunOf(batch[..|taken|], interp.variable.Refusing?))
    ensures interp.ran == old(interp.ran) + RunOf(batch[..|taken|], interp.variable.Refusing?)
    ensures interp.refs == BagRefs(Bag(e)) + BatchRefs(batch[dropped..])
    ensures (ok <==> AllSucceed(batch, interp.variable.Refusing?, taken)) && (Balanced(e, interp) <==> ok)
    ensures StopsAt(batch, interp.variable.Refusing?, taken, dropped) && (e.Noop? ==> AllTaken(taken))
  {
    hide TaskRefs, BagRefs, Valid, Bag, Used, BatchRefs, LaunchedBy, RunOf, AllSucceed, StopsAt, AllTaken;
    ok, dropped, taken, added := FinishBatch(e, interp, batch);
    RestHolds(batch, interp.variable.Refusing?, taken, dropped, interp.refs, BagRefs(Bag(e)));
  }

  /** What is left of the batch holds references unless nothing is left of it. */
  lemma {:induction false} RestHolds(batch: seq<Completed>, refusing: bool, taken: seq<bool>, dropped: nat,
                                     refs: multiset<nat>, held: multiset<nat>)
    requires StopsAt(batch, refusing, taken, dropped) && refs == held + BatchRefs(batch[dropped..])
    ensures refs == held <==> AllSucceed(batch, refusing, taken)
  {
    if dropped == |batch| {
      BatchOver(batch);
    } else {
      NextInBatch(batch, dropped);
      CallbackHolds(batch[dropped], refusing, taken[dropped]);
      NotAll(refs, held, TaskRefs(batch[dropped].task), BatchRefs(batch[dropped + 1..]));
    }
  }

  lemma {:induction false} CallbackHolds(c: Completed, refusing: bool, taken: bool)
    requires !CallbackSucceeds(c, refusing, taken)
    ensures TaskRefs(c.task) != multiset{}
  {
    var o := Matching(c).value.obj;
    assert o in RefOf(Matching(c));
    assert o in TaskRefs(c.task);
  }

  lemma {:induction false} NotAll(refs: multiset<nat>, held: multiset<nat>, t: multiset<nat>, rest: multiset<nat>)
    requires refs == held + (t + rest) && t != multiset{}
    ensures refs != held
  {
    var o :| o in t;
    assert refs[o] == held[o] + (t[o] + rest[o]);
  }

  /** When no launch was refused, the batch ends well exactly if no matching callback fails
      whatever becomes of its launch. */
  lemma {:induction false} SucceedsUnlessFails(batch: seq<Completed>, refusing: bool, taken: seq<bool>, dropped: nat)
    requires StopsAt(batch, refusing, taken, dropped) && AllTaken(taken)
    ensures AllSucceed(batch, refusing, taken) <==> forall i :: 0 <= i < |batch| ==> !CallbackFails(batch[i], refusing)
  {
    if AllSucceed(batch, refusing, taken) {
      forall i | 0 <= i < |batch| ensures !CallbackFails(batch[i], refusing) {
        assert CallbackSucceeds(batch[i], refusing, taken[i]);
      }
    }
  }

  /** Known before the call: when the result variable can be set and no callback of a running task
      can fail, the batch ends well, whichever tasks it holds. */
  lemma {:induction false} SafeTasksSucceed(bag: multiset<Task>, left: multiset<Task>, batch: seq<Completed>,
                                            taken: seq<bool>, dropped: nat, refusals: bool)
    requires bag == left + Tasks(batch) && forall t :: t in bag ==> NeverFails(t, refusals)
    requires StopsAt(batch, false, taken, dropped) && (!refusals ==> AllTaken(taken))
    ensures AllSucceed(batch, false, taken)
  {
    if dropped < |batch| {
      TaskInBag(bag, left, batch, dropped);
      NeverFailsSucceeds(batch[dropped], taken[dropped], refusals);
    }
  }

  lemma NeverFailsSucceeds(c: Completed, taken: bool, refusals: bool)
    requires NeverFails(c.task, refusals) && (!refusals ==> taken)
    ensures CallbackSucceeds(c, false, taken)
  {
  }

  lemma {:induction false} TaskInBag(bag: multiset<Task>, left: multiset<Task>, batch: seq<Completed>, i: nat)
    requires bag == left + Tasks(batch) && i < |batch|
    ensures batch[i].task in bag
  {
    InTasks(batch, i);
  }

  lemma {:induction false} InTasks(batch: seq<Completed>, i: nat)
    requires i < |batch|
    ensures batch[i].task in Tasks(batch)
  {
    if i > 0 { InTasks(batch[1..], i - 1); }
  }

  lemma StartBatch(batch: seq<Completed>, refusing: bool)
    ensures batch[0..] == batch && RunOf(batch[..0], refusing) == []
    ensures LaunchedBy(RunOf(batch[..0], refusing)) == multiset{}
  {
  }

  lemma NextInBatch(batch: seq<Completed>, i: nat)
    requires i < |batch|
    ensures BatchRefs(batch[i..]) == TaskRefs(batch[i].task) + BatchRefs(batch[i + 1..])
  {
  }

  lemma {:induction false} MoreLaunched(batch: seq<Completed>, i: nat, added: multiset<Task>, more: multiset<Task>,
                                        refusing: bool)
    requires i < |batch| && added <= LaunchedBy(RunOf(batch[..i], refusing))
    requires more <= LaunchedBy(RunList(batch[i], refusing))
    ensures RunOf(batch[..i + 1], refusing) == RunOf(batch[..i], refusing) + RunList(batch[i], refusing)
    ensures added + more <= LaunchedBy(RunOf(batch[..i + 1], refusing))
  {
    hide LaunchedBy, CallbacksOf;
    CallbacksAppend(batch, i);
    LaunchedByAppend(RunOf(batch[..i], refusing), RunList(batch[i], refusing));
  }

  lemma BatchOver(batch: seq<Completed>)
    ensures batch[..|batch|] == batch && BatchRefs(batch[|batch|..]) == multiset{}
  {
  }
}
