/** Tasks of the asynchronous executors, and the references their callbacks hold. */
module AsyncTasks {
  import opened Options

  /** The result variable of the executor: not there, one that can be set, or one that cannot, as
      an array or a variable whose trace objects. */
  datatype Variable = Absent | Plain | Refusing

  /** The effect of a piece of compiler-generated code, as far as the worker loop sees it: it
      launches at most one task, may end in an error, of its own or because the launch failed and
      it did not catch that, and may leave the result variable otherwise than it was. */
  datatype Script = Script(launch: Option<Task>, catches: bool, fails: bool, leaves: Option<Variable>)

  /** A callback is a Tcl object, counted by reference. */
  datatype Callback = Callback(obj: nat, code: Script)

  datatype Task = Task(success: Option<Callback>, failure: Option<Callback>)

  datatype Completed = Completed(task: Task, success: bool)

  /** The callback that matches how the task ended. */
  function Matching(c: Completed): Option<Callback> {
    if c.success then c.task.success else c.task.failure
  }

  /** A script ends well unless it fails of its own, or its launch was refused and it does not
      catch that. */
  predicate Succeeds(s: Script, taken: bool) {
    !s.fails && (taken || s.launch.None? || s.catches)
  }

  /** The result variable after a script. */
  function After(s: Script, v: Variable): Variable {
    if s.leaves.Some? then s.leaves.value else v
  }

  /** As a callback a script ends well if moreover the result variable can be unset after it. */
  predicate EndsWell(s: Script, taken: bool) {
    Succeeds(s, taken) && s.leaves != Some(Absent)
  }

  /** The callback of a completed task, if there is one, ends well.  It does not start when the
      result variable refuses to be set. */
  predicate CallbackSucceeds(c: Completed, refusing: bool, taken: bool) {
    Matching(c).None? || (!refusing && EndsWell(Matching(c).value.code, taken))
  }

  /** The matching callback fails whatever becomes of its launch: it cannot start, its script
      fails of its own, or the script unsets the result variable itself. */
  predicate CallbackFails(c: Completed, refusing: bool) {
    Matching(c).Some?
    && (refusing || Matching(c).value.code.fails || Matching(c).value.code.leaves == Some(Absent))
  }

  /** A callback that only unsets the result variable ends without an error, and fails. */
  lemma UnsetExample()
    ensures var cb := Callback(0, Script(None, false, false, Some(Absent)));
      var c := Completed(Task(Some(cb), None), true);
      Succeeds(cb.code, true) && !CallbackSucceeds(c, false, true) && CallbackFails(c, false)
  {
  }

  /** Neither callback can fail once it has started: not of its own, nor for a refused launch where
      launches can be refused. */
  predicate NeverFails(t: Task, refusals: bool) {
    (t.success.None? || EndsWell(t.success.value.code, !refusals))
    && (t.failure.None? || EndsWell(t.failure.value.code, !refusals))
  }

  predicate AllTaken(taken: seq<bool>) {
    forall i :: 0 <= i < |taken| ==> taken[i]
  }

  /** Every callback of the batch ran and ended well; `taken` says whose launch was taken. */
  predicate AllSucceed(batch: seq<Completed>, refusing: bool, taken: seq<bool>) {
    |taken| == |batch| && forall i :: 0 <= i < |batch| ==> CallbackSucceeds(batch[i], refusing, taken[i])
  }

  // ---------------------------------------------------------------- references

  function RefOf(cb: Option<Callback>): multiset<nat> {
    if cb.None? then multiset{} else multiset{cb.value.obj}
  }

  /** The references a running task holds. */
  function TaskRefs(t: Task): multiset<nat> {
    RefOf(t.success) + RefOf(t.failure)
  }

  ghost function BagRefs(bag: multiset<Task>): multiset<nat>
    decreases |bag|
  {
    if |bag| == 0 then multiset{}
    else
      var t :| t in bag;
      TaskRefs(t) + BagRefs(bag - multiset{t})
  }

  lemma {:induction false} BagRefsOne(bag: multiset<Task>) returns (t: Task)
    requires |bag| > 0
    ensures t in bag && BagRefs(bag) == TaskRefs(t) + BagRefs(bag - multiset{t})
  {
    hide TaskRefs;
    t :| t in bag && BagRefs(bag) == TaskRefs(t) + BagRefs(bag - multiset{t});
  }

  lemma SwapTasks(bag: multiset<Task>, t: Task, u: Task)
    requires t in bag && u in bag && t != u
    ensures t in bag - multiset{u} && u in bag - multiset{t}
    ensures |bag - multiset{u}| < |bag| && |bag - multiset{t}| < |bag|
    ensures bag - multiset{u} - multiset{t} == bag - multiset{t} - multiset{u}
  {
  }

  lemma SwapRefs(a: multiset<nat>, b: multiset<nat>, c: multiset<nat>)
    ensures a + (b + c) == b + (a + c)
  {
  }

  /** The order in which the tasks are looked at does not matter. */
  lemma {:induction false} BagRefsRemove(bag: multiset<Task>, t: Task)
    requires t in bag
    ensures BagRefs(bag) == TaskRefs(t) + BagRefs(bag - multiset{t})
    decreases |bag|
  {
    hide *;
    var u := BagRefsOne(bag);
    if u != t {
      SwapTasks(bag, t, u);
      BagRefsRemove(bag - multiset{u}, t);
      BagRefsRemove(bag - multiset{t}, u);
      SwapRefs(TaskRefs(u), TaskRefs(t), BagRefs(bag - multiset{t} - multiset{u}));
    }
  }

  lemma {:induction false} BagRefsAdd(bag: multiset<Task>, t: Task)
    ensures BagRefs(bag + multiset{t}) == BagRefs(bag) + TaskRefs(t)
  {
    hide TaskRefs, BagRefs;
    BagRefsRemove(bag + multiset{t}, t);
    assert bag + multiset{t} - multiset{t} == bag;
  }

  /** The tasks of a batch of completions. */
  function Tasks(batch: seq<Completed>): multiset<Task> {
    if |batch| == 0 then multiset{} else multiset{batch[0].task} + Tasks(batch[1..])
  }

  function BatchRefs(batch: seq<Completed>): multiset<nat> {
    if |batch| == 0 then multiset{} else TaskRefs(batch[0].task) + BatchRefs(batch[1..])
  }

  lemma {:induction false} BatchRefsSplit(bag: multiset<Task>, batch: seq<Completed>)
    ensures BagRefs(bag + Tasks(batch)) == BagRefs(bag) + BatchRefs(batch)
  {
    if |batch| == 0 {
      assert bag + Tasks(batch) == bag;
    } else {
      hide TaskRefs;
      var t := batch[0].task;
      assert bag + Tasks(batch) == bag + Tasks(batch[1..]) + multiset{t};
      BagRefsAdd(bag + Tasks(batch[1..]), t);
      BatchRefsSplit(bag, batch[1..]);
    }
  }

  lemma {:induction false} TasksAppend(batch: seq<Completed>, c: Completed)
    ensures Tasks(batch + [c]) == Tasks(batch) + multiset{c.task}
  {
    if |batch| > 0 {
      assert (batch + [c])[1..] == batch[1..] + [c];
      TasksAppend(batch[1..], c);
    } else {
      assert (batch + [c])[1..] == [];
      assert batch + [c] == [c];
    }
  }

  lemma {:induction false} TasksSize(batch: seq<Completed>)
    ensures |Tasks(batch)| == |batch|
  {
    if |batch| > 0 { TasksSize(batch[1..]); }
  }

  // ---------------------------------------------------------------- launches

  /** The task a script tries to add to the executor. */
  function Launched(s: Script): multiset<Task> {
    if s.launch.Some? then multiset{s.launch.value} else multiset{}
  }

  /** The callbacks that run for a batch, in order. */
  function CallbacksOf(batch: seq<Completed>): seq<Callback> {
    if |batch| == 0 then []
    else (if Matching(batch[0]).Some? then [Matching(batch[0]).value] else []) + CallbacksOf(batch[1..])
  }

  /** The callbacks that run; none does when the result variable refuses to be set. */
  function RunOf(batch: seq<Completed>, refusing: bool): seq<Callback> {
    if refusing then [] else CallbacksOf(batch)
  }

  function LaunchedBy(cbs: seq<Callback>): multiset<Task> {
    if |cbs| == 0 then multiset{} else Launched(cbs[0].code) + LaunchedBy(cbs[1..])
  }

  lemma {:induction false} LaunchedByAppend(a: seq<Callback>, b: seq<Callback>)
    ensures LaunchedBy(a + b) == LaunchedBy(a) + LaunchedBy(b)
  {
    if |a| == 0 {
      assert a + b == b;
    } else {
      hide Launched;
      assert (a + b)[1..] == a[1..] + b;
      LaunchedByAppend(a[1..], b);
    }
  }

  lemma {:induction false} CallbacksAppend(batch: seq<Completed>, i: nat)
    requires i < |batch|
    ensures CallbacksOf(batch[..i + 1]) == CallbacksOf(batch[..i]) +
            if Matching(batch[i]).Some? then [Matching(batch[i]).value] else []
  {
    hide Matching;
    assert batch[..i + 1][1..] == batch[1..][..i];
    if i == 0 {
      assert batch[..1] == [batch[0]] && batch[..0] == [];
    } else {
      assert batch[..i][1..] == batch[1..][..i - 1];
      CallbacksAppend(batch[1..], i - 1);
    }
  }

  lemma RefsOrder(a: multiset<nat>, b: multiset<nat>, r: multiset<nat>)
    requires a + b <= r
    ensures a <= r && b <= r - a && r - a - b + (a + b) == r
  {
  }

  /** Reference counts of the Tcl interpreter, relative to those of the program: the multiset
      of the references that executors hold.  `ran` lists the callbacks that were run, and
      `variable` is the result variable of the executor. */
  class Interp {
    ghost var refs: multiset<nat>
    ghost var ran: seq<Callback>
    var variable: Variable

    constructor ()
      ensures refs == multiset{} && ran == [] && variable == Absent
    {
      refs, ran, variable := multiset{}, [], Absent;
    }

    /** `Tcl_ObjSetVar2` of the result variable. */
    method SetVariable() returns (ok: bool)
      modifies this`variable
      ensures ok <==> !old(variable).Refusing?
      ensures variable == if ok then Plain else old(variable)
    {
      ok := !variable.Refusing?;
      if ok { variable := Plain; }
    }

    /** `Tcl_UnsetVar`, which takes arrays and traces along. */
    method UnsetVariable() returns (ok: bool)
      modifies this`variable
      ensures (ok <==> !old(variable).Absent?) && variable == Absent
    {
      ok := !variable.Absent?;
      variable := Absent;
    }

    /** What a script leaves. */
    method Affect(s: Script)
      modifies this`variable
      ensures variable == After(s, old(variable))
    {
      if s.leaves.Some? { variable := s.leaves.value; }
    }

    /** `Tcl_IncrRefCount` of a callback, unless it is null. */
    method Incr(cb: Option<Callback>)
      modifies this`refs
      ensures refs == old(refs) + RefOf(cb) && ran == old(ran)
    {
      refs := refs + RefOf(cb);
    }

    /** `Tcl_DecrRefCount`; there has to be a reference to give back. */
    method Decr(cb: Option<Callback>)
      requires RefOf(cb) <= refs
      modifies this`refs
      ensures refs + RefOf(cb) == old(refs) && ran == old(ran)
    {
      refs := refs - RefOf(cb);
    }

    /** Both references of a task, as `noop_stop` and `check_tasks` drop them. */
    method GiveBack(task: Task)
      requires TaskRefs(task) <= refs
      modifies this`refs
      ensures refs + TaskRefs(task) == old(refs) && ran == old(ran)
    {
      RefsOrder(RefOf(task.success), RefOf(task.failure), refs);
      Decr(task.success);
      Decr(task.failure);
    }

    /** `Tcl_EvalObjEx` of a callback: that it was run. */
    method Ran(cb: Callback)
      modifies this`ran
      ensures ran == old(ran) + [cb] && refs == old(refs)
    {
      ran := ran + [cb];
    }
  }
}
