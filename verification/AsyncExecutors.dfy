/** The two executors: code/src/turbine/executors/noop_executor.c, an array with one task per
    slot, and coaster_executor.c, a table of jobs.  Both are a bag of running tasks. */
module AsyncExecutors {
  import opened Options
  import opened AsyncTasks

  const NOOP_EXEC_SLOTS: nat := 4
  const COASTER_JOBS_CHUNK: nat := 32

  // ---------------------------------------------------------------- the noop executor

  datatype NoopTask = Idle | Active(task: Task)

  function SlotBag(s: NoopTask): multiset<Task> {
    if s.Active? then multiset{s.task} else multiset{}
  }

  /** The tasks in the first `n` slots. */
  function Actives(slots: seq<NoopTask>, n: nat): multiset<Task>
    requires n <= |slots|
  {
    if n == 0 then multiset{} else Actives(slots, n - 1) + SlotBag(slots[n-1])
  }

  lemma {:induction false} ActivesSame(slots: seq<NoopTask>, i: nat, s: NoopTask, n: nat)
    requires n <= i < |slots|
    ensures Actives(slots[i := s], n) == Actives(slots, n)
  {
    hide SlotBag;
    if n > 0 { ActivesSame(slots, i, s, n - 1); }
  }

  lemma {:induction false} Exchange<T>(a: multiset<T>, b: multiset<T>, c: multiset<T>, d: multiset<T>, e: multiset<T>)
    requires a + b == c + d
    ensures a + e + b == c + e + d
  {
    Swap(a, e, b);
    Swap(c, e, d);
  }

  lemma Swap<T>(a: multiset<T>, b: multiset<T>, c: multiset<T>)
    ensures a + b + c == a + c + b
  {
  }

  lemma {:induction false} ActivesUpdate(slots: seq<NoopTask>, i: nat, s: NoopTask, n: nat)
    requires i < n <= |slots|
    ensures Actives(slots[i := s], n) + SlotBag(slots[i]) == Actives(slots, n) + SlotBag(s)
  {
    hide SlotBag;
    var new_ := slots[i := s];
    if i == n - 1 {
      ActivesSame(slots, i, s, i);
      Swap(Actives(slots, i), SlotBag(s), SlotBag(slots[i]));
    } else {
      ActivesUpdate(slots, i, s, n - 1);
      Exchange(Actives(new_, n - 1), SlotBag(slots[i]), Actives(slots, n - 1), SlotBag(s), SlotBag(slots[n-1]));
    }
  }

  lemma SlotSize(s: NoopTask)
    ensures |SlotBag(s)| == if s.Active? then 1 else 0
  {
  }

  predicate AllActive(slots: seq<NoopTask>, n: nat)
    requires n <= |slots|
  {
    forall i :: 0 <= i < n ==> slots[i].Active?
  }

  predicate AllIdle(slots: seq<NoopTask>, n: nat)
    requires n <= |slots|
  {
    forall i :: 0 <= i < n ==> slots[i].Idle?
  }

  /** A slot is free exactly if there are fewer tasks than slots. */
  lemma {:induction false} ActivesSize(slots: seq<NoopTask>, n: nat)
    requires n <= |slots|
    ensures |Actives(slots, n)| <= n
    ensures |Actives(slots, n)| == n <==> AllActive(slots, n)
    ensures |Actives(slots, n)| == 0 <==> AllIdle(slots, n)
  {
    hide SlotBag;
    if n > 0 {
      ActivesSize(slots, n - 1);
      SlotSize(slots[n-1]);
      assert AllActive(slots, n) <==> AllActive(slots, n - 1) && slots[n-1].Active?;
      assert AllIdle(slots, n) <==> AllIdle(slots, n - 1) && slots[n-1].Idle?;
    }
  }

  predicate AllSuccess(batch: seq<Completed>) {
    forall k :: 0 <= k < |batch| ==> batch[k].success
  }

  class NoopExecutor {
    const tasks: array<NoopTask>
    var used: nat

    ghost predicate Valid()
      reads this, tasks
    {
      tasks.Length == NOOP_EXEC_SLOTS && used == |Bag()|
    }

    /** The running tasks. */
    ghost function Bag(): multiset<Task>
      reads this, tasks
    {
      Actives(tasks[..], tasks.Length)
    }

    /** `noop_start`. */
    constructor ()
      ensures Valid() && fresh(tasks) && tasks.Length == 4 && Bag() == multiset{} && used == 0
    {
      used := 0;
      tasks := new NoopTask[NOOP_EXEC_SLOTS];
      new;
      for i := 0 to tasks.Length
        invariant used == 0 && tasks.Length == NOOP_EXEC_SLOTS && fresh(tasks)
        invariant forall k :: 0 <= k < i ==> tasks[k].Idle?
      {
        tasks[i] := Idle;
      }
      ActivesSize(tasks[..], tasks.Length);
    }

    /** Slot `i` changes. */
    method Put(i: nat, s: NoopTask)
      requires i < tasks.Length
      modifies tasks
      ensures tasks[..] == old(tasks[..])[i := s]
      ensures Bag() + SlotBag(old(tasks[i])) == old(Bag()) + SlotBag(s)
    {
      ActivesUpdate(tasks[..], i, s, tasks.Length);
      tasks[i] := s;
    }

    /** `noop_execute`; the first free slot takes the task. */
    method Execute(interp: Interp, task: Task)
      requires Valid() && used < NOOP_EXEC_SLOTS
      modifies this, tasks, interp`refs
      ensures Valid() && used == old(used) + 1
      ensures Bag() == old(Bag()) + multiset{task}
      ensures interp.refs == old(interp.refs) + TaskRefs(task) && interp.ran == old(interp.ran)
    {
      used := used + 1;
      var i := FindSlot();
      Put(i, Active(task));
      assert Bag() + multiset{} == Bag();
      interp.Incr(task.success);
      interp.Incr(task.failure);
      assert interp.refs == old(interp.refs) + TaskRefs(task);
    }

    /** Its search; a slot is found whenever fewer are used than there are. */
    method FindSlot() returns (i: nat)
      requires |Bag()| < tasks.Length
      ensures i < tasks.Length && tasks[i].Idle?
      ensures forall k :: 0 <= k < i ==> tasks[k].Active?
    {
      ActivesSize(tasks[..], tasks.Length);
      i := 0;
      while i < tasks.Length
        invariant 0 <= i <= tasks.Length
        invariant forall k :: 0 <= k < i ==> tasks[k].Active?
      {
        if tasks[i].Idle? { return; }
        i := i + 1;
      }
    }

    /** `choose_completed`; any active slot may be chosen. */
    method ChooseCompleted(completed: array<Completed>, n: nat)
      requires tasks.Length == NOOP_EXEC_SLOTS && n < completed.Length && |Bag()| > 0
      modifies tasks, completed
      ensures completed[n].success
      ensures completed[..] == old(completed[..])[n := completed[n]]
      ensures Bag() + multiset{completed[n].task} == old(Bag())
    {
      ActivesSize(tasks[..], tasks.Length);
      var slot: nat :| slot < tasks.Length && tasks[slot].Active?;
      completed[n] := Completed(tasks[slot].task, true);
      Put(slot, Idle);
      assert old(Bag()) + multiset{} == old(Bag());
    }

    /** `fill_completed`; one or two tasks. */
    method FillCompleted(completed: array<Completed>, two: bool) returns (n: nat)
      requires Valid() && used > 0 && completed.Length >= 1
      modifies this, tasks, completed
      ensures Valid() && 1 <= n <= completed.Length && n <= 2 && used + n == old(used)
      ensures old(Bag()) == Bag() + Tasks(completed[..n]) && AllSuccess(completed[..n])
      ensures n == 2 <==> two && old(used) >= 2 && completed.Length >= 2
    {
      hide Tasks, Actives;
      ChooseCompleted(completed, 0);
      n := 1;
      TasksOfOne(completed);
      if used > 1 && two && completed.Length >= 2 {
        ghost var first := completed[0];
        ChooseCompleted(completed, 1);
        n := 2;
        TasksOfTwo(completed, first, Bag());
      }
      TasksSize(completed[..n]);
      used := used - n;
    }

    /** `noop_wait` and `noop_poll`; polling may find nothing although a task is running. */
    method Check(completed: array<Completed>, wait: bool, lucky: bool, two: bool) returns (n: nat)
      requires Valid() && completed.Length >= 1
      modifies this, tasks, completed
      ensures Valid() && n <= completed.Length && used + n == old(used)
      ensures old(Bag()) == Bag() + Tasks(completed[..n]) && AllSuccess(completed[..n])
      ensures wait && old(used) > 0 ==> n > 0
    {
      if used > 0 && (wait || lucky) {
        n := FillCompleted(completed, two);
      } else {
        n := 0;
      }
    }

    method ReleaseSlot(i: nat, interp: Interp, ghost spare: multiset<nat>)
      requires i < tasks.Length && tasks[i].Active? && interp.refs == spare + BagRefs(Bag())
      modifies tasks, interp`refs
      ensures tasks[..] == old(tasks[..])[i := Idle] && interp.refs == spare + BagRefs(Bag())
      ensures interp.ran == old(interp.ran)
    {
      hide TaskRefs, BagRefs, Actives;
      var task := tasks[i].task;
      ghost var before := Bag();
      Put(i, Idle);
      LetGo(before, Bag(), task, interp.refs, spare);
      interp.GiveBack(task);
    }

    /** `noop_stop`: the callbacks of what is still running are let go. */
    method Stop(interp: Interp)
      requires Valid() && BagRefs(Bag()) <= interp.refs
      modifies this, tasks, interp`refs
      ensures interp.refs + BagRefs(old(Bag())) == old(interp.refs) && interp.ran == old(interp.ran)
    {
      hide TaskRefs, BagRefs, Actives;
      ghost var spare := interp.refs - BagRefs(Bag());
      for i := 0 to tasks.Length
        invariant tasks.Length == NOOP_EXEC_SLOTS && interp.ran == old(interp.ran)
        invariant interp.refs == spare + BagRefs(Bag())
        invariant forall k :: 0 <= k < i ==> tasks[k].Idle?
      {
        if tasks[i].Active? { ReleaseSlot(i, interp, spare); }
      }
      ActivesSize(tasks[..], tasks.Length);
      NoRefs();
    }
  }

  lemma NoRefs()
    ensures BagRefs(multiset{}) == multiset{}
  {
  }

  /** Room for the references of a task that leaves the bag. */
  lemma {:induction false} LetGo(before: multiset<Task>, after: multiset<Task>, task: Task,
                                 refs: multiset<nat>, spare: multiset<nat>)
    requires after + SlotBag(Active(task)) == before + SlotBag(Idle) && refs == spare + BagRefs(before)
    ensures TaskRefs(task) <= refs && refs - TaskRefs(task) == spare + BagRefs(after)
  {
    hide TaskRefs, BagRefs;
    assert before == after + multiset{task};
    BagRefsAdd(after, task);
  }

  lemma TasksOfOne(completed: array<Completed>)
    requires completed.Length >= 1
    ensures Tasks(completed[..1]) == multiset{completed[0].task}
  {
  }

  lemma {:induction false} TasksOfTwo(completed: array<Completed>, first: Completed, bag: multiset<Task>)
    requires completed.Length >= 2 && completed[0] == first
    ensures bag + Tasks(completed[..2]) == bag + multiset{completed[1].task} + multiset{first.task}
  {
    assert completed[..2] == completed[..1] + [completed[1]];
    TasksAppend(completed[..1], completed[1]);
    TasksOfOne(completed);
  }

  // ---------------------------------------------------------------- the coaster executor

  lemma {:induction false} SomeJob(jobs: map<int, Task>)
    requires jobs != map[]
    ensures exists id :: id in jobs
  {
    if forall id :: id !in jobs { assert false; }
  }

  /** The tasks of a job table. */
  ghost function TableBag(jobs: map<int, Task>): multiset<Task>
    decreases |jobs|
  {
    if jobs == map[] then multiset{}
    else
      SomeJob(jobs);
      var id :| id in jobs;
      multiset{jobs[id]} + TableBag(jobs - {id})
  }

  lemma {:induction false} TableBagSome(jobs: map<int, Task>)
    requires jobs != map[]
    ensures exists id :: id in jobs && TableBag(jobs) == multiset{jobs[id]} + TableBag(jobs - {id})
  {
    SomeJob(jobs);
  }

  lemma {:induction false} TableBagOne(jobs: map<int, Task>) returns (id: int)
    requires jobs != map[]
    ensures id in jobs && TableBag(jobs) == multiset{jobs[id]} + TableBag(jobs - {id})
  {
    hide *;
    TableBagSome(jobs);
    id :| id in jobs && TableBag(jobs) == multiset{jobs[id]} + TableBag(jobs - {id});
  }

  lemma SwapJobs(jobs: map<int, Task>, a: int, b: int)
    requires a in jobs && b in jobs && a != b
    ensures a in jobs - {b} && b in jobs - {a}
    ensures |jobs - {a}| < |jobs| && |jobs - {b}| < |jobs|
    ensures jobs - {a} - {b} == jobs - {b} - {a}
  {
  }

  lemma {:induction false} TableBagRemove(jobs: map<int, Task>, id: int)
    requires id in jobs
    ensures TableBag(jobs) == multiset{jobs[id]} + TableBag(jobs - {id})
    decreases |jobs|
  {
    hide *;
    var k := TableBagOne(jobs);
    if k != id {
      SwapJobs(jobs, k, id);
      TableBagRemove(jobs - {k}, id);
      TableBagRemove(jobs - {id}, k);
    }
  }

  lemma {:induction false} TableBagAdd(jobs: map<int, Task>, id: int, task: Task)
    requires id !in jobs
    ensures TableBag(jobs[id := task]) == TableBag(jobs) + multiset{task}
  {
    hide TableBag;
    TableBagRemove(jobs[id := task], id);
    assert jobs[id := task] - {id} == jobs;
  }

  /** A job the client reports: its number and whether its status is `COMPLETED`. */
  datatype Job = Job(id: int, success: bool)

  /** What the client reported in a number of calls, and whether it answered the last of them. */
  datatype Report = Report(jobs: seq<Job>, answered: bool)

  /** `coaster_check_jobs`: at most `maxjobs` finished jobs, and at least one if it waits.  What
      else the client reports is not known.  It does not answer when it fails, or when it waits
      and never returns. */
  method CheckJobs(wait: bool, maxjobs: nat) returns (answered: bool, jobs: seq<Job>)
    requires maxjobs >= 1
    ensures |jobs| <= maxjobs && (answered && wait ==> |jobs| >= 1)
  {
    answered, jobs := *, *;
    if |jobs| > maxjobs { jobs := jobs[..maxjobs]; }
    if wait && |jobs| == 0 { answered := false; }
  }

  /** The batch holds the tasks of the first jobs reported, in order, each from the table as it was
      and with the outcome that was reported; these jobs are different ones, and they and no others
      have left the table. */
  predicate AsReported(jobs: map<int, Task>, jobs': map<int, Task>, batch: seq<Completed>, reported: seq<Job>) {
    && |batch| <= |reported|
    && (forall k :: 0 <= k < |batch| ==>
          reported[k].id in jobs && batch[k].task == jobs[reported[k].id] && batch[k].success == reported[k].success)
    && (forall i, k :: 0 <= i < k < |batch| ==> reported[i].id != reported[k].id)
    && (forall k :: 0 <= k < |batch| ==> reported[k].id !in jobs')
    && (forall id :: id in jobs && id !in jobs' ==> AmongFirst(reported, |batch|, id))
    && (forall id :: id in jobs' ==> id in jobs && jobs'[id] == jobs[id])
  }

  predicate AmongFirst(reported: seq<Job>, n: nat, id: int)
    requires n <= |reported|
  {
    exists k :: 0 <= k < n && reported[k].id == id
  }

  lemma NothingReported(jobs: map<int, Task>, completed: array<Completed>)
    ensures AsReported(jobs, jobs, completed[..0], [])
  {
  }

  lemma {:induction false} ReportedMore(jobs: map<int, Task>, jobs': map<int, Task>, batch: seq<Completed>,
                                        reported: seq<Job>, more: seq<Job>)
    requires AsReported(jobs, jobs', batch, reported)
    ensures AsReported(jobs, jobs', batch, reported + more)
  {
    var all := reported + more;
    assert forall k :: 0 <= k < |batch| ==> all[k] == reported[k];
    forall id | id in jobs && id !in jobs' ensures AmongFirst(all, |batch|, id) {
      var k :| 0 <= k < |batch| && reported[k].id == id;
      assert all[k].id == id;
    }
  }

  lemma ReportedNext(jobs: map<int, Task>, jobs': map<int, Task>, batch: seq<Completed>, reported: seq<Job>)
    requires AsReported(jobs, jobs', batch, reported) && |batch| < |reported| && reported[|batch|].id in jobs'
    ensures var job := reported[|batch|];
      AsReported(jobs, jobs' - {job.id}, batch + [Completed(jobs'[job.id], job.success)], reported)
  {
  }

  class CoasterExecutor {
    const total: nat
    var used: nat
    var jobs: map<int, Task>
    ghost var leaked: nat       // slots taken by launches that failed

    ghost predicate Valid()
      reads this
    {
      total >= 1 && used == |Bag()| + leaked
    }

    ghost function Bag(): multiset<Task>
      reads this
    {
      TableBag(jobs)
    }

    constructor (total: nat)
      requires total >= 1
      ensures Valid() && this.total == total && Bag() == multiset{} && used == 0 && leaked == 0
    {
      this.total := total;
      used, jobs, leaked := 0, map[], 0;
    }

    /** `coaster_execute`.  The slot is taken before the job is submitted, and stays taken
        when the service refuses it. */
    method Execute(interp: Interp, task: Task, jobId: int, submitted: bool) returns (ok: bool)
      requires Valid() && used < total
      modifies this, interp`refs
      ensures Valid() && used == old(used) + 1
      ensures ok == (submitted && jobId !in old(jobs))
      ensures ok ==> leaked == old(leaked) && Bag() == old(Bag()) + multiset{task}
                     && interp.refs == old(interp.refs) + TaskRefs(task)
      ensures !ok ==> leaked == old(leaked) + 1 && Bag() == old(Bag()) && interp.refs == old(interp.refs)
      ensures interp.ran == old(interp.ran)
    {
      used := used + 1;
      if !submitted || jobId in jobs {
        leaked := leaked + 1;
        return false;
      }
      TableBagAdd(jobs, jobId, task);
      jobs := jobs[jobId := task];
      interp.Incr(task.success);
      interp.Incr(task.failure);
      ok := true;
    }

    /** `check_completed`: jobs are fetched in chunks until the buffer is full or a chunk comes
        back short.  A job that is not in the table is an error, and so is, here, a call that
        never returns: waiting succeeds only with a task in the table.  `report` is what the client
        reported in this call, and `last` is how many jobs came with its last answer. */
    method CheckCompleted(completed: array<Completed>, wait: bool)
      returns (ok: bool, n: nat, ghost report: Report, ghost last: nat)
      requires Valid() && completed.Length >= 1
      modifies this, completed
      ensures Valid() && n <= completed.Length && (ok && wait ==> n >= 1)
      ensures wait && old(Bag()) == multiset{} ==> !ok
      ensures ok ==> leaked == old(leaked) && used + n == old(used)
      ensures !ok ==> used == old(used) && leaked == old(leaked) + n
      ensures old(Bag()) == Bag() + Tasks(completed[..n])
      ensures AsReported(old(jobs), jobs, completed[..n], report.jobs)
      ensures ok <==> report.answered && n == |report.jobs|
      ensures n < |report.jobs| ==> report.jobs[n].id !in jobs
      ensures ok && n < completed.Length ==> last <= n && last < 32 && last < completed.Length - (n - last)
    {
      hide TableBag, Tasks, AsReported, Bag;
      NothingTaken(completed, Bag());
      NothingReported(jobs, completed);
      ok, n, report, last := true, 0, Report([], true), 0;
      var waiting, short := wait, false;
      while n < completed.Length && ok && !short
        invariant n <= completed.Length && used == old(used) && leaked == old(leaked)
        invariant old(Bag()) == Bag() + Tasks(completed[..n])
        invariant (ok && waiting ==> n == 0 && !short) && (ok && wait && n == 0 ==> waiting)
        invariant AsReported(old(jobs), jobs, completed[..n], report.jobs)
        invariant ok <==> report.answered && n == |report.jobs|
        invariant n < |report.jobs| ==> report.jobs[n].id !in jobs
        invariant short && ok ==> last <= n && last < 32 && last < completed.Length - (n - last)
        decreases completed.Length - n, ok, !short
      {
        ok, n, short, report, last := FetchChunk(completed, n, waiting, old(jobs), report);
        waiting := waiting && n == 0;
      }
      NoneFromEmpty(old(Bag()), Bag(), completed[..n]);
      LeakBatch(old(Bag()), Bag(), completed[..n]);
      Settle(ok, n);
    }

    /** One call of the client, and the jobs it reports. */
    method FetchChunk(completed: array<Completed>, start: nat, waiting: bool, ghost first: map<int, Task>,
                      ghost before: Report)
      returns (ok: bool, n: nat, short: bool, ghost report: Report, ghost last: nat)
      requires start < completed.Length && start == |before.jobs|
      requires AsReported(first, jobs, completed[..start], before.jobs)
      modifies this, completed
      ensures start <= n <= completed.Length && used == old(used) && leaked == old(leaked)
      ensures Bag() + Tasks(completed[..n]) == old(Bag()) + Tasks(old(completed[..start]))
      ensures AsReported(first, jobs, completed[..n], report.jobs)
      ensures ok <==> report.answered && n == |report.jobs|
      ensures n < |report.jobs| ==> report.jobs[n].id !in jobs
      ensures ok && (waiting || !short) ==> n > start
      ensures ok && short ==> last <= n && last < 32 && last < completed.Length - (n - last)
    {
      hide TableBag, Tasks, AsReported;
      var maxleft := completed.Length - start;
      var maxjobs := if maxleft < COASTER_JOBS_CHUNK then maxleft else COASTER_JOBS_CHUNK;
      var chunk;
      n, short, last := start, false, 0;
      ok, chunk := CheckJobs(waiting, maxjobs);
      report := before.(answered := ok);
      if ok {
        report, last := report.(jobs := before.jobs + chunk), |chunk|;
        ok, n := TakeChunk(completed, start, chunk, first, before.jobs);
        short := |chunk| < maxjobs;
      }
    }

    /** The slots of the jobs taken are free again, unless there was an error. */
    method Settle(ok: bool, n: nat)
      requires used == |Bag()| + n + leaked && total >= 1
      modifies this`used, this`leaked
      ensures Valid()
      ensures if ok then used + n == old(used) && leaked == old(leaked) else used == old(used) && leaked == old(leaked) + n
      ensures Bag() == old(Bag())
    {
      if ok { used := used - n; } else { leaked := leaked + n; }
    }

    /** The loop over one chunk; it stops at a job that is not in the table. */
    method TakeChunk(completed: array<Completed>, start: nat, chunk: seq<Job>, ghost first: map<int, Task>,
                     ghost before: seq<Job>)
      returns (ok: bool, n: nat)
      requires start + |chunk| <= completed.Length && start == |before|
      requires AsReported(first, jobs, completed[..start], before)
      modifies this, completed
      ensures start <= n <= start + |chunk| && (ok <==> n == start + |chunk|)
      ensures used == old(used) && leaked == old(leaked)
      ensures Bag() + Tasks(completed[..n]) == old(Bag()) + Tasks(old(completed[..start]))
      ensures AsReported(first, jobs, completed[..n], before + chunk)
      ensures !ok ==> chunk[n - start].id !in jobs
    {
      hide TableBag, Tasks, AsReported;
      ok, n := true, start;
      ReportedMore(first, jobs, completed[..start], before, chunk);
      for i := 0 to |chunk|
        invariant n == start + i && used == old(used) && leaked == old(leaked)
        invariant Bag() + Tasks(completed[..n]) == old(Bag()) + Tasks(old(completed[..start]))
        invariant AsReported(first, jobs, completed[..n], before + chunk)
      {
        if chunk[i].id !in jobs { return false, n; }
        ReportedNext(first, jobs, completed[..n], before + chunk);
        TakeJob(completed, n, chunk[i]);
        n := n + 1;
      }
    }

    /** One finished job: out of the table, into the buffer, with how it ended. */
    method TakeJob(completed: array<Completed>, n: nat, job: Job)
      requires n < completed.Length && job.id in jobs
      modifies this, completed
      ensures used == old(used) && leaked == old(leaked)
      ensures Bag() + Tasks(completed[..n + 1]) == old(Bag()) + Tasks(old(completed[..n]))
      ensures jobs == old(jobs) - {job.id}
      ensures completed[..n + 1] == old(completed[..n]) + [Completed(old(jobs)[job.id], job.success)]
    {
      hide TableBag, Tasks;
      TableBagRemove(jobs, job.id);
      ghost var before := completed[..n];
      completed[n] := Completed(jobs[job.id], job.success);
      assert completed[..n + 1] == before + [completed[n]];
      TasksAppend(before, completed[n]);
      jobs := jobs - {job.id};
    }

    /** `coaster_cleanup_active`. */
    method Stop(interp: Interp)
      requires Valid() && BagRefs(Bag()) <= interp.refs
      modifies this, interp`refs
      ensures interp.refs + BagRefs(old(Bag())) == old(interp.refs) && interp.ran == old(interp.ran)
    {
      hide TaskRefs, BagRefs, TableBag;
      ghost var spare := interp.refs - BagRefs(Bag());
      while jobs != map[]
        invariant interp.refs == spare + BagRefs(Bag()) && interp.ran == old(interp.ran)
        decreases |jobs|
      {
        SomeJob(jobs);
        var id :| id in jobs;
        var task := jobs[id];
        ghost var before := Bag();
        TableBagRemove(jobs, id);
        FewerJobs(jobs, id);
        jobs := jobs - {id};
        LetGo(before, Bag(), task, interp.refs, spare);
        interp.GiveBack(task);
      }
      NoJobs(jobs);
      NoRefs();
    }
  }

  lemma {:induction false} NoneFromEmpty(before: multiset<Task>, after: multiset<Task>, batch: seq<Completed>)
    requires before == after + Tasks(batch)
    ensures before == multiset{} ==> batch == []
  {
    TasksSize(batch);
    assert |before| == |after| + |Tasks(batch)|;
  }

  lemma NoJobs(jobs: map<int, Task>)
    requires jobs == map[]
    ensures TableBag(jobs) == multiset{}
  {
  }

  lemma FewerJobs(jobs: map<int, Task>, id: int)
    requires id in jobs
    ensures |jobs - {id}| < |jobs|
  {
  }

  lemma NothingTaken(completed: array<Completed>, bag: multiset<Task>)
    ensures bag == bag + Tasks(completed[..0])
  {
  }

  lemma {:induction false} LeakBatch(before: multiset<Task>, after: multiset<Task>, batch: seq<Completed>)
    requires before == after + Tasks(batch)
    ensures |before| == |after| + |batch|
  {
    TasksSize(batch);
  }
}
