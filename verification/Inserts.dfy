/** Deferred inserts into a container, code/lib/container.tcl: `c_f_insert`, `c_v_insert_r` and
    `c_f_insert_r` hold it open themselves; the `cr_*` procedures get at it through a reference
    datum, and take and give back what they need when they run. */
module Inserts {
  import opened Refcounts

  /** A rule that has been issued. */
  datatype Task =
    | Deferred(decrs: nat)      // will insert, dropping this many write references
    | Waiting(cell: nat)        // will get at the container through a reference datum
    | Acquired                  // has a read and a write reference, and is about to insert
    | Over

  /** A reference datum: the references to the container stored in it, the program's own read
      references to it, and all read references to it.  With none left it is collected. */
  datatype Cell = Cell(stored: Refs, base: nat, readers: int)

  /** `base` is what the program holds of the container itself.  `faults` are the tasks that
      found it closed; where the program would stop, the model lets the others go on. */
  datatype State =
    State(c: Refs, base: Refs, tasks: seq<Task>, cells: seq<Cell>, inserted: nat, faults: set<nat>)

  datatype Event =
    | Defer(incr: bool, decrs: nat)       // c_f_insert and the like
    | WaitOn(cell: nat)                   // cr_f_insert, cr_v_create and the like
    | Insert(task: nat)                   // the body of a deferred insert
    | Acquire(task: nat)                  // acquire_write_ref <cr> ref 1 1 1
    | InsertAcquired(task: nat)           // container_insert ... 1 1, or create_nested ... 1 1
    | StoreRef(stored: Refs, readers: nat)
    | DropBase(refs: Refs)
    | DropReader(cell: nat)

  predicate Live(cell: Cell) { cell.readers > 0 }

  /** What a live reference datum keeps of the container. */
  function CellRefs(cell: Cell): Refs {
    if Live(cell) then cell.stored else Refs(0, 0)
  }

  function TaskRefs(t: Task): Refs {
    match t
    case Deferred(d) => Refs(0, d)
    case Acquired => Refs(1, 1)
    case _ => Refs(0, 0)
  }

  predicate Enabled(st: State, e: Event) {
    match e
    case Defer(incr, d) =>
      (incr ==> st.c.write > 0) && st.base.write + (if incr then 1 else 0) >= d
    case WaitOn(x) => x < |st.cells| && st.cells[x].base > 0 && Live(st.cells[x])
    case Insert(i) => i < |st.tasks| && i !in st.faults && st.tasks[i].Deferred?
    case Acquire(i) =>
      i < |st.tasks| && i !in st.faults && st.tasks[i].Waiting? && st.tasks[i].cell < |st.cells|
    case InsertAcquired(i) => i < |st.tasks| && i !in st.faults && st.tasks[i].Acquired?
    case StoreRef(r, n) => r.read >= 0 && r.write >= 0 && n > 0 && st.base.read >= r.read && st.base.write >= r.write
    case DropBase(r) => r.read >= 0 && r.write >= 0 && st.base.read >= r.read && st.base.write >= r.write
    case DropReader(x) => x < |st.cells| && st.cells[x].base > 0
  }

  /** One reader less; the last one takes the stored references along. */
  function Released(st: State, x: nat, ownReader: bool): State
    requires x < |st.cells|
  {
    var cell := st.cells[x];
    var cell' := cell.(readers := cell.readers - 1,
                       base := if ownReader && cell.base > 0 then cell.base - 1 else cell.base);
    st.(cells := st.cells[x := cell'], c := Minus(st.c, Minus(CellRefs(cell), CellRefs(cell'))))
  }

  function Apply(st: State, e: Event): State
    requires Enabled(st, e)
  {
    match e
    case Defer(incr, d) =>
      var n := if incr then 1 else 0;
      st.(c := Plus(st.c, Refs(0, n)), base := Plus(st.base, Refs(0, n - d)), tasks := st.tasks + [Deferred(d)])
    case WaitOn(x) =>
      st.(cells := st.cells[x := st.cells[x].(base := st.cells[x].base - 1)], tasks := st.tasks + [Waiting(x)])
    case Insert(i) =>
      if st.c.write <= 0 then st.(faults := st.faults + {i})
      else st.(c := Minus(st.c, TaskRefs(st.tasks[i])), tasks := st.tasks[i := Over], inserted := st.inserted + 1)
    case Acquire(i) =>
      if st.c.write <= 0 then st.(faults := st.faults + {i})
      else Released(st.(c := Plus(st.c, Refs(1, 1)), tasks := st.tasks[i := Acquired]), st.tasks[i].cell, false)
    case InsertAcquired(i) =>
      if st.c.write <= 0 then st.(faults := st.faults + {i})
      else st.(c := Minus(st.c, Refs(1, 1)), tasks := st.tasks[i := Over], inserted := st.inserted + 1)
    case StoreRef(r, n) => st.(base := Minus(st.base, r), cells := st.cells + [Cell(r, n, n)])
    case DropBase(r) => st.(base := Minus(st.base, r), c := Minus(st.c, r))
    case DropReader(x) => Released(st, x, true)
  }

  // ---------------------------------------------------------------- totals

  function TaskTotal(ts: seq<Task>, n: nat): Refs
    requires n <= |ts|
  {
    if n == 0 then Refs(0, 0) else Plus(TaskTotal(ts, n - 1), TaskRefs(ts[n-1]))
  }

  function CellTotal(cs: seq<Cell>, n: nat): Refs
    requires n <= |cs|
  {
    if n == 0 then Refs(0, 0) else Plus(CellTotal(cs, n - 1), CellRefs(cs[n-1]))
  }

  function IsWaiter(t: Task, x: nat): nat { if t == Waiting(x) then 1 else 0 }

  /** How many tasks wait on a reference datum. */
  function Waiters(ts: seq<Task>, x: nat, n: nat): nat
    requires n <= |ts|
  {
    if n == 0 then 0 else Waiters(ts, x, n - 1) + IsWaiter(ts[n-1], x)
  }

  lemma {:induction false} TaskTotalPrefix(ts: seq<Task>, us: seq<Task>, n: nat)
    requires n <= |ts| && n <= |us| && ts[..n] == us[..n]
    ensures TaskTotal(ts, n) == TaskTotal(us, n)
  {
    hide TaskRefs, Plus;
    if n > 0 {
      assert ts[..n][n-1] == us[..n][n-1];
      assert ts[..n-1] == ts[..n][..n-1] && us[..n-1] == us[..n][..n-1];
      TaskTotalPrefix(ts, us, n - 1);
    }
  }

  lemma {:induction false} TaskChange(ts: seq<Task>, i: nat, t: Task, n: nat)
    requires i < n <= |ts|
    ensures TaskTotal(ts[i := t], n) == Plus(TaskTotal(ts, n), Minus(TaskRefs(t), TaskRefs(ts[i])))
  {
    hide TaskRefs;
    if i == n - 1 { TaskTotalPrefix(ts, ts[i := t], i); } else { TaskChange(ts, i, t, n - 1); }
  }

  lemma {:induction false} TaskAppend(ts: seq<Task>, t: Task)
    ensures TaskTotal(ts + [t], |ts| + 1) == Plus(TaskTotal(ts, |ts|), TaskRefs(t))
  {
    hide TaskRefs;
    assert (ts + [t])[..|ts|] == ts[..|ts|];
    TaskTotalPrefix(ts, ts + [t], |ts|);
  }

  lemma {:induction false} WaitersPrefix(ts: seq<Task>, us: seq<Task>, x: nat, n: nat)
    requires n <= |ts| && n <= |us| && ts[..n] == us[..n]
    ensures Waiters(ts, x, n) == Waiters(us, x, n)
  {
    hide IsWaiter;
    if n > 0 {
      assert ts[..n][n-1] == us[..n][n-1];
      assert ts[..n-1] == ts[..n][..n-1] && us[..n-1] == us[..n][..n-1];
      WaitersPrefix(ts, us, x, n - 1);
    }
  }

  lemma {:induction false} WaitersChange(ts: seq<Task>, i: nat, t: Task, x: nat, n: nat)
    requires i < n <= |ts|
    ensures Waiters(ts[i := t], x, n) == Waiters(ts, x, n) + IsWaiter(t, x) - IsWaiter(ts[i], x)
  {
    hide IsWaiter;
    if i == n - 1 { WaitersPrefix(ts, ts[i := t], x, i); } else { WaitersChange(ts, i, t, x, n - 1); }
  }

  lemma {:induction false} WaitersAppend(ts: seq<Task>, t: Task, x: nat)
    ensures Waiters(ts + [t], x, |ts| + 1) == Waiters(ts, x, |ts|) + IsWaiter(t, x)
  {
    hide IsWaiter;
    assert (ts + [t])[..|ts|] == ts[..|ts|];
    WaitersPrefix(ts, ts + [t], x, |ts|);
  }

  /** How many inserts are over. */
  function Finished(ts: seq<Task>, n: nat): nat
    requires n <= |ts|
  {
    if n == 0 then 0 else Finished(ts, n - 1) + if ts[n-1].Over? then 1 else 0
  }

  lemma {:induction false} FinishedPrefix(ts: seq<Task>, us: seq<Task>, n: nat)
    requires n <= |ts| && n <= |us| && forall k :: 0 <= k < n ==> ts[k] == us[k]
    ensures Finished(ts, n) == Finished(us, n)
  {
    if n > 0 { FinishedPrefix(ts, us, n - 1); }
  }

  lemma {:induction false} FinishedChange(ts: seq<Task>, i: nat, t: Task, n: nat)
    requires i < n <= |ts| && !ts[i].Over?
    ensures Finished(ts[i := t], n) == Finished(ts, n) + if t.Over? then 1 else 0
  {
    if i == n - 1 { FinishedPrefix(ts, ts[i := t], i); } else { FinishedChange(ts, i, t, n - 1); }
  }

  lemma {:induction false} CellTotalPrefix(cs: seq<Cell>, ds: seq<Cell>, n: nat)
    requires n <= |cs| && n <= |ds| && cs[..n] == ds[..n]
    ensures CellTotal(cs, n) == CellTotal(ds, n)
  {
    hide CellRefs, Plus;
    if n > 0 {
      assert cs[..n][n-1] == ds[..n][n-1];
      assert cs[..n-1] == cs[..n][..n-1] && ds[..n-1] == ds[..n][..n-1];
      CellTotalPrefix(cs, ds, n - 1);
    }
  }

  lemma {:induction false} CellChange(cs: seq<Cell>, i: nat, d: Cell, n: nat)
    requires i < n <= |cs|
    ensures CellTotal(cs[i := d], n) == Plus(CellTotal(cs, n), Minus(CellRefs(d), CellRefs(cs[i])))
  {
    hide CellRefs;
    if i == n - 1 { CellTotalPrefix(cs, cs[i := d], i); } else { CellChange(cs, i, d, n - 1); }
  }

  lemma {:induction false} CellAppend(cs: seq<Cell>, d: Cell)
    ensures CellTotal(cs + [d], |cs| + 1) == Plus(CellTotal(cs, |cs|), CellRefs(d))
  {
    hide CellRefs;
    assert (cs + [d])[..|cs|] == cs[..|cs|];
    CellTotalPrefix(cs, cs + [d], |cs|);
  }

  /** Each task and each live reference datum is part of the total. */
  lemma {:induction false} TaskInTotal(ts: seq<Task>, i: nat, n: nat)
    requires i < n <= |ts|
    ensures TaskTotal(ts, n).read >= TaskRefs(ts[i]).read && TaskTotal(ts, n).write >= TaskRefs(ts[i]).write
    decreases n
  {
    TaskTotalNat(ts, n - 1);
    if i < n - 1 { TaskInTotal(ts, i, n - 1); }
  }

  lemma {:induction false} TaskTotalNat(ts: seq<Task>, n: nat)
    requires n <= |ts|
    ensures TaskTotal(ts, n).read >= 0 && TaskTotal(ts, n).write >= 0
  {
    if n > 0 { TaskTotalNat(ts, n - 1); }
  }

  lemma {:induction false} WaiterCounts(ts: seq<Task>, i: nat, n: nat)
    requires i < n <= |ts| && ts[i].Waiting?
    ensures Waiters(ts, ts[i].cell, n) > 0
  {
    if i < n - 1 { WaiterCounts(ts, i, n - 1); }
  }

  predicate GoodCells(cs: seq<Cell>) {
    forall x :: 0 <= x < |cs| ==> cs[x].stored.read >= 0 && cs[x].stored.write >= 0
  }

  lemma {:induction false} CellTotalNat(cs: seq<Cell>, n: nat)
    requires n <= |cs| && GoodCells(cs)
    ensures CellTotal(cs, n).read >= 0 && CellTotal(cs, n).write >= 0
  {
    if n > 0 { CellTotalNat(cs, n - 1); }
  }

  lemma {:induction false} CellInTotal(cs: seq<Cell>, i: nat, n: nat)
    requires i < n <= |cs| && GoodCells(cs)
    ensures CellTotal(cs, n).read >= CellRefs(cs[i]).read && CellTotal(cs, n).write >= CellRefs(cs[i]).write
    decreases n
  {
    CellTotalNat(cs, n - 1);
    if i < n - 1 { CellInTotal(cs, i, n - 1); }
  }

  // ---------------------------------------------------------------- the invariant

  /** The container's references are the program's, those of the tasks under way, and those
      stored in live reference data. */
  predicate Accounted(st: State) {
    Adds(st.c, st.base, st.tasks, st.cells)
  }

  predicate Adds(c: Refs, base: Refs, tasks: seq<Task>, cells: seq<Cell>) {
    c == Plus(base, Plus(TaskTotal(tasks, |tasks|), CellTotal(cells, |cells|)))
  }

  /** The readers of a reference datum are the program's and the tasks waiting on it. */
  predicate Readers(tasks: seq<Task>, cells: seq<Cell>) {
    && GoodCells(cells)
    && (forall x :: 0 <= x < |cells| ==> cells[x].readers == cells[x].base + Waiters(tasks, x, |tasks|))
    && (forall i :: 0 <= i < |tasks| && tasks[i].Waiting? ==> tasks[i].cell < |cells|)
  }

  /** An insert that brings no write reference of its own: it was issued with none to drop, or is
      to go through a reference datum that stores none. */
  predicate Unguarded(t: Task, cells: seq<Cell>) {
    || t == Deferred(0)
    || (t.Waiting? && t.cell < |cells| && cells[t.cell].stored.write == 0)
  }

  /** Only such tasks have found the container closed. */
  predicate FaultsUnguarded(st: State) {
    forall i :: i in st.faults ==> i < |st.tasks| && Unguarded(st.tasks[i], st.cells)
  }

  predicate Inv(st: State) {
    && Accounted(st) && Readers(st.tasks, st.cells) && FaultsUnguarded(st)
    && st.base.read >= 0 && st.base.write >= 0 && AllInserted(st)
  }

  /** Every insert that is over has put its member in, once, and no other has. */
  predicate AllInserted(st: State) {
    st.inserted == Finished(st.tasks, |st.tasks|)
  }

  /** While an insert with a write reference of its own is pending the container is open. */
  lemma {:induction false} OpenWhilePending(st: State, i: nat)
    requires Inv(st) && i < |st.tasks| && !st.tasks[i].Over? && !Unguarded(st.tasks[i], st.cells)
    ensures st.c.write > 0
  {
    var n, m := |st.tasks|, |st.cells|;
    TaskTotalNat(st.tasks, n);
    CellTotalNat(st.cells, m);
    TaskInTotal(st.tasks, i, n);
    if st.tasks[i].Waiting? {
      WaiterCounts(st.tasks, i, n);
      CellInTotal(st.cells, st.tasks[i].cell, m);
    }
    hide TaskTotal, CellTotal, Waiters;
  }

  lemma {:induction false} TaskAdds(c: Refs, base: Refs, tasks: seq<Task>, cells: seq<Cell>, i: nat, t: Task)
    requires Adds(c, base, tasks, cells) && i < |tasks|
    ensures Adds(Plus(c, Minus(TaskRefs(t), TaskRefs(tasks[i]))), base, tasks[i := t], cells)
  {
    hide TaskTotal, CellTotal, TaskRefs;
    TaskChange(tasks, i, t, |tasks|);
  }

  lemma {:induction false} NewTaskAdds(c: Refs, base: Refs, tasks: seq<Task>, cells: seq<Cell>, t: Task, c': Refs, base': Refs)
    requires Adds(c, base, tasks, cells) && Minus(c', base') == Plus(Minus(c, base), TaskRefs(t))
    ensures Adds(c', base', tasks + [t], cells)
  {
    hide TaskTotal, CellTotal, TaskRefs;
    TaskAppend(tasks, t);
  }

  lemma {:induction false} CellAdds(c: Refs, base: Refs, tasks: seq<Task>, cells: seq<Cell>, x: nat, d: Cell)
    requires Adds(c, base, tasks, cells) && x < |cells|
    ensures Adds(Minus(c, Minus(CellRefs(cells[x]), CellRefs(d))), base, tasks, cells[x := d])
  {
    hide TaskTotal, CellTotal, CellRefs;
    CellChange(cells, x, d, |cells|);
  }

  lemma {:induction false} NewCellAdds(c: Refs, base: Refs, tasks: seq<Task>, cells: seq<Cell>, d: Cell)
    requires Adds(c, base, tasks, cells)
    ensures Adds(c, Minus(base, CellRefs(d)), tasks, cells + [d])
  {
    hide TaskTotal, CellTotal, CellRefs;
    CellAppend(cells, d);
  }

  lemma {:induction false} StepKeepsAccounts(st: State, e: Event)
    requires Enabled(st, e) && Accounted(st)
    ensures Accounted(Apply(st, e))
  {
    hide Adds;
    match e {
      case Defer(_, d) => NewTaskAdds(st.c, st.base, st.tasks, st.cells, Deferred(d), Apply(st, e).c, Apply(st, e).base);
      case WaitOn(x) => WaitAdds(st, x);
      case Insert(i) => if st.c.write > 0 { InsertAdds(st, i); }
      case Acquire(i) => if st.c.write > 0 { AcquireAdds(st, i); }
      case InsertAcquired(i) => if st.c.write > 0 { InsertAdds(st, i); }
      case StoreRef(r, n) => NewCellAdds(st.c, st.base, st.tasks, st.cells, Cell(r, n, n));
      case DropBase(r) => DropAdds(st, r);
      case DropReader(x) => CellAdds(st.c, st.base, st.tasks, st.cells, x, Apply(st, e).cells[x]);
    }
  }

  lemma DropAdds(st: State, r: Refs)
    requires Accounted(st)
    ensures Adds(Minus(st.c, r), Minus(st.base, r), st.tasks, st.cells)
  {
  }

  lemma {:induction false} InsertAdds(st: State, i: nat)
    requires Accounted(st) && i < |st.tasks|
    ensures Adds(Minus(st.c, TaskRefs(st.tasks[i])), st.base, st.tasks[i := Over], st.cells)
  {
    hide Adds;
    TaskAdds(st.c, st.base, st.tasks, st.cells, i, Over);
    var a := Plus(st.c, Minus(TaskRefs(Over), TaskRefs(st.tasks[i])));
    assert a == Minus(st.c, TaskRefs(st.tasks[i]));
  }

  lemma {:induction false} WaitAdds(st: State, x: nat)
    requires Accounted(st) && Enabled(st, WaitOn(x))
    ensures Accounted(Apply(st, WaitOn(x)))
  {
    hide Adds;
    var d := st.cells[x].(base := st.cells[x].base - 1);
    CellAdds(st.c, st.base, st.tasks, st.cells, x, d);
    assert Minus(st.c, Minus(CellRefs(st.cells[x]), CellRefs(d))) == st.c;
    NewTaskAdds(st.c, st.base, st.tasks, st.cells[x := d], Waiting(x), st.c, st.base);
  }

  lemma AcquireIs(st: State, i: nat)
    requires Enabled(st, Acquire(i)) && st.c.write > 0
    ensures var x := st.tasks[i].cell;
      var d := st.cells[x].(readers := st.cells[x].readers - 1);
      var st' := Apply(st, Acquire(i));
      st'.base == st.base && st'.tasks == st.tasks[i := Acquired] && st'.cells == st.cells[x := d]
      && st'.c == Minus(Plus(st.c, Refs(1, 1)), Minus(CellRefs(st.cells[x]), CellRefs(d)))
  {
  }

  lemma {:induction false} TakesOneEach(c: Refs, t: Task)
    requires t.Waiting?
    ensures Plus(c, Minus(TaskRefs(Acquired), TaskRefs(t))) == Plus(c, Refs(1, 1))
  {
    assert TaskRefs(t) == Refs(0, 0);
    assert TaskRefs(Acquired) == Refs(1, 1);
    assert Minus(Refs(1, 1), Refs(0, 0)) == Refs(1, 1);
  }

  lemma {:induction false} AcquireAdds(st: State, i: nat)
    requires Accounted(st) && Enabled(st, Acquire(i)) && st.c.write > 0
    ensures Accounted(Apply(st, Acquire(i)))
  {
    hide Adds, Apply, CellRefs, Plus, Minus, TaskRefs;
    var x := st.tasks[i].cell;
    AcquireIs(st, i);
    TaskAdds(st.c, st.base, st.tasks, st.cells, i, Acquired);
    TakesOneEach(st.c, st.tasks[i]);
    CellAdds(Plus(st.c, Refs(1, 1)), st.base, st.tasks[i := Acquired], st.cells, x,
             st.cells[x].(readers := st.cells[x].readers - 1));
  }

  /** Who waits on what, when task `i` becomes `t`. */
  lemma {:induction false} ReadersTask(tasks: seq<Task>, cells: seq<Cell>, i: nat)
    requires Readers(tasks, cells) && i < |tasks| && !tasks[i].Waiting?
    ensures Readers(tasks[i := Over], cells)
  {
    hide Waiters;
    forall x | 0 <= x < |cells| ensures Waiters(tasks[i := Over], x, |tasks|) == Waiters(tasks, x, |tasks|) {
      WaitersChange(tasks, i, Over, x, |tasks|);
    }
  }

  lemma {:induction false} ReadersAcquire(tasks: seq<Task>, cells: seq<Cell>, i: nat)
    requires Readers(tasks, cells) && i < |tasks| && tasks[i].Waiting?
    ensures var x := tasks[i].cell;
      x < |cells| && Readers(tasks[i := Acquired], cells[x := cells[x].(readers := cells[x].readers - 1)])
  {
    hide Waiters;
    forall x | 0 <= x < |cells|
      ensures Waiters(tasks[i := Acquired], x, |tasks|) == Waiters(tasks, x, |tasks|) - IsWaiter(tasks[i], x) {
      WaitersChange(tasks, i, Acquired, x, |tasks|);
    }
  }

  lemma {:induction false} ReadersDefer(tasks: seq<Task>, cells: seq<Cell>, t: Task)
    requires Readers(tasks, cells) && t.Deferred?
    ensures Readers(tasks + [t], cells)
  {
    hide Waiters;
    forall x | 0 <= x < |cells| ensures Waiters(tasks + [t], x, |tasks| + 1) == Waiters(tasks, x, |tasks|) {
      WaitersAppend(tasks, t, x);
    }
  }

  lemma {:induction false} ReadersWait(tasks: seq<Task>, cells: seq<Cell>, y: nat)
    requires Readers(tasks, cells) && y < |cells| && cells[y].base > 0
    ensures Readers(tasks + [Waiting(y)], cells[y := cells[y].(base := cells[y].base - 1)])
  {
    hide Waiters;
    forall x | 0 <= x < |cells|
      ensures Waiters(tasks + [Waiting(y)], x, |tasks| + 1) == Waiters(tasks, x, |tasks|) + IsWaiter(Waiting(y), x) {
      WaitersAppend(tasks, Waiting(y), x);
    }
  }

  lemma {:induction false} StepKeepsReaders(st: State, e: Event)
    requires Enabled(st, e) && Readers(st.tasks, st.cells)
    ensures Readers(Apply(st, e).tasks, Apply(st, e).cells)
  {
    match e {
      case Defer(_, d) => ReadersDefer(st.tasks, st.cells, Deferred(d));
      case WaitOn(x) => ReadersWait(st.tasks, st.cells, x);
      case Insert(i) => ReadersTask(st.tasks, st.cells, i);
      case Acquire(i) => ReadersAcquire(st.tasks, st.cells, i);
      case InsertAcquired(i) => ReadersTask(st.tasks, st.cells, i);
      case StoreRef(_, _) => NoWaiters(st.tasks, |st.cells|, |st.tasks|);
      case DropBase(_) =>
      case DropReader(_) =>
    }
    hide Waiters;
  }

  lemma {:induction false} NoWaiters(ts: seq<Task>, x: nat, n: nat)
    requires n <= |ts| && forall i :: 0 <= i < |ts| && ts[i].Waiting? ==> ts[i].cell < x
    ensures Waiters(ts, x, n) == 0
  {
    if n > 0 { NoWaiters(ts, x, n - 1); }
  }

  lemma {:induction false} StepKeepsFaults(st: State, e: Event)
    requires Enabled(st, e) && Inv(st)
    ensures FaultsUnguarded(Apply(st, e))
  {
    if e.Insert? || e.Acquire? || e.InsertAcquired? {
      if !Unguarded(st.tasks[e.task], st.cells) { OpenWhilePending(st, e.task); }
    }
    hide Accounted, Readers;
  }

  lemma {:induction false} StepKeepsInserted(st: State, e: Event)
    requires Enabled(st, e) && AllInserted(st)
    ensures AllInserted(Apply(st, e))
  {
    var n := |st.tasks|;
    var ts' := Apply(st, e).tasks;
    match e {
      case Defer(_, _) => FinishedPrefix(st.tasks, ts', n);
      case WaitOn(_) => FinishedPrefix(st.tasks, ts', n);
      case Insert(i) => FinishedChange(st.tasks, i, Over, n);
      case Acquire(i) => FinishedChange(st.tasks, i, Acquired, n);
      case InsertAcquired(i) => FinishedChange(st.tasks, i, Over, n);
      case _ =>
    }
  }

  /** Every step keeps the accounts, and an insert that finds the container closed brought no
      write reference of its own. */
  lemma {:induction false} StepKeepsInv(st: State, e: Event)
    requires Enabled(st, e) && Inv(st)
    ensures Inv(Apply(st, e))
  {
    StepKeepsReaders(st, e);
    StepKeepsAccounts(st, e);
    StepKeepsFaults(st, e);
    StepKeepsInserted(st, e);
    hide Accounted, Readers, FaultsUnguarded, AllInserted;
  }

  // ---------------------------------------------------------------- runs

  /** A container with some references, and nothing issued yet. */
  predicate Initial(st: State) {
    st.tasks == [] && st.cells == [] && st.c == st.base && st.base.read >= 0 && st.base.write >= 0
    && st.faults == {} && st.inserted == 0
  }

  predicate IsRun(run: seq<State>, events: seq<Event>) {
    |run| == |events| + 1 && Initial(run[0])
    && forall i :: 0 <= i < |events| ==>
         Enabled(run[i], events[i]) && run[i + 1] == Apply(run[i], events[i])
  }

  lemma {:induction false} RunInv(run: seq<State>, events: seq<Event>, n: nat)
    requires IsRun(run, events) && n < |run|
    ensures Inv(run[n])
  {
    if n == 0 {
      InitialInv(run[0]);
    } else {
      hide Inv, Enabled, Apply, Initial;
      RunInv(run, events, n - 1);
      StepKeepsInv(run[n-1], events[n-1]);
    }
  }

  lemma {:induction false} NothingAdds(base: Refs)
    ensures Adds(base, base, [], [])
  {
    hide TaskTotal, CellTotal;
    PlusNothing(base);
    NoTotals();
  }

  lemma NoTotals()
    ensures TaskTotal([], 0) == Refs(0, 0) && CellTotal([], 0) == Refs(0, 0)
  {
  }

  lemma {:induction false} PlusNothing(a: Refs)
    ensures Plus(a, Plus(Refs(0, 0), Refs(0, 0))) == a
  {
    assert Plus(Refs(0, 0), Refs(0, 0)) == Refs(0, 0);
    assert Plus(a, Refs(0, 0)).read == a.read;
  }

  lemma {:induction false} InitialInv(st: State)
    requires Initial(st)
    ensures Inv(st)
  {
    NothingAdds(st.base);
    hide Adds, Waiters;
  }

  /** In every state of every run: the references add up, as many members were put in as inserts are
      over, every insert that has met a closed
      container brought no write reference of its own, and the container is open as long as an
      insert that did is pending. */
  lemma {:induction false} InsertsAreSafe(run: seq<State>, events: seq<Event>, n: nat)
    requires IsRun(run, events) && n < |run|
    ensures Accounted(run[n]) && FaultsUnguarded(run[n]) && AllInserted(run[n])
    ensures forall i :: 0 <= i < |run[n].tasks| && !run[n].tasks[i].Over? ==>
      run[n].c.write > 0 || Unguarded(run[n].tasks[i], run[n].cells)
  {
    RunInv(run, events, n);
    forall i | 0 <= i < |run[n].tasks| && !run[n].tasks[i].Over?
      ensures run[n].c.write > 0 || Unguarded(run[n].tasks[i], run[n].cells) {
      if !Unguarded(run[n].tasks[i], run[n].cells) { OpenWhilePending(run[n], i); }
    }
  }

  lemma {:induction false} NoTaskWrites(ts: seq<Task>, n: nat)
    requires n <= |ts| && forall i :: 0 <= i < |ts| ==> TaskRefs(ts[i]).write == 0
    ensures TaskTotal(ts, n).write == 0
  {
    if n > 0 { NoTaskWrites(ts, n - 1); }
  }

  lemma {:induction false} NoCellWrites(cs: seq<Cell>, n: nat)
    requires n <= |cs| && forall x :: 0 <= x < |cs| ==> CellRefs(cs[x]).write == 0
    ensures CellTotal(cs, n).write == 0
  {
    if n > 0 { NoCellWrites(cs, n - 1); }
  }

  /** Neither the program, nor a task, nor a live reference datum has a write reference. */
  predicate NothingWrites(st: State) {
    && st.base.write == 0
    && (forall i :: 0 <= i < |st.tasks| ==> TaskRefs(st.tasks[i]).write == 0)
    && (forall x :: 0 <= x < |st.cells| ==> CellRefs(st.cells[x]).write == 0)
  }

  /** The container is closed exactly when nothing has a write reference: what was acquired has
      been given back. */
  lemma {:induction false} ClosedIff(st: State)
    requires Inv(st)
    ensures st.c.write >= 0 && (st.c.write == 0 <==> NothingWrites(st))
  {
    var n, m := |st.tasks|, |st.cells|;
    TaskTotalNat(st.tasks, n);
    CellTotalNat(st.cells, m);
    if st.c.write == 0 {
      forall i | 0 <= i < n ensures TaskRefs(st.tasks[i]).write == 0 { TaskInTotal(st.tasks, i, n); }
      forall x | 0 <= x < m ensures CellRefs(st.cells[x]).write == 0 { CellInTotal(st.cells, x, m); }
      hide TaskTotal, CellTotal, TaskRefs, CellRefs;
    }
    if NothingWrites(st) {
      NoTaskWrites(st.tasks, n);
      NoCellWrites(st.cells, m);
    }
  }

  /** An insert, or the first step of one through a reference datum, finds the container closed
      exactly when nothing has a write reference; otherwise its step is done. */
  lemma {:induction false} FaultIff(st: State, e: Event)
    requires Inv(st) && Enabled(st, e) && (e.Insert? || e.Acquire? || e.InsertAcquired?)
    ensures e.task in Apply(st, e).faults <==> NothingWrites(st)
    ensures |Apply(st, e).tasks| == |st.tasks|
    ensures e.Acquire? ==> (Apply(st, e).tasks[e.task].Acquired? <==> !NothingWrites(st))
    ensures !e.Acquire? ==> (Apply(st, e).tasks[e.task].Over? <==> !NothingWrites(st))
  {
    ClosedIff(st);
    hide Inv, NothingWrites;
  }

  /** Taken and given back: when a task of the `cr_*` kind runs undisturbed and its reference
      datum outlives it, the container's references are what they were before. */
  lemma {:induction false} GivesBackWhatItTakes(st: State, i: nat)
    requires Inv(st) && Enabled(st, Acquire(i)) && st.cells[st.tasks[i].cell].readers > 1 && !NothingWrites(st)
    ensures var st' := Apply(st, Acquire(i));
      Enabled(st', InsertAcquired(i)) && Apply(st', InsertAcquired(i)).c == st.c
      && Apply(st', InsertAcquired(i)).tasks[i].Over? && Apply(st', InsertAcquired(i)).faults == st.faults
  {
    ClosedIff(st);
    hide Inv, NothingWrites;
  }

  /** What a deferred insert costs from its issue to its end: the container gets one write reference
      if it was to be held open, and loses those the insert was to drop, and so does the program.
      With one of each, as is the default, everything is as it was. */
  lemma {:induction false} DeferAndInsert(st: State, incr: bool, decrs: nat)
    requires Inv(st) && Enabled(st, Defer(incr, decrs)) && !NothingWrites(Apply(st, Defer(incr, decrs)))
    ensures var st1 := Apply(st, Defer(incr, decrs));
      Enabled(st1, Insert(|st.tasks|)) &&
      var st2 := Apply(st1, Insert(|st.tasks|));
      && st2.c.read == st.c.read && st2.base.read == st.base.read
      && st2.c.write == (if incr then st.c.write + 1 - decrs else st.c.write - decrs)
      && st2.base.write == (if incr then st.base.write + 1 - decrs else st.base.write - decrs)
      && st2.cells == st.cells && st2.inserted == st.inserted + 1
    ensures incr && decrs == 1 ==>
      var st2 := Apply(Apply(st, Defer(true, 1)), Insert(|st.tasks|));
      st2.c == st.c && st2.base == st.base
  {
    assert |st.tasks| !in st.faults;
    StepKeepsInv(st, Defer(incr, decrs));
    ClosedIff(Apply(st, Defer(incr, decrs)));
    hide Inv, NothingWrites;
  }

  /** The last read reference to a reference datum takes the references stored in it along; any
      other takes nothing. */
  lemma {:induction false} LastReaderReleases(st: State, x: nat)
    requires Inv(st) && Enabled(st, DropReader(x))
    ensures st.cells[x].readers >= 1
    ensures Apply(st, DropReader(x)).c ==
            if st.cells[x].readers == 1 then Refs(st.c.read - st.cells[x].stored.read, st.c.write - st.cells[x].stored.write)
            else st.c
    ensures Apply(st, DropReader(x)).tasks == st.tasks && Apply(st, DropReader(x)).base == st.base
  {
    hide Accounted, FaultsUnguarded, AllInserted;
  }

  /** A task that is pending and has not met a closed container can take its step. */
  lemma {:induction false} PendingMoves(st: State, i: nat)
    requires Inv(st) && i < |st.tasks| && i !in st.faults && !st.tasks[i].Over?
    ensures Enabled(st, Insert(i)) || Enabled(st, Acquire(i)) || Enabled(st, InsertAcquired(i))
  {
    hide Accounted, FaultsUnguarded, AllInserted;
  }

  /** A program may start with any references.  Its own calls need only those it has: a write reference of its own lets it
      issue an insert that holds the container open, and whatever it has it may drop, pass on
      with an insert, or store. */
  lemma {:induction false} ProgramMay(st: State, r: Refs, readers: nat, decrs: nat)
    requires Inv(st) && readers > 0
    requires 0 <= r.read <= st.base.read && 0 <= r.write <= st.base.write
    ensures Initial(State(r, r, [], [], 0, {}))
    ensures st.base.write >= decrs ==> Enabled(st, Defer(false, decrs))
    ensures st.base.write > 0 && st.base.write + 1 >= decrs ==> Enabled(st, Defer(true, decrs))
    ensures Enabled(st, StoreRef(r, readers)) && Enabled(st, DropBase(r))
    ensures forall x :: 0 <= x < |st.cells| && st.cells[x].base > 0 ==>
      Enabled(st, WaitOn(x)) && Enabled(st, DropReader(x))
  {
    ClosedIff(st);
    hide Accounted, FaultsUnguarded, AllInserted;
  }

  /** A run that gets there: the program stores a read reference, hands the reference datum to an
      insert, and drops its own write reference. */
  lemma {:induction false} ReadOnlyExample()
    ensures var s0 := State(Refs(1, 1), Refs(1, 1), [], [], 0, {});
      Initial(s0) && Enabled(s0, StoreRef(Refs(1, 0), 1))
      && Apply(s0, StoreRef(Refs(1, 0), 1)) == State(Refs(1, 1), Refs(0, 1), [], [Cell(Refs(1, 0), 1, 1)], 0, {})
    ensures var s1 := State(Refs(1, 1), Refs(0, 1), [], [Cell(Refs(1, 0), 1, 1)], 0, {});
      Enabled(s1, WaitOn(0))
      && Apply(s1, WaitOn(0)) == State(Refs(1, 1), Refs(0, 1), [Waiting(0)], [Cell(Refs(1, 0), 0, 1)], 0, {})
    ensures var s2 := State(Refs(1, 1), Refs(0, 1), [Waiting(0)], [Cell(Refs(1, 0), 0, 1)], 0, {});
      Enabled(s2, DropBase(Refs(0, 1)))
      && Apply(s2, DropBase(Refs(0, 1))) == State(Refs(1, 0), Refs(0, 0), [Waiting(0)], [Cell(Refs(1, 0), 0, 1)], 0, {})
    ensures var s3 := State(Refs(1, 0), Refs(0, 0), [Waiting(0)], [Cell(Refs(1, 0), 0, 1)], 0, {});
      Enabled(s3, Acquire(0)) && 0 in Apply(s3, Acquire(0)).faults
  {
    hide *;
    ExampleStored();
    ExampleWaits();
    ExampleDrops();
    ExampleFails();
  }

  lemma ExampleStored()
    ensures var s0 := State(Refs(1, 1), Refs(1, 1), [], [], 0, {});
      Initial(s0) && Enabled(s0, StoreRef(Refs(1, 0), 1))
      && Apply(s0, StoreRef(Refs(1, 0), 1)) == State(Refs(1, 1), Refs(0, 1), [], [Cell(Refs(1, 0), 1, 1)], 0, {})
  {
  }

  lemma ExampleWaits()
    ensures var s1 := State(Refs(1, 1), Refs(0, 1), [], [Cell(Refs(1, 0), 1, 1)], 0, {});
      Enabled(s1, WaitOn(0))
      && Apply(s1, WaitOn(0)) == State(Refs(1, 1), Refs(0, 1), [Waiting(0)], [Cell(Refs(1, 0), 0, 1)], 0, {})
  {
  }

  lemma ExampleDrops()
    ensures var s2 := State(Refs(1, 1), Refs(0, 1), [Waiting(0)], [Cell(Refs(1, 0), 0, 1)], 0, {});
      Enabled(s2, DropBase(Refs(0, 1)))
      && Apply(s2, DropBase(Refs(0, 1))) == State(Refs(1, 0), Refs(0, 0), [Waiting(0)], [Cell(Refs(1, 0), 0, 1)], 0, {})
  {
  }

  lemma ExampleFails()
    ensures var s3 := State(Refs(1, 0), Refs(0, 0), [Waiting(0)], [Cell(Refs(1, 0), 0, 1)], 0, {});
      Enabled(s3, Acquire(0)) && 0 in Apply(s3, Acquire(0)).faults
  {
  }
}
