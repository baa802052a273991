/**
 * Tasks as leases see them and as their orders do, over the same runs: repository/repository.go with
 * repository/finance.go.
 */
module TaskRuns {
  import Lease = TaskLease
  import opened Ledger
  import opened TaskBilling
  import opened Wrappers

  /** The desk and, for each of its tasks, the row with its history. */
  datatype Office = Office(desk: Desk, rows: seq<Lease.World>)

  /** A creation, a retry or a booking, or a write of one task row under its lease guards. */
  datatype Act = OnDesk(e: TaskEvent) | OnRow(t: nat, write: Lease.Event)

  function StatusOf(status: Lease.Status): TaskStatus {
    match status
    case Queued => TaskStatus.Queued
    case Running => Active
    case Succeeded => TaskStatus.Succeeded
    case Failed => TaskStatus.Failed
    case Cancelled => TaskStatus.Cancelled
  }

  function RecoveryOf(row: Lease.Row): Option<int> {
    if row.owner.Recovery? then row.leaseUntil else None
  }

  /** The two views of one row. */
  predicate SameTask(task: Task, row: Lease.Row) {
    task.status == StatusOf(row.status) && task.order == row.billing && task.recoveryUntil == RecoveryOf(row)
  }

  /** A write of a task row as the desk sees it. */
  function OnItsDesk(w: Lease.World, t: nat, e: Lease.Event): TaskEvent {
    var row := Lease.Step(w, e).row;
    if e.Write? && e.op.Finish? && Lease.Enabled(w.row, e.op) then SaveFinal(t, StatusOf(row.status), row.billing)
    else Move(t, StatusOf(row.status), RecoveryOf(row))
  }

  /** Both views of every task agree, holders are current, attempts are starts, and open orders are current ones. */
  ghost predicate Kept(o: Office) {
    && OneOpen(o.desk) && Linked(o.desk) && |o.rows| == |o.desk.tasks|
    && forall t :: 0 <= t < |o.rows| ==> KeptRow(o.desk.tasks[t], o.rows[t])
  }

  predicate KeptRow(task: Task, w: Lease.World) {
    SameTask(task, w.row) && Lease.HolderIsCurrent(w) && w.row.attempts == w.starts
  }

  /** Every final write saves what its owner read last, and a manual recovery claims the attempt it read. */
  predicate Fitting(o: Office, a: Act) {
    match a
    case OnDesk(e) => (e.Create? || e.RetryTask? || e.Books?) && Fits(o.desk, e)
    case OnRow(t, e) =>
      t < |o.rows| && Lease.Shaped(e) && !(e.Write? && e.op.Retry?) && Lease.ActsOnItsRead(o.rows[t], e)
  }

  function AfterDesk(o: Office, e: TaskEvent): Office
    requires Fits(o.desk, e) && |o.rows| == |o.desk.tasks|
  {
    var desk := TaskStep(o.desk, e);
    match e
    case Create(_, _, _, _) =>
      if |desk.tasks| > |o.rows| then Office(desk, o.rows + [Lease.Start(desk.tasks[|o.rows|].order)])
      else Office(desk, o.rows)
    case RetryTask(t, order, limit, now, sessionFound) =>
      if Retry(o.desk, t, order, limit, now, false, sessionFound).1 == Accepted then
        Office(desk, o.rows[t := Lease.Step(o.rows[t], Lease.Write(Lease.Retry(now, desk.tasks[t].order)))])
      else Office(desk, o.rows)
    case _ => Office(desk, o.rows)
  }

  function AfterRow(o: Office, t: nat, e: Lease.Event): Office
    requires t < |o.rows| && Fits(o.desk, OnItsDesk(o.rows[t], t, e))
  {
    Office(TaskStep(o.desk, OnItsDesk(o.rows[t], t, e)), o.rows[t := Lease.Step(o.rows[t], e)])
  }

  lemma OneRowKept(task: Task, w: Lease.World, e: Lease.Event)
    requires KeptRow(task, w) && Lease.Shaped(e) && !(e.Write? && e.op.Retry?) && Lease.ActsOnItsRead(w, e)
    ensures var w' := Lease.Step(w, e);
            && Lease.HolderIsCurrent(w') && w'.row.attempts == w'.starts
            && task.order == w'.row.billing
    ensures var e' := OnItsDesk(w, 0, e);
            e'.SaveFinal? ==>
              && e'.final in {TaskStatus.Succeeded, TaskStatus.Failed, TaskStatus.Cancelled}
              && (task.status == Active || Ended(task)) && RecoveryOf(Lease.Step(w, e).row) == None
    ensures var e' := OnItsDesk(w, 0, e);
            e'.Move? ==> e'.to == task.status || (InProgress(task) && (e'.to == Active || e'.to == Cancelled))
  {
    Lease.HolderStaysCurrent(w, e);
  }

  lemma RowKeeps(o: Office, t: nat, e: Lease.Event)
    requires Kept(o) && Fitting(o, OnRow(t, e))
    ensures Fits(o.desk, OnItsDesk(o.rows[t], t, e)) && Kept(AfterRow(o, t, e))
  {
    hide OneOpen, Lease.Step, Lease.HolderIsCurrent, Lease.ActsOnItsRead, Lease.Shaped, StatusOf, RecoveryOf;
    var w := o.rows[t];
    assert KeptRow(o.desk.tasks[t], w);
    OneRowKept(o.desk.tasks[t], w, e);
    StepKeepsOneOpen(o.desk, OnItsDesk(w, t, e));
  }

  lemma DeskKeeps(o: Office, e: TaskEvent)
    requires Kept(o) && Fitting(o, OnDesk(e))
    ensures Kept(AfterDesk(o, e))
  {
    hide OneOpen, Linked, Admission, ReserveOrder;
    StepKeepsOneOpen(o.desk, e);
    if e.RetryTask? {
      assert KeptRow(o.desk.tasks[e.t], o.rows[e.t]);
    }
  }

  ghost function Do(o: Office, a: Act): (o': Office)
    requires Kept(o) && Fitting(o, a)
    ensures Kept(o')
  {
    match a
    case OnDesk(e) => DeskKeeps(o, e); AfterDesk(o, e)
    case OnRow(t, e) => RowKeeps(o, t, e); AfterRow(o, t, e)
  }

  ghost predicate AllFitting(o: Office, acts: seq<Act>)
    requires Kept(o)
    decreases |acts|
  {
    acts != [] ==> Fitting(o, acts[0]) && AllFitting(Do(o, acts[0]), acts[1..])
  }

  ghost function DoAll(o: Office, acts: seq<Act>): (o': Office)
    requires Kept(o) && AllFitting(o, acts)
    ensures Kept(o')
    decreases |acts|
  {
    if acts == [] then o else DoAll(Do(o, acts[0]), acts[1..])
  }

  const EMPTY := Office(Desk(START, []), [])

  lemma EmptyIsKept()
    ensures Kept(EMPTY)
  {
  }

  /** An open order of a task is the one its row names, and the row's attempts are its starts. */
  ghost predicate NamedByItsRow(o: Office, k: nat)
    requires k < |o.desk.world.store.orders|
  {
    var order := o.desk.world.store.orders[k];
    order.task.Some? && Open(order.status) ==>
      && order.task.value < |o.rows| && o.rows[order.task.value].row.billing == Some(k)
      && o.rows[order.task.value].row.attempts == o.rows[order.task.value].starts
  }

  lemma KeptIsNamed(o: Office, k: nat)
    requires Kept(o) && k < |o.desk.world.store.orders|
    ensures NamedByItsRow(o, k)
  {
    var order := o.desk.world.store.orders[k];
    if order.task.Some? && Open(order.status) {
      assert KeptRow(o.desk.tasks[order.task.value], o.rows[order.task.value]);
    }
  }

  /** Two open orders of one task are the same. */
  ghost predicate OneOrderEach(o: Office) {
    forall j, k :: 0 <= j < |o.desk.world.store.orders| && 0 <= k < |o.desk.world.store.orders| ==>
      var a, b := o.desk.world.store.orders[j], o.desk.world.store.orders[k];
      a.task.Some? && a.task == b.task && Open(a.status) && Open(b.status) ==> j == k
  }

  /**
   * If everyone saves what it read last, then after every run of creations, unconfirmed retries, bookings and
   * lease-guarded writes two open orders never belong to one task, the open one is its current one, and its attempts
   * are its starts.
   */
  lemma LastReadsKeepOneOpen(acts: seq<Act>)
    ensures AllFitting(EMPTY, acts) ==>
              var o := DoAll(EMPTY, acts);
              OneOrderEach(o) && forall k :: 0 <= k < |o.desk.world.store.orders| ==> NamedByItsRow(o, k)
  {
    hide AllFitting, NamedByItsRow, Kept, OneOrderEach;
    EmptyIsKept();
    if AllFitting(EMPTY, acts) {
      var o := DoAll(EMPTY, acts);
      forall k | 0 <= k < |o.desk.world.store.orders| ensures NamedByItsRow(o, k) {
        KeptIsNamed(o, k);
      }
      NamedIsOne(o);
    }
  }

  lemma NamedIsOne(o: Office)
    requires forall k :: 0 <= k < |o.desk.world.store.orders| ==> NamedByItsRow(o, k)
    ensures OneOrderEach(o)
  {
    forall j, k | 0 <= j < |o.desk.world.store.orders| && 0 <= k < |o.desk.world.store.orders|
      ensures var a, b := o.desk.world.store.orders[j], o.desk.world.store.orders[k];
              a.task.Some? && a.task == b.task && Open(a.status) && Open(b.status) ==> j == k
    {
      assert NamedByItsRow(o, j) && NamedByItsRow(o, k);
    }
  }
}
