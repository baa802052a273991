/** Which tasks a user may have in progress, over creation, retry and everything in between: repository/finance.go. */
module TaskAdmission {
  import opened Ledger
  import opened LedgerEffects
  import opened TaskBilling
  import opened Wrappers

  /** The tasks a user has queued or running. */
  function Busy(tasks: seq<Task>, user: string): set<nat> {
    set t: nat | t < |tasks| && tasks[t].user == user && (tasks[t].status == Queued || tasks[t].status == Active)
  }

  /** Another task of this user is in progress under this key. */
  ghost predicate KeyBusy(tasks: seq<Task>, user: string, key: string, except: int) {
    key != "" && exists t :: t in Busy(tasks, user) && t != except && tasks[t].requestKey == key
  }

  predicate Counts(task: Task, user: string) {
    task.user == user && (task.status == Queued || task.status == Active)
  }

  lemma {:induction false} ActiveCountBack(tasks: seq<Task>, user: string)
    requires tasks != []
    ensures ActiveCount(tasks, user)
         == ActiveCount(tasks[..|tasks| - 1], user) + if Counts(tasks[|tasks| - 1], user) then 1 else 0
    decreases |tasks|
  {
    var front, last := tasks[..|tasks| - 1], tasks[|tasks| - 1];
    assert [last][1..] == [];
    if front == [] {
      assert tasks == [last];
    } else {
      assert tasks[1..][..|tasks| - 2] == front[1..];
      ActiveCountBack(tasks[1..], user);
    }
  }

  lemma BusyBack(tasks: seq<Task>, user: string)
    requires tasks != []
    ensures |Busy(tasks, user)|
         == |Busy(tasks[..|tasks| - 1], user)| + if Counts(tasks[|tasks| - 1], user) then 1 else 0
  {
    var n := |tasks| - 1;
    var front := Busy(tasks[..n], user);
    assert Busy(tasks, user) == if Counts(tasks[n], user) then front + {n} else front;
  }

  lemma {:induction false} ActiveCountIsBusy(tasks: seq<Task>, user: string)
    ensures ActiveCount(tasks, user) == |Busy(tasks, user)|
    decreases |tasks|
  {
    if tasks == [] {
      assert Busy(tasks, user) == {};
    } else {
      hide ActiveCount, Busy, Counts;
      ActiveCountBack(tasks, user);
      BusyBack(tasks, user);
      ActiveCountIsBusy(tasks[..|tasks| - 1], user);
    }
  }

  lemma AdmissionIs(tasks: seq<Task>, user: string, key: string, except: int, limit: int)
    ensures Admission(tasks, user, key, except, limit) ==
            if |Busy(tasks, user)| >= limit then ActiveTaskLimit
            else if KeyBusy(tasks, user, key, except) then DuplicateRequest
            else Accepted
  {
    ActiveCountIsBusy(tasks, user);
    assert forall t :: t in Busy(tasks, user) <==>
             0 <= t < |tasks| && tasks[t].user == user && InProgress(tasks[t]);
  }

  /** The reservation an order needs: the balance covers it, and its key is new. */
  ghost predicate Payable(s: Store, order: Option<Order>) {
    order.Some? ==>
      && order.value.amount <= Available(s, order.value.user)
      && forall k :: 0 <= k < |s.orders| ==> s.orders[k].user != order.value.user || s.orders[k].key != order.value.key
  }

  /** The order rows and balances after a reservation, if there is one to make. */
  ghost predicate Paid(s: Store, s': Store, order: Option<Order>) {
    match order
    case None => s' == s
    case Some(o) => s'.orders == s.orders + [o] && Moves(s, s', o.user, -o.amount, o.amount)
  }

  /** A task is created exactly below the limit, under a free key and with its order reserved; else nothing changes. */
  lemma CreatesExactly(d: Desk, user: string, key: string, order: Option<Order>, limit: int)
    requires order.Some? ==> OrderFor(order.value, user, |d.tasks|)
    ensures var (d', outcome) := CreateTask(d, user, key, order, limit);
            && (outcome == Accepted <==>
                  && |Busy(d.tasks, user)| < limit && !KeyBusy(d.tasks, user, key, -1) && Payable(d.world.store, order))
            && (outcome != Accepted ==> d' == d)
            && (outcome == Accepted ==>
                  var current := if order.Some? then Some(|d.world.store.orders|) else None;
                  && d'.tasks == d.tasks + [Task(user, key, Queued, current, None)]
                  && Paid(d.world.store, d'.world.store, order))
  {
    hide Admission, ReserveOrder, Busy, KeyBusy;
    AdmissionIs(d.tasks, user, key, -1, limit);
    if order.Some? {
      ReservesExactly(d.world.store, order.value);
    }
  }

  /** The same for the commit of a retry, which also needs an ended task, no live recovery and its session. */
  lemma RetriesExactly(d: Desk, t: nat, order: Option<Order>, limit: int, now: int, sessionFound: bool)
    requires t < |d.tasks| && (order.Some? ==> OrderFor(order.value, d.tasks[t].user, t))
    ensures var (d', outcome) := RetryCommit(d, t, order, limit, now, sessionFound);
            var row := d.tasks[t];
            && (outcome == Accepted <==>
                  && |Busy(d.tasks, row.user)| < limit && !KeyBusy(d.tasks, row.user, row.requestKey, t)
                  && Payable(d.world.store, order) && (row.status == Failed || row.status == Cancelled)
                  && (row.recoveryUntil.Some? ==> row.recoveryUntil.value <= now) && sessionFound)
            && (outcome != Accepted ==> d' == d)
            && (outcome == Accepted ==>
                  var current := if order.Some? then Some(|d.world.store.orders|) else None;
                  && d'.tasks == d.tasks[t := row.(status := Queued, order := current, recoveryUntil := None)]
                  && Paid(d.world.store, d'.world.store, order))
  {
    hide Admission, ReserveOrder, Busy, KeyBusy;
    AdmissionIs(d.tasks, d.tasks[t].user, d.tasks[t].requestKey, t, limit);
    if order.Some? {
      ReservesExactly(d.world.store, order.value);
    }
  }

  /** Without a confirmation a retry is refused exactly while the task's order is open. */
  lemma RetryWaitsForItsOrder(d: Desk, t: nat, now: int, confirmed: bool)
    requires t < |d.tasks|
    ensures var row, orders := d.tasks[t], d.world.store.orders;
            var open := row.order.Some? && row.order.value < |orders| &&
                        orders[row.order.value].status in {Reserved, Running, Uncertain};
            RetryRead(d, row, now, confirmed) ==
            if row.status != Failed && row.status != Cancelled then NotRetryable
            else if row.recoveryUntil.Some? && now < row.recoveryUntil.value then RecoveryConflict
            else if open && !confirmed then BillingPending
            else Accepted
  {
  }

  // ---------------------------------------------------------------- runs

  ghost predicate KeysApart(tasks: seq<Task>) {
    forall user, i, j :: i in Busy(tasks, user) && j in Busy(tasks, user) && i != j && tasks[i].requestKey != "" ==>
      tasks[i].requestKey != tasks[j].requestKey
  }

  predicate Within(e: TaskEvent, limit: int) {
    match e
    case Create(_, _, _, own) => own <= limit
    case RetryTask(_, _, own, _, _) => own <= limit
    case _ => true
  }

  /** What one event does to who is busy: it lets at most one admitted task in. */
  lemma StepBusy(d: Desk, e: TaskEvent, user: string, limit: int)
    requires Fits(d, e) && Within(e, limit) && limit >= 0 && |Busy(d.tasks, user)| <= limit
    ensures |Busy(TaskStep(d, e).tasks, user)| <= limit
  {
    hide CreateTask, RetryCommit, KeyBusy, Payable, Paid;
    var tasks, tasks' := d.tasks, TaskStep(d, e).tasks;
    match e {
      case Create(u, key, order, own) =>
        CreatesExactly(d, u, key, order, own);
        AtMostOneMore(tasks, tasks', user, |tasks|);
      case RetryTask(t, order, own, now, sessionFound) =>
        RetriesExactly(d, t, order, own, now, sessionFound);
        AtMostOneMore(tasks, tasks', user, t);
      case _ => NoneMore(Busy(tasks', user), Busy(tasks, user));
    }
  }

  lemma NoneMore(a: set<nat>, b: set<nat>)
    ensures a <= b ==> |a| <= |b|
  {
    if a <= b {
      assert b == a + (b - a);
    }
  }

  lemma AtMostOneMore(tasks: seq<Task>, tasks': seq<Task>, user: string, t: nat)
    requires |tasks| <= |tasks'| && forall k :: 0 <= k < |tasks'| && k != t ==> k < |tasks| && tasks'[k] == tasks[k]
    ensures |Busy(tasks', user)| <= |Busy(tasks, user)| + 1
    ensures t !in Busy(tasks', user) ==> |Busy(tasks', user)| <= |Busy(tasks, user)|
  {
    NoneMore(Busy(tasks', user) - {t}, Busy(tasks, user));
  }

  lemma OneMoreKey(tasks: seq<Task>, tasks': seq<Task>, t: nat)
    requires KeysApart(tasks) && |tasks| <= |tasks'| && t < |tasks'|
    requires forall k :: 0 <= k < |tasks'| && k != t ==> k < |tasks| && tasks'[k] == tasks[k]
    requires !KeyBusy(tasks, tasks'[t].user, tasks'[t].requestKey, t)
    ensures KeysApart(tasks')
  {
    forall user, i, j | i in Busy(tasks', user) && j in Busy(tasks', user) && i != j && tasks'[i].requestKey != ""
      ensures tasks'[i].requestKey != tasks'[j].requestKey
    {
      assert i != t ==> i in Busy(tasks, user);
      assert j != t ==> j in Busy(tasks, user);
    }
  }

  lemma NoMoreKeys(tasks: seq<Task>, tasks': seq<Task>)
    requires KeysApart(tasks) && |tasks'| == |tasks|
    requires forall k :: 0 <= k < |tasks| ==>
               && tasks'[k].user == tasks[k].user && tasks'[k].requestKey == tasks[k].requestKey
               && (InProgress(tasks'[k]) ==> InProgress(tasks[k]))
    ensures KeysApart(tasks')
  {
    forall user, i, j | i in Busy(tasks', user) && j in Busy(tasks', user) && i != j && tasks'[i].requestKey != ""
      ensures tasks'[i].requestKey != tasks'[j].requestKey
    {
      assert i in Busy(tasks, user) && j in Busy(tasks, user);
    }
  }

  lemma StepKeysApart(d: Desk, e: TaskEvent)
    requires Fits(d, e) && KeysApart(d.tasks)
    ensures KeysApart(TaskStep(d, e).tasks)
  {
    var tasks, tasks' := d.tasks, TaskStep(d, e).tasks;
    match e {
      case Create(u, key, order, own) =>
        hide CreateTask, Payable, Paid, KeyBusy, Busy;
        CreatesExactly(d, u, key, order, own);
        if tasks' != tasks {
          NoExcept(tasks, u, key);
          OneMoreKey(tasks, tasks', |tasks|);
        }
      case RetryTask(t, order, own, now, sessionFound) =>
        hide RetryCommit, Payable, Paid, KeyBusy, Busy;
        RetriesExactly(d, t, order, own, now, sessionFound);
        if tasks' != tasks {
          OneMoreKey(tasks, tasks', t);
        }
      case _ =>
        NoMoreKeys(tasks, tasks');
    }
  }

  lemma NoExcept(tasks: seq<Task>, user: string, key: string)
    ensures KeyBusy(tasks, user, key, -1) <==> KeyBusy(tasks, user, key, |tasks|)
  {
  }

  lemma {:induction false} RunAdmits(d: Desk, events: seq<TaskEvent>, user: string, limit: int)
    requires AllFit(d, events) && KeysApart(d.tasks) && limit >= 0 && |Busy(d.tasks, user)| <= limit
    requires forall k :: 0 <= k < |events| ==> Within(events[k], limit)
    ensures KeysApart(TaskRun(d, events).tasks) && |Busy(TaskRun(d, events).tasks, user)| <= limit
    decreases |events|
  {
    hide TaskStep, KeysApart, Busy, Within, Fits;
    if events != [] {
      StepBusy(d, events[0], user, limit);
      StepKeysApart(d, events[0]);
      RunAdmits(TaskStep(d, events[0]), events[1..], user, limit);
    }
  }

  /**
   * After every run a user has at most as many tasks in progress as creations and retries were allowed, and no two of
   * them under one request key.
   */
  lemma BusyTasksAreAdmitted(events: seq<TaskEvent>, user: string, limit: int)
    requires AllFit(Desk(START, []), events) && limit >= 0
    requires forall k :: 0 <= k < |events| ==> Within(events[k], limit)
    ensures var tasks := TaskRun(Desk(START, []), events).tasks;
            && |Busy(tasks, user)| <= limit
            && forall i, j :: i in Busy(tasks, user) && j in Busy(tasks, user) && i != j ==>
                 tasks[i].requestKey == "" || tasks[i].requestKey != tasks[j].requestKey
  {
    assert Busy([], user) == {};
    RunAdmits(Desk(START, []), events, user, limit);
  }
}
