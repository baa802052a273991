/** Tasks and the orders that pay for their attempts: creation and retry with reservation, repository/finance.go. */
module TaskBilling {
  import opened Ledger
  import opened Wrappers

  datatype TaskStatus = Queued | Active | Succeeded | Failed | Cancelled

  /** The columns retry looks at.  `recoveryUntil` is the expiry of a manual-recovery lease. */
  datatype Task = Task(user: string, requestKey: string, status: TaskStatus,
                       order: Option<nat>, recoveryUntil: Option<int>)

  datatype Desk = Desk(world: World, tasks: seq<Task>)

  datatype TaskOutcome = Accepted | ActiveTaskLimit | DuplicateRequest | NotRetryable | TaskNotFound
    | RecoveryConflict | BillingPending
                       | SessionUnavailable | BillingRefused(reason: Outcome)

  predicate InProgress(t: Task) {
    t.status == Queued || t.status == Active
  }

  function ActiveCount(tasks: seq<Task>, user: string): nat {
    if tasks == [] then 0
    else ActiveCount(tasks[1..], user) + if tasks[0].user == user && InProgress(tasks[0]) then 1 else 0
  }

  predicate RequestKeyTaken(tasks: seq<Task>, user: string, key: string, except: int) {
    key != "" &&
    exists k ::
      0 <= k < |tasks| && k != except && tasks[k].user == user && tasks[k].requestKey == key && InProgress(tasks[k])
  }

  predicate Ended(t: Task) {
    t.status == Failed || t.status == Cancelled
  }

  predicate UnderRecovery(t: Task, now: int) {
    t.recoveryUntil.Some? && t.recoveryUntil.value > now
  }

  function Admission(tasks: seq<Task>, user: string, key: string, except: int, limit: int): TaskOutcome {
    if ActiveCount(tasks, user) >= limit then ActiveTaskLimit
    else if RequestKeyTaken(tasks, user, key, except) then DuplicateRequest
    else Accepted
  }

  /** The order a task gets: fresh, reserved, for this user and this task row. */
  predicate OrderFor(order: Order, user: string, task: nat) {
    order.user == user && order.task == Some(task) && order.status == Reserved && order.amount >= 0
  }

  function CreateTask(d: Desk, user: string, key: string, order: Option<Order>, limit: int): (Desk, TaskOutcome)
    requires order.Some? ==> OrderFor(order.value, user, |d.tasks|)
  {
    var admitted := Admission(d.tasks, user, key, -1, limit);
    if admitted != Accepted then (d, admitted)
    else if order.None? then
      (d.(tasks := d.tasks + [Task(user, key, Queued, None, None)]), Accepted)
    else
      var (s, outcome) := ReserveOrder(d.world.store, order.value);
      if outcome != Done then (d, BillingRefused(outcome))
      else (Desk(d.world.(store := s), d.tasks + [Task(user, key, Queued, Some(|d.world.store.orders|), None)]),
            Accepted)
  }

  predicate OrderOpen(d: Desk, order: Option<nat>) {
    order.Some? && order.value < |d.world.store.orders| && Open(d.world.store.orders[order.value].status)
  }

  /** The checks made on the task row as first read. */
  function RetryRead(d: Desk, seen: Task, now: int, confirmed: bool): TaskOutcome {
    if !Ended(seen) then NotRetryable
    else if UnderRecovery(seen, now) then RecoveryConflict
    else if OrderOpen(d, seen.order) && !confirmed then BillingPending
    else Accepted
  }

  /** The reservation and the guarded update of the row as it is then; any refusal rolls everything back. */
  function RetryCommit(d: Desk, t: nat, order: Option<Order>, limit: int, now: int,
                       sessionFound: bool): (Desk, TaskOutcome)
    requires t < |d.tasks| && (order.Some? ==> OrderFor(order.value, d.tasks[t].user, t))
  {
    var row := d.tasks[t];
    var admitted := Admission(d.tasks, row.user, row.requestKey, t, limit);
    var (s, outcome) := if order.Some? then ReserveOrder(d.world.store, order.value) else (d.world.store, Done);
    if admitted != Accepted then (d, admitted)
    else if outcome != Done then (d, BillingRefused(outcome))
    else if !Ended(row) || UnderRecovery(row, now) then (d, NotRetryable)
    else if !sessionFound then (d, SessionUnavailable)
    else
      var paidBy := if order.Some? then Some(|d.world.store.orders|) else None;
      (Desk(d.world.(store := s), d.tasks[t := row.(status := Queued, order := paidBy, recoveryUntil := None)]),
       Accepted)
  }

  /** Read and commit with nothing in between. */
  function Retry(d: Desk, t: nat, order: Option<Order>, limit: int, now: int, confirmed: bool,
                 sessionFound: bool): (Desk, TaskOutcome)
    requires t < |d.tasks| && (order.Some? ==> OrderFor(order.value, d.tasks[t].user, t))
  {
    var read := RetryRead(d, d.tasks[t], now, confirmed);
    if read != Accepted then (d, read) else RetryCommit(d, t, order, limit, now, sessionFound)
  }

  // ---------------------------------------------------------------- at most one open order per task

  /** Every open order of a task is the task's current order. */
  ghost predicate OneOpen(d: Desk) {
    forall k {:trigger d.world.store.orders[k]} :: 0 <= k < |d.world.store.orders| ==>
      var o := d.world.store.orders[k];
      o.task.Some? && Open(o.status) ==> o.task.value < |d.tasks| && d.tasks[o.task.value].order == Some(k)
  }

  /** A task's current order is one of its own. */
  ghost predicate Linked(d: Desk) {
    forall t :: 0 <= t < |d.tasks| && d.tasks[t].order.Some? ==>
      d.tasks[t].order.value < |d.world.store.orders| && d.world.store.orders[d.tasks[t].order.value].task == Some(t)
  }

  datatype TaskEvent =
    | Create(user: string, key: string, createOrder: Option<Order>, createLimit: int)
    | RetryTask(t: nat, retryOrder: Option<Order>, retryLimit: int, now: int, sessionFound: bool)
    | Move(moved: nat, to: TaskStatus, recoveryUntil: Option<int>)
    | SaveFinal(ended: nat, final: TaskStatus, savedOrder: Option<nat>)
    | Books(event: Event)

  /** What a copy of the task row, however old, can name as its order. */
  predicate OrderOfTask(d: Desk, t: nat, order: Option<nat>) {
    order.Some? ==> order.value < |d.world.store.orders| && d.world.store.orders[order.value].task == Some(t)
  }

  /**
   * Well-formed events: fresh orders for the right task; other reservations belong to no task; a final write finds
   * the task claimed, or ended and under a manual recovery.
   */
  predicate Fits(d: Desk, e: TaskEvent) {
    match e
    case Create(user, _, order, _) => order.Some? ==> OrderFor(order.value, user, |d.tasks|)
    case RetryTask(t, order, _, _, _) => t < |d.tasks| && (order.Some? ==> OrderFor(order.value, d.tasks[t].user, t))
    case Move(t, to, _) =>
      t < |d.tasks| && (to == d.tasks[t].status || (InProgress(d.tasks[t]) && (to == Active || to == Cancelled)))
    case SaveFinal(t, final, saved) =>
      && t < |d.tasks| && final in {Succeeded, Failed, Cancelled} && OrderOfTask(d, t, saved)
      && (d.tasks[t].status == Active || Ended(d.tasks[t]))
    case Books(event) => Allowed(event) && (event.ReserveEvent? ==> event.order.task == None)
  }

  /**
   * Claims, user cancels and recovery leases move a task's status and lease; a final write saves the whole row
   * object, its order included; unconfirmed retries are atomic here.
   */
  function TaskStep(d: Desk, e: TaskEvent): Desk
    requires Fits(d, e)
  {
    match e
    case Create(user, key, order, limit) => CreateTask(d, user, key, order, limit).0
    case RetryTask(t, order, limit, now, sessionFound) => Retry(d, t, order, limit, now, false, sessionFound).0
    case Move(t, to, until) => d.(tasks := d.tasks[t := d.tasks[t].(status := to, recoveryUntil := until)])
    case SaveFinal(t, final, saved) =>
      d.(tasks := d.tasks[t := d.tasks[t].(status := final, order := saved, recoveryUntil := None)])
    case Books(event) => d.(world := Step(d.world, event))
  }

  predicate AllFit(d: Desk, events: seq<TaskEvent>)
    decreases |events|
  {
    events != [] ==> Fits(d, events[0]) && AllFit(TaskStep(d, events[0]), events[1..])
  }

  function TaskRun(d: Desk, events: seq<TaskEvent>): Desk
    requires AllFit(d, events)
    decreases |events|
  {
    if events == [] then d else TaskRun(TaskStep(d, events[0]), events[1..])
  }

  lemma NewOrders(w: World, e: Event)
    requires Allowed(e) && (e.ReserveEvent? ==> e.order.task == None)
    ensures var orders, orders' := w.store.orders, Step(w, e).store.orders;
            |orders| <= |orders'| && forall k :: |orders| <= k < |orders'| ==> orders'[k].task == None
  {
  }

  lemma BooksKeepOneOpen(d: Desk, event: Event)
    requires OneOpen(d) && Linked(d) && Fits(d, Books(event))
    ensures OneOpen(TaskStep(d, Books(event))) && Linked(TaskStep(d, Books(event)))
  {
    hide Step;
    StepAdvances(d.world, event);
    NewOrders(d.world, event);
  }

  lemma RetryKeepsOneOpen(d: Desk, t: nat, order: Option<Order>, limit: int, now: int, sessionFound: bool)
    requires OneOpen(d) && Linked(d) && t < |d.tasks| && (order.Some? ==> OrderFor(order.value, d.tasks[t].user, t))
    ensures var d' := Retry(d, t, order, limit, now, false, sessionFound).0; OneOpen(d') && Linked(d')
  {
    hide Admission;
  }

  /** A final write names the row's order, or the row's order is closed. */
  predicate Harmless(d: Desk, e: TaskEvent)
    requires Fits(d, e)
  {
    e.SaveFinal? ==> e.savedOrder == d.tasks[e.ended].order || !OrderOpen(d, d.tasks[e.ended].order)
  }

  /** That is exactly when a final write keeps the task's open order its current one. */
  lemma FinalSaveExactly(d: Desk, e: TaskEvent)
    requires OneOpen(d) && Linked(d) && Fits(d, e) && e.SaveFinal?
    ensures Linked(TaskStep(d, e)) && (OneOpen(TaskStep(d, e)) <==> Harmless(d, e))
  {
    var d', current := TaskStep(d, e), d.tasks[e.ended].order;
    if OrderOpen(d, current) {
      assert d'.world.store.orders[current.value].task == Some(e.ended);
    }
  }

  lemma StepKeepsOneOpen(d: Desk, e: TaskEvent)
    requires OneOpen(d) && Linked(d) && Fits(d, e) && Harmless(d, e)
    ensures OneOpen(TaskStep(d, e)) && Linked(TaskStep(d, e))
  {
    match e {
      case Books(event) => BooksKeepOneOpen(d, event);
      case RetryTask(t, order, limit, now, sessionFound) => RetryKeepsOneOpen(d, t, order, limit, now, sessionFound);
      case Create(_, _, _, _) => hide Admission;
      case SaveFinal(_, _, _) => FinalSaveExactly(d, e);
      case Move(_, _, _) =>
    }
  }

  predicate AllHarmless(d: Desk, events: seq<TaskEvent>)
    requires AllFit(d, events)
    decreases |events|
  {
    events != [] ==> Harmless(d, events[0]) && AllHarmless(TaskStep(d, events[0]), events[1..])
  }

  lemma {:induction false} RunKeepsOneOpen(d: Desk, events: seq<TaskEvent>)
    requires OneOpen(d) && Linked(d) && AllFit(d, events) && AllHarmless(d, events)
    ensures OneOpen(TaskRun(d, events)) && Linked(TaskRun(d, events))
    decreases |events|
  {
    hide TaskStep, OneOpen, Linked, Harmless;
    if events != [] {
      StepKeepsOneOpen(d, events[0]);
      RunKeepsOneOpen(TaskStep(d, events[0]), events[1..]);
    }
  }

  /** Without confirmed retries and harmful old copies two open orders never belong to the same task. */
  lemma OneOpenOrderPerTask(events: seq<TaskEvent>, j: nat, k: nat)
    requires AllFit(Desk(START, []), events) && AllHarmless(Desk(START, []), events)
    requires var orders := TaskRun(Desk(START, []), events).world.store.orders;
             && j < |orders| && k < |orders| && orders[j].task.Some? && orders[j].task == orders[k].task
             && Open(orders[j].status) && Open(orders[k].status)
    ensures var d := TaskRun(Desk(START, []), events);
            var t := d.world.store.orders[j].task.value;
            j == k && t < |d.tasks| && d.tasks[t].order == Some(j)
  {
    var start := Desk(START, []);
    RunKeepsOneOpen(start, events);
  }

  // ---------------------------------------------------------------- concurrent retries

  /** One retry's commit: its fresh order and its own limit, clock and session lookup. */
  datatype Attempt = Attempt(order: Option<Order>, limit: int, now: int, sessionFound: bool)

  predicate AttemptFits(d: Desk, t: nat, a: Attempt) {
    t < |d.tasks| && (a.order.Some? ==> OrderFor(a.order.value, d.tasks[t].user, t))
  }

  function Commit(d: Desk, t: nat, a: Attempt): (Desk, TaskOutcome)
    requires AttemptFits(d, t, a)
  {
    RetryCommit(d, t, a.order, a.limit, a.now, a.sessionFound)
  }

  function CommitAll(d: Desk, t: nat, attempts: seq<Attempt>): Desk
    requires forall k :: 0 <= k < |attempts| ==> AttemptFits(d, t, attempts[k])
    decreases |attempts|
  {
    if attempts == [] then d
    else
      var next := Commit(d, t, attempts[0]).0;
      assert forall k :: 0 <= k < |attempts| ==> AttemptFits(d, t, attempts[k]) ==> AttemptFits(next, t, attempts[k]);
      CommitAll(next, t, attempts[1..])
  }

  /** On a task in progress every commit fails and leaves no trace. */
  lemma {:induction false} LateRetriesLose(d: Desk, t: nat, attempts: seq<Attempt>)
    requires forall k :: 0 <= k < |attempts| ==> AttemptFits(d, t, attempts[k])
    requires t < |d.tasks| && InProgress(d.tasks[t])
    ensures CommitAll(d, t, attempts) == d
    ensures forall k :: 0 <= k < |attempts| ==> Commit(d, t, attempts[k]).1 != Accepted
    decreases |attempts|
  {
    if attempts != [] {
      LateRetriesLose(d, t, attempts[1..]);
      forall k | 0 <= k < |attempts| ensures Commit(d, t, attempts[k]).1 != Accepted {
      }
    }
  }

  /** Of retries racing for one ended task the first acceptable one wins, and the others change nothing. */
  lemma {:induction false} OnlyOneRetryWins(d: Desk, t: nat, attempts: seq<Attempt>) returns (winner: int)
    requires t < |d.tasks| && forall k :: 0 <= k < |attempts| ==> AttemptFits(d, t, attempts[k])
    ensures -1 <= winner < |attempts|
    ensures if winner < 0 then CommitAll(d, t, attempts) == d
            else
              && Commit(d, t, attempts[winner]).1 == Accepted
              && CommitAll(d, t, attempts) == Commit(d, t, attempts[winner]).0
    ensures forall k :: 0 <= k < |attempts| && (k < winner || winner < 0) ==> Commit(d, t, attempts[k]).1 != Accepted
    decreases |attempts|
  {
    winner := -1;
    if attempts != [] {
      var (next, outcome) := Commit(d, t, attempts[0]);
      if outcome == Accepted {
        LateRetriesLose(next, t, attempts[1..]);
        winner := 0;
      } else {
        var rest := OnlyOneRetryWins(d, t, attempts[1..]);
        winner := if rest < 0 then -1 else rest + 1;
        assert forall k :: 1 <= k < |attempts| ==> attempts[k] == attempts[1..][k - 1];
      }
    }
  }

  // ---------------------------------------------------------------- a retry that read too early

  /**
   * With other work between read and commit, a winning paid retry keeps one open order exactly when the row's order
   * is closed by then.
   */
  lemma SplitRetryExactly(d: Desk, t: nat, a: Attempt)
    requires OneOpen(d) && Linked(d) && AttemptFits(d, t, a) && Commit(d, t, a).1 == Accepted
    ensures OneOpen(Commit(d, t, a).0) <==> !OrderOpen(d, d.tasks[t].order)
  {
    var d' := Commit(d, t, a).0;
    var current := d.tasks[t].order;
    var orders, orders' := d.world.store.orders, d'.world.store.orders;
    assert forall k :: 0 <= k < |orders| ==> orders'[k] == orders[k];
    if OrderOpen(d, current) {
      assert orders'[current.value].task == Some(t) && d'.tasks[t].order != current;
    }
  }

  const FIRST := Order("u", "first", Some(0), 3, Reserved)
  const SECOND := Order("u", "second", Some(0), 3, Reserved)
  const THIRD := Order("u", "third", Some(0), 3, Reserved)

  /** A desk with one task of one credited user. */
  predicate Shows(d: Desk, orders: seq<Order>, account: Account, status: TaskStatus, current: nat) {
    && d.world.store.orders == orders && d.world.store.accounts == map["u" := account]
    && d.tasks == [Task("u", "", status, Some(current), None)]
  }

  /** The first paid task of a credited user, created and claimed. */
  function FirstTask(): (d: Desk)
    ensures Shows(d, [FIRST], Account(7, 3), Active, 0)
  {
    var d := Desk(Step(START, GrantEvent("u", SignupBonus, 10, "signup:u")), []);
    assert d.world.store.accounts == map["u" := Account(10, 0)] && d.world.store.orders == [];
    var d := TaskStep(d, Create("u", "", Some(FIRST), 5));
    TaskStep(d, Move(0, Active, None))
  }

  /** The attempt failed and was refunded. */
  function AfterRefund(): (d: Desk)
    ensures Shows(d, [FIRST.(status := Refunded)], Account(10, 0), Failed, 0)
  {
    var d := TaskStep(FirstTask(), Books(ReadEvent(0, 0)));
    assert d.world.seen[0] == Seen(0, FIRST);
    var d := TaskStep(d, Books(CloseEvent(0, Refunded, false)));
    TaskStep(d, SaveFinal(0, Failed, Some(0)))
  }

  /** The user retried, and a worker claimed the task again. */
  function RetriedOnce(): (d: Desk)
    ensures Shows(d, [FIRST.(status := Refunded), SECOND], Account(7, 3), Active, 1)
  {
    var d := AfterRefund();
    RetryAccepted(d, [FIRST.(status := Refunded)], Account(10, 0), Failed, 0, SECOND);
    var d := TaskStep(d, RetryTask(0, Some(SECOND), 5, 0, true));
    TaskStep(d, Move(0, Active, None))
  }

  /** That attempt failed too, and its cost is not settled yet. */
  function RetriedMeanwhile(): (d: Desk)
    ensures Shows(d, [FIRST.(status := Refunded), SECOND.(status := Uncertain)], Account(7, 3), Failed, 1)
  {
    var d := TaskStep(RetriedOnce(), Books(UncertainEvent(1)));
    TaskStep(d, SaveFinal(0, Failed, Some(1)))
  }

  lemma Idle(d: Desk)
    requires |d.tasks| == 1 && Ended(d.tasks[0])
    ensures ActiveCount(d.tasks, d.tasks[0].user) == 0
  {
    assert d.tasks[1..] == [];
  }

  /**
   * With the task ended and credit left, the commit of a retry with a new key is accepted; so is a retry with no
   * order open.
   */
  lemma RetryAccepted(d: Desk, orders: seq<Order>, account: Account, status: TaskStatus, current: nat, order: Order)
    requires Shows(d, orders, account, status, current) && (status == Failed || status == Cancelled)
    requires account.available >= 3
    requires OrderFor(order, "u", 0) && order.amount == 3
    requires forall k :: 0 <= k < |orders| ==> orders[k].key != order.key
    ensures var (next, outcome) := Commit(d, 0, Attempt(Some(order), 5, 0, true));
            && outcome == Accepted
            && Shows(next, orders + [order], Account(account.available - 3, account.reserved + 3), Queued, |orders|)
            && (!OrderOpen(d, Some(current)) ==> Retry(d, 0, Some(order), 5, 0, false, true) == (next, Accepted))
  {
    Idle(d);
    assert ReserveOrder(d.world.store, order).1 == Done;
  }

  /** A retry that passed its checks before that and commits after it leaves two open orders. */
  lemma EarlyReadBreaksOneOpen()
    ensures var seen, late := AfterRefund(), RetriedMeanwhile();
            var a := Attempt(Some(THIRD), 5, 0, true);
            && |seen.tasks| == 1 && RetryRead(seen, seen.tasks[0], 0, false) == Accepted
            && OneOpen(late) && AttemptFits(late, 0, a) && Commit(late, 0, a).1 == Accepted
            && !OneOpen(Commit(late, 0, a).0)
  {
    hide AfterRefund, RetriedMeanwhile;
    var late := RetriedMeanwhile();
    RetryAccepted(late, late.world.store.orders, Account(7, 3), Failed, 1, THIRD);
    SplitRetryExactly(late, 0, Attempt(Some(THIRD), 5, 0, true));
  }

  /**
   * An old copy of attempt 1, saved as cancelled by the owner of attempt 2: the next retry passes its checks, and two
   * orders of the task are open.
   */
  lemma OldCopyBreaksOneOpen()
    ensures var claimed, stale := RetriedOnce(), SaveFinal(0, Cancelled, Some(0));
            && OneOpen(claimed) && Fits(claimed, stale) && !Harmless(claimed, stale)
            && var saved := TaskStep(claimed, stale);
            && |saved.tasks| == 1 && saved.tasks[0].user == "u"
            && var again := Retry(saved, 0, Some(THIRD), 5, 0, false, true);
            && again.1 == Accepted && |again.0.world.store.orders| == 3
            && Open(again.0.world.store.orders[1].status) && Open(again.0.world.store.orders[2].status)
            && again.0.world.store.orders[1].task == again.0.world.store.orders[2].task == Some(0)
  {
    hide RetriedOnce;
    var claimed := RetriedOnce();
    var saved := TaskStep(claimed, SaveFinal(0, Cancelled, Some(0)));
    assert saved.world == claimed.world;
    assert !OrderOpen(saved, Some(0));
    RetryAccepted(saved, claimed.world.store.orders, Account(7, 3), Cancelled, 0, THIRD);
  }
}
