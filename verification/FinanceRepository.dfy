/**
 * The repository methods that write accounts, orders, ledger and codes row by row: repository/finance.go,
 * repository/admin_audit.go.
 */
module FinanceRepository {
  import opened Ledger
  import opened TaskBilling
  import opened Wrappers

  /** Inserting the empty row first does not change what a posting leaves. */
  lemma EnsuredPost(s: Store, user: string, kind: EntryType, amount: int, available: int, reserved: int,
                    order: Option<nat>, code: Option<nat>, reference: Option<string>)
    ensures Post(s.(accounts := s.accounts[user := AccountOf(s, user)]), user, kind, amount, available, reserved,
                 order, code, reference)
         == Post(s, user, kind, amount, available, reserved, order, code, reference)
  {
  }

  class FinanceRepository {
    var accounts: map<string, Account>
    var orders: seq<Order>
    var ledger: seq<Entry>
    var codes: seq<Code>
    var tasks: seq<Task>

    function Contents(): Store
      reads this
    {
      Store(accounts, orders, ledger, codes)
    }

    function Seated(): Desk
      reads this
    {
      Desk(World(Contents(), map[]), tasks)
    }

    constructor ()
      ensures Contents() == Store(map[], [], [], []) && tasks == []
    {
      accounts, orders, ledger, codes, tasks := map[], [], [], [], [];
    }

    /** Insert the empty row unless there is one. */
    method EnsureAccount(user: string)
      modifies this`accounts
      ensures accounts == old(accounts)[user := AccountOf(old(Contents()), user)]
    {
      if user !in accounts {
        accounts := accounts[user := Account(0, 0)];
      }
    }

    /** Move the balances of an existing row and append the entry with the balances read back. */
    method Record(user: string, kind: EntryType, amount: int, available: int, reserved: int,
                  order: Option<nat>, code: Option<nat>, reference: Option<string>)
      requires user in accounts
      modifies this`accounts, this`ledger
      ensures Contents() == Post(old(Contents()), user, kind, amount, available, reserved, order, code, reference)
    {
      var account := accounts[user];
      accounts := accounts[user := Account(account.available + available, account.reserved + reserved)];
      account := accounts[user];
      ledger := ledger
        + [Entry(user, kind, amount, available, reserved, account.available, account.reserved, order, code, reference)];
    }

    /** `EnsureAccount`, then `Record`. */
    method Enter(user: string, kind: EntryType, amount: int, available: int, reserved: int,
                 order: Option<nat>, code: Option<nat>, reference: Option<string>)
      modifies this`accounts, this`ledger
      ensures Contents() == Post(old(Contents()), user, kind, amount, available, reserved, order, code, reference)
      ensures user in accounts
    {
      EnsuredPost(Contents(), user, kind, amount, available, reserved, order, code, reference);
      EnsureAccount(user);
      Record(user, kind, amount, available, reserved, order, code, reference);
    }

    method GrantCreditsOnce(user: string, kind: EntryType, amount: int, reference: string)
      returns (account: Account, granted: bool)
      modifies this`accounts, this`ledger
      ensures var r := Grant(old(Contents()), user, kind, amount, reference);
              Contents() == r.0 && granted == (r.1 == Done) && account == AccountOf(Contents(), user)
    {
      if ReferenceTaken(ledger, reference) {
        EnsureAccount(user);
        return accounts[user], false;
      }
      Enter(user, kind, amount, amount, 0, None, None, Some(reference));
      return accounts[user], true;
    }

    method ReserveBillingOrder(order: Order) returns (outcome: Outcome)
      modifies this`accounts, this`orders, this`ledger
      ensures (Contents(), outcome) == ReserveOrder(old(Contents()), order)
    {
      if AccountOf(Contents(), order.user).available < order.amount {
        return InsufficientCredits;
      }
      if KeyTaken(orders, order.user, order.key) {
        return DuplicateKey;
      }
      var id := |orders|;
      orders := orders + [order];
      Enter(order.user, Reserve, 0, -order.amount, order.amount, Some(id), None, None);
      return Done;
    }

    method BillingOrder(id: nat) returns (row: Option<Order>)
      ensures row == if id < |orders| then Some(orders[id]) else None
    {
      return if id < |orders| then Some(orders[id]) else None;
    }

    /** `read` is the row found at the start, if there is one; the guards below look at the row as it is now. */
    method MarkBillingRunning(id: nat, read: Option<Order>) returns (outcome: Outcome)
      requires read.Some? ==> id < |orders|
      modifies this`orders
      ensures if read.None? then Contents() == old(Contents()) && outcome == NotFound
              else (Contents(), outcome) == Ledger.MarkRunning(old(Contents()), id, read.value)
    {
      if read.None? {
        return NotFound;
      }
      var seen := read.value;
      if seen.status == Running {
        return Done;
      }
      if orders[id].status != Reserved {
        return StateConflict;
      }
      orders := orders[id := orders[id].(status := Running)];
      return Done;
    }

    method MarkBillingUncertain(id: nat) returns (outcome: Outcome)
      modifies this`orders
      ensures if id < |old(orders)| then (Contents(), outcome) == Ledger.MarkUncertain(old(Contents()), id)
              else Contents() == old(Contents()) && outcome == NotFound
    {
      if id >= |orders| {
        return NotFound;
      }
      if orders[id].status in {Reserved, Running, Uncertain} {
        orders := orders[id := orders[id].(status := Uncertain)];
        return Done;
      }
      return StateConflict;
    }

    method SettleBillingOrder(id: nat, read: Option<Order>, allowUncertain: bool) returns (outcome: Outcome)
      requires read.Some? ==> id < |orders|
      modifies this`accounts, this`orders, this`ledger
      ensures if read.None? then Contents() == old(Contents()) && outcome == NotFound
              else (Contents(), outcome) == CloseOrder(old(Contents()), id, read.value, Settled, allowUncertain)
    {
      if read.None? {
        return NotFound;
      }
      var seen := read.value;
      if seen.status == Settled {
        return Done;
      }
      if seen.status == Refunded {
        return AlreadyRefunded;
      }
      if seen.status == Uncertain && !allowUncertain {
        return ReviewRequired;
      }
      var row := orders[id];
      if !Closable(row.status, allowUncertain) {
        return CloseRefusal(row.status, Settled, allowUncertain);
      }
      orders := orders[id := row.(status := Settled)];
      if AccountOf(Contents(), seen.user).reserved < seen.amount {
        orders := orders[id := row];
        assert orders == old(orders);
        return BalanceInconsistent;
      }
      Enter(seen.user, Consume, -seen.amount, 0, -seen.amount, Some(id), None, None);
      return Done;
    }

    method RefundBillingOrder(id: nat, read: Option<Order>, allowUncertain: bool) returns (outcome: Outcome)
      requires read.Some? ==> id < |orders|
      modifies this`accounts, this`orders, this`ledger
      ensures if read.None? then Contents() == old(Contents()) && outcome == NotFound
              else (Contents(), outcome) == CloseOrder(old(Contents()), id, read.value, Refunded, allowUncertain)
    {
      if read.None? {
        return NotFound;
      }
      var seen := read.value;
      if seen.status == Refunded {
        return Done;
      }
      if seen.status == Settled {
        return AlreadySettled;
      }
      if seen.status == Uncertain && !allowUncertain {
        return ReviewRequired;
      }
      var row := orders[id];
      if !Closable(row.status, allowUncertain) {
        return CloseRefusal(row.status, Refunded, allowUncertain);
      }
      orders := orders[id := row.(status := Refunded)];
      if AccountOf(Contents(), seen.user).reserved < seen.amount {
        orders := orders[id := row];
        assert orders == old(orders);
        return BalanceInconsistent;
      }
      Enter(seen.user, Refund, seen.amount, seen.amount, -seen.amount, Some(id), None, None);
      return Done;
    }

    method AdjustCredits(user: string, amount: int) returns (outcome: Outcome)
      modifies this`accounts, this`ledger
      ensures (Contents(), outcome) == Adjust(old(Contents()), user, amount)
    {
      if AccountOf(Contents(), user).available + amount < 0 {
        return InsufficientCredits;
      }
      var kind := AdminAdjust;
      if amount > 0 {
        kind := AdminGrant;
      }
      Enter(user, kind, amount, amount, 0, None, None, None);
      return Done;
    }

    /** The lookup by the unique hash. */
    method FindCode(hash: string) returns (c: Option<nat>)
      ensures c.Some? ==> c.value < |codes| && codes[c.value].hash == hash
      ensures c.None? ==> forall k :: 0 <= k < |codes| ==> codes[k].hash != hash
    {
      for k := 0 to |codes|
        invariant forall j :: 0 <= j < k ==> codes[j].hash != hash
      {
        if codes[k].hash == hash {
          return Some(k);
        }
      }
      return None;
    }

    method RedeemCode(user: string, hash: string, now: int) returns (c: Option<nat>, outcome: Outcome)
      modifies this`accounts, this`ledger, this`codes
      ensures if c.Some? then
                c.value < |old(codes)| && old(codes)[c.value].hash == hash &&
                (Contents(), outcome) == Ledger.RedeemCode(old(Contents()), user, c.value, now)
              else
                (forall k :: 0 <= k < |old(codes)| ==> old(codes)[k].hash != hash) &&
                Contents() == old(Contents()) && outcome == CodeInvalid
    {
      c := FindCode(hash);
      if c.None? {
        return c, CodeInvalid;
      }
      var code := codes[c.value];
      if code.status != Unused || (code.expires.Some? && code.expires.value <= now) {
        return c, CodeInvalid;
      }
      codes := codes[c.value := code.(status := Redeemed(user))];
      Enter(user, Redeem, code.amount, code.amount, 0, None, c, None);
      return c, Done;
    }

    method DisableRedeemBatch(batch: string, now: int)
      modifies this`codes
      ensures Contents() == DisableBatch(old(Contents()), batch, now)
    {
      var before := codes;
      for k := 0 to |before|
        invariant |codes| == |before|
        invariant forall j :: k <= j < |before| ==> codes[j] == before[j]
        invariant forall j :: 0 <= j < k ==>
                    codes[j] == if CanDisable(before[j], batch, now) then before[j].(status := Disabled) else before[j]
      {
        if CanDisable(codes[k], batch, now) {
          codes := codes[k := codes[k].(status := Disabled)];
        }
      }
    }

    method DisableRedeemCode(batch: string, c: nat, now: int) returns (disabled: bool)
      modifies this`codes
      ensures if c < |old(codes)| then
                Contents() == DisableCode(old(Contents()), batch, c, now)
                && disabled == CanDisable(old(codes)[c], batch, now)
              else Contents() == old(Contents()) && !disabled
    {
      disabled := c < |codes| && CanDisable(codes[c], batch, now);
      if disabled {
        codes := codes[c := codes[c].(status := Disabled)];
      }
    }

    method CreateTaskWithCreditReservation(user: string, key: string, order: Order, limit: int)
      returns (outcome: TaskOutcome)
      requires OrderFor(order, user, |tasks|)
      modifies this`accounts, this`orders, this`ledger, this`tasks
      ensures (Seated(), outcome) == CreateTask(old(Seated()), user, key, Some(order), limit)
    {
      if ActiveCount(tasks, user) >= limit {
        return ActiveTaskLimit;
      }
      if RequestKeyTaken(tasks, user, key, -1) {
        return DuplicateRequest;
      }
      var id := |orders|;
      var reserved := ReserveBillingOrder(order);
      if reserved != Done {
        return BillingRefused(reserved);
      }
      tasks := tasks + [Task(user, key, Queued, Some(id), None)];
      return Accepted;
    }

    /** A retry with nothing else between its checks and its commit. */
    method RetryTaskWithBilling(t: nat, order: Option<Order>, limit: int, now: int, confirmed: bool, sessionFound: bool)
      returns (outcome: TaskOutcome)
      requires t < |tasks| && order.Some? ==> OrderFor(order.value, tasks[t].user, t)
      modifies this`accounts, this`orders, this`ledger, this`tasks
      ensures if t < |old(tasks)| then
                (Seated(), outcome) == Retry(old(Seated()), t, order, limit, now, confirmed, sessionFound)
              else Seated() == old(Seated()) && outcome == TaskNotFound
    {
      if t >= |tasks| {
        return TaskNotFound;
      }
      var seen := tasks[t];
      if !Ended(seen) {
        return NotRetryable;
      }
      if UnderRecovery(seen, now) {
        return RecoveryConflict;
      }
      if seen.order.Some? {
        var paid := BillingOrder(seen.order.value);
        var pending := paid.Some? && Open(paid.value.status);
        if pending && !confirmed {
          return BillingPending;
        }
      }
      outcome := CommitRetry(t, order, limit, now, sessionFound);
    }

    /** The part of a retry behind its checks; a refusal after the reservation restores every table. */
    method CommitRetry(t: nat, order: Option<Order>, limit: int, now: int, sessionFound: bool)
      returns (outcome: TaskOutcome)
      requires t < |tasks| && (order.Some? ==> OrderFor(order.value, tasks[t].user, t))
      modifies this`accounts, this`orders, this`ledger, this`tasks
      ensures (Seated(), outcome) == RetryCommit(old(Seated()), t, order, limit, now, sessionFound)
    {
      var row := tasks[t];
      if ActiveCount(tasks, row.user) >= limit {
        return ActiveTaskLimit;
      }
      if RequestKeyTaken(tasks, row.user, row.requestKey, t) {
        return DuplicateRequest;
      }
      var accounts0, orders0, ledger0, tasks0 := accounts, orders, ledger, tasks;
      var paidBy := None;
      if order.Some? {
        paidBy := Some(|orders|);
        var reserved := ReserveBillingOrder(order.value);
        if reserved != Done {
          return BillingRefused(reserved);
        }
      }
      if !Ended(row) || UnderRecovery(row, now) {
        accounts, orders, ledger := accounts0, orders0, ledger0;
        return NotRetryable;
      }
      tasks := tasks[t := row.(status := Queued, order := paidBy, recoveryUntil := None)];
      if !sessionFound {
        accounts, orders, ledger, tasks := accounts0, orders0, ledger0, tasks0;
        return SessionUnavailable;
      }
      return Accepted;
    }
  }
}
