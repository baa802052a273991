/** What each finance transaction does to which row, field by field: repository/finance.go, admin_audit.go. */
module LedgerEffects {
  import opened Ledger
  import opened Wrappers

  function Available(s: Store, user: string): int {
    if user in s.accounts then s.accounts[user].available else 0
  }

  function Held(s: Store, user: string): int {
    if user in s.accounts then s.accounts[user].reserved else 0
  }

  /** Only this user's balances move, by these amounts, and one entry is written that says so. */
  ghost predicate Moves(s: Store, s': Store, user: string, available: int, reserved: int) {
    && (forall u :: Available(s', u) == Available(s, u) + (if u == user then available else 0))
    && (forall u :: Held(s', u) == Held(s, u) + (if u == user then reserved else 0))
    && |s'.ledger| == |s.ledger| + 1 && s'.ledger[..|s.ledger|] == s.ledger
    && var entry := s'.ledger[|s.ledger|];
       && entry.user == user && entry.availableDelta == available && entry.reservedDelta == reserved
       && entry.availableAfter == Available(s', user) && entry.reservedAfter == Held(s', user)
  }

  function LastEntry(s: Store): Entry
    requires s.ledger != []
  {
    s.ledger[|s.ledger| - 1]
  }

  /** No balance, entry, order or code changes; a missing account row may have been created empty. */
  ghost predicate Untouched(s: Store, s': Store) {
    && (forall u :: Available(s', u) == Available(s, u) && Held(s', u) == Held(s, u))
    && s'.ledger == s.ledger && s'.orders == s.orders && s'.codes == s.codes
  }

  /** An adjustment is made exactly if it leaves no negative balance, and then by its own amount and sign. */
  lemma AdjustsExactly(s: Store, user: string, amount: int)
    ensures var (s', outcome) := Adjust(s, user, amount);
            && (outcome == Done <==> Available(s, user) + amount >= 0)
            && (outcome != Done ==> outcome == InsufficientCredits && s' == s)
            && (outcome == Done ==>
                  && Moves(s, s', user, amount, 0) && s'.orders == s.orders && s'.codes == s.codes
                  && LastEntry(s').amount == amount
                  && LastEntry(s').kind == (if amount > 0 then AdminGrant else AdminAdjust)
                  && LastEntry(s').order == None && LastEntry(s').code == None && LastEntry(s').reference == None)
  {
  }

  /** A grant is made exactly if no entry has its reference yet, and then by its amount. */
  lemma GrantsExactly(s: Store, user: string, kind: EntryType, amount: int, reference: string)
    ensures var (s', outcome) := Grant(s, user, kind, amount, reference);
            && (outcome == Done <==> forall k :: 0 <= k < |s.ledger| ==> s.ledger[k].reference != Some(reference))
            && (outcome != Done ==> outcome == AlreadyGranted && Untouched(s, s'))
            && (outcome == Done ==>
                  && Moves(s, s', user, amount, 0) && s'.orders == s.orders && s'.codes == s.codes
                  && LastEntry(s').amount == amount && LastEntry(s').kind == kind
                  && LastEntry(s').order == None && LastEntry(s').code == None
                  && LastEntry(s').reference == Some(reference))
  {
  }

  /** A code is redeemed exactly while it is unused and its expiry lies ahead, for its amount, and is then used up. */
  lemma RedeemsExactly(s: Store, user: string, c: nat, now: int)
    requires c < |s.codes|
    ensures var (s', outcome) := RedeemCode(s, user, c, now);
            var code := s.codes[c];
            && (outcome == Done <==> code.status == Unused && (code.expires.Some? ==> now < code.expires.value))
            && (outcome != Done ==> outcome == CodeInvalid && s' == s)
            && (outcome == Done ==>
                  && Moves(s, s', user, code.amount, 0) && s'.orders == s.orders
                  && s'.codes == s.codes[c := code.(status := Redeemed(user))]
                  && LastEntry(s').amount == code.amount && LastEntry(s').kind == Redeem
                  && LastEntry(s').order == None && LastEntry(s').code == Some(c) && LastEntry(s').reference == None)
  {
  }

  /** An order is reserved exactly if the balance covers it and its key is new; its amount then waits in the reserve. */
  lemma ReservesExactly(s: Store, order: Order)
    ensures var (s', outcome) := ReserveOrder(s, order);
            var taken := exists k :: 0 <= k < |s.orders| &&
                           s.orders[k].user == order.user && s.orders[k].key == order.key;
            && (outcome == Done <==> order.amount <= Available(s, order.user) && !taken)
            && (outcome == InsufficientCredits <==> Available(s, order.user) < order.amount)
            && (outcome != Done ==> s' == s && (outcome == InsufficientCredits || outcome == DuplicateKey))
            && (outcome == Done ==>
                  && Moves(s, s', order.user, -order.amount, order.amount)
                  && s'.orders == s.orders + [order] && s'.codes == s.codes
                  && LastEntry(s').amount == 0 && LastEntry(s').kind == Reserve
                  && LastEntry(s').order == Some(|s.orders|) && LastEntry(s').code == None
                  && LastEntry(s').reference == None)
  {
  }

  /** The statuses a closing may start from. */
  predicate MayClose(status: OrderStatus, allowUncertain: bool) {
    status == Reserved || status == Running || (status == Uncertain && allowUncertain)
  }

  /**
   * An order is closed exactly if both the row read before and the row found then are open, uncertain ones only by
   * permission: settling spends the reserve, refunding returns it.
   */
  lemma ClosesExactly(s: Store, id: nat, seen: Order, target: OrderStatus, allowUncertain: bool)
    requires Inv(s) && SeenOf(s, id, seen) && Terminal(target)
    ensures var (s', outcome) := CloseOrder(s, id, seen, target, allowUncertain);
            var row := s.orders[id];
            var closes := MayClose(seen.status, allowUncertain) && MayClose(row.status, allowUncertain);
            && (!closes ==> s' == s)
            && (closes ==>
                  && outcome == Done && s'.orders == s.orders[id := row.(status := target)] && s'.codes == s.codes
                  && LastEntry(s').order == Some(id) && LastEntry(s').code == None && LastEntry(s').reference == None
                  && (target == Settled ==>
                        && Moves(s, s', row.user, 0, -row.amount)
                        && LastEntry(s').amount == -row.amount && LastEntry(s').kind == Consume)
                  && (target == Refunded ==>
                        && Moves(s, s', row.user, row.amount, -row.amount)
                        && LastEntry(s').amount == row.amount && LastEntry(s').kind == Refund))
  {
    hide Inv;
    ReservedCovers(s, id, seen, target, allowUncertain);
  }

  /** Why a closing changes nothing: it was so before, the other way, or it is for a person to review. */
  lemma RefusesExactly(s: Store, id: nat, seen: Order, target: OrderStatus, allowUncertain: bool)
    requires id < |s.orders| && Terminal(target)
    requires !MayClose(seen.status, allowUncertain) || !MayClose(s.orders[id].status, allowUncertain)
    ensures var status := if MayClose(seen.status, allowUncertain) then s.orders[id].status else seen.status;
            CloseOrder(s, id, seen, target, allowUncertain) ==
            (s, if status == target then Done
                else if status == Refunded then AlreadyRefunded
                else if status == Settled then AlreadySettled
                else ReviewRequired)
  {
  }

  /** Only a reserved order starts to run; any open order can be left for review. */
  lemma MarksExactly(s: Store, id: nat, seen: Order)
    requires id < |s.orders|
    ensures var row := s.orders[id];
            && MarkRunning(s, id, seen) ==
               (if seen.status == Running then (s, Done)
                else if row.status == Reserved then (s.(orders := s.orders[id := row.(status := Running)]), Done)
                else (s, StateConflict))
            && MarkUncertain(s, id) ==
               (if row.status == Settled || row.status == Refunded then (s, StateConflict)
                else (s.(orders := s.orders[id := row.(status := Uncertain)]), Done))
  {
  }

  /** Disabling touches the unused codes of a batch that have not expired, and nothing else. */
  lemma DisablesExactly(s: Store, batch: string, now: int)
    ensures var s' := DisableBatch(s, batch, now);
            && s' == s.(codes := s'.codes) && |s'.codes| == |s.codes|
            && forall k :: 0 <= k < |s.codes| ==>
                 var code := s.codes[k];
                 var payable := code.status == Unused && (code.expires.Some? ==> now < code.expires.value);
                 var hit := code.batch == batch && payable;
                 s'.codes[k] == (if hit then code.(status := Disabled) else code)
    ensures forall k :: 0 <= k < |s.codes| ==>
              DisableCode(s, batch, k, now) == s.(codes := s.codes[k := DisableBatch(s, batch, now).codes[k]])
  {
  }

  // ---------------------------------------------------------------- what a user was credited over a run

  /** The credits an event asks for, if it is accepted: a new reference, a covered adjustment, a fresh code. */
  ghost function Credit(s: Store, e: Event, user: string): int {
    match e
    case GrantEvent(u, _, amount, reference) =>
      if u == user && forall k :: 0 <= k < |s.ledger| ==> s.ledger[k].reference != Some(reference) then amount else 0
    case AdjustEvent(u, amount) => if u == user && Available(s, u) + amount >= 0 then amount else 0
    case RedeemEvent(u, c, now) =>
      if u == user && c < |s.codes| && s.codes[c].status == Unused
         && (s.codes[c].expires.Some? ==> now < s.codes[c].expires.value) then
        s.codes[c].amount
      else 0
    case _ => 0
  }

  ghost function Credits(w: World, events: seq<Event>, user: string): int
    requires forall k :: 0 <= k < |events| ==> Allowed(events[k])
    decreases |events|
  {
    if events == [] then 0
    else Credit(w.store, events[0], user) + Credits(Step(w, events[0]), events[1..], user)
  }

  /** One event moves a user's two balances together by its credit, less what it settles. */
  lemma StepCredits(w: World, e: Event, user: string)
    requires Sound(w) && Allowed(e)
    ensures var s, s' := w.store, Step(w, e).store;
            IncomeSum(s'.ledger, user) == IncomeSum(s.ledger, user) + Credit(s, e, user)
  {
    hide Inv, IncomeSum, Adjust, Grant, RedeemCode, ReserveOrder, CloseOrder, MarkRunning, MarkUncertain;
    hide DisableBatch, DisableCode;
    var s := w.store;
    match e {
      case ReserveEvent(order) =>
        ReservesExactly(s, order);
        EntryIncome(s, ReserveOrder(s, order).0, user);
      case CloseEvent(tx, target, allowUncertain) =>
        if SeenFits(w, tx) {
          var id, seen := w.seen[tx].id, w.seen[tx].order;
          ClosesExactly(s, id, seen, target, allowUncertain);
          EntryIncome(s, CloseOrder(s, id, seen, target, allowUncertain).0, user);
        }
      case RunningEvent(tx) =>
        if SeenFits(w, tx) {
          MarksExactly(s, w.seen[tx].id, w.seen[tx].order);
        }
      case UncertainEvent(id) =>
        if id < |s.orders| {
          MarksExactly(s, id, s.orders[id]);
        }
      case GrantEvent(u, kind, amount, reference) =>
        GrantsExactly(s, u, kind, amount, reference);
        EntryIncome(s, Grant(s, u, kind, amount, reference).0, user);
      case AdjustEvent(u, amount) =>
        AdjustsExactly(s, u, amount);
        EntryIncome(s, Adjust(s, u, amount).0, user);
      case RedeemEvent(u, c, now) =>
        if c < |s.codes| {
          RedeemsExactly(s, u, c, now);
          EntryIncome(s, RedeemCode(s, u, c, now).0, user);
        }
      case DisableBatchEvent(batch, now) => DisablesExactly(s, batch, now);
      case DisableCodeEvent(batch, c, now) => DisablesExactly(s, batch, now);
      case _ =>
    }
  }

  /** One more entry adds its amount to its user's income, if it is a credit. */
  lemma EntryIncome(s: Store, s': Store, user: string)
    ensures s'.ledger == s.ledger ==> IncomeSum(s'.ledger, user) == IncomeSum(s.ledger, user)
    ensures |s'.ledger| == |s.ledger| + 1 && s'.ledger[..|s.ledger|] == s.ledger ==>
              var e := LastEntry(s');
              IncomeSum(s'.ledger, user) == IncomeSum(s.ledger, user)
                + if e.user == user && e.kind !in {Reserve, Consume, Refund} then e.amount else 0
  {
    if |s'.ledger| == |s.ledger| + 1 && s'.ledger[..|s.ledger|] == s.ledger {
      assert s'.ledger == s.ledger + [LastEntry(s')];
      Appended(s.ledger, LastEntry(s'));
      IncomeIs(LastEntry(s').kind);
    }
  }

  lemma IncomeIs(kind: EntryType)
    ensures Income(kind) <==> kind !in {Reserve, Consume, Refund}
  {
  }

  lemma {:induction false} RunCredits(w: World, events: seq<Event>, user: string)
    requires Sound(w) && forall k :: 0 <= k < |events| ==> Allowed(events[k])
    ensures IncomeSum(Run(w, events).store.ledger, user)
         == IncomeSum(w.store.ledger, user) + Credits(w, events, user)
    decreases |events|
  {
    hide Sound, Step, Credit, IncomeSum;
    if events != [] {
      StepCredits(w, events[0], user);
      StepKeepsSound(w, events[0]);
      RunCredits(Step(w, events[0]), events[1..], user);
    }
  }

  /** The amounts of a user's settled orders. */
  function Settlements(orders: seq<Order>, user: string): int {
    if orders == [] then 0
    else
      var order := orders[0];
      (if order.user == user && order.status == Settled then order.amount else 0) + Settlements(orders[1..], user)
  }

  lemma {:induction false} SpentIsSettled(orders: seq<Order>, user: string)
    ensures SpentSum(orders, user) == Settlements(orders, user)
    decreases |orders|
  {
    if orders != [] {
      SpentIsSettled(orders[1..], user);
      SpentFront(orders, user);
    }
  }

  lemma {:induction false} SpentFront(orders: seq<Order>, user: string)
    requires orders != []
    ensures SpentSum(orders, user) == SpentSum([orders[0]], user) + SpentSum(orders[1..], user)
    decreases |orders|
  {
    var front := orders[..|orders| - 1];
    assert [orders[0]][..0] == [];
    if front != [] {
      SpentFront(front, user);
      assert orders[1..][..|orders| - 2] == front[1..];
    } else {
      assert orders == [orders[0]];
    }
  }

  /**
   * In every reachable state a user's two balances together are what accepted grants, adjustments and redemptions asked
   * for, less the user's settled orders.
   */
  lemma BalanceIsCreditsLessSettlements(events: seq<Event>, user: string)
    requires forall k :: 0 <= k < |events| ==> Allowed(events[k])
    ensures var s := Run(START, events).store;
            Available(s, user) + Held(s, user) == Credits(START, events, user) - Settlements(s.orders, user)
  {
    hide Run, Credits;
    RunCredits(START, events, user);
    BooksAlwaysExact(events, user);
    SpentIsSettled(Run(START, events).store.orders, user);
  }
}
