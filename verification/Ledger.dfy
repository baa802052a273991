/**
 * Credit accounts, the append-only ledger, billing orders and redeem codes: repository/finance.go and
 * repository/admin_audit.go.
 */
module Ledger {
  import opened Wrappers

  datatype OrderStatus = Reserved | Running | Uncertain | Settled | Refunded

  /** An order row.  Only the status ever changes; its id is its row number, and so is the id of its task, if any. */
  datatype Order = Order(user: string, key: string, task: Option<nat>, amount: int, status: OrderStatus)

  datatype EntryType = Reserve | Consume | Refund | Redeem | AdminGrant | AdminAdjust | SignupBonus | CheckinBonus

  datatype Entry = Entry(user: string, kind: EntryType, amount: int, availableDelta: int, reservedDelta: int,
                         availableAfter: int, reservedAfter: int,
                         order: Option<nat>, code: Option<nat>, reference: Option<string>)

  datatype Account = Account(available: int, reserved: int)

  datatype CodeStatus = Unused | Redeemed(holder: string) | Disabled

  datatype Code = Code(hash: string, batch: string, amount: int, expires: Option<int>, status: CodeStatus)

  datatype Store = Store(accounts: map<string, Account>, orders: seq<Order>, ledger: seq<Entry>, codes: seq<Code>)

  datatype Outcome = Done | NotFound | InsufficientCredits | DuplicateKey | AlreadyRefunded | AlreadySettled
                   | ReviewRequired | StateConflict | BalanceInconsistent | CodeInvalid | AlreadyGranted

  predicate Open(status: OrderStatus) {
    status == Reserved || status == Running || status == Uncertain
  }

  predicate Terminal(status: OrderStatus) {
    status == Settled || status == Refunded
  }

  // ---------------------------------------------------------------- one posting

  /** The account row; a missing row is created empty first. */
  function AccountOf(s: Store, user: string): Account {
    if user in s.accounts then s.accounts[user] else Account(0, 0)
  }

  /** Move the balances and append the entry that records the move. */
  function Post(s: Store, user: string, kind: EntryType, amount: int, available: int, reserved: int,
                order: Option<nat>, code: Option<nat>, reference: Option<string>): Store {
    var account := AccountOf(s, user);
    var moved := Account(account.available + available, account.reserved + reserved);
    s.(accounts := s.accounts[user := moved],
       ledger := s.ledger
         + [Entry(user, kind, amount, available, reserved, moved.available, moved.reserved, order, code, reference)])
  }

  // ---------------------------------------------------------------- the transactions

  predicate KeyTaken(orders: seq<Order>, user: string, key: string) {
    exists k :: 0 <= k < |orders| && orders[k].user == user && orders[k].key == key
  }

  function ReserveOrder(s: Store, order: Order): (Store, Outcome) {
    if AccountOf(s, order.user).available < order.amount then (s, InsufficientCredits)
    else if KeyTaken(s.orders, order.user, order.key) then (s, DuplicateKey)
    else
      (Post(s.(orders := s.orders + [order]), order.user, Reserve, 0, -order.amount, order.amount, Some(|s.orders|),
            None, None), Done)
  }

  predicate Closable(status: OrderStatus, allowUncertain: bool) {
    status == Reserved || status == Running || (allowUncertain && status == Uncertain)
  }

  /** What a status read before or after the conditional update means for closing with `target`. */
  function CloseRefusal(status: OrderStatus, target: OrderStatus, allowUncertain: bool): Outcome {
    if status == target then Done
    else if status == Refunded then AlreadyRefunded
    else if status == Settled then AlreadySettled
    else if status == Uncertain && !allowUncertain then ReviewRequired
    else StateConflict
  }

  /** Settle or refund order `id`, `seen` being the row as it was read before the conditional update. */
  function CloseOrder(s: Store, id: nat, seen: Order, target: OrderStatus, allowUncertain: bool): (Store, Outcome)
    requires id < |s.orders| && Terminal(target)
  {
    if !Closable(seen.status, allowUncertain) then (s, CloseRefusal(seen.status, target, allowUncertain))
    else if !Closable(s.orders[id].status, allowUncertain) then
      (s, CloseRefusal(s.orders[id].status, target, allowUncertain))
    else if AccountOf(s, seen.user).reserved < seen.amount then (s, BalanceInconsistent)
    else
      var moved := s.(orders := s.orders[id := s.orders[id].(status := target)]);
      if target == Settled then
        (Post(moved, seen.user, Consume, -seen.amount, 0, -seen.amount, Some(id), None, None), Done)
      else
        (Post(moved, seen.user, Refund, seen.amount, seen.amount, -seen.amount, Some(id), None, None), Done)
  }

  function MarkRunning(s: Store, id: nat, seen: Order): (Store, Outcome)
    requires id < |s.orders|
  {
    if seen.status == Running then (s, Done)
    else if s.orders[id].status == Reserved then (s.(orders := s.orders[id := s.orders[id].(status := Running)]), Done)
    else (s, StateConflict)
  }

  function MarkUncertain(s: Store, id: nat): (Store, Outcome)
    requires id < |s.orders|
  {
    if Open(s.orders[id].status) then (s.(orders := s.orders[id := s.orders[id].(status := Uncertain)]), Done)
    else (s, StateConflict)
  }

  predicate ReferenceTaken(ledger: seq<Entry>, reference: string) {
    exists k :: 0 <= k < |ledger| && ledger[k].reference == Some(reference)
  }

  function Grant(s: Store, user: string, kind: EntryType, amount: int, reference: string): (Store, Outcome) {
    if ReferenceTaken(s.ledger, reference) then (s.(accounts := s.accounts[user := AccountOf(s, user)]), AlreadyGranted)
    else (Post(s, user, kind, amount, amount, 0, None, None, Some(reference)), Done)
  }

  function Adjust(s: Store, user: string, amount: int): (Store, Outcome) {
    if AccountOf(s, user).available + amount < 0 then (s, InsufficientCredits)
    else (Post(s, user, if amount > 0 then AdminGrant else AdminAdjust, amount, amount, 0, None, None, None), Done)
  }

  predicate Expired(code: Code, now: int) {
    code.expires.Some? && code.expires.value <= now
  }

  /** Redeem code row `c`, found by its hash. */
  function RedeemCode(s: Store, user: string, c: nat, now: int): (Store, Outcome)
    requires c < |s.codes|
  {
    var code := s.codes[c];
    if code.status != Unused || Expired(code, now) then (s, CodeInvalid)
    else (Post(s.(codes := s.codes[c := code.(status := Redeemed(user))]), user, Redeem, code.amount, code.amount, 0,
               None, Some(c), None), Done)
  }

  predicate CanDisable(code: Code, batch: string, now: int) {
    code.batch == batch && code.status == Unused && !Expired(code, now)
  }

  function DisableBatch(s: Store, batch: string, now: int): Store {
    s.(codes := seq(|s.codes|, k requires 0 <= k < |s.codes| =>
      if CanDisable(s.codes[k], batch, now) then s.codes[k].(status := Disabled) else s.codes[k]))
  }

  function DisableCode(s: Store, batch: string, c: nat, now: int): Store
    requires c < |s.codes|
  {
    if CanDisable(s.codes[c], batch, now) then s.(codes := s.codes[c := s.codes[c].(status := Disabled)]) else s
  }

  function CreateCodes(s: Store, codes: seq<Code>): Store {
    s.(codes := s.codes + codes)
  }

  // ---------------------------------------------------------------- sums and counts

  function AvailableSum(ledger: seq<Entry>, user: string): int {
    if ledger == [] then 0
    else
      var e := ledger[|ledger| - 1];
      AvailableSum(ledger[..|ledger| - 1], user) + if e.user == user then e.availableDelta else 0
  }

  function ReservedSum(ledger: seq<Entry>, user: string): int {
    if ledger == [] then 0
    else
      var e := ledger[|ledger| - 1];
      ReservedSum(ledger[..|ledger| - 1], user) + if e.user == user then e.reservedDelta else 0
  }

  function RedeemSum(ledger: seq<Entry>, user: string): int {
    if ledger == [] then 0
    else
      var e := ledger[|ledger| - 1];
      RedeemSum(ledger[..|ledger| - 1], user) + if e.user == user && e.kind == Redeem then e.amount else 0
  }

  function Held(o: Order, user: string): int {
    if o.user == user && Open(o.status) then o.amount else 0
  }

  function HeldSum(orders: seq<Order>, user: string): int {
    if orders == [] then 0 else HeldSum(orders[..|orders| - 1], user) + Held(orders[|orders| - 1], user)
  }

  function Spent(o: Order, user: string): int {
    if o.user == user && o.status == Settled then o.amount else 0
  }

  function SpentSum(orders: seq<Order>, user: string): int {
    if orders == [] then 0 else SpentSum(orders[..|orders| - 1], user) + Spent(orders[|orders| - 1], user)
  }

  predicate Income(kind: EntryType) {
    kind in {Redeem, AdminGrant, AdminAdjust, SignupBonus, CheckinBonus}
  }

  function IncomeSum(ledger: seq<Entry>, user: string): int {
    if ledger == [] then 0
    else
      var e := ledger[|ledger| - 1];
      IncomeSum(ledger[..|ledger| - 1], user) + if e.user == user && Income(e.kind) then e.amount else 0
  }

  function Worth(c: Code, user: string): int {
    if c.status == Redeemed(user) then c.amount else 0
  }

  function WorthSum(codes: seq<Code>, user: string): int {
    if codes == [] then 0 else WorthSum(codes[..|codes| - 1], user) + Worth(codes[|codes| - 1], user)
  }

  function ReserveCount(ledger: seq<Entry>, id: nat): nat {
    if ledger == [] then 0
    else
      var e := ledger[|ledger| - 1];
      ReserveCount(ledger[..|ledger| - 1], id) + if e.order == Some(id) && e.kind == Reserve then 1 else 0
  }

  function CloseCount(ledger: seq<Entry>, id: nat): nat {
    if ledger == [] then 0
    else
      var e := ledger[|ledger| - 1];
      CloseCount(ledger[..|ledger| - 1], id) + if e.order == Some(id) && e.kind in {Consume, Refund} then 1 else 0
  }

  function RedeemCount(ledger: seq<Entry>, c: nat): nat {
    if ledger == [] then 0
    else
      var e := ledger[|ledger| - 1];
      RedeemCount(ledger[..|ledger| - 1], c) + if e.code == Some(c) then 1 else 0
  }

  function ReferenceCount(ledger: seq<Entry>, reference: string): nat {
    if ledger == [] then 0
    else
      var e := ledger[|ledger| - 1];
      ReferenceCount(ledger[..|ledger| - 1], reference) + if e.reference == Some(reference) then 1 else 0
  }

  // ---------------------------------------------------------------- the invariant

  /** Balances are the sums of the ledger's deltas. */
  ghost predicate Balanced(s: Store) {
    forall u :: AccountOf(s, u) == Account(AvailableSum(s.ledger, u), ReservedSum(s.ledger, u))
  }

  /** The reserved balance is exactly what the open orders hold. */
  ghost predicate Backed(s: Store) {
    && (forall u :: AccountOf(s, u).reserved == HeldSum(s.orders, u))
    && forall k :: 0 <= k < |s.orders| ==> s.orders[k].amount >= 0
  }

  ghost predicate Solvent(s: Store) {
    forall u :: AccountOf(s, u).available >= 0
  }

  /** Each entry's "after" fields are the running sums in commit order. */
  ghost predicate Chained(ledger: seq<Entry>) {
    forall k :: 0 <= k < |ledger| ==>
      ledger[k].availableAfter == AvailableSum(ledger[..k + 1], ledger[k].user) &&
      ledger[k].reservedAfter == ReservedSum(ledger[..k + 1], ledger[k].user)
  }

  /** One reserve entry per order, and one consume or refund entry exactly when it is closed. */
  ghost predicate OrdersEntered(s: Store) {
    forall id: nat ::
      ReserveCount(s.ledger, id) == (if id < |s.orders| then 1 else 0) &&
      CloseCount(s.ledger, id) == (if id < |s.orders| && Terminal(s.orders[id].status) then 1 else 0)
  }

  ghost predicate GrantedOnce(ledger: seq<Entry>) {
    forall r :: ReferenceCount(ledger, r) <= 1
  }

  /** A code is entered exactly when it is redeemed, and redeem totals are the worth of the codes held. */
  ghost predicate CodesEntered(s: Store) {
    && (forall c: nat :: RedeemCount(s.ledger, c) == if c < |s.codes| && s.codes[c].status.Redeemed? then 1 else 0)
    && (forall u :: RedeemSum(s.ledger, u) == WorthSum(s.codes, u))
    && (forall c :: 0 <= c < |s.codes| ==> s.codes[c].amount >= 0)
  }

  /** Credits leave a user's two balances only through settled orders. */
  ghost predicate Conserved(s: Store) {
    forall u :: AccountOf(s, u).available + AccountOf(s, u).reserved == IncomeSum(s.ledger, u) - SpentSum(s.orders, u)
  }

  ghost predicate Inv(s: Store) {
    Balanced(s) && Conserved(s) && Backed(s) && Solvent(s) && Chained(s.ledger) && OrdersEntered(s)
    && GrantedOnce(s.ledger) && CodesEntered(s)
  }

  // ---------------------------------------------------------------- appending and updating

  lemma Appended(ledger: seq<Entry>, e: Entry)
    ensures forall u ::
              AvailableSum(ledger + [e], u) == AvailableSum(ledger, u) + if e.user == u then e.availableDelta else 0
    ensures forall u ::
              ReservedSum(ledger + [e], u) == ReservedSum(ledger, u) + if e.user == u then e.reservedDelta else 0
    ensures forall u ::
              RedeemSum(ledger + [e], u)
              == RedeemSum(ledger, u) + if e.user == u && e.kind == Redeem then e.amount else 0
    ensures forall u ::
              IncomeSum(ledger + [e], u) == IncomeSum(ledger, u) + if e.user == u && Income(e.kind) then e.amount else 0
    ensures forall id: nat ::
              ReserveCount(ledger + [e], id)
              == ReserveCount(ledger, id) + if e.order == Some(id) && e.kind == Reserve then 1 else 0
    ensures forall id: nat ::
              CloseCount(ledger + [e], id)
              == CloseCount(ledger, id) + if e.order == Some(id) && e.kind in {Consume, Refund} then 1 else 0
    ensures forall c: nat :: RedeemCount(ledger + [e], c) == RedeemCount(ledger, c) + if e.code == Some(c) then 1 else 0
    ensures forall r ::
              ReferenceCount(ledger + [e], r) == ReferenceCount(ledger, r) + if e.reference == Some(r) then 1 else 0
  {
  }

  lemma HeldAppended(orders: seq<Order>, o: Order)
    ensures forall u :: HeldSum(orders + [o], u) == HeldSum(orders, u) + Held(o, u)
    ensures forall u :: SpentSum(orders + [o], u) == SpentSum(orders, u) + Spent(o, u)
  {
  }

  lemma {:induction false} HeldUpdated(orders: seq<Order>, k: nat, o: Order, user: string)
    requires k < |orders|
    ensures HeldSum(orders[k := o], user) == HeldSum(orders, user) - Held(orders[k], user) + Held(o, user)
    ensures SpentSum(orders[k := o], user) == SpentSum(orders, user) - Spent(orders[k], user) + Spent(o, user)
  {
    var last := |orders| - 1;
    if k < last {
      HeldUpdated(orders[..last], k, o, user);
      assert orders[k := o][..last] == orders[..last][k := o];
    } else {
      assert orders[k := o][..last] == orders[..last];
    }
  }

  lemma {:induction false} HeldCovers(orders: seq<Order>, k: nat, user: string)
    requires k < |orders| && forall j :: 0 <= j < |orders| ==> orders[j].amount >= 0
    ensures 0 <= Held(orders[k], user) <= HeldSum(orders, user)
    decreases |orders|
  {
    var front := orders[..|orders| - 1];
    if front != [] {
      HeldCovers(front, if k < |front| then k else 0, user);
    }
  }

  lemma {:induction false} WorthUpdated(codes: seq<Code>, k: nat, c: Code, user: string)
    requires k < |codes|
    ensures WorthSum(codes[k := c], user) == WorthSum(codes, user) - Worth(codes[k], user) + Worth(c, user)
  {
    var last := |codes| - 1;
    if k < last {
      WorthUpdated(codes[..last], k, c, user);
      assert codes[k := c][..last] == codes[..last][k := c];
    } else {
      assert codes[k := c][..last] == codes[..last];
    }
  }

  /** Codes that change without touching a redeemed one are worth the same to everyone. */
  lemma {:induction false} WorthSame(codes: seq<Code>, codes': seq<Code>, user: string)
    requires |codes| == |codes'| && forall k :: 0 <= k < |codes| ==> Worth(codes[k], user) == Worth(codes'[k], user)
    ensures WorthSum(codes, user) == WorthSum(codes', user)
    decreases |codes|
  {
    if codes != [] {
      var last := |codes| - 1;
      WorthSame(codes[..last], codes'[..last], user);
    }
  }

  lemma {:induction false} WorthAppended(codes: seq<Code>, more: seq<Code>, user: string)
    requires forall k :: 0 <= k < |more| ==> more[k].status == Unused
    ensures WorthSum(codes + more, user) == WorthSum(codes, user)
    decreases |more|
  {
    if more == [] {
      assert codes + more == codes;
    } else {
      var last := |more| - 1;
      WorthAppended(codes, more[..last], user);
      assert (codes + more)[..|codes + more| - 1] == codes + more[..last];
    }
  }

  lemma {:induction false} ReferenceSeen(ledger: seq<Entry>, reference: string)
    ensures ReferenceTaken(ledger, reference) <==> ReferenceCount(ledger, reference) > 0
    decreases |ledger|
  {
    if ledger != [] {
      var last := |ledger| - 1;
      ReferenceSeen(ledger[..last], reference);
      assert ReferenceTaken(ledger[..last], reference) ==> ReferenceTaken(ledger, reference) by {
        if k :| 0 <= k < last && ledger[..last][k].reference == Some(reference) {
          assert ledger[k].reference == Some(reference);
        }
      }
      if k :| 0 <= k < last && ledger[k].reference == Some(reference) {
        assert ledger[..last][k].reference == Some(reference);
      }
    }
  }

  /** A posting keeps balances and running sums exact. */
  lemma PostKeeps(s: Store, user: string, kind: EntryType, amount: int, available: int, reserved: int,
                  order: Option<nat>, code: Option<nat>, reference: Option<string>)
    requires Balanced(s) && Chained(s.ledger)
    ensures var s' := Post(s, user, kind, amount, available, reserved, order, code, reference);
            Balanced(s') && Chained(s'.ledger)
  {
    hide AvailableSum, ReservedSum, RedeemSum, IncomeSum, HeldSum, SpentSum, WorthSum;
    hide ReserveCount, CloseCount, RedeemCount, ReferenceCount;
    var s' := Post(s, user, kind, amount, available, reserved, order, code, reference);
    var n := |s.ledger|;
    var e := s'.ledger[n];
    Appended(s.ledger, e);
    forall u ensures AccountOf(s', u) == Account(AvailableSum(s'.ledger, u), ReservedSum(s'.ledger, u)) {
      assert AccountOf(s, u) == Account(AvailableSum(s.ledger, u), ReservedSum(s.ledger, u));
    }
    forall k | 0 <= k < n + 1
      ensures s'.ledger[k].availableAfter == AvailableSum(s'.ledger[..k + 1], s'.ledger[k].user) &&
              s'.ledger[k].reservedAfter == ReservedSum(s'.ledger[..k + 1], s'.ledger[k].user)
    {
      if k < n {
        assert s'.ledger[..k + 1] == s.ledger[..k + 1];
      } else {
        assert s'.ledger[..k + 1] == s'.ledger;
        assert AccountOf(s', user) == Account(AvailableSum(s'.ledger, user), ReservedSum(s'.ledger, user));
      }
    }
  }

  // ---------------------------------------------------------------- every transaction keeps the invariant

  /** A posting for an order touches neither references nor codes. */
  lemma NothingGranted(s: Store, s': Store, e: Entry)
    requires s'.ledger == s.ledger + [e] && s'.codes == s.codes && e.code == None && e.reference == None
    requires e.kind != Redeem
    requires GrantedOnce(s.ledger) && CodesEntered(s)
    ensures GrantedOnce(s'.ledger) && CodesEntered(s')
  {
    hide AvailableSum, ReservedSum, RedeemSum, IncomeSum, HeldSum, SpentSum, WorthSum;
    hide ReserveCount, CloseCount, RedeemCount, ReferenceCount;
    Appended(s.ledger, e);
  }

  lemma ReserveIsEntered(s: Store, s': Store, e: Entry, order: Order)
    requires s'.ledger == s.ledger + [e] && s'.orders == s.orders + [order] && !Terminal(order.status)
    requires e.order == Some(|s.orders|) && e.kind == Reserve && OrdersEntered(s)
    ensures OrdersEntered(s')
  {
    hide AvailableSum, ReservedSum, RedeemSum, IncomeSum, HeldSum, SpentSum, WorthSum;
    hide ReserveCount, CloseCount, RedeemCount, ReferenceCount;
    Appended(s.ledger, e);
  }

  lemma ReserveIsBacked(s: Store, order: Order)
    requires Backed(s) && Conserved(s) && Solvent(s) && order.amount >= 0 && order.status == Reserved
    requires ReserveOrder(s, order).1 == Done
    ensures var s' := ReserveOrder(s, order).0; Backed(s') && Conserved(s') && Solvent(s')
  {
    hide AvailableSum, ReservedSum, RedeemSum, IncomeSum, HeldSum, SpentSum, WorthSum;
    hide ReserveCount, CloseCount, RedeemCount, ReferenceCount;
    var s' := ReserveOrder(s, order).0;
    Appended(s.ledger, s'.ledger[|s.ledger|]);
    HeldAppended(s.orders, order);
    forall u
      ensures AccountOf(s', u).reserved == HeldSum(s'.orders, u) && AccountOf(s', u).available >= 0
      ensures AccountOf(s', u).available + AccountOf(s', u).reserved == IncomeSum(s'.ledger, u) - SpentSum(s'.orders, u)
    {
      assert AccountOf(s, u).reserved == HeldSum(s.orders, u) && AccountOf(s, u).available >= 0;
      assert AccountOf(s, u).available + AccountOf(s, u).reserved == IncomeSum(s.ledger, u) - SpentSum(s.orders, u);
    }
  }

  lemma ReserveKeepsInv(s: Store, order: Order)
    requires Inv(s) && order.amount >= 0 && order.status == Reserved
    ensures Inv(ReserveOrder(s, order).0)
  {
    hide Conserved, Backed, Solvent, Chained, OrdersEntered, GrantedOnce, CodesEntered, AvailableSum, ReservedSum;
    var (s', outcome) := ReserveOrder(s, order);
    if outcome == Done {
      var e := s'.ledger[|s.ledger|];
      PostKeeps(s.(orders := s.orders + [order]), order.user, Reserve, 0, -order.amount, order.amount,
                Some(|s.orders|), None, None);
      ReserveIsBacked(s, order);
      ReserveIsEntered(s, s', e, order);
      NothingGranted(s, s', e);
    }
  }

  /** A row read earlier: same order, whatever its status was then. */
  predicate SeenOf(s: Store, id: nat, seen: Order) {
    id < |s.orders| && seen == s.orders[id].(status := seen.status)
  }

  /** Closing never meets an inconsistent reserved balance. */
  lemma ReservedCovers(s: Store, id: nat, seen: Order, target: OrderStatus, allowUncertain: bool)
    requires Inv(s) && SeenOf(s, id, seen) && Terminal(target)
    ensures CloseOrder(s, id, seen, target, allowUncertain).1 != BalanceInconsistent
  {
    hide AvailableSum, ReservedSum, RedeemSum, IncomeSum, HeldSum, SpentSum, WorthSum;
    hide ReserveCount, CloseCount, RedeemCount, ReferenceCount;
    HeldCovers(s.orders, id, seen.user);
    assert AccountOf(s, seen.user).reserved == HeldSum(s.orders, seen.user);
  }

  lemma CloseIsEntered(s: Store, s': Store, e: Entry, id: nat, closed: Order)
    requires id < |s.orders| && Open(s.orders[id].status) && Terminal(closed.status)
    requires s'.ledger == s.ledger + [e] && s'.orders == s.orders[id := closed] && e.order == Some(id)
    requires e.kind in {Consume, Refund}
    requires OrdersEntered(s)
    ensures OrdersEntered(s')
  {
    hide AvailableSum, ReservedSum, RedeemSum, IncomeSum, HeldSum, SpentSum, WorthSum;
    hide ReserveCount, CloseCount, RedeemCount, ReferenceCount;
    Appended(s.ledger, e);
  }

  lemma CloseIsBacked(s: Store, s': Store, e: Entry, id: nat, closed: Order)
    requires Backed(s) && Conserved(s) && Solvent(s) && id < |s.orders| && Open(s.orders[id].status)
    requires Terminal(closed.status) && closed == s.orders[id].(status := closed.status)
    requires s'.orders == s.orders[id := closed] && s'.ledger == s.ledger + [e] && e.kind in {Consume, Refund}
    requires var paid := if closed.status == Settled then 0 else closed.amount;
             forall u :: AccountOf(s', u) == if u != closed.user then AccountOf(s, u) else
               Account(AccountOf(s, u).available + paid, AccountOf(s, u).reserved - closed.amount)
    ensures Backed(s') && Conserved(s') && Solvent(s')
  {
    hide AvailableSum, ReservedSum, RedeemSum, IncomeSum, HeldSum, SpentSum, WorthSum;
    hide ReserveCount, CloseCount, RedeemCount, ReferenceCount;
    hide AccountOf;
    Appended(s.ledger, e);
    forall u
      ensures AccountOf(s', u).reserved == HeldSum(s'.orders, u) && AccountOf(s', u).available >= 0
      ensures AccountOf(s', u).available + AccountOf(s', u).reserved == IncomeSum(s'.ledger, u) - SpentSum(s'.orders, u)
    {
      HeldUpdated(s.orders, id, closed, u);
      assert AccountOf(s, u).reserved == HeldSum(s.orders, u) && AccountOf(s, u).available >= 0;
      assert AccountOf(s, u).available + AccountOf(s, u).reserved == IncomeSum(s.ledger, u) - SpentSum(s.orders, u);
    }
  }

  lemma ClosedKeepsInv(s: Store, id: nat, target: OrderStatus, kind: EntryType, amount: int, available: int)
    requires Inv(s) && id < |s.orders| && Open(s.orders[id].status) && Terminal(target)
    requires available >= 0
    requires if target == Settled then kind == Consume && available == 0
               else kind == Refund && available == s.orders[id].amount
    ensures var o := s.orders[id];
            var base := s.(orders := s.orders[id := o.(status := target)]);
            Inv(Post(base, o.user, kind, amount, available, -o.amount, Some(id), None, None))
  {
    hide Conserved, Backed, Solvent, Chained, OrdersEntered, GrantedOnce, CodesEntered, AvailableSum, ReservedSum;
    var o := s.orders[id];
    var closed := o.(status := target);
    var base := s.(orders := s.orders[id := closed]);
    var s' := Post(base, o.user, kind, amount, available, -o.amount, Some(id), None, None);
    var e := s'.ledger[|s.ledger|];
    PostKeeps(base, o.user, kind, amount, available, -o.amount, Some(id), None, None);
    CloseIsBacked(s, s', e, id, closed);
    CloseIsEntered(s, s', e, id, closed);
    NothingGranted(s, s', e);
  }

  lemma CloseKeepsInv(s: Store, id: nat, seen: Order, target: OrderStatus, allowUncertain: bool)
    requires Inv(s) && SeenOf(s, id, seen) && Terminal(target)
    ensures Inv(CloseOrder(s, id, seen, target, allowUncertain).0)
  {
    hide Inv, Post;
    if Closable(s.orders[id].status, allowUncertain) {
      HeldNonNegative(s, id);
      ClosedKeepsInv(s, id, Settled, Consume, -seen.amount, 0);
      ClosedKeepsInv(s, id, Refunded, Refund, seen.amount, seen.amount);
    }
  }

  lemma HeldNonNegative(s: Store, id: nat)
    requires Inv(s) && id < |s.orders|
    ensures s.orders[id].amount >= 0
  {
  }

  lemma MarkKeepsInv(s: Store, id: nat, status: OrderStatus)
    requires Inv(s) && id < |s.orders| && Open(s.orders[id].status) && Open(status)
    ensures Inv(s.(orders := s.orders[id := s.orders[id].(status := status)]))
  {
    hide AvailableSum, ReservedSum, RedeemSum, IncomeSum, HeldSum, SpentSum, WorthSum;
    hide ReserveCount, CloseCount, RedeemCount, ReferenceCount;
    var marked := s.orders[id].(status := status);
    var s' := s.(orders := s.orders[id := marked]);
    assert forall u :: AccountOf(s', u) == AccountOf(s, u);
    forall u
      ensures AccountOf(s', u).reserved == HeldSum(s'.orders, u)
      ensures AccountOf(s', u).available + AccountOf(s', u).reserved == IncomeSum(s'.ledger, u) - SpentSum(s'.orders, u)
    {
      HeldUpdated(s.orders, id, marked, u);
    }
  }

  lemma GrantKeepsInv(s: Store, user: string, kind: EntryType, amount: int, reference: string)
    requires Inv(s) && amount >= 0 && kind in {SignupBonus, CheckinBonus}
    ensures Inv(Grant(s, user, kind, amount, reference).0)
  {
    hide AvailableSum, ReservedSum, RedeemSum, IncomeSum, HeldSum, SpentSum, WorthSum;
    hide ReserveCount, CloseCount, RedeemCount, ReferenceCount;
    var (s', outcome) := Grant(s, user, kind, amount, reference);
    ReferenceSeen(s.ledger, reference);
    if outcome == Done {
      PostKeeps(s, user, kind, amount, amount, 0, None, None, Some(reference));
      Appended(s.ledger, s'.ledger[|s.ledger|]);
    } else {
      assert forall u :: AccountOf(s', u) == AccountOf(s, u);
    }
  }

  lemma AdjustKeepsInv(s: Store, user: string, amount: int)
    requires Inv(s)
    ensures Inv(Adjust(s, user, amount).0)
  {
    hide AvailableSum, ReservedSum, RedeemSum, IncomeSum, HeldSum, SpentSum, WorthSum;
    hide ReserveCount, CloseCount, RedeemCount, ReferenceCount;
    var (s', outcome) := Adjust(s, user, amount);
    if outcome == Done {
      PostKeeps(s, user, if amount > 0 then AdminGrant else AdminAdjust, amount, amount, 0, None, None, None);
      Appended(s.ledger, s'.ledger[|s.ledger|]);
    }
  }

  lemma RedeemKeepsInv(s: Store, user: string, c: nat, now: int)
    requires Inv(s) && c < |s.codes|
    ensures Inv(RedeemCode(s, user, c, now).0)
  {
    hide AvailableSum, ReservedSum, RedeemSum, IncomeSum, HeldSum, SpentSum, WorthSum;
    hide ReserveCount, CloseCount, RedeemCount, ReferenceCount;
    var (s', outcome) := RedeemCode(s, user, c, now);
    if outcome == Done {
      var used := s.codes[c].(status := Redeemed(user));
      var base := s.(codes := s.codes[c := used]);
      assert forall u :: AccountOf(base, u) == AccountOf(s, u);
      PostKeeps(base, user, Redeem, used.amount, used.amount, 0, None, Some(c), None);
      Appended(s.ledger, s'.ledger[|s.ledger|]);
      forall u ensures RedeemSum(s'.ledger, u) == WorthSum(s'.codes, u) {
        WorthUpdated(s.codes, c, used, u);
      }
    }
  }

  /** Codes may be disabled or added, as long as no redeemed one changes and no new one is redeemed. */
  lemma CodesKeepInv(s: Store, codes: seq<Code>)
    requires Inv(s) && |s.codes| <= |codes|
    requires forall k :: 0 <= k < |codes| ==> codes[k].amount >= 0
    requires forall k :: 0 <= k < |s.codes| ==>
               codes[k] == s.codes[k] || (s.codes[k].status == Unused && codes[k].status == Disabled)
    requires forall k :: |s.codes| <= k < |codes| ==> codes[k].status == Unused
    ensures Inv(s.(codes := codes))
  {
    hide AvailableSum, ReservedSum, RedeemSum, IncomeSum, HeldSum, SpentSum, WorthSum;
    hide ReserveCount, CloseCount, RedeemCount, ReferenceCount;
    var s' := s.(codes := codes);
    assert forall u :: AccountOf(s', u) == AccountOf(s, u);
    var n := |s.codes|;
    assert codes == codes[..n] + codes[n..];
    forall u ensures RedeemSum(s'.ledger, u) == WorthSum(codes, u) {
      WorthSame(s.codes, codes[..n], u);
      WorthAppended(codes[..n], codes[n..], u);
    }
  }

  // ---------------------------------------------------------------- runs with interleaved reads

  /** One committed statement group, or one row read by a transaction that goes on later. */
  datatype Event =
    | ReserveEvent(order: Order)
    | ReadEvent(tx: nat, id: nat)
    | CloseEvent(tx: nat, target: OrderStatus, allowUncertain: bool)
    | RunningEvent(tx: nat)
    | UncertainEvent(id: nat)
    | GrantEvent(user: string, kind: EntryType, amount: int, reference: string)
    | AdjustEvent(user: string, amount: int)
    | RedeemEvent(user: string, c: nat, now: int)
    | DisableBatchEvent(batch: string, now: int)
    | DisableCodeEvent(batch: string, c: nat, now: int)
    | CreateCodesEvent(codes: seq<Code>)

  datatype Seen = Seen(id: nat, order: Order)

  /** The store and what each transaction in flight has read. */
  datatype World = World(store: Store, seen: map<nat, Seen>)

  /** What the callers guarantee: validated amounts, fresh orders and codes. */
  predicate Allowed(e: Event) {
    match e
    case ReserveEvent(o) => o.amount >= 0 && o.status == Reserved
    case CloseEvent(_, target, _) => Terminal(target)
    case GrantEvent(_, kind, amount, _) => amount >= 0 && kind in {SignupBonus, CheckinBonus}
    case CreateCodesEvent(codes) => forall k :: 0 <= k < |codes| ==> codes[k].amount >= 0 && codes[k].status == Unused
    case _ => true
  }

  predicate SeenFits(w: World, tx: nat) {
    tx in w.seen && w.seen[tx].id < |w.store.orders|
  }

  function Step(w: World, e: Event): World
    requires Allowed(e)
  {
    var s := w.store;
    match e
    case ReserveEvent(o) => w.(store := ReserveOrder(s, o).0)
    case ReadEvent(tx, id) => if id < |s.orders| then w.(seen := w.seen[tx := Seen(id, s.orders[id])]) else w
    case CloseEvent(tx, target, allowUncertain) =>
      if SeenFits(w, tx) then w.(store := CloseOrder(s, w.seen[tx].id, w.seen[tx].order, target, allowUncertain).0)
      else w
    case RunningEvent(tx) =>
      if SeenFits(w, tx) then w.(store := MarkRunning(s, w.seen[tx].id, w.seen[tx].order).0) else w
    case UncertainEvent(id) => if id < |s.orders| then w.(store := MarkUncertain(s, id).0) else w
    case GrantEvent(user, kind, amount, reference) => w.(store := Grant(s, user, kind, amount, reference).0)
    case AdjustEvent(user, amount) => w.(store := Adjust(s, user, amount).0)
    case RedeemEvent(user, c, now) => if c < |s.codes| then w.(store := RedeemCode(s, user, c, now).0) else w
    case DisableBatchEvent(batch, now) => w.(store := DisableBatch(s, batch, now))
    case DisableCodeEvent(batch, c, now) => if c < |s.codes| then w.(store := DisableCode(s, batch, c, now)) else w
    case CreateCodesEvent(codes) => w.(store := CreateCodes(s, codes))
  }

  function Run(w: World, events: seq<Event>): World
    requires forall k :: 0 <= k < |events| ==> Allowed(events[k])
    decreases |events|
  {
    if events == [] then w else Run(Step(w, events[0]), events[1..])
  }

  const START := World(Store(map[], [], [], []), map[])

  /** The invariant, with every earlier read still describing its order up to the status. */
  ghost predicate Sound(w: World) {
    Inv(w.store) && forall tx :: tx in w.seen ==> SeenOf(w.store, w.seen[tx].id, w.seen[tx].order)
  }

  /** An order keeps everything but its status, and a closed one keeps that too. */
  predicate Advances(from: Order, to: Order) {
    to == from.(status := to.status) && (Terminal(from.status) ==> to == from)
  }

  /** What one event can do to the orders and codes that exist. */
  lemma StepAdvances(w: World, e: Event)
    requires Allowed(e)
    ensures var s, s' := w.store, Step(w, e).store;
            && |s.orders| <= |s'.orders| && |s.codes| <= |s'.codes|
            && (forall k :: 0 <= k < |s.orders| ==> Advances(s.orders[k], s'.orders[k]))
            && (forall k :: 0 <= k < |s.codes| && s.codes[k].status != Unused ==> s'.codes[k] == s.codes[k])
  {
  }

  /** Only a call that may close uncertain orders closes one. */
  lemma ClosingNeedsPermission(w: World, e: Event, k: nat)
    requires Allowed(e) && k < |w.store.orders|
    requires w.store.orders[k].status == Uncertain && Terminal(Step(w, e).store.orders[k].status)
    ensures e.CloseEvent? && e.allowUncertain
  {
  }

  lemma StepKeepsSound(w: World, e: Event)
    requires Sound(w) && Allowed(e)
    ensures Sound(Step(w, e))
  {
    StepAdvances(w, e);
    StepKeepsInv(w, e);
  }

  lemma StepKeepsInv(w: World, e: Event)
    requires Sound(w) && Allowed(e)
    ensures Inv(Step(w, e).store)
  {
    hide Inv, Post;
    var s := w.store;
    match e {
      case ReserveEvent(o) => ReserveKeepsInv(s, o);
      case ReadEvent(_, _) =>
      case CloseEvent(tx, target, allowUncertain) =>
        if SeenFits(w, tx) {
          CloseKeepsInv(s, w.seen[tx].id, w.seen[tx].order, target, allowUncertain);
        }
      case RunningEvent(tx) =>
        if SeenFits(w, tx) && s.orders[w.seen[tx].id].status == Reserved {
          MarkKeepsInv(s, w.seen[tx].id, Running);
        }
      case UncertainEvent(id) =>
        if id < |s.orders| && Open(s.orders[id].status) {
          MarkKeepsInv(s, id, Uncertain);
        }
      case GrantEvent(user, kind, amount, reference) => GrantKeepsInv(s, user, kind, amount, reference);
      case AdjustEvent(user, amount) => AdjustKeepsInv(s, user, amount);
      case RedeemEvent(user, c, now) =>
        if c < |s.codes| {
          RedeemKeepsInv(s, user, c, now);
        }
      case DisableBatchEvent(batch, now) => CodeAmounts(s); CodesKeepInv(s, DisableBatch(s, batch, now).codes);
      case DisableCodeEvent(batch, c, now) =>
        if c < |s.codes| {
          CodeAmounts(s);
          CodesKeepInv(s, DisableCode(s, batch, c, now).codes);
        }
      case CreateCodesEvent(codes) => CodeAmounts(s); CodesKeepInv(s, s.codes + codes);
    }
  }

  lemma CodeAmounts(s: Store)
    requires Inv(s)
    ensures forall c :: 0 <= c < |s.codes| ==> s.codes[c].amount >= 0
  {
  }

  lemma {:induction false} RunKeepsSound(w: World, events: seq<Event>)
    requires Sound(w) && forall k :: 0 <= k < |events| ==> Allowed(events[k])
    ensures Sound(Run(w, events))
    decreases |events|
  {
    hide Inv, Step, Sound;
    if events != [] {
      StepKeepsSound(w, events[0]);
      RunKeepsSound(Step(w, events[0]), events[1..]);
    }
  }

  /** In every reachable state the books are exact. */
  lemma BooksAlwaysExact(events: seq<Event>, user: string)
    requires forall k :: 0 <= k < |events| ==> Allowed(events[k])
    ensures var s := Run(START, events).store;
            var account := AccountOf(s, user);
            && account.available == AvailableSum(s.ledger, user) >= 0
            && account.reserved == ReservedSum(s.ledger, user) == HeldSum(s.orders, user) >= 0
            && account.available + account.reserved == IncomeSum(s.ledger, user) - SpentSum(s.orders, user)
            && Chained(s.ledger)
  {
    RunKeepsSound(START, events);
    var s := Run(START, events).store;
    HeldSumNonNegative(s.orders, user);
    assert AccountOf(s, user).available == AvailableSum(s.ledger, user);
  }

  lemma {:induction false} HeldSumNonNegative(orders: seq<Order>, user: string)
    requires forall j :: 0 <= j < |orders| ==> orders[j].amount >= 0
    ensures HeldSum(orders, user) >= 0
    decreases |orders|
  {
    if orders != [] {
      HeldSumNonNegative(orders[..|orders| - 1], user);
    }
  }

  /** In every reachable state each order is entered once when reserved and once more exactly when it is closed. */
  lemma OrdersEnteredOnce(events: seq<Event>, id: nat)
    requires forall k :: 0 <= k < |events| ==> Allowed(events[k])
    requires id < |Run(START, events).store.orders|
    ensures var s := Run(START, events).store;
            && ReserveCount(s.ledger, id) == 1
            && CloseCount(s.ledger, id) == if Terminal(s.orders[id].status) then 1 else 0
  {
    RunKeepsSound(START, events);
  }

  /** In every reachable state no read-then-close finds the reserved balance short. */
  lemma InconsistentBranchIsDead(events: seq<Event>, tx: nat, target: OrderStatus, allowUncertain: bool)
    requires forall k :: 0 <= k < |events| ==> Allowed(events[k])
    requires Terminal(target) && SeenFits(Run(START, events), tx)
    ensures var w := Run(START, events);
            CloseOrder(w.store, w.seen[tx].id, w.seen[tx].order, target, allowUncertain).1 != BalanceInconsistent
  {
    RunKeepsSound(START, events);
    var w := Run(START, events);
    ReservedCovers(w.store, w.seen[tx].id, w.seen[tx].order, target, allowUncertain);
  }

  /** A closed order and a used or disabled code stay as they are for the rest of the run. */
  lemma {:induction false} ClosedForGood(w: World, events: seq<Event>)
    requires forall k :: 0 <= k < |events| ==> Allowed(events[k])
    ensures var s, s' := w.store, Run(w, events).store;
            && |s.orders| <= |s'.orders| && |s.codes| <= |s'.codes|
            && (forall k :: 0 <= k < |s.orders| ==> Advances(s.orders[k], s'.orders[k]))
            && (forall k :: 0 <= k < |s.codes| && s.codes[k].status != Unused ==> s'.codes[k] == s.codes[k])
    decreases |events|
  {
    hide Step;
    if events != [] {
      StepAdvances(w, events[0]);
      ClosedForGood(Step(w, events[0]), events[1..]);
    }
  }

  ghost predicate KeysUnique(orders: seq<Order>) {
    forall i, j :: 0 <= i < j < |orders| && orders[i].user == orders[j].user ==> orders[i].key != orders[j].key
  }

  lemma StepKeepsKeys(w: World, e: Event)
    requires Allowed(e) && KeysUnique(w.store.orders)
    ensures KeysUnique(Step(w, e).store.orders)
  {
  }

  lemma {:induction false} RunKeepsKeys(w: World, events: seq<Event>)
    requires KeysUnique(w.store.orders) && forall k :: 0 <= k < |events| ==> Allowed(events[k])
    ensures KeysUnique(Run(w, events).store.orders)
    decreases |events|
  {
    hide KeysUnique, Step;
    if events != [] {
      StepKeepsKeys(w, events[0]);
      RunKeepsKeys(Step(w, events[0]), events[1..]);
    }
  }

  /** One idempotency key never buys two orders: in every reachable state a user's orders have distinct keys. */
  lemma OneOrderPerKey(events: seq<Event>, i: nat, j: nat)
    requires forall k :: 0 <= k < |events| ==> Allowed(events[k])
    requires i < j < |Run(START, events).store.orders|
    ensures var orders := Run(START, events).store.orders;
            orders[i].user == orders[j].user ==> orders[i].key != orders[j].key
  {
    RunKeepsKeys(START, events);
  }

  /** Credits from references and codes: at most once each, and a user's redeem total is the worth of the codes held. */
  lemma CreditedOnce(events: seq<Event>, reference: string, c: nat, user: string)
    requires forall k :: 0 <= k < |events| ==> Allowed(events[k])
    ensures var s := Run(START, events).store;
            && ReferenceCount(s.ledger, reference) <= 1
            && RedeemCount(s.ledger, c) == (if c < |s.codes| && s.codes[c].status.Redeemed? then 1 else 0)
            && RedeemSum(s.ledger, user) == WorthSum(s.codes, user)
  {
    RunKeepsSound(START, events);
  }

  /** A code pays out only while unused and unexpired. */
  lemma PaysOnlyFreshCodes(w: World, e: Event, c: nat)
    requires Allowed(e) && c < |w.store.codes|
    requires RedeemCount(Step(w, e).store.ledger, c) != RedeemCount(w.store.ledger, c)
    ensures e.RedeemEvent? && e.c == c && w.store.codes[c].status == Unused
    ensures w.store.codes[c].expires.Some? ==> e.now < w.store.codes[c].expires.value
    ensures Step(w, e).store.codes[c].status == Redeemed(e.user)
  {
  }

  predicate ClosesUncertain(e: Event) {
    e.CloseEvent? && e.allowUncertain
  }

  lemma UncertainStays(w: World, e: Event, id: nat)
    requires Allowed(e) && !ClosesUncertain(e) && id < |w.store.orders| && w.store.orders[id].status == Uncertain
    ensures id < |Step(w, e).store.orders| && Step(w, e).store.orders[id] == w.store.orders[id]
  {
  }

  /**
   * An uncertain order stays as it is, whatever executions and old reads do, until a call that may close uncertain
   * orders.
   */
  lemma {:induction false} UncertainWaitsForReview(w: World, events: seq<Event>, id: nat)
    requires forall k :: 0 <= k < |events| ==> Allowed(events[k]) && !ClosesUncertain(events[k])
    requires id < |w.store.orders| && w.store.orders[id].status == Uncertain
    ensures id < |Run(w, events).store.orders| && Run(w, events).store.orders[id] == w.store.orders[id]
    decreases |events|
  {
    hide Step;
    if events != [] {
      UncertainStays(w, events[0], id);
      UncertainWaitsForReview(Step(w, events[0]), events[1..], id);
    }
  }

  /** The code can pay no more: it is used, disabled or expired by then. */
  predicate Spoiled(code: Code, now: int) {
    code.status != Unused || Expired(code, now)
  }

  predicate NotBefore(e: Event, now: int) {
    e.RedeemEvent? ==> e.now >= now
  }

  lemma SpoiledStays(w: World, e: Event, c: nat, now: int)
    requires Allowed(e) && NotBefore(e, now) && c < |w.store.codes| && Spoiled(w.store.codes[c], now)
    ensures c < |Step(w, e).store.codes| && Spoiled(Step(w, e).store.codes[c], now)
    ensures RedeemCount(Step(w, e).store.ledger, c) == RedeemCount(w.store.ledger, c)
  {
    StepAdvances(w, e);
    if RedeemCount(Step(w, e).store.ledger, c) != RedeemCount(w.store.ledger, c) {
      PaysOnlyFreshCodes(w, e, c);
    }
  }

  lemma {:induction false} SpoiledNeverPays(w: World, events: seq<Event>, c: nat, now: int)
    requires forall k :: 0 <= k < |events| ==> Allowed(events[k]) && NotBefore(events[k], now)
    requires c < |w.store.codes| && Spoiled(w.store.codes[c], now)
    ensures RedeemCount(Run(w, events).store.ledger, c) == RedeemCount(w.store.ledger, c)
    decreases |events|
  {
    hide Step, Spoiled, RedeemCount;
    if events != [] {
      SpoiledStays(w, events[0], c, now);
      SpoiledNeverPays(Step(w, events[0]), events[1..], c, now);
    }
  }

  /** Once its batch was disabled a code is never credited again, whatever happens later. */
  lemma DisabledNeverPays(w: World, batch: string, now: int, events: seq<Event>, c: nat)
    requires forall k :: 0 <= k < |events| ==> Allowed(events[k]) && NotBefore(events[k], now)
    requires c < |w.store.codes| && w.store.codes[c].batch == batch
    ensures var disabled := Step(w, DisableBatchEvent(batch, now));
            RedeemCount(Run(disabled, events).store.ledger, c) == RedeemCount(w.store.ledger, c)
  {
    SpoiledNeverPays(Step(w, DisableBatchEvent(batch, now)), events, c, now);
  }
}
