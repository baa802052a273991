/**
 * Prices in 64-bit integers, the policy they depend on, and the references of bonuses: service/credit_policy.go,
 * service/finance.go.
 */
module CreditPolicy {
  import Ledger
  import opened Wrappers

  const MAX_INT64 := 0x7FFF_FFFF_FFFF_FFFF

  newtype int64 = x: int | -0x8000_0000_0000_0000 <= x <= 0x7FFF_FFFF_FFFF_FFFF

  const CREDIT_SCALE: int64 := 1_000_000

  datatype Error = InvalidArguments | Overflow | NegativeAmount | NotConfigured | WrongCapability | InvalidDuration
    | UnknownMode

  datatype Result<T> = Ok(value: T) | Err(error: Error)

  /** The exact price: the product in basis points, rounded up to whole microcredits. */
  function Price(unitPrice: int, quantity: int, multiplierBPS: int): int {
    (unitPrice * quantity * multiplierBPS + 9_999) / 10_000
  }

  /** Every operation below is one on machine integers; that none leaves their range is part of what is proved. */
  method CreditAmount(unitPrice: int64, quantity: int64, multiplierBPS: int64) returns (r: Result<int64>)
    ensures var product := unitPrice as int * quantity as int * multiplierBPS as int;
            var valid := unitPrice >= 0 && quantity > 0 && multiplierBPS > 0;
            && (r.Ok? <==> valid && product <= MAX_INT64 - 9_999)
            && (r.Ok? ==>
                r.value >= 0 && r.value as int == Price(unitPrice as int, quantity as int, multiplierBPS as int))
            && (r.Err? ==> r.error == if valid then Overflow else InvalidArguments)
  {
    if unitPrice < 0 || quantity <= 0 || multiplierBPS <= 0 {
      return Err(InvalidArguments);
    }
    Quotient(unitPrice as int, quantity as int, MAX_INT64);
    if unitPrice > 0x7FFF_FFFF_FFFF_FFFF / quantity {
      TooLarge(unitPrice as int * quantity as int, multiplierBPS as int);
      return Err(Overflow);
    }
    var base := unitPrice * quantity;
    Quotient(base as int, multiplierBPS as int, MAX_INT64 - 9_999);
    if base > (0x7FFF_FFFF_FFFF_FFFF - 9_999) / multiplierBPS {
      return Err(Overflow);
    }
    NotNegative(base as int, multiplierBPS as int);
    var amount := (base * multiplierBPS + 9_999) / 10_000;
    if amount < 0 {
      assert false;
    }
    return Ok(amount);
  }

  lemma MultipleOf(a: int, q: int, b: int)
    requires b > 0
    ensures a > q ==> a * b >= q * b + b
    ensures a <= q ==> a * b <= q * b
  {
    if a > q {
      NotNegative(a - q - 1, b);
      assert a * b == (a - q - 1) * b + q * b + b;
    } else {
      NotNegative(q - a, b);
      assert a * b == q * b - (q - a) * b;
    }
  }

  /** Comparing with a quotient is comparing a product, without forming it. */
  lemma Quotient(a: int, b: int, limit: int)
    requires b > 0 && limit >= 0
    ensures a > limit / b <==> a * b > limit
  {
    var q := limit / b;
    MultipleOf(a, q, b);
    assert q * b <= limit < q * b + b;
  }

  lemma TooLarge(base: int, multiplier: int)
    requires base > MAX_INT64 && multiplier >= 1
    ensures base * multiplier > MAX_INT64
  {
  }

  lemma NotNegative(a: int, b: int)
    requires a >= 0 && b >= 0
    ensures a * b >= 0
  {
  }

  /**
   * The price is the least amount that covers the product: nothing is undercharged, and less than one microcredit is
   * added.
   */
  lemma PriceIsCeiling(unitPrice: nat, quantity: nat, multiplierBPS: nat)
    ensures var product, price := unitPrice * quantity * multiplierBPS, Price(unitPrice, quantity, multiplierBPS);
            10_000 * price >= product && forall less :: less < price ==> 10_000 * less < product
  {
  }

  // ---------------------------------------------------------------- the policy and the orders priced by it

  datatype Policy = Policy(signupBonus: int64, checkinBonus: int64, defaultMultiplier: int64,
                           modelMultiplier: map<string, int64>)

  predicate Multiplier(bps: int64) {
    0 < bps <= 1_000_000
  }

  /** `blank` tells which keys consist of space only. */
  predicate Valid(policy: Policy, blank: string -> bool) {
    && 0 <= policy.signupBonus <= 1_000_000 * CREDIT_SCALE
    && 0 <= policy.checkinBonus <= 100_000 * CREDIT_SCALE
    && Multiplier(policy.defaultMultiplier)
    && forall key :: key in policy.modelMultiplier ==> !blank(key) && Multiplier(policy.modelMultiplier[key])
  }

  datatype Mode = FixedRequest | PerSecond | OtherMode

  datatype ChannelModel = ChannelModel(key: string, capability: string, mode: Mode, unitPrice: int64,
                                       priceConfigured: bool)

  function MultiplierFor(policy: Policy, key: string): int64 {
    if key in policy.modelMultiplier && policy.modelMultiplier[key] > 0 then policy.modelMultiplier[key]
    else policy.defaultMultiplier
  }

  /** The units an order is charged for. */
  function Units(item: ChannelModel, requested: int64): int64 {
    if item.mode == PerSecond then requested else 1
  }

  /** A new order for one call; every order it yields carries the exact, non-negative price. */
  method NewBillingOrder(user: string, key: string, item: ChannelModel, capability: string, requested: int64,
                         policy: Policy,
                         ghost blank: string -> bool) returns (r: Result<Ledger.Order>)
    requires Valid(policy, blank)
    ensures r.Ok? ==>
              && r.value == Ledger.Order(user, key, None, r.value.amount, Ledger.Reserved)
              && 0 <= r.value.amount <= MAX_INT64
              && r.value.amount
                 == Price(item.unitPrice as int, Units(item, requested) as int, MultiplierFor(policy, item.key) as int)
    ensures r.Ok? ==>
              var quantity := if item.mode == PerSecond then requested as int else 1;
              && (item.key in policy.modelMultiplier ==>
                    r.value.amount
                    == Price(item.unitPrice as int, quantity, policy.modelMultiplier[item.key] as int))
              && (item.key !in policy.modelMultiplier ==>
                    r.value.amount == Price(item.unitPrice as int, quantity, policy.defaultMultiplier as int))
    ensures r.Ok? <==>
              && item.priceConfigured && item.unitPrice >= 0 && item.capability == capability && item.mode != OtherMode
              && (item.mode == PerSecond ==> capability == "video" && requested > 0)
              && item.unitPrice as int * Units(item, requested) as int * MultiplierFor(policy, item.key) as int
                 <= MAX_INT64 - 9_999
  {
    if !item.priceConfigured {
      return Err(NotConfigured);
    }
    if item.capability != capability {
      return Err(WrongCapability);
    }
    var quantity: int64 := 1;
    match item.mode {
      case FixedRequest =>
      case PerSecond =>
        if capability != "video" {
          return Err(WrongCapability);
        }
        if requested <= 0 {
          return Err(InvalidDuration);
        }
        quantity := requested;
      case OtherMode =>
        return Err(UnknownMode);
    }
    var multiplier := policy.defaultMultiplier;
    if item.key in policy.modelMultiplier && policy.modelMultiplier[item.key] > 0 {
      multiplier := policy.modelMultiplier[item.key];
    }
    var amount := CreditAmount(item.unitPrice, quantity, multiplier);
    if amount.Err? {
      return Err(amount.error);
    }
    return Ok(Ledger.Order(user, key, None, amount.value as int, Ledger.Reserved));
  }

  // ---------------------------------------------------------------- bonuses

  function SignupReference(user: string): string {
    "signup:" + user
  }

  function CheckinReference(user: string, day: string): string {
    "checkin:" + user + ":" + day
  }

  /** A day is written with ten characters. */
  predicate IsDay(day: string) {
    |day| == 10
  }

  /** No bonus takes the reference of another: not for another user, another day, or the other kind. */
  lemma BonusReferencesDistinct(user: string, day: string, user': string, day': string)
    requires IsDay(day) && IsDay(day')
    ensures CheckinReference(user, day) == CheckinReference(user', day') <==> user == user' && day == day'
    ensures SignupReference(user) == SignupReference(user') <==> user == user'
    ensures SignupReference(user) != CheckinReference(user', day)
  {
    var a, b := CheckinReference(user, day), CheckinReference(user', day');
    assert a[8..|a| - 11] == user && a[|a| - 10..] == day;
    assert b[8..|b| - 11] == user' && b[|b| - 10..] == day';
    assert SignupReference(user)[7..] == user && SignupReference(user')[7..] == user';
    assert SignupReference(user)[0] == 's' && CheckinReference(user', day)[0] == 'c';
  }

  /**
   * On every run: a second check-in of the same day grants nothing, and one of another day is not held up by the first.
   */
  lemma CheckinOncePerDay(w: Ledger.World, user: string, amount: int, day: string, other: string)
    requires Ledger.Sound(w) && amount >= 0 && IsDay(day) && IsDay(other)
    ensures var event := Ledger.GrantEvent(user, Ledger.CheckinBonus, amount, CheckinReference(user, day));
            var once := Ledger.Step(w, event);
            && Ledger.ReferenceCount(once.store.ledger, CheckinReference(user, day)) == 1
            && Ledger.Step(once, event).store.ledger == once.store.ledger
            && (day != other ==>
                  (Ledger.ReferenceTaken(once.store.ledger, CheckinReference(user, other)) <==>
                   Ledger.ReferenceTaken(w.store.ledger, CheckinReference(user, other))))
  {
    hide Ledger.Inv;
    var reference := CheckinReference(user, day);
    var s := w.store;
    BonusReferencesDistinct(user, day, user, other);
    var event := Ledger.GrantEvent(user, Ledger.CheckinBonus, amount, reference);
    Ledger.StepKeepsSound(w, event);
    var once := Ledger.Step(w, event).store;
    if !Ledger.ReferenceTaken(s.ledger, reference) {
      assert once.ledger[|s.ledger|].reference == Some(reference);
      assert forall k :: 0 <= k < |s.ledger| ==> once.ledger[k] == s.ledger[k];
    }
    assert Ledger.ReferenceTaken(once.ledger, reference);
    AtMostOne(once, reference);
    Ledger.ReferenceSeen(once.ledger, reference);
  }

  lemma AtMostOne(s: Ledger.Store, reference: string)
    requires Ledger.Inv(s)
    ensures Ledger.ReferenceCount(s.ledger, reference) <= 1
  {
  }
}
