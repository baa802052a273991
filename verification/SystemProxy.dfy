/**
 * The system channel proxy: one paid request from its reservation to settled, refunded or uncertain: handler/auth.go.
 */
module SystemProxy {
  import opened Text
  import opened EventStream
  import opened RelayStream
  import Ledger
  import Repository = FinanceRepository
  import opened Wrappers

  type Order = Ledger.Order
  type OrderStatus = Ledger.OrderStatus

  // ---------------------------------------------------------------- billing as the handler sees it

  /** The balance covers the order, and its user has no other under the key. */
  predicate Covered(s: Ledger.Store, draft: Order) {
    && draft.amount <= (if draft.user in s.accounts then s.accounts[draft.user].available else 0)
    && forall k :: 0 <= k < |s.orders| ==> s.orders[k].user != draft.user || s.orders[k].key != draft.key
  }

  /** The billing methods of the service on one shared repository. */
  class BillingService {
    const repo: Repository.FinanceRepository
    /** Some database access of this request failed. */
    ghost var storageFailed: bool
    /** Someone else closed this request's order; an administrator may resolve any open order. */
    ghost var closedElsewhere: bool

    constructor (repo: Repository.FinanceRepository)
      ensures this.repo == repo && !storageFailed && !closedElsewhere
    {
      this.repo := repo;
      storageFailed, closedElsewhere := false, false;
    }

    /** The books are exact and this request's order, if it has one, is where this request has brought it. */
    ghost predicate At(order: Option<nat>, status: OrderStatus)
      reads this, repo
    {
      && Ledger.Inv(repo.Contents())
      && (order.Some? ==>
            && order.value < |repo.orders|
            && if closedElsewhere then Ledger.Terminal(repo.orders[order.value].status)
               else repo.orders[order.value].status == status)
    }

    /** An open order is brought to this status, as its user's balances show; without an order nothing changed. */
    ghost predicate Brought(order: Option<nat>, before: Ledger.Store, status: OrderStatus)
      reads repo
    {
      if order.None? then repo.Contents() == before
      else
        && order.value < |before.orders| && order.value < |repo.orders|
        && var was, user := before.orders[order.value], before.orders[order.value].user;
           && repo.orders[order.value].user == user && repo.orders[order.value].amount == was.amount
           && Ledger.AccountOf(repo.Contents(), user).available
              == Ledger.AccountOf(before, user).available + (if status == Ledger.Refunded then was.amount else 0)
           && Ledger.AccountOf(repo.Contents(), user).reserved
              == Ledger.AccountOf(before, user).reserved - (if Ledger.Terminal(status) then was.amount else 0)
    }

    /**
     * What other requests and administrators do meanwhile: anything that keeps the books, but to this order only a
     * closing; where all is quiet nothing.
     */
    method OtherWork(order: Option<nat>, ghost status: OrderStatus, quiet: bool)
      requires At(order, status)
      modifies this`closedElsewhere, repo
      ensures At(order, status) && |repo.orders| >= |old(repo.orders)|
      ensures old(closedElsewhere) ==> closedElsewhere
      ensures order.None? || quiet ==> closedElsewhere == old(closedElsewhere)
      ensures quiet ==> repo.Contents() == old(repo.Contents())
    {
      if quiet {
        return;
      }
      var user: string, amount: int := *, *;
      Ledger.AdjustKeepsInv(repo.Contents(), user, amount);
      var outcome := repo.AdjustCredits(user, amount);
    }

    /** Refuse a request whose key has an order already, before it waits for anything. */
    method PrepareProxyBillingIdempotency(user: string, key: string, quiet: bool) returns (unused: bool)
      modifies this`storageFailed
      ensures unused ==> !Ledger.KeyTaken(repo.orders, user, key)
      ensures !unused ==> Ledger.KeyTaken(repo.orders, user, key) || storageFailed
      ensures old(storageFailed) ==> storageFailed
      ensures quiet ==> storageFailed == old(storageFailed)
    {
      var failing := Falters(quiet);
      storageFailed := storageFailed || failing;
      unused := !failing && !Ledger.KeyTaken(repo.orders, user, key);
    }

    method ReserveProxyBilling(draft: Option<Order>, quiet: bool) returns (order: Option<nat>)
      requires Ledger.Inv(repo.Contents()) && !closedElsewhere
      requires draft.Some? ==> draft.value.amount >= 0 && draft.value.status == Ledger.Reserved
      modifies this, repo
      ensures At(order, Ledger.Reserved) && !closedElsewhere
      ensures order.Some? ==>
                draft.Some? && order.value >= |old(repo.orders)| && repo.orders[order.value] == draft.value
      ensures old(storageFailed) ==> storageFailed
      ensures quiet ==> storageFailed == old(storageFailed)
      ensures quiet ==> (order.Some? <==> draft.Some? && Covered(old(repo.Contents()), draft.value))
      ensures quiet && order.None? ==> repo.Contents() == old(repo.Contents())
      ensures quiet && order.Some? ==>
                var was := Ledger.AccountOf(old(repo.Contents()), draft.value.user);
                Ledger.AccountOf(repo.Contents(), draft.value.user)
                == Ledger.Account(was.available - draft.value.amount, was.reserved + draft.value.amount)
    {
      hide Ledger.Inv;
      var failing := Falters(quiet);
      if failing || draft.None? {
        storageFailed := storageFailed || failing;
        return None;
      }
      if Ledger.KeyTaken(repo.orders, draft.value.user, draft.value.key) {
        return None;
      }
      OtherWork(None, Ledger.Reserved, quiet);
      Ledger.ReserveKeepsInv(repo.Contents(), draft.value);
      var id := |repo.orders|;
      var outcome := repo.ReserveBillingOrder(draft.value);
      order := if outcome == Ledger.Done then Some(id) else None;
    }

    method MarkBillingRunning(order: Option<nat>, quiet: bool) returns (ok: bool)
      requires At(order, Ledger.Reserved)
      modifies this, repo
      ensures At(order, if ok then Ledger.Running else Ledger.Reserved)
      ensures !ok ==> storageFailed || closedElsewhere
      ensures Only(old(storageFailed), old(closedElsewhere))
      ensures quiet && old(Undisturbed()) ==> Undisturbed() && Brought(order, old(repo.Contents()), Ledger.Running)
    {
      hide Ledger.Inv;
      if order.None? {
        return true;
      }
      OtherWork(order, Ledger.Reserved, quiet);
      var failing := Falters(quiet);
      if failing {
        storageFailed := true;
        return false;
      }
      var seen := repo.orders[order.value];
      if Ledger.Open(seen.status) {
        Ledger.MarkKeepsInv(repo.Contents(), order.value, Ledger.Running);
      }
      var outcome := repo.MarkBillingRunning(order.value, Some(seen));
      ok := outcome == Ledger.Done;
    }

    method MarkBillingUncertain(order: Option<nat>, ghost status: OrderStatus, quiet: bool) returns (ok: bool)
      requires At(order, status) && Ledger.Open(status)
      modifies this, repo
      ensures At(order, if ok then Ledger.Uncertain else status)
      ensures !ok ==> storageFailed || closedElsewhere
      ensures Only(old(storageFailed), old(closedElsewhere))
      ensures quiet && old(Undisturbed()) ==> Undisturbed() && Brought(order, old(repo.Contents()), Ledger.Uncertain)
    {
      hide Ledger.Inv;
      if order.None? {
        return true;
      }
      OtherWork(order, status, quiet);
      var failing := Falters(quiet);
      if failing {
        storageFailed := true;
        return false;
      }
      if Ledger.Open(repo.orders[order.value].status) {
        Ledger.MarkKeepsInv(repo.Contents(), order.value, Ledger.Uncertain);
      }
      var outcome := repo.MarkBillingUncertain(order.value);
      ok := outcome == Ledger.Done;
    }

    method SettleBillingFromExecution(order: Option<nat>, quiet: bool) returns (ok: bool)
      requires At(order, Ledger.Running)
      modifies this, repo
      ensures At(order, if ok then Ledger.Settled else Ledger.Running)
      ensures !ok ==> storageFailed || closedElsewhere
      ensures Only(old(storageFailed), old(closedElsewhere))
      ensures quiet && old(Undisturbed()) ==> Undisturbed() && Brought(order, old(repo.Contents()), Ledger.Settled)
    {
      hide Ledger.Inv;
      if order.None? {
        return true;
      }
      OtherWork(order, Ledger.Running, quiet);
      var failing := Falters(quiet);
      if failing {
        storageFailed := true;
        return false;
      }
      var seen := repo.orders[order.value];
      Ledger.CloseKeepsInv(repo.Contents(), order.value, seen, Ledger.Settled, false);
      Ledger.ReservedCovers(repo.Contents(), order.value, seen, Ledger.Settled, false);
      var outcome := repo.SettleBillingOrder(order.value, Some(seen), false);
      ok := outcome == Ledger.Done;
    }

    method RefundBillingFromExecution(order: Option<nat>, ghost status: OrderStatus, quiet: bool) returns (ok: bool)
      requires At(order, status) && Ledger.Closable(status, false)
      modifies this, repo
      ensures At(order, if ok then Ledger.Refunded else status)
      ensures !ok ==> storageFailed || closedElsewhere
      ensures Only(old(storageFailed), old(closedElsewhere))
      ensures quiet && old(Undisturbed()) ==> Undisturbed() && Brought(order, old(repo.Contents()), Ledger.Refunded)
    {
      hide Ledger.Inv;
      if order.None? {
        return true;
      }
      OtherWork(order, status, quiet);
      var failing := Falters(quiet);
      if failing {
        storageFailed := true;
        return false;
      }
      var seen := repo.orders[order.value];
      Ledger.CloseKeepsInv(repo.Contents(), order.value, seen, Ledger.Refunded, false);
      Ledger.ReservedCovers(repo.Contents(), order.value, seen, Ledger.Refunded, false);
      var outcome := repo.RefundBillingOrder(order.value, Some(seen), false);
      ok := outcome == Ledger.Done;
    }

    /** Nothing outside this request got in its way. */
    ghost predicate Undisturbed()
      reads this
    {
      !storageFailed && !closedElsewhere
    }

    /** The two flags are never taken back. */
    ghost predicate Only(failedBefore: bool, closedBefore: bool)
      reads this
    {
      (failedBefore ==> storageFailed) && (closedBefore ==> closedElsewhere)
    }
  }

  // ---------------------------------------------------------------- what the channel does

  /** How a 2xx body was recognised. */
  datatype Kind = Unreadable | Plain | Events

  datatype Answer = Answer(status: int, kind: Kind, source: seq<Read>)

  /** The course of one request up to the answer; no answer means that the connection broke. */
  datatype Exchange = Exchange(slotFree: bool, lateForOrder: bool, buildable: bool, lateForSend: bool,
                               answer: Option<Answer>)

  predicate RequiresBillingReview(status: int) {
    if status == 408 || status == 499 then true
    else if status == 501 then false
    else 500 <= status <= 599
  }

  predicate Successful(status: int) {
    200 <= status < 300
  }

  /** The whole body arrived and is within the limit. */
  predicate Whole(source: seq<Read>, limit: nat) {
    EndsCleanly(source, 0) && |Upstream(source, 0)| <= limit
  }

  /** What the user has to pay for: a complete result. */
  predicate Chargeable(answer: Answer, streamRequested: bool, limit: nat, lib: Library, validJson: string -> bool) {
    && Successful(answer.status) && Whole(answer.source, limit)
    && match answer.kind
       case Unreadable => false
       case Plain => streamRequested ==> validJson(Upstream(answer.source, 0))
       case Events => Complete(lib, Upstream(answer.source, 0))
  }

  /** A rejection that was read to its end and leaves no doubt. */
  predicate Rejected(answer: Answer, limit: nat) {
    !Successful(answer.status) && !RequiresBillingReview(answer.status) && Whole(answer.source, limit)
  }

  /** What certainly costs nothing. */
  predicate Free(exchange: Exchange, limit: nat) {
    || !exchange.buildable || exchange.lateForSend
    || (exchange.answer.Some? && Rejected(exchange.answer.value, limit))
  }

  /** A status that says for certain that nothing was produced. */
  predicate SaysNothingWasDone(status: int) {
    (status < 200 || 299 < status) && status != 408 && status != 499 && (status == 501 || status < 500 || 599 < status)
  }

  /** What costs nothing, by the numbers: nothing was sent, or a rejection without doubt was read to its end. */
  lemma RefundsExactly(exchange: Exchange, limit: nat)
    ensures Free(exchange, limit) <==>
              || !exchange.buildable || exchange.lateForSend
              || (exchange.answer.Some? && SaysNothingWasDone(exchange.answer.value.status) &&
                  EndsCleanly(exchange.answer.value.source, 0) && |Upstream(exchange.answer.value.source, 0)| <= limit)
  {
  }

  /** What has to be paid for: a 2xx answer, complete and within the limit, of a kind that passes its check. */
  lemma ChargesExactly(answer: Answer, streamRequested: bool, limit: nat, lib: Library, validJson: string -> bool)
    ensures Chargeable(answer, streamRequested, limit, lib, validJson) <==>
              var text := Upstream(answer.source, 0);
              && 200 <= answer.status <= 299 && EndsCleanly(answer.source, 0) && |text| <= limit
              && answer.kind != Unreadable && (answer.kind == Plain && streamRequested ==> validJson(text))
              && (answer.kind == Events ==> Complete(lib, text))
    ensures Chargeable(answer, streamRequested, limit, lib, validJson) ==> !SaysNothingWasDone(answer.status)
  {
  }

  // ---------------------------------------------------------------- reading and relaying the answer

  /** Read to the end, but no further than one character behind the limit. */
  method ReadLimited(source: seq<Read>, limit: nat) returns (body: string, failed: bool)
    ensures !failed && |body| <= limit <==> Whole(source, limit)
    ensures Whole(source, limit) ==> body == Upstream(source, 0)
  {
    body, failed := "", false;
    var k := 0;
    EmptySides(Upstream(source, 0));
    while |body| < limit + 1
      invariant k <= |source| && |body| <= limit + 1
      invariant |body| <= limit ==> body + Upstream(source, k) == Upstream(source, 0)
      invariant |body| <= limit ==> (EndsCleanly(source, 0) <==> EndsCleanly(source, k))
      invariant |body| == limit + 1 ==> |Upstream(source, 0)| > limit
      decreases |source| + 1 - k
    {
      var read := ReadAt(source, k);
      if |read.data| > limit + 1 - |body| {
        body := body + read.data[..limit + 1 - |body|];
        return;
      }
      Assoc(body, read.data, if read.end == More && k < |source| then Upstream(source, k + 1) else "");
      EmptySides(read.data);
      body := body + read.data;
      EmptySides(body);
      if read.end != More {
        failed := read.end == Fault;
        return;
      }
      k := k + 1;
    }
  }

  /** One non-empty read of an event stream: limit, check, write. */
  method StreamRead(integrity: EventStreamIntegrity, writer: ResponseWriter, captured: string, data: string,
                    ghost rest: string, limit: nat)
    returns (result: Result)
    requires Tracks(integrity.lib, captured, integrity.Abstract()) && |captured| <= limit
    requires writer.relayed == captured && writer.errorEvents == 0 && !writer.broken
    modifies integrity, writer
    ensures (result == Relaying || result == WriteFailed || result == ErrorEventSent) &&
            (result == WriteFailed <==> writer.broken)
    ensures result == Relaying ==>
              Tracks(integrity.lib, captured + data, integrity.Abstract()) && |captured + data| <= limit
              && writer.relayed == captured + data
    ensures result == WriteFailed ==> writer.relayed <= captured + (data + rest)
    ensures result == ErrorEventSent ==>
              writer.relayed == captured
              && (|captured| + |data| > limit || Direct(integrity.lib, captured + (data + rest)) != Accepted)
    ensures writer.errorEvents == if result == ErrorEventSent then 1 else 0
  {
    hide Tracks, Direct, PushStep;
    if |captured| + |data| > limit {
      writer.WriteStreamError();
      return ErrorEventSent;
    }
    Assoc(captured, data, rest);
    PushTracks(integrity.lib, captured, integrity.Abstract(), data);
    var err := integrity.Push(data);
    if err != Accepted {
      assert Direct(integrity.lib, captured + data + rest) == err;
      writer.WriteStreamError();
      return ErrorEventSent;
    }
    var ok := writer.Write(data);
    result := if ok then Relaying else WriteFailed;
  }

  /** The stream loop: pass on read by read what is within the limit and intact. */
  method StreamBody(source: seq<Read>, limit: nat, lib: Library, writer: ResponseWriter) returns (result: Result)
    requires writer.relayed == "" && writer.errorEvents == 0 && !writer.broken
    modifies writer
    ensures (result == Delivered || result == WriteFailed || result == ErrorEventSent) &&
            (result == WriteFailed <==> writer.broken)
    ensures writer.relayed <= Upstream(source, 0)
    ensures result == Delivered ==> writer.relayed == Upstream(source, 0)
    ensures result != WriteFailed ==>
              (result == Delivered <==> Whole(source, limit) && Complete(lib, Upstream(source, 0)))
    ensures writer.errorEvents == if result == ErrorEventSent then 1 else 0
  {
    hide Tracks, Direct, Complete;
    ghost var text := Upstream(source, 0);
    CompleteIsDirect(lib, text);
    TracksAtStart(lib);
    EmptySides(text);
    var integrity := new EventStreamIntegrity(lib);
    var captured := "";
    var k := 0;
    while true
      invariant k <= |source|
      invariant text == captured + Upstream(source, k) && (EndsCleanly(source, 0) <==> EndsCleanly(source, k))
      invariant |captured| <= limit && writer.relayed == captured && writer.errorEvents == 0
      invariant !writer.broken
      invariant integrity.lib == lib && Tracks(lib, captured, integrity.Abstract())
      decreases |source| + 1 - k
    {
      var read := ReadAt(source, k);
      ghost var rest := if read.end == More && k < |source| then Upstream(source, k + 1) else "";
      EmptySides(read.data);
      Assoc(captured, read.data, rest);
      if |read.data| > 0 {
        result := StreamRead(integrity, writer, captured, read.data, rest, limit);
        if result != Relaying {
          return;
        }
      } else {
        EmptySides(captured);
      }
      captured := captured + read.data;
      EmptySides(captured);
      if read.end == Eof {
        break;
      }
      if read.end == Fault {
        writer.WriteStreamError();
        return ErrorEventSent;
      }
      k := k + 1;
    }
    FinishTracks(lib, captured, integrity.Abstract());
    var err := integrity.Finish();
    if err != Accepted {
      writer.WriteStreamError();
      return ErrorEventSent;
    }
    return Delivered;
  }

  /** Relay a recognised event stream; every early end leaves the order to be reviewed. */
  method ProxyStream(billing: BillingService, quiet: bool, order: Option<nat>, source: seq<Read>, limit: nat,
                     lib: Library, writer: ResponseWriter)
    returns (status: OrderStatus, logFailed: bool, writeFailed: bool)
    requires billing.At(order, Ledger.Running) && writer.relayed == "" && writer.errorEvents == 0
    requires !writer.broken
    modifies billing, billing.repo, writer
    ensures billing.At(order, status) && billing.Only(old(billing.storageFailed), old(billing.closedElsewhere))
    ensures quiet && old(billing.Undisturbed()) ==>
              billing.Undisturbed() && billing.Brought(order, old(billing.repo.Contents()), status) && !logFailed
    ensures status in {Ledger.Running, Ledger.Uncertain, Ledger.Settled} && writer.relayed <= Upstream(source, 0)
    ensures var complete := Whole(source, limit) && Complete(lib, Upstream(source, 0));
            && (status == Ledger.Settled ==>
                complete && !writeFailed && !logFailed && writer.relayed == Upstream(source, 0))
            && (billing.Undisturbed() ==>
                status == if complete && !writeFailed && !logFailed then Ledger.Settled else Ledger.Uncertain)
    ensures writeFailed == writer.broken
    ensures order.Some? ==> (writer.errorEvents == 0 <==> status == Ledger.Settled || writeFailed)
  {
    hide Complete, Ledger.Inv;
    var result := StreamBody(source, limit, lib, writer);
    logFailed, writeFailed := false, result == WriteFailed;
    if result != Delivered {
      status := FailStream(billing, quiet, order);
      return;
    }
    status, logFailed := CloseSuccess(billing, quiet, order);
    if order.Some? && status != Ledger.Settled {
      writer.WriteStreamError();
    }
  }

  /** Leave the order to be reviewed; the failure log is written or not. */
  method FailStream(billing: BillingService, quiet: bool, order: Option<nat>) returns (status: OrderStatus)
    requires billing.At(order, Ledger.Running)
    modifies billing, billing.repo
    ensures billing.At(order, status) && billing.Only(old(billing.storageFailed), old(billing.closedElsewhere))
    ensures quiet && old(billing.Undisturbed()) ==>
              billing.Undisturbed() && billing.Brought(order, old(billing.repo.Contents()), status)
    ensures status in {Ledger.Running, Ledger.Uncertain} && (billing.Undisturbed() ==> status == Ledger.Uncertain)
  {
    var marked := billing.MarkBillingUncertain(order, Ledger.Running, quiet);
    return if marked then Ledger.Uncertain else Ledger.Running;
  }

  /** A complete result: write the log, then settle; if either fails the order is left to be reviewed. */
  method CloseSuccess(billing: BillingService, quiet: bool, order: Option<nat>)
    returns (status: OrderStatus, logFailed: bool)
    requires billing.At(order, Ledger.Running)
    modifies billing, billing.repo
    ensures billing.At(order, status) && billing.Only(old(billing.storageFailed), old(billing.closedElsewhere))
    ensures quiet && old(billing.Undisturbed()) ==>
              billing.Undisturbed() && billing.Brought(order, old(billing.repo.Contents()), status) && !logFailed
    ensures status in {Ledger.Running, Ledger.Uncertain, Ledger.Settled}
    ensures status == Ledger.Settled ==> !logFailed
    ensures billing.Undisturbed() ==> status == if logFailed then Ledger.Uncertain else Ledger.Settled
  {
    logFailed := Falters(quiet);
    if !logFailed {
      var settled := billing.SettleBillingFromExecution(order, quiet);
      if settled {
        return Ledger.Settled, logFailed;
      }
    }
    var marked := billing.MarkBillingUncertain(order, Ledger.Running, quiet);
    return if marked then Ledger.Uncertain else Ledger.Running, logFailed;
  }

  /** An answer that is not an event stream, or is a failure. */
  method ProxyPlain(billing: BillingService, quiet: bool, order: Option<nat>, answer: Answer, streamRequested: bool,
                    limit: nat, validJson: string -> bool)
    returns (status: OrderStatus, logFailed: bool)
    requires billing.At(order, Ledger.Running)
    modifies billing, billing.repo
    ensures billing.At(order, status) && billing.Only(old(billing.storageFailed), old(billing.closedElsewhere))
    ensures quiet && old(billing.Undisturbed()) ==>
              billing.Undisturbed() && billing.Brought(order, old(billing.repo.Contents()), status) && !logFailed
    ensures var whole := Whole(answer.source, limit);
            var payable := Successful(answer.status) && whole
              && (streamRequested ==> validJson(Upstream(answer.source, 0)));
            && (status == Ledger.Settled ==> payable && !logFailed)
            && (status == Ledger.Refunded ==> Rejected(answer, limit))
            && (billing.Undisturbed() ==>
                  status == if payable && !logFailed then Ledger.Settled
                    else if Rejected(answer, limit) then Ledger.Refunded else Ledger.Uncertain)
  {
    hide Whole, Ledger.Inv;
    logFailed := false;
    var body, failed := ReadLimited(answer.source, limit);
    if failed || |body| > limit || (streamRequested && Successful(answer.status) && !validJson(body)) {
      status := FailStream(billing, quiet, order);
    } else if Successful(answer.status) {
      status, logFailed := CloseSuccess(billing, quiet, order);
    } else if RequiresBillingReview(answer.status) {
      status := FailStream(billing, quiet, order);
    } else {
      var refunded := billing.RefundBillingFromExecution(order, Ledger.Running, quiet);
      status := if refunded then Ledger.Refunded else Ledger.Running;
    }
  }

  /** From the answer on: broken connection, unreadable start, event stream or plain body. */
  method ProxyAnswer(billing: BillingService, quiet: bool, order: Option<nat>, answer: Option<Answer>,
                     streamRequested: bool, limit: nat, lib: Library, validJson: string -> bool, writer: ResponseWriter)
    returns (status: OrderStatus, logFailed: bool, writeFailed: bool)
    requires billing.At(order, Ledger.Running) && writer.relayed == "" && writer.errorEvents == 0
    requires !writer.broken
    modifies billing, billing.repo, writer
    ensures billing.At(order, status) && billing.Only(old(billing.storageFailed), old(billing.closedElsewhere))
    ensures quiet && old(billing.Undisturbed()) ==>
              billing.Undisturbed() && billing.Brought(order, old(billing.repo.Contents()), status) && !logFailed
    ensures status == Ledger.Settled ==>
              && answer.Some? && Chargeable(answer.value, streamRequested, limit, lib, validJson)
              && !logFailed && !writeFailed
              && (answer.value.kind == Events ==> writer.relayed == Upstream(answer.value.source, 0))
    ensures status == Ledger.Refunded ==> answer.Some? && Rejected(answer.value, limit)
    ensures writeFailed == writer.broken
    ensures billing.Undisturbed() ==>
              (status ==
               if answer.Some? && Chargeable(answer.value, streamRequested, limit, lib, validJson)
                 && !logFailed && !writeFailed then
                 Ledger.Settled
               else if answer.Some? && Rejected(answer.value, limit) then Ledger.Refunded
               else Ledger.Uncertain)
  {
    hide Whole, Complete, Ledger.Inv;
    logFailed, writeFailed := false, false;
    if answer.None? || (Successful(answer.value.status) && answer.value.kind == Unreadable) {
      status := FailStream(billing, quiet, order);
    } else if Successful(answer.value.status) && answer.value.kind == Events {
      status, logFailed, writeFailed := ProxyStream(billing, quiet, order, answer.value.source, limit, lib, writer);
    } else {
      status, logFailed := ProxyPlain(billing, quiet, order, answer.value, streamRequested, limit, validJson);
    }
  }

  /**
   * One request through the system channel.  A paid request is sent only with an order; where nothing fails or
   * interferes the order ends settled, refunded or uncertain by what happened, and in no case is it settled or
   * refunded by this request without the reason for it.
   */
  method ProxySystemRequest(billing: BillingService, quiet: bool, paid: bool, user: string, key: string,
                            draft: Option<Order>, streamRequested: bool,
                            exchange: Exchange, limit: nat, lib: Library, validJson: string -> bool,
                            writer: ResponseWriter)
    returns (order: Option<nat>, sent: bool, status: OrderStatus, logFailed: bool, writeFailed: bool)
    requires Ledger.Inv(billing.repo.Contents()) && billing.Undisturbed() && writer.relayed == ""
    requires writer.errorEvents == 0 && !writer.broken
    requires draft.Some? ==> draft.value.amount >= 0 && draft.value.status == Ledger.Reserved
    modifies billing, billing.repo, writer
    ensures billing.At(order, status)
    ensures order.Some? ==> paid && order.value >= |old(billing.repo.orders)|
    ensures sent ==> (paid <==> order.Some?) && exchange.buildable && !exchange.lateForSend
    ensures order.Some? && status == Ledger.Settled ==>
              && sent && exchange.answer.Some? && !logFailed && !writeFailed
              && Chargeable(exchange.answer.value, streamRequested, limit, lib, validJson)
              && (exchange.answer.value.kind == Events ==> writer.relayed == Upstream(exchange.answer.value.source, 0))
    ensures order.Some? && status == Ledger.Refunded && sent ==>
              && exchange.answer.Some? && SaysNothingWasDone(exchange.answer.value.status)
              && EndsCleanly(exchange.answer.value.source, 0)
              && |Upstream(exchange.answer.value.source, 0)| <= limit
    ensures order.Some? && billing.Undisturbed() ==>
              (status ==
               if Free(exchange, limit) then Ledger.Refunded
               else if exchange.answer.Some?
                 && Chargeable(exchange.answer.value, streamRequested, limit, lib, validJson)
                       && !logFailed && !writeFailed then Ledger.Settled
               else Ledger.Uncertain)
    ensures writeFailed == writer.broken
    ensures quiet ==>
              var payable := draft.Some? && Covered(old(billing.repo.Contents()), draft.value) &&
                             !Ledger.KeyTaken(old(billing.repo.orders), user, key);
              var entered := (paid ==> payable) && exchange.slotFree && !exchange.lateForOrder;
              && billing.Undisturbed() && !logFailed
              && (order.Some? <==> paid && entered)
              && (sent <==> entered && exchange.buildable && !exchange.lateForSend)
    ensures quiet && order.None? ==> billing.repo.Contents() == old(billing.repo.Contents())
    ensures quiet && order.Some? ==>
              var was := Ledger.AccountOf(old(billing.repo.Contents()), draft.value.user);
              var now := Ledger.AccountOf(billing.repo.Contents(), draft.value.user);
              && now.available == was.available - (if status == Ledger.Refunded then 0 else draft.value.amount)
              && now.reserved == was.reserved + (if status == Ledger.Uncertain then draft.value.amount else 0)
  {
    hide Whole, Complete, Ledger.Inv;
    RefundsExactly(exchange, limit);
    order, sent, status, logFailed, writeFailed := None, false, Ledger.Reserved, false, false;
    if paid {
      var unused := billing.PrepareProxyBillingIdempotency(user, key, quiet);
      if !unused {
        return;
      }
    }
    if !exchange.slotFree || exchange.lateForOrder {
      return;
    }
    if paid {
      order := billing.ReserveProxyBilling(draft, quiet);
      if order.None? {
        return;
      }
      var running := billing.MarkBillingRunning(order, quiet);
      if !running {
        var refunded := billing.RefundBillingFromExecution(order, Ledger.Reserved, quiet);
        status := if refunded then Ledger.Refunded else Ledger.Reserved;
        return;
      }
    }
    status := Ledger.Running;
    if !exchange.buildable || exchange.lateForSend {
      var refunded := billing.RefundBillingFromExecution(order, Ledger.Running, quiet);
      status := if refunded then Ledger.Refunded else Ledger.Running;
      return;
    }
    sent := true;
    status, logFailed, writeFailed :=
      ProxyAnswer(billing, quiet, order, exchange.answer, streamRequested, limit, lib, validJson, writer);
  }
}
