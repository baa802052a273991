/**
 * One task row under claims, leases, provider-call marks, cancels, manual recovery and retry:
 * repository/repository.go.
 */
module TaskLease {
  import opened Wrappers

  datatype Status = Queued | Running | Succeeded | Failed | Cancelled

  /** `Blank` is the empty or NULL value of old rows, `Prepared` a value only old rows hold. */
  datatype CallState = Blank | Pending | Preflight | Dispatched | Prepared

  /** Worker ids and manual-recovery ids, the latter marked by their prefix in the database. */
  datatype Owner = NoOwner | Worker(id: nat) | Recovery(id: nat)

  datatype Row = Row(status: Status, owner: Owner, leaseUntil: Option<int>, nextPoll: Option<int>, callState: CallState,
                     attempts: nat, billing: Option<nat>)

  datatype Op =
    | Claim(owner: Owner, now: int, lease: int)
    | Renew(owner: Owner, now: int, lease: int)
    | ClaimedWrite(owner: Owner, poll: Option<int>)
    | Prepare(owner: Owner, now: int, lease: int)
    | Dispatch(owner: Owner, now: int)
    | Defer(owner: Owner, poll: Option<int>)
    | Finish(owner: Owner, expected: Status, saved: Row)
    | Cancel(expected: Status, allowed: Option<set<CallState>>)
    | RecoveryClaim(owner: Owner, now: int, lease: int)
    | RecoveryRenew(owner: Owner, now: int, lease: int)
    | RecoveryWrite(owner: Owner, poll: Option<int>)
    | RecoveryRelease(owner: Owner)
    | RequestLog(poll: Option<int>)
    | Retry(now: int, billing: Option<nat>)

  predicate Due(at: Option<int>, now: int) {
    at.None? || at.value <= now
  }

  predicate Ended(status: Status) {
    status == Failed || status == Cancelled
  }

  predicate LiveRecovery(row: Row, now: int) {
    row.owner.Recovery? && !Due(row.leaseUntil, now)
  }

  predicate Holds(row: Row, owner: Owner) {
    owner != NoOwner && row.owner == owner
  }

  predicate LiveHold(row: Row, owner: Owner, now: int) {
    row.status == Running && Holds(row, owner) && !Due(row.leaseUntil, now)
  }

  /** The `WHERE` clause of each write. */
  predicate Enabled(row: Row, op: Op) {
    match op
    case Claim(_, now, _) =>
      row.status == Queued || (row.status == Running && Due(row.leaseUntil, now) && Due(row.nextPoll, now))
    case Renew(owner, _, _) => row.status == Running && Holds(row, owner)
    case ClaimedWrite(owner, _) => row.status == Running && Holds(row, owner)
    case Prepare(owner, now, lease) => lease > 0 && LiveHold(row, owner, now)
    case Dispatch(owner, now) =>
      LiveHold(row, owner, now) && row.callState in {Preflight, CallState.Dispatched, Prepared}
    case Defer(owner, _) => row.status == Running && Holds(row, owner)
    case Finish(owner, expected, _) => row.status == expected && Holds(row, owner)
    case Cancel(expected, allowed) => row.status == expected && (allowed.Some? ==> row.callState in allowed.value)
    case RecoveryClaim(_, now, _) => Ended(row.status) && Due(row.nextPoll, now) && !LiveRecovery(row, now)
    case RecoveryRenew(owner, _, _) => Ended(row.status) && Holds(row, owner)
    case RecoveryWrite(owner, _) => Ended(row.status) && Holds(row, owner)
    case RecoveryRelease(owner) => Holds(row, owner)
    case RequestLog(_) => row.status == Running || Ended(row.status)
    case Retry(now, _) => Ended(row.status) && !LiveRecovery(row, now)
  }

  /** The columns each write sets. */
  function Written(row: Row, op: Op): Row {
    match op
    case Claim(owner, now, lease) =>
      var taken := row.(status := Running, owner := owner, leaseUntil := Some(now + lease));
      if row.status == Queued then taken.(attempts := row.attempts + 1, callState := Pending) else taken
    case Renew(_, now, lease) => row.(leaseUntil := Some(now + lease))
    case ClaimedWrite(_, poll) => row.(nextPoll := poll)
    case Prepare(_, now, lease) =>
      row.(leaseUntil := Some(now + lease),
           callState := if row.callState in {Blank, Pending} then Preflight else row.callState)
    case Dispatch(_, _) => row.(callState := CallState.Dispatched)
    case Defer(_, poll) => row.(nextPoll := poll, owner := NoOwner, leaseUntil := None)
    case Finish(_, _, saved) => saved.(owner := NoOwner, leaseUntil := None)
    case Cancel(_, _) => row.(status := Cancelled, nextPoll := None, owner := NoOwner, leaseUntil := None)
    case RecoveryClaim(owner, now, lease) => row.(owner := owner, leaseUntil := Some(now + lease))
    case RecoveryRenew(_, now, lease) => row.(leaseUntil := Some(now + lease))
    case RecoveryWrite(_, poll) => row.(nextPoll := poll)
    case RecoveryRelease(_) => row.(owner := NoOwner, leaseUntil := None)
    case RequestLog(poll) => row.(nextPoll := poll)
    case Retry(_, billing) =>
      row.(status := Queued, owner := NoOwner, leaseUntil := None, nextPoll := None, callState := Pending,
           billing := billing)
  }

  function Apply(row: Row, op: Op): Row {
    if Enabled(row, op) then Written(row, op) else row
  }

  /** The task row with its guarded updates. */
  class TaskRecord {
    var status: Status
    var owner: Owner
    var leaseUntil: Option<int>
    var nextPoll: Option<int>
    var callState: CallState
    var attempts: nat
    var billing: Option<nat>

    function Columns(): Row
      reads this
    {
      Row(status, owner, leaseUntil, nextPoll, callState, attempts, billing)
    }

    constructor (order: Option<nat>)
      ensures Columns() == Row(Queued, NoOwner, None, None, Pending, 0, order)
    {
      status, owner, leaseUntil, nextPoll, callState, attempts, billing :=
        Queued, NoOwner, None, None, Pending, 0, order;
    }

    method ClaimNextTask(claimant: Owner, now: int, lease: int) returns (claimed: bool, recoveredLease: bool)
      modifies this
      ensures claimed == Enabled(old(Columns()), Claim(claimant, now, lease))
      ensures Columns() == Apply(old(Columns()), Claim(claimant, now, lease))
      ensures claimed <==>
              || old(status) == Queued
              || (old(status) == Running && (old(leaseUntil).Some? ==> old(leaseUntil).value <= now) &&
                  (old(nextPoll).Some? ==> old(nextPoll).value <= now))
      ensures claimed ==> status == Running && owner == claimant && leaseUntil == Some(now + lease)
      ensures claimed && old(status) == Queued ==> attempts == old(attempts) + 1 && callState == Pending
      ensures claimed && old(status) == Running ==> attempts == old(attempts) && callState == old(callState)
      ensures recoveredLease == (claimed && old(status) == Running)
    {
      claimed := status == Queued || (status == Running && Due(leaseUntil, now) && Due(nextPoll, now));
      recoveredLease := claimed && status == Running;
      if !claimed {
        return;
      }
      var nextAttempts := attempts;
      if status == Queued {
        nextAttempts := nextAttempts + 1;
        callState := Pending;
      }
      status, owner, leaseUntil, attempts := Running, claimant, Some(now + lease), nextAttempts;
    }

    method RenewTaskLease(holder: Owner, now: int, lease: int) returns (ok: bool)
      modifies this`leaseUntil
      ensures ok == Enabled(old(Columns()), Renew(holder, now, lease))
      ensures Columns() == Apply(old(Columns()), Renew(holder, now, lease))
      ensures ok <==> status == Running && owner == holder && holder != NoOwner
      ensures leaseUntil == if ok then Some(now + lease) else old(leaseUntil)
    {
      ok := status == Running && holder != NoOwner && owner == holder;
      if ok {
        leaseUntil := Some(now + lease);
      }
    }

    method PrepareClaimedTaskProviderCall(holder: Owner, now: int, lease: int) returns (ok: bool)
      modifies this`callState, this`leaseUntil
      ensures ok == Enabled(old(Columns()), Prepare(holder, now, lease))
      ensures Columns() == Apply(old(Columns()), Prepare(holder, now, lease))
      ensures ok <==>
              && lease > 0 && status == Running && owner == holder && holder != NoOwner
              && old(leaseUntil).Some? && now < old(leaseUntil).value
      ensures ok ==> leaseUntil == Some(now + lease)
      ensures callState == if ok && old(callState) in {Blank, Pending} then Preflight else old(callState)
    {
      if holder == NoOwner || lease <= 0 {
        return false;
      }
      ok := status == Running && owner == holder && leaseUntil.Some? && leaseUntil.value > now;
      if ok {
        if callState == Blank || callState == Pending {
          callState := Preflight;
        }
        leaseUntil := Some(now + lease);
      }
    }

    method MarkClaimedTaskProviderCallDispatched(holder: Owner, now: int) returns (ok: bool)
      modifies this`callState
      ensures ok == Enabled(old(Columns()), Dispatch(holder, now))
      ensures Columns() == Apply(old(Columns()), Dispatch(holder, now))
      ensures ok <==>
              && status == Running && owner == holder && holder != NoOwner && leaseUntil.Some? && now < leaseUntil.value
              && old(callState) in {Preflight, Prepared, CallState.Dispatched}
      ensures callState == if ok then CallState.Dispatched else old(callState)
    {
      if holder == NoOwner {
        return false;
      }
      ok := status == Running && owner == holder && leaseUntil.Some? && leaseUntil.value > now;
      ok := ok && callState in {Preflight, CallState.Dispatched, Prepared};
      if ok {
        callState := CallState.Dispatched;
      }
    }

    method DeferTaskProviderPoll(holder: Owner, poll: int) returns (ok: bool)
      modifies this
      ensures ok == Enabled(old(Columns()), Defer(holder, Some(poll)))
      ensures Columns() == Apply(old(Columns()), Defer(holder, Some(poll)))
      ensures ok <==> old(status) == Running && old(owner) == holder && holder != NoOwner
      ensures ok ==> status == Running && owner == NoOwner && leaseUntil == None && nextPoll == Some(poll)
    {
      ok := status == Running && holder != NoOwner && owner == holder;
      if ok {
        nextPoll, owner, leaseUntil := Some(poll), NoOwner, None;
      }
    }

    /** `saved` is the row object the owner read, now in its final state; it is written back whole. */
    method SaveTaskTerminal(saved: Row, expected: Status, holder: Owner) returns (ok: bool)
      requires saved.owner == NoOwner && saved.leaseUntil == None
      modifies this
      ensures var op := Finish(holder, expected, saved);
              ok == Enabled(old(Columns()), op) && Columns() == Apply(old(Columns()), op)
      ensures ok <==> old(status) == expected && old(owner) == holder && holder != NoOwner
      ensures Columns() == if ok then saved else old(Columns())
    {
      if holder == NoOwner {
        return false;
      }
      ok := status == expected && owner == holder;
      if !ok {
        return;
      }
      status := saved.status;
      owner, leaseUntil, nextPoll := saved.owner, saved.leaseUntil, saved.nextPoll;
      callState, attempts, billing := saved.callState, saved.attempts, saved.billing;
    }

    method CancelTaskIfStatus(expected: Status, allowed: Option<set<CallState>>) returns (cancelled: bool)
      modifies this
      ensures cancelled == Enabled(old(Columns()), Cancel(expected, allowed))
      ensures Columns() == Apply(old(Columns()), Cancel(expected, allowed))
      ensures cancelled <==> old(status) == expected && (allowed.Some? ==> old(callState) in allowed.value)
      ensures cancelled ==> status == Cancelled && owner == NoOwner && leaseUntil == None && nextPoll == None
      ensures callState == old(callState) && attempts == old(attempts) && billing == old(billing)
    {
      cancelled := status == expected;
      if allowed.Some? {
        cancelled := cancelled && callState in allowed.value;
      }
      if cancelled {
        status, nextPoll, owner, leaseUntil := Cancelled, None, NoOwner, None;
      }
    }

    method ClaimRecoverableTaskProviderRecovery(claimant: Owner, now: int, lease: int) returns (ok: bool)
      modifies this
      ensures var op := RecoveryClaim(claimant, now, lease);
              ok == Enabled(old(Columns()), op) && Columns() == Apply(old(Columns()), op)
      ensures ok <==>
              && (old(status) == Failed || old(status) == Cancelled)
              && (old(nextPoll).Some? ==> old(nextPoll).value <= now)
              && (old(owner).Recovery? && old(leaseUntil).Some? ==> old(leaseUntil).value <= now)
      ensures ok ==> owner == claimant && leaseUntil == Some(now + lease) && status == old(status)
    {
      ok := (status == Failed || status == Cancelled) && Due(nextPoll, now);
      ok := ok && (owner == NoOwner || !owner.Recovery? || leaseUntil.None? || leaseUntil.value <= now);
      if ok {
        owner, leaseUntil := claimant, Some(now + lease);
      }
    }

    method ReleaseTaskProviderRecovery(holder: Owner)
      modifies this
      ensures Columns() == Apply(old(Columns()), RecoveryRelease(holder))
      ensures if old(owner) == holder && holder != NoOwner then owner == NoOwner && leaseUntil == None
              else owner == old(owner) && leaseUntil == old(leaseUntil)
    {
      if holder != NoOwner && owner == holder {
        owner, leaseUntil := NoOwner, None;
      }
    }

    method RetryTask(now: int, order: Option<nat>) returns (ok: bool)
      modifies this
      ensures ok == Enabled(old(Columns()), Retry(now, order)) && Columns() == Apply(old(Columns()), Retry(now, order))
      ensures ok <==>
              && (old(status) == Failed || old(status) == Cancelled)
              && (old(owner).Recovery? && old(leaseUntil).Some? ==> old(leaseUntil).value <= now)
      ensures ok ==> status == Queued && owner == NoOwner && leaseUntil == None && nextPoll == None
      ensures ok ==> callState == Pending && billing == order && attempts == old(attempts)
    {
      ok := (status == Failed || status == Cancelled)
            && (owner == NoOwner || !owner.Recovery? || leaseUntil.None? || leaseUntil.value <= now);
      if ok {
        status, owner, leaseUntil, nextPoll, callState, billing := Queued, NoOwner, None, None, Pending, order;
      }
    }
  }

  // ---------------------------------------------------------------- runs

  /**
   * The row with its history: was a dispatch mark taken in this attempt, how often was it started, what each holder
   * last read.
   */
  datatype World = World(row: Row, dispatched: bool, starts: nat, read: map<Owner, Row>)

  datatype Event = Write(op: Op) | RecoveryRead(owner: Owner)

  function Start(order: Option<nat>): World {
    World(Row(Queued, NoOwner, None, None, Pending, 0, order), false, 0, map[])
  }

  function Step(w: World, e: Event): World {
    match e
    case RecoveryRead(owner) => w.(read := w.read[owner := w.row])
    case Write(op) =>
      if !Enabled(w.row, op) then w
      else
        var row := Written(w.row, op);
        var next := w.(row := row);
        match op
        case Claim(owner, _, _) =>
          next.(starts := w.starts + if w.row.status == Queued then 1 else 0, read := w.read[owner := row])
        case Dispatch(_, _) => next.(dispatched := true)
        case Retry(_, _) => next.(dispatched := false)
        case _ => next
  }

  /** Which calls there are: who claims what, which final states are saved from where, what a user can cancel. */
  predicate Shaped(e: Event) {
    match e
    case RecoveryRead(owner) => owner.Recovery?
    case Write(op) =>
      match op
      case Claim(owner, _, _) => owner.Worker?
      case RecoveryClaim(owner, _, _) => owner.Recovery?
      case Finish(_, expected, saved) =>
        if expected == Running then saved.status in {Succeeded, Failed, Cancelled}
        else Ended(expected) && saved.status in {Succeeded, Failed}
      case Cancel(expected, _) => expected == Queued || expected == Running
      case _ => true
  }

  predicate AllShaped(events: seq<Event>) {
    forall k :: 0 <= k < |events| ==> Shaped(events[k])
  }

  function Run(w: World, events: seq<Event>): World
    decreases |events|
  {
    if events == [] then w else Run(Step(w, events[0]), events[1..])
  }

  // ---------------------------------------------------------------- cancel against dispatch

  /** The row says of a running attempt whether it was dispatched; a queued task has not dispatched. */
  predicate DispatchRecorded(w: World) {
    && (w.row.status == Running ==> (w.dispatched <==> w.row.callState == CallState.Dispatched))
    && (w.row.status == Queued ==> !w.dispatched)
  }

  lemma {:induction false} RunRecordsDispatch(w: World, events: seq<Event>)
    requires DispatchRecorded(w) && AllShaped(events)
    ensures DispatchRecorded(Run(w, events))
    decreases |events|
  {
    if events != [] {
      RunRecordsDispatch(Step(w, events[0]), events[1..]);
    }
  }

  /** Without a retry an attempt that has ended dispatches nothing more. */
  lemma {:induction false} EndedDispatchesNothing(w: World, events: seq<Event>)
    requires AllShaped(events) && w.row.status != Queued && w.row.status != Running
    requires forall k :: 0 <= k < |events| ==> events[k].Write? ==> !events[k].op.Retry?
    ensures Run(w, events).dispatched == w.dispatched
    ensures Run(w, events).row.status != Queued && Run(w, events).row.status != Running
    decreases |events|
  {
    if events != [] {
      EndedDispatchesNothing(Step(w, events[0]), events[1..]);
    }
  }

  const BEFORE_DISPATCH := {Pending, Preflight}

  /**
   * A cancel that demands pending or preflight and succeeds proves that nothing was or will be sent in this attempt.
   */
  lemma CancelExcludesDispatch(order: Option<nat>, before: seq<Event>, after: seq<Event>)
    requires AllShaped(before) && AllShaped(after)
    requires Enabled(Run(Start(order), before).row, Cancel(Running, Some(BEFORE_DISPATCH)))
    requires forall k :: 0 <= k < |after| ==> after[k].Write? ==> !after[k].op.Retry?
    ensures var w := Run(Start(order), before);
            !w.dispatched && !Run(Step(w, Write(Cancel(Running, Some(BEFORE_DISPATCH)))), after).dispatched
  {
    RunRecordsDispatch(Start(order), before);
    EndedDispatchesNothing(Step(Run(Start(order), before), Write(Cancel(Running, Some(BEFORE_DISPATCH)))), after);
  }

  /** A worker that saves its task as cancelled saves the dispatch mark it finds in the row. */
  predicate SavesTheMark(w: World, e: Event) {
    e.Write? && e.op.Finish? && Enabled(w.row, e.op) && e.op.saved.status == Cancelled ==>
      (w.row.callState == CallState.Dispatched ==> e.op.saved.callState == CallState.Dispatched)
  }

  predicate AllSaveTheMark(w: World, events: seq<Event>)
    decreases |events|
  {
    events != [] ==> SavesTheMark(w, events[0]) && AllSaveTheMark(Step(w, events[0]), events[1..])
  }

  /** A cancelled row of a dispatched attempt says so. */
  predicate CancelledRecorded(w: World) {
    w.dispatched && w.row.status == Cancelled ==> w.row.callState == CallState.Dispatched
  }

  lemma {:induction false} RunRecordsCancelled(w: World, events: seq<Event>)
    requires DispatchRecorded(w) && CancelledRecorded(w) && AllShaped(events) && AllSaveTheMark(w, events)
    ensures CancelledRecorded(Run(w, events))
    decreases |events|
  {
    if events != [] {
      RunRecordsDispatch(w, [events[0]]);
      assert [events[0]][1..] == [];
      RunRecordsCancelled(Step(w, events[0]), events[1..]);
    }
  }

  /** A cancelled row that says pending or preflight was never dispatched, whether a user or a worker cancelled it. */
  lemma CancelledUnsentRow(order: Option<nat>, events: seq<Event>)
    requires AllShaped(events) && AllSaveTheMark(Start(order), events)
    requires Run(Start(order), events).row.status == Cancelled
    requires Run(Start(order), events).row.callState in BEFORE_DISPATCH
    ensures !Run(Start(order), events).dispatched
  {
    RunRecordsCancelled(Start(order), events);
  }

  /**
   * After any run, one final save as cancelled keeps that record exactly when it saves the mark that stands in the
   * row.
   */
  lemma CancelledSaveExactly(order: Option<nat>, events: seq<Event>, op: Op)
    requires AllShaped(events) && Enabled(Run(Start(order), events).row, op)
    requires op.Finish? && op.expected == Running && op.saved.status == Cancelled
    ensures var w := Run(Start(order), events);
            CancelledRecorded(Step(w, Write(op))) <==> SavesTheMark(w, Write(op))
  {
    RunRecordsDispatch(Start(order), events);
  }

  /** An id that claims twice: the copy of the first claim, saved as cancelled, hides the dispatch of the second. */
  lemma OldCopyHidesDispatch()
    ensures var finish := Write(Finish(Worker(1), Running, Row(Cancelled, NoOwner, None, None, Preflight, 1, None)));
            var w2 := Step(Step(Start(None), Write(Claim(Worker(1), 0, 9))), Write(Prepare(Worker(1), 0, 9)));
            var w4 := Step(Step(w2, Write(Claim(Worker(1), 9, 9))), Write(Dispatch(Worker(1), 10)));
            var w5 := Step(w4, finish);
            Shaped(finish) && w5.row.status == Cancelled && w5.row.callState in BEFORE_DISPATCH && w5.dispatched
  {
  }

  function Progress(state: CallState): nat {
    match state
    case Blank => 0
    case Pending => 0
    case Preflight => 1
    case Prepared => 1
    case Dispatched => 2
  }

  /** While an attempt runs its call state never moves backwards. */
  lemma CallStateOnlyAdvances(w: World, e: Event)
    requires Shaped(e) && w.row.status == Running && Step(w, e).row.status == Running
    ensures Progress(w.row.callState) <= Progress(Step(w, e).row.callState)
  {
  }

  // ---------------------------------------------------------------- fencing

  /** The owner on whose behalf a guarded write runs. */
  function ActsFor(op: Op): Owner {
    match op
    case Renew(owner, _, _) => owner
    case ClaimedWrite(owner, _) => owner
    case Prepare(owner, _, _) => owner
    case Dispatch(owner, _) => owner
    case Defer(owner, _) => owner
    case Finish(owner, _, _) => owner
    case RecoveryRenew(owner, _, _) => owner
    case RecoveryWrite(owner, _) => owner
    case RecoveryRelease(owner) => owner
    case _ => NoOwner
  }

  predicate ClaimsFor(e: Event, owner: Owner) {
    e.Write? && ((e.op.Claim? && e.op.owner == owner) || (e.op.RecoveryClaim? && e.op.owner == owner))
  }

  predicate Superseded(w: World, owner: Owner) {
    owner != NoOwner && w.row.owner != owner
  }

  /**
   * A claim by another owner, a defer, a finish, a cancel, a recovery claim, a release and a retry each supersede the
   * holder.
   */
  lemma TakesAway(w: World, op: Op, holder: Owner)
    requires Enabled(w.row, op) && !ClaimsFor(Write(op), holder) && holder != NoOwner
    requires op.Claim? || op.RecoveryClaim? || op.Defer? || op.Finish? || op.Cancel? || op.RecoveryRelease? || op.Retry?
    ensures Superseded(Step(w, Write(op)), holder)
  {
  }

  lemma {:induction false} SupersededForGood(w: World, events: seq<Event>, owner: Owner)
    requires Superseded(w, owner) && forall k :: 0 <= k < |events| ==> !ClaimsFor(events[k], owner)
    ensures Superseded(Run(w, events), owner)
    decreases |events|
  {
    if events != [] {
      SupersededForGood(Step(w, events[0]), events[1..], owner);
    }
  }

  /**
   * Once superseded, whatever happens next short of a new claim of its own, no write on behalf of the old owner
   * changes the row.
   */
  lemma Fenced(w: World, events: seq<Event>, late: Op)
    requires Superseded(w, ActsFor(late)) && forall k :: 0 <= k < |events| ==> !ClaimsFor(events[k], ActsFor(late))
    ensures Apply(Run(w, events).row, late) == Run(w, events).row
  {
    SupersededForGood(w, events, ActsFor(late));
  }

  /**
   * From a write on that takes the row away, whatever it is, the writes of the owner it was taken from change
   * nothing.
   */
  lemma FencedSince(w: World, op: Op, events: seq<Event>, late: Op)
    requires Enabled(w.row, op) && ActsFor(late) != NoOwner && !ClaimsFor(Write(op), ActsFor(late))
    requires op.Claim? || op.RecoveryClaim? || op.Defer? || op.Finish? || op.Cancel? || op.RecoveryRelease? || op.Retry?
    requires forall k :: 0 <= k < |events| ==> !ClaimsFor(events[k], ActsFor(late))
    ensures var after := Run(Step(w, Write(op)), events).row; Apply(after, late) == after
  {
    hide Step;
    TakesAway(w, op, ActsFor(late));
    Fenced(Step(w, Write(op)), events, late);
  }

  /** In a running task the writes of an owner are fenced off exactly when it does not hold the row. */
  lemma FencedExactly(row: Row, owner: Owner)
    requires owner != NoOwner && row.status == Running
    ensures (forall late :: ActsFor(late) == owner ==> Apply(row, late) == row) <==> row.owner != owner
  {
    var late := Finish(owner, Running, row.(status := Failed));
    if row.owner == owner {
      assert ActsFor(late) == owner && Apply(row, late).status == Failed;
    }
  }

  /** A lease taken over is fenced off exactly when the new claim comes under another id. */
  lemma TakeoverFencesExactly(row: Row, old': Owner, new': Owner, now: int, lease: int)
    requires old'.Worker? && new'.Worker? && row.owner == old' && row.status == Running
    requires Enabled(row, Claim(new', now, lease))
    ensures var taken := Apply(row, Claim(new', now, lease));
            (forall late :: ActsFor(late) == old' ==> Apply(taken, late) == taken) <==> old' != new'
  {
    FencedExactly(Apply(row, Claim(new', now, lease)), old');
  }

  // ---------------------------------------------------------------- what a live lease keeps

  function OpTime(op: Op): Option<int> {
    match op
    case Claim(_, now, _) => Some(now)
    case RecoveryClaim(_, now, _) => Some(now)
    case Retry(now, _) => Some(now)
    case _ => None
  }

  /**
   * While a worker's lease is live the task stays with that worker: whatever other workers, retries and recoveries try
   * before it ends, only a user's cancel takes the row away.
   */
  lemma {:induction false} WorkerHoldsTheTask(w: World, events: seq<Event>, until: int)
    requires w.row.owner.Worker? && w.row.status == Running && w.row.leaseUntil == Some(until)
    requires AllShaped(events)
    requires forall k :: 0 <= k < |events| && events[k].Write? ==>
               && ActsFor(events[k].op) != w.row.owner && !events[k].op.Cancel?
               && (OpTime(events[k].op).Some? ==> OpTime(events[k].op).value < until)
    ensures var w' := Run(w, events);
            && w'.row == w.row.(nextPoll := w'.row.nextPoll) && w'.starts == w.starts && w'.dispatched == w.dispatched
    decreases |events|
  {
    if events != [] {
      WorkerHoldsTheTask(Step(w, events[0]), events[1..], until);
    }
  }

  /** A running task is claimed exactly when no lease and no poll time lies ahead. */
  lemma RunningIsClaimedExactly(row: Row, claimant: Owner, now: int, lease: int)
    requires row.status == Running
    ensures Apply(row, Claim(claimant, now, lease)) ==
            if (row.leaseUntil.Some? && now < row.leaseUntil.value) || (row.nextPoll.Some? && now < row.nextPoll.value)
            then row
            else row.(owner := claimant, leaseUntil := Some(now + lease))
  {
  }

  /** A task given back until a poll time is left alone until then, by workers, recoveries and retries alike. */
  lemma {:induction false} DeferredWaits(w: World, events: seq<Event>, poll: int)
    requires w.row.status == Running && w.row.owner == NoOwner && w.row.nextPoll == Some(poll) && AllShaped(events)
    requires forall k :: 0 <= k < |events| && events[k].Write? ==>
               && !events[k].op.Cancel? && !events[k].op.RequestLog?
               && (OpTime(events[k].op).Some? ==> OpTime(events[k].op).value < poll)
    ensures Run(w, events).row == w.row && Run(w, events).starts == w.starts
    decreases |events|
  {
    if events != [] {
      DeferredWaits(Step(w, events[0]), events[1..], poll);
    }
  }

  /** What succeeded stays as it is, whatever is tried later. */
  lemma {:induction false} SucceededForGood(w: World, events: seq<Event>)
    requires w.row.status == Succeeded && w.row.owner == NoOwner && AllShaped(events)
    ensures Run(w, events).row == w.row && Run(w, events).starts == w.starts
    ensures Run(w, events).dispatched == w.dispatched
    decreases |events|
  {
    if events != [] {
      SucceededForGood(Step(w, events[0]), events[1..]);
    }
  }

  /** A provider call is sent only by the owner of a running task, under a live lease, and after it was announced. */
  lemma DispatchNeedsLease(w: World, e: Event)
    requires !w.dispatched && Step(w, e).dispatched
    ensures e.Write? && e.op.Dispatch? && w.row.status == Running && w.row.owner == e.op.owner != NoOwner
    ensures w.row.leaseUntil.Some? && e.op.now < w.row.leaseUntil.value
    ensures w.row.callState != Blank && w.row.callState != Pending
  {
  }

  // ---------------------------------------------------------------- attempts and orders

  /** Each start adds one to `attempts`, and nothing else but a final write touches it. */
  lemma AttemptsCountStarts(w: World, e: Event)
    requires !(e.Write? && e.op.Finish?)
    ensures var w' := Step(w, e);
            w'.row.attempts - w.row.attempts == w'.starts - w.starts
              == if w.row.status == Queued && w'.row.status == Running then 1 else 0
  {
  }

  /** The row object a final write saves is from the current attempt and names its order. */
  predicate SavesCurrent(w: World, e: Event) {
    e.Write? && e.op.Finish? && Enabled(w.row, e.op) ==>
      e.op.saved.attempts == w.row.attempts && e.op.saved.billing == w.row.billing
  }

  predicate AllSaveCurrent(w: World, events: seq<Event>)
    decreases |events|
  {
    events != [] ==> SavesCurrent(w, events[0]) && AllSaveCurrent(Step(w, events[0]), events[1..])
  }

  /** Where final writes save current copies the counter is the number of starts. */
  lemma {:induction false} AttemptsAreStarts(w: World, events: seq<Event>)
    requires w.row.attempts == w.starts && AllSaveCurrent(w, events)
    ensures Run(w, events).row.attempts == Run(w, events).starts
    decreases |events|
  {
    if events != [] {
      if !(events[0].Write? && events[0].op.Finish?) {
        AttemptsCountStarts(w, events[0]);
      }
      AttemptsAreStarts(Step(w, events[0]), events[1..]);
    }
  }

  /** One final write keeps the counter exact exactly when the copy it saves is of the current attempt. */
  lemma FinishKeepsAttemptsExactly(w: World, op: Op)
    requires op.Finish? && Enabled(w.row, op) && w.row.attempts == w.starts
    ensures Step(w, Write(op)).row.attempts == Step(w, Write(op)).starts <==> op.saved.attempts == w.row.attempts
  {
  }

  /** The holder last read the row in its current attempt. */
  predicate HolderIsCurrent(w: World) {
    && (w.row.owner != NoOwner ==>
          w.row.owner in w.read && w.read[w.row.owner].attempts == w.row.attempts
          && w.read[w.row.owner].billing == w.row.billing)
    && (w.row.owner.Worker? ==> w.row.status == Running)
  }

  /** A final write saves what its owner read last, and a manual recovery claims the attempt it read. */
  predicate ActsOnItsRead(w: World, e: Event) {
    e.Write? && Enabled(w.row, e.op) ==>
      match e.op
      case Finish(owner, _, saved) =>
        owner in w.read ==> saved.attempts == w.read[owner].attempts && saved.billing == w.read[owner].billing
      case RecoveryClaim(owner, _, _) =>
        owner in w.read && w.read[owner].attempts == w.row.attempts && w.read[owner].billing == w.row.billing
      case _ => true
  }

  predicate AllActOnTheirReads(w: World, events: seq<Event>)
    decreases |events|
  {
    events != [] ==> ActsOnItsRead(w, events[0]) && AllActOnTheirReads(Step(w, events[0]), events[1..])
  }

  lemma HolderStaysCurrent(w: World, e: Event)
    requires HolderIsCurrent(w) && Shaped(e) && ActsOnItsRead(w, e)
    ensures SavesCurrent(w, e) && HolderIsCurrent(Step(w, e))
  {
  }

  /**
   * If nobody saves an older copy than its last read, all saved copies are current, however often ids are used again.
   */
  lemma {:induction false} ReadsAreCurrent(w: World, events: seq<Event>)
    requires HolderIsCurrent(w) && AllShaped(events) && AllActOnTheirReads(w, events)
    ensures AllSaveCurrent(w, events)
    decreases |events|
  {
    hide HolderIsCurrent, SavesCurrent, ActsOnItsRead, Step, Shaped;
    if events != [] {
      HolderStaysCurrent(w, events[0]);
      ReadsAreCurrent(Step(w, events[0]), events[1..]);
    }
  }

  /** Attempt 1 ran and failed, a recovery read it, the user retried. */
  function ReadThenRetried(): World {
    var copy := Row(Failed, NoOwner, None, None, Preflight, 1, Some(1));
    var failed := Step(Step(Start(Some(1)), Write(Claim(Worker(1), 0, 9))), Write(Finish(Worker(1), Running, copy)));
    Step(Step(failed, RecoveryRead(Recovery(1))), Write(Retry(1, Some(2))))
  }

  lemma ReadThenRetriedIs()
    ensures var w := ReadThenRetried();
            && w.row == Row(Queued, NoOwner, None, None, Pending, 1, Some(2)) && !w.dispatched && w.starts == 1
            && Recovery(1) in w.read && w.read[Recovery(1)].attempts == 1 && w.read[Recovery(1)].billing == Some(1)
  {
  }

  /** That recovery then claims once attempt 2 has failed, and its final write restores attempt 1 and its order. */
  lemma StaleRecoveryRewinds()
    ensures var failed := Row(Failed, NoOwner, None, None, Preflight, 2, Some(2));
            var stale := Row(Succeeded, NoOwner, None, None, Preflight, 1, Some(1));
            var w5 := Step(ReadThenRetried(), Write(Claim(Worker(2), 2, 9)));
            var w6 := Step(w5, Write(Finish(Worker(2), Running, failed)));
            var w7 := Step(w6, Write(RecoveryClaim(Recovery(1), 3, 9)));
            var w8 := Step(w7, Write(Finish(Recovery(1), Failed, stale)));
            w8.row.status == Succeeded && w8.row.attempts == 1 && w8.starts == 2 && w6.row.billing == Some(2)
            && w8.row.billing == Some(1)
  {
    hide ReadThenRetried;
    ReadThenRetriedIs();
  }

  // ---------------------------------------------------------------- manual recovery

  /**
   * While a manual-recovery lease is live, only its owner ends it: no retry, claim, cancel or second recovery takes
   * the task.
   */
  lemma {:induction false} RecoveryHoldsTheTask(w: World, events: seq<Event>, until: int)
    requires AllShaped(events) && w.row.owner.Recovery? && Ended(w.row.status) && w.row.leaseUntil == Some(until)
    requires forall k :: 0 <= k < |events| && events[k].Write? ==>
               ActsFor(events[k].op) != w.row.owner
               && (OpTime(events[k].op).Some? ==> OpTime(events[k].op).value < until)
    ensures var w' := Run(w, events);
            w'.row == w.row.(nextPoll := w'.row.nextPoll) && w'.starts == w.starts
    decreases |events|
  {
    if events != [] {
      RecoveryHoldsTheTask(Step(w, events[0]), events[1..], until);
    }
  }
}
