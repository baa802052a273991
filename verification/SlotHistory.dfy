/**
 * What the runtime coordinator answers, told by the calls and answers so far and not by its tables:
 * service/coordination.go.
 */
module SlotHistory {
  import opened Coordinator
  import opened Wrappers

  /** A window told by the requests it admitted: when it ends, and how many there were. */
  datatype Admissions = Admissions(end: int, count: int)

  // ---------------------------------------------------------------- what the past says

  /** Until when a token was last given: by its acquisition or a renewal, unless it was given back or lost since. */
  function HeldUntil(past: seq<TimedCall>, answers: seq<Answer>, scope: string, token: string): Option<int>
    requires |past| == |answers|
  {
    if past == [] then None
    else
      var last, answer := past[|past| - 1], answers[|past| - 1];
      var before := HeldUntil(past[..|past| - 1], answers[..|past| - 1], scope, token);
      match last.call
      case Acquire(s, _, t, ttl) => if s == scope && t == token && answer == Yes then Some(last.now + ttl) else before
      case Renew(s, t, ttl) =>
        if s != scope || t != token || answer == BadTtl then before
        else if answer == Yes then Some(last.now + ttl)
        else None
      case Release(s, t) => if s == scope && t == token then None else before
      case Allow(_, _, _) => before
  }

  predicate StillHeld(until: Option<int>, now: int) {
    until.Some? && until.value > now
  }

  /** The tokens that were ever named in a scope. */
  function Named(past: seq<TimedCall>, scope: string): set<string> {
    set k | 0 <= k < |past| && (past[k].call.Acquire? || past[k].call.Renew?) && past[k].call.scope == scope ::
      past[k].call.token
  }

  /** Who holds a slot of the scope. */
  function Holders(past: seq<TimedCall>, answers: seq<Answer>, scope: string, now: int): set<string>
    requires |past| == |answers|
  {
    set t | t in Named(past, scope) && StillHeld(HeldUntil(past, answers, scope, t), now)
  }

  /** The window of a key: an admitted request opens one if none is running, and counts in the one that runs. */
  function WindowOf(past: seq<TimedCall>, answers: seq<Answer>, key: string): Option<Admissions>
    requires |past| == |answers|
  {
    if past == [] then None
    else
      var last, answer := past[|past| - 1], answers[|past| - 1];
      var before := WindowOf(past[..|past| - 1], answers[..|past| - 1], key);
      if !last.call.Allow? || last.call.key != key || answer != Yes then before
      else if before.Some? && before.value.end > last.now then
        Some(Admissions(before.value.end, before.value.count + 1))
      else Some(Admissions(last.now + last.call.window, 1))
  }

  /** The answer that the past calls for. */
  predicate Justified(past: seq<TimedCall>, answers: seq<Answer>, next: TimedCall, answer: Answer)
    requires |past| == |answers|
  {
    match next.call
    case Acquire(scope, max, _, _) =>
      answer == if |Holders(past, answers, scope, next.now)| < max then Yes else No
    case Renew(scope, token, ttl) =>
      answer == if ttl <= 0 then BadTtl
                else if StillHeld(HeldUntil(past, answers, scope, token), next.now) then Yes
                else No
    case Release(_, _) => answer == Yes
    case Allow(key, limit, _) =>
      var window := WindowOf(past, answers, key);
      answer == if window.Some? && window.value.end > next.now && window.value.count >= limit then No else Yes
  }

  // ---------------------------------------------------------------- one call

  /** Until when the local maps hold a token, if that lies ahead. */
  function SlotUntil(l: Local, scope: string, token: string, now: int): Option<int> {
    if scope in l.slots && token in l.slots[scope] && l.slots[scope][token] > now then Some(l.slots[scope][token])
    else None
  }

  function IfAhead(until: Option<int>, now: int): Option<int> {
    if StillHeld(until, now) then until else None
  }

  lemma SweptSlot(l: Local, now: int, scope: string, token: string)
    ensures SlotUntil(Sweep(l, now), scope, token, now) == SlotUntil(l, scope, token, now)
  {
  }

  /** What one call does to one token. */
  lemma SlotStep(l: Local, call: Call, now: int, sweeping: bool, scope: string, token: string)
    ensures var (next, answer) := LocalStep(l, call, now, sweeping);
            SlotUntil(next, scope, token, now) ==
            if !call.Allow? && call.scope == scope && call.token == token then
              if call.Release? || (call.Renew? && answer == No) then None
              else if answer == Yes then IfAhead(Some(now + call.ttl), now)
              else SlotUntil(l, scope, token, now)
            else SlotUntil(l, scope, token, now)
  {
    hide Sweep, LocalAllow, LocalAcquire, LocalRenew, Without, Live;
    SweptSlot(l, now, scope, token);
    var base := if sweeping then Sweep(l, now) else l;
    match call
    case Allow(key, limit, window) => assert LocalAllow(base, key, limit, window, now).0.slots == base.slots by {
      AllowKeepsSlots(base, key, limit, window, now);
    }
    case Acquire(s, max, t, ttl) => AcquireSlot(base, s, max, t, ttl, now, scope, token);
    case Renew(s, t, ttl) => RenewedSlot(l, s, t, ttl, now, scope, token);
    case Release(s, t) => RemovedSlot(l, s, t, now, scope, token);
  }

  lemma RemovedSlot(l: Local, s: string, t: string, now: int, scope: string, token: string)
    ensures SlotUntil(Without(l, s, t), scope, token, now)
         == if s == scope && t == token then None else SlotUntil(l, scope, token, now)
  {
    var rest := SlotsOf(l, s) - {t};
    assert SlotsOf(Without(l, s, t), scope) == if scope == s then rest else SlotsOf(l, scope);
    assert token in rest <==> token in SlotsOf(l, s) && token != t;
  }

  lemma RenewedSlot(l: Local, s: string, t: string, ttl: int, now: int, scope: string, token: string)
    ensures var (next, answer) := LocalRenew(l, s, t, ttl, now);
            SlotUntil(next, scope, token, now) ==
            if s == scope && t == token && answer == Yes then IfAhead(Some(now + ttl), now)
            else if s == scope && t == token && answer == No then None
            else SlotUntil(l, scope, token, now)
  {
    hide Without;
    RemovedSlot(l, s, t, now, scope, token);
  }

  lemma AllowKeepsSlots(l: Local, key: string, limit: int, window: int, now: int)
    ensures LocalAllow(l, key, limit, window, now).0.slots == l.slots
  {
  }

  lemma AcquireSlot(l: Local, s: string, max: int, t: string, ttl: int, now: int, scope: string, token: string)
    ensures var (next, answer) := LocalAcquire(l, s, max, t, ttl, now);
            SlotUntil(next, scope, token, now) ==
            if s == scope && t == token && answer == Yes then IfAhead(Some(now + ttl), now)
            else SlotUntil(l, scope, token, now)
  {
  }

  /** What one call does to the window of one key. */
  lemma WindowStep(l: Local, call: Call, now: int, sweeping: bool, key: string)
    ensures var (next, answer) := LocalStep(l, call, now, sweeping);
            LiveEntry(next, key, now) ==
            if call.Allow? && call.key == key && answer == Yes then
              if LiveEntry(l, key, now).Some? then
                Some(RateEntry(LiveEntry(l, key, now).value.expiresAt, LiveEntry(l, key, now).value.count + 1))
              else if call.window > 0 then Some(RateEntry(now + call.window, 1))
              else None
            else LiveEntry(l, key, now)
  {
    hide Live;
  }

  // ---------------------------------------------------------------- the tables say what the past says

  predicate EntryMatches(entry: Option<RateEntry>, window: Option<Admissions>, now: int) {
    if window.Some? && window.value.end > now then entry == Some(RateEntry(window.value.end, window.value.count))
    else entry == None
  }

  ghost predicate Told(l: Local, past: seq<TimedCall>, answers: seq<Answer>, now: int)
    requires |past| == |answers|
  {
    && (forall s, t :: SlotUntil(l, s, t, now) == IfAhead(HeldUntil(past, answers, s, t), now))
    && (forall k :: EntryMatches(LiveEntry(l, k, now), WindowOf(past, answers, k), now))
  }

  lemma ToldLater(l: Local, past: seq<TimedCall>, answers: seq<Answer>, now: int, later: int)
    requires |past| == |answers| && Told(l, past, answers, now) && now <= later
    ensures Told(l, past, answers, later)
  {
    hide HeldUntil, WindowOf;
    forall s, t ensures SlotUntil(l, s, t, later) == IfAhead(HeldUntil(past, answers, s, t), later) {
      assert SlotUntil(l, s, t, now) == IfAhead(HeldUntil(past, answers, s, t), now);
    }
    forall k ensures EntryMatches(LiveEntry(l, k, later), WindowOf(past, answers, k), later) {
      assert EntryMatches(LiveEntry(l, k, now), WindowOf(past, answers, k), now);
    }
  }

  lemma OneMoreCall(past: seq<TimedCall>, answers: seq<Answer>, c: TimedCall, answer: Answer)
    requires |past| == |answers|
    ensures var longer, more := past + [c], answers + [answer];
            longer[..|longer| - 1] == past && more[..|longer| - 1] == answers
            && longer[|longer| - 1] == c && more[|longer| - 1] == answer
  {
  }

  lemma StepTold(l: Local, past: seq<TimedCall>, answers: seq<Answer>, c: TimedCall, sweeping: bool)
    requires |past| == |answers| && Told(l, past, answers, c.now)
    ensures var (next, answer) := LocalStep(l, c.call, c.now, sweeping);
            Told(next, past + [c], answers + [answer], c.now)
  {
    hide LocalStep, SlotUntil, LiveEntry;
    var (next, answer) := LocalStep(l, c.call, c.now, sweeping);
    OneMoreCall(past, answers, c, answer);
    forall s, t
      ensures SlotUntil(next, s, t, c.now) == IfAhead(HeldUntil(past + [c], answers + [answer], s, t), c.now) {
      SlotStep(l, c.call, c.now, sweeping, s, t);
    }
    forall k ensures EntryMatches(LiveEntry(next, k, c.now), WindowOf(past + [c], answers + [answer], k), c.now) {
      WindowStep(l, c.call, c.now, sweeping, k);
    }
  }

  lemma {:induction false} HeldWasNamed(past: seq<TimedCall>, answers: seq<Answer>, scope: string, token: string)
    requires |past| == |answers| && HeldUntil(past, answers, scope, token).Some?
    ensures token in Named(past, scope)
  {
    var last := past[|past| - 1];
    if !((last.call.Acquire? || last.call.Renew?) && last.call.scope == scope && last.call.token == token) {
      HeldWasNamed(past[..|past| - 1], answers[..|past| - 1], scope, token);
      NamedBefore(past, scope);
    }
  }

  lemma NamedBefore(past: seq<TimedCall>, scope: string)
    requires past != []
    ensures Named(past[..|past| - 1], scope) <= Named(past, scope)
  {
    forall t | t in Named(past[..|past| - 1], scope) ensures t in Named(past, scope) {
      var k :| 0 <= k < |past| - 1 && (past[k].call.Acquire? || past[k].call.Renew?) && past[k].call.scope == scope
               && past[k].call.token == t;
      assert past[k].call.token in Named(past, scope);
    }
  }

  /** The slots the tables count are those of the holders. */
  lemma CountedHolders(l: Local, past: seq<TimedCall>, answers: seq<Answer>, scope: string, now: int)
    requires |past| == |answers| && Told(l, past, answers, now)
    ensures Live(SlotsOf(l, scope), now).Keys == Holders(past, answers, scope, now)
  {
    hide HeldUntil, WindowOf, Named;
    forall t ensures t in Live(SlotsOf(l, scope), now) <==> t in Holders(past, answers, scope, now) {
      assert t in Live(SlotsOf(l, scope), now) <==> SlotUntil(l, scope, t, now).Some?;
      assert SlotUntil(l, scope, t, now) == IfAhead(HeldUntil(past, answers, scope, t), now);
      if HeldUntil(past, answers, scope, t).Some? {
        HeldWasNamed(past, answers, scope, t);
      }
    }
  }

  lemma SweptLive(l: Local, scope: string, now: int)
    ensures Live(SlotsOf(Sweep(l, now), scope), now) == Live(SlotsOf(l, scope), now)
  {
    LiveTwice(SlotsOf(l, scope), now);
  }

  lemma StepJustified(l: Local, past: seq<TimedCall>, answers: seq<Answer>, c: TimedCall, sweeping: bool)
    requires |past| == |answers| && Told(l, past, answers, c.now)
    ensures Justified(past, answers, c, LocalStep(l, c.call, c.now, sweeping).1)
  {
    hide HeldUntil, WindowOf, Holders;
    match c.call {
      case Allow(key, limit, _) =>
        assert EntryMatches(LiveEntry(l, key, c.now), WindowOf(past, answers, key), c.now);
      case Acquire(scope, max, _, _) =>
        hide Live, Sweep;
        SweptLive(l, scope, c.now);
        CountedHolders(l, past, answers, scope, c.now);
        var live := Live(SlotsOf(l, scope), c.now);
        assert |live| == |live.Keys|;
      case Renew(scope, token, _) =>
        assert SlotUntil(l, scope, token, c.now) == IfAhead(HeldUntil(past, answers, scope, token), c.now);
      case Release(_, _) =>
    }
  }

  // ---------------------------------------------------------------- every run

  lemma {:induction false} JustifiedFrom(l: Local, past: seq<TimedCall>, answers: seq<Answer>, calls: seq<TimedCall>,
                                         now: int, sweeping: bool)
    requires |past| == |answers| && Told(l, past, answers, now) && Ordered(calls) && From(calls, now)
    ensures |LocalAnswers(l, calls, sweeping)| == |calls|
    ensures forall k :: 0 <= k < |calls| ==>
              Justified(past + calls[..k], answers + LocalAnswers(l, calls, sweeping)[..k], calls[k],
                        LocalAnswers(l, calls, sweeping)[k])
    decreases |calls|
  {
    hide Told, Justified, LocalStep;
    if calls != [] {
      var c := calls[0];
      var (next, answer) := LocalStep(l, c.call, c.now, sweeping);
      ToldLater(l, past, answers, now, c.now);
      StepTold(l, past, answers, c, sweeping);
      StepJustified(l, past, answers, c, sweeping);
      JustifiedFrom(next, past + [c], answers + [answer], calls[1..], c.now, sweeping);
      var all, rest := LocalAnswers(l, calls, sweeping), LocalAnswers(next, calls[1..], sweeping);
      forall k | 0 <= k < |calls| ensures Justified(past + calls[..k], answers + all[..k], calls[k], all[k]) {
        if k == 0 {
          assert past + calls[..0] == past && answers + all[..0] == answers;
        } else {
          assert past + calls[..k] == past + [c] + calls[1..][..k - 1];
          assert answers + all[..k] == answers + [answer] + rest[..k - 1];
        }
      }
    }
  }

  /** Every answer of an ordered run is the one that the calls and answers before it call for. */
  lemma AnswersByHistory(calls: seq<TimedCall>, sweeping: bool)
    requires Ordered(calls)
    ensures var answers := LocalAnswers(EMPTY_LOCAL, calls, sweeping);
            && |answers| == |calls|
            && forall k :: 0 <= k < |calls| ==> Justified(calls[..k], answers[..k], calls[k], answers[k])
  {
    hide Justified, LocalStep;
    if calls != [] {
      JustifiedFrom(EMPTY_LOCAL, [], [], calls, calls[0].now, sweeping);
      var answers := LocalAnswers(EMPTY_LOCAL, calls, sweeping);
      forall k | 0 <= k < |calls| ensures Justified(calls[..k], answers[..k], calls[k], answers[k]) {
        assert [] + calls[..k] == calls[..k] && [] + answers[..k] == answers[..k];
      }
    }
  }

  /** And every answer of the Redis scripts, as long as no limit is raised. */
  lemma RedisAnswersByHistory(calls: seq<TimedCall>, lingers: bool)
    requires Ordered(calls) && NeverRaised(calls) && Quiet(EMPTY_REDIS, calls, lingers)
    ensures var answers := RedisAnswers(EMPTY_REDIS, calls, lingers);
            && |answers| == |calls|
            && forall k :: 0 <= k < |calls| ==> Justified(calls[..k], answers[..k], calls[k], answers[k])
  {
    hide Justified, LocalStep, RedisStep, NeverRaised, Quiet;
    SameAnswers(calls, true, lingers);
    AnswersByHistory(calls, true);
  }

  /** A call that says nothing about this token. */
  predicate Elsewhere(call: Call, scope: string, token: string) {
    call.Allow? || call.scope != scope || call.token != token
  }

  lemma {:induction false} StaysHeld(calls: seq<TimedCall>, answers: seq<Answer>, i: nat, j: nat)
    requires |calls| == |answers| && i < j <= |calls| && calls[i].call.Acquire? && answers[i] == Yes
    requires forall k :: i < k < j ==> Elsewhere(calls[k].call, calls[i].call.scope, calls[i].call.token)
    ensures HeldUntil(calls[..j], answers[..j], calls[i].call.scope, calls[i].call.token)
         == Some(calls[i].now + calls[i].call.ttl)
    decreases j
  {
    assert calls[..j][..j - 1] == calls[..j - 1] && answers[..j][..j - 1] == answers[..j - 1];
    if i < j - 1 {
      StaysHeld(calls, answers, i, j - 1);
    }
  }

  /**
   * A lease that was given lasts: as long as no other call names its token, a renewal before its end succeeds,
   * whatever else is called in between.
   */
  lemma LeasesLast(calls: seq<TimedCall>, answers: seq<Answer>, sweeping: bool, i: nat, j: nat)
    requires Ordered(calls) && answers == LocalAnswers(EMPTY_LOCAL, calls, sweeping)
    requires i < j < |calls| && |answers| == |calls|
    requires calls[i].call.Acquire? && answers[i] == Yes && calls[j].call.Renew? && calls[j].call.ttl > 0
    requires calls[j].call.scope == calls[i].call.scope && calls[j].call.token == calls[i].call.token
    requires calls[j].now < calls[i].now + calls[i].call.ttl
    requires forall k :: i < k < j ==> Elsewhere(calls[k].call, calls[i].call.scope, calls[i].call.token)
    ensures answers[j] == Yes
  {
    hide LocalStep, HeldUntil, Elsewhere;
    AnswersByHistory(calls, sweeping);
    StaysHeld(calls, answers, i, j);
    assert Justified(calls[..j], answers[..j], calls[j], answers[j]);
  }
}
