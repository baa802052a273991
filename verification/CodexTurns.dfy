/**
 * How started turns are settled, against what the messages alone say: `CodexAppClient` in canvas-agent/src/agents.ts.
 */
module CodexTurns {
  import opened Text
  import opened LineFraming
  import opened Wrappers

  // ---------------------------------------------------------------- requests and turns

  /** What a line decodes to, as far as it matters here. */
  datatype Message =
    | Reply(id: nat, turn: string)
    | ErrorReply(id: nat, text: string)
    | ServerRequest(id: nat)
    | TurnCompleted(turn: string, error: Option<string>)
    | Other

  /** A started turn is awaited by its call, any other request by its own caller. */
  datatype Waiter = Turn(call: nat) | Plain

  datatype Result = Ok(turn: string) | Err(text: string)

  /** A call whose answer has arrived and whose continuation has not run yet. */
  datatype Ready = Ready(call: nat, result: Result)

  datatype Outcome = Resolved | Rejected(text: string)

  const NO_TURN_ID := "Codex app-server \U{6ca1}\U{6709}\U{8fd4}\U{56de} turn id"

  /** The fields of the client, the continuations due, and what the promise of each call was settled with. */
  datatype Client = Client(nextId: nat, pending: map<nat, Waiter>, activeTurns: map<string, nat>,
                           completedTurns: map<string, Option<string>>, ready: seq<Ready>,
                           ids: seq<nat>, settled: seq<seq<Outcome>>)

  const NEW_CLIENT := Client(1, map[], map[], map[], [], [], [])

  function Carries(m: Message): Option<nat> {
    match m
    case Reply(id, _) => Some(id)
    case ErrorReply(id, _) => Some(id)
    case ServerRequest(id) => Some(id)
    case _ => None
  }

  /** A message that carries the id of a pending request is taken for its answer, a request of the server too. */
  function ResultOf(m: Message): Result {
    match m
    case Reply(_, turn) => Ok(turn)
    case ErrorReply(_, text) => Err(text)
    case _ => Ok("")
  }

  function OutcomeOf(error: Option<string>): Outcome {
    if error.Some? then Rejected(error.value) else Resolved
  }

  function Settle(c: Client, call: nat, outcome: Outcome): Client {
    if call < |c.settled| then c.(settled := c.settled[call := c.settled[call] + [outcome]]) else c
  }

  function Request(c: Client, waiter: Waiter): Client {
    c.(nextId := c.nextId + 1, pending := c.pending[c.nextId := waiter])
  }

  /** The part of `startTurn` up to its first await. */
  function StartTurn(c: Client): Client {
    Request(c, Turn(|c.ids|)).(ids := c.ids + [c.nextId], settled := c.settled + [[]])
  }

  /** Take a request out of the pending ones; a started turn goes on later. */
  function Answer(c: Client, id: nat, result: Result): Client
    requires id in c.pending
  {
    var rest := c.(pending := c.pending - {id});
    match c.pending[id]
    case Plain => rest
    case Turn(call) => rest.(ready := c.ready + [Ready(call, result)])
  }

  function Handle(c: Client, m: Message): Client {
    if Carries(m).Some? && Carries(m).value in c.pending then Answer(c, Carries(m).value, ResultOf(m))
    else if m.TurnCompleted? then Notify(c, m.turn, m.error)
    else c
  }

  function Notify(c: Client, turn: string, error: Option<string>): Client {
    if turn in c.activeTurns then
      Settle(c.(activeTurns := c.activeTurns - {turn}), c.activeTurns[turn], OutcomeOf(error))
    else if turn != "" then c.(completedTurns := c.completedTurns[turn := error])
    else c
  }

  /** The part of `startTurn` behind its first await. */
  function Continue(c: Client, call: nat, result: Result): Client {
    match result
    case Err(text) => Settle(c, call, Rejected(text))
    case Ok(turn) =>
      if turn == "" then Settle(c, call, Rejected(NO_TURN_ID))
      else if turn in c.completedTurns then
        Settle(c.(completedTurns := c.completedTurns - {turn}), call, OutcomeOf(c.completedTurns[turn]))
      else c.(activeTurns := c.activeTurns[turn := call])
  }

  function HandleAll(c: Client, ms: seq<Message>): Client
    decreases |ms|
  {
    if ms == [] then c else HandleAll(Handle(c, ms[0]), ms[1..])
  }

  /** Continuations run when the whole chunk is handled, in the order their answers came. */
  function Drain(c: Client): Client
    decreases |c.ready|
  {
    if c.ready == [] then c else Drain(Continue(c.(ready := c.ready[1..]), c.ready[0].call, c.ready[0].result))
  }

  function RejectAll(c: Client, calls: set<nat>, text: string): Client {
    c.(pending := map[], activeTurns := map[],
       settled := seq(|c.settled|, k requires 0 <= k < |c.settled| =>
                      if k in calls then c.settled[k] + [Rejected(text)] else c.settled[k]))
  }

  /** The process is gone: everything still waiting is rejected. */
  function FailAll(c: Client, text: string): Client {
    RejectAll(c, (set id | id in c.pending && c.pending[id].Turn? :: c.pending[id].call) + c.activeTurns.Values, text)
  }

  // ---------------------------------------------------------------- what should become of a turn

  datatype Event = Requested(id: nat) | Got(message: Message)

  /** The first message after its request that carries its id. */
  function AnswerTo(h: seq<Event>, id: nat): Option<Message> {
    if h == [] then None
    else
      var before, last := h[..|h| - 1], h[|h| - 1];
      if AnswerTo(before, id).Some? then AnswerTo(before, id)
      else if last.Got? && Carries(last.message) == Some(id) && Requested(id) in before then Some(last.message)
      else None
  }

  function Completion(h: seq<Event>, turn: string): Option<Option<string>> {
    if h == [] then None
    else
      var before, last := h[..|h| - 1], h[|h| - 1];
      if Completion(before, turn).Some? then Completion(before, turn)
      else if last.Got? && last.message.TurnCompleted? && last.message.turn == turn then Some(last.message.error)
      else None
  }

  /** What the caller of `startTurn` should see, told from the messages alone. */
  function Expected(h: seq<Event>, id: nat): Option<Outcome> {
    var answer := AnswerTo(h, id);
    if answer.None? then None
    else
      match ResultOf(answer.value)
      case Err(text) => Some(Rejected(text))
      case Ok(turn) =>
        if turn == "" then Some(Rejected(NO_TURN_ID))
        else if Completion(h, turn).Some? then Some(OutcomeOf(Completion(h, turn).value))
        else None
  }

  function Completions(h: seq<Event>, turn: string): nat {
    if h == [] then 0
    else
      var last := h[|h| - 1];
      Completions(h[..|h| - 1], turn)
      + if last.Got? && last.message.TurnCompleted? && last.message.turn == turn then 1 else 0
  }

  function TurnOf(h: seq<Event>, id: nat): string {
    if AnswerTo(h, id).Some? && AnswerTo(h, id).value.Reply? then AnswerTo(h, id).value.turn else ""
  }

  /** The server gives each turn its own id and completes it at most once. */
  ghost predicate Orderly(h: seq<Event>) {
    && (forall turn :: turn != "" ==> Completions(h, turn) <= 1)
    && (forall i: nat, j: nat :: i != j && TurnOf(h, i) != "" ==> TurnOf(h, i) != TurnOf(h, j))
  }

  // ---------------------------------------------------------------- one more event

  lemma Later(h: seq<Event>, e: Event)
    ensures forall id: nat :: AnswerTo(h + [e], id) ==
              if AnswerTo(h, id).Some? then AnswerTo(h, id)
              else if e.Got? && Carries(e.message) == Some(id) && Requested(id) in h then Some(e.message) else None
    ensures forall turn :: Completion(h + [e], turn) ==
              if Completion(h, turn).Some? then Completion(h, turn)
              else if e.Got? && e.message.TurnCompleted? && e.message.turn == turn then Some(e.message.error) else None
    ensures forall turn :: Completions(h + [e], turn) ==
              Completions(h, turn) + if e.Got? && e.message.TurnCompleted? && e.message.turn == turn then 1 else 0
    ensures forall x :: x in h + [e] <==> x in h || x == e
  {
  }

  lemma {:induction false} CompletedIsCounted(h: seq<Event>, turn: string)
    ensures Completion(h, turn).Some? <==> Completions(h, turn) > 0
  {
    if h != [] {
      CompletedIsCounted(h[..|h| - 1], turn);
    }
  }

  lemma OrderlyBefore(h: seq<Event>, e: Event)
    requires Orderly(h + [e])
    ensures Orderly(h)
  {
    Later(h, e);
    forall turn | turn != "" ensures Completions(h, turn) <= 1 {
      assert Completions(h + [e], turn) <= 1;
    }
    forall i: nat, j: nat | i != j && TurnOf(h, i) != "" ensures TurnOf(h, i) != TurnOf(h, j) {
      assert TurnOf(h + [e], i) == TurnOf(h, i);
      assert TurnOf(h, j) != "" ==> TurnOf(h + [e], j) == TurnOf(h, j);
    }
  }

  lemma {:induction false} OrderlyPrefix(h: seq<Event>, more: seq<Event>)
    requires Orderly(h + more)
    ensures Orderly(h)
    decreases |more|
  {
    hide Orderly;
    if more == [] {
      assert h + more == h;
    } else {
      var front, last := more[..|more| - 1], more[|more| - 1];
      assert h + more == h + front + [last];
      OrderlyBefore(h + front, last);
      OrderlyPrefix(h, front);
    }
  }

  // ---------------------------------------------------------------- every call is in exactly one place

  /** Ids and pending requests agree with what was sent and answered. */
  ghost predicate Numbered(c: Client, h: seq<Event>) {
    && c.nextId >= 1 && |c.settled| == |c.ids|
    && (forall id: nat :: Requested(id) in h <==> 1 <= id < c.nextId)
    && (forall id: nat :: id in c.pending <==> Requested(id) in h && AnswerTo(h, id).None?)
    && (forall k :: 0 <= k < |c.ids| ==> 1 <= c.ids[k] < c.nextId)
    && (forall j, k :: 0 <= j < k < |c.ids| ==> c.ids[j] != c.ids[k])
    && (forall id: nat :: id in c.pending && c.pending[id].Turn? ==>
        c.pending[id].call < |c.ids| && c.ids[c.pending[id].call] == id)
    && (forall k :: 0 <= k < |c.ids| && c.ids[k] in c.pending ==> c.pending[c.ids[k]] == Turn(k))
  }

  ghost predicate IsReady(c: Client, k: nat) {
    exists i :: 0 <= i < |c.ready| && c.ready[i].call == k
  }

  predicate IsActive(c: Client, h: seq<Event>, k: nat)
    requires k < |c.ids|
  {
    TurnOf(h, c.ids[k]) in c.activeTurns && c.activeTurns[TurnOf(h, c.ids[k])] == k
  }

  ghost predicate Queued(c: Client, h: seq<Event>) {
    && (forall i, j :: 0 <= i < j < |c.ready| ==> c.ready[i].call != c.ready[j].call)
    && (forall i :: 0 <= i < |c.ready| ==>
          && c.ready[i].call < |c.ids| && |c.settled| == |c.ids|
          && c.settled[c.ready[i].call] == [] && !IsActive(c, h, c.ready[i].call)
          && AnswerTo(h, c.ids[c.ready[i].call]).Some?
          && c.ready[i].result == ResultOf(AnswerTo(h, c.ids[c.ready[i].call]).value))
  }

  ghost predicate Active(c: Client, h: seq<Event>) {
    forall turn :: turn in c.activeTurns ==>
      && turn != "" && Completion(h, turn).None?
      && c.activeTurns[turn] < |c.ids| == |c.settled| && c.settled[c.activeTurns[turn]] == []
      && TurnOf(h, c.ids[c.activeTurns[turn]]) == turn
  }

  /** Completions not handed to a call yet are kept. */
  ghost predicate Kept(c: Client, h: seq<Event>) {
    && (forall turn :: turn in c.completedTurns ==> turn != "" && Completion(h, turn) == Some(c.completedTurns[turn]))
    && (forall turn :: turn != "" && Completion(h, turn).Some? && turn !in c.completedTurns ==>
          exists k :: 0 <= k < |c.ids| == |c.settled| && TurnOf(h, c.ids[k]) == turn && c.settled[k] != [])
  }

  /** A call is settled once, as expected, or it waits for its answer, its continuation or its turn. */
  ghost predicate Placed(c: Client, h: seq<Event>, k: nat)
    requires k < |c.ids| == |c.settled|
  {
    if c.settled[k] == [] then AnswerTo(h, c.ids[k]).None? || IsReady(c, k) || IsActive(c, h, k)
    else Expected(h, c.ids[k]).Some? && c.settled[k] == [Expected(h, c.ids[k]).value]
  }

  ghost predicate Consistent(c: Client, h: seq<Event>) {
    && Numbered(c, h) && Queued(c, h) && Active(c, h) && Kept(c, h)
    && forall k :: 0 <= k < |c.ids| ==> Placed(c, h, k)
  }

  lemma StartConsistent()
    ensures Consistent(NEW_CLIENT, [])
  {
  }

  lemma ConsistentAtRest(c: Client, h: seq<Event>, k: nat)
    requires Consistent(c, h) && c.ready == [] && k < |c.ids|
    ensures |c.settled| == |c.ids|
    ensures c.settled[k] == if Expected(h, c.ids[k]).Some? then [Expected(h, c.ids[k]).value] else []
  {
    assert Placed(c, h, k);
  }

  lemma RequestSeen(h: seq<Event>, id: nat)
    ensures var h' := h + [Requested(id)];
            && (forall other: nat :: AnswerTo(h', other) == AnswerTo(h, other))
            && (forall other: nat :: TurnOf(h', other) == TurnOf(h, other))
            && (forall other: nat :: Expected(h', other) == Expected(h, other))
            && (forall turn :: Completion(h', turn) == Completion(h, turn))
            && (forall x :: x in h' <==> x in h || x == Requested(id))
  {
  }

  lemma SamePlace(c: Client, h: seq<Event>, c': Client, h': seq<Event>, k: nat)
    requires k < |c.ids| == |c.settled| && k < |c'.ids| == |c'.settled| && c'.ids[k] == c.ids[k]
    requires c'.settled[k] == c.settled[k]
    requires Placed(c, h, k) && AnswerTo(h', c.ids[k]) == AnswerTo(h, c.ids[k])
    requires Expected(h', c.ids[k]) == Expected(h, c.ids[k])
    requires IsReady(c, k) ==> IsReady(c', k)
    requires IsActive(c, h, k) ==> IsActive(c', h', k)
    ensures Placed(c', h', k)
  {
  }

  lemma {:induction false} AnswersAreRequested(h: seq<Event>, id: nat)
    ensures AnswerTo(h, id).Some? ==> Requested(id) in h
  {
    if h != [] {
      AnswersAreRequested(h[..|h| - 1], id);
    }
  }

  /** A completion stays accounted for while calls are only added and settled. */
  lemma KeptStays(c: Client, h: seq<Event>, c': Client, h': seq<Event>)
    requires Kept(c, h) && |c.ids| == |c.settled| && |c'.ids| == |c'.settled| && |c.ids| <= |c'.ids|
    requires c'.completedTurns == c.completedTurns && forall turn :: Completion(h', turn) == Completion(h, turn)
    requires forall k :: 0 <= k < |c.ids| ==> c'.ids[k] == c.ids[k] && (c.settled[k] != [] ==> c'.settled[k] != [])
    requires forall k :: 0 <= k < |c.ids| && TurnOf(h, c.ids[k]) != "" ==> TurnOf(h', c.ids[k]) == TurnOf(h, c.ids[k])
    ensures Kept(c', h')
  {
  }

  lemma RequestNumbered(c: Client, h: seq<Event>)
    requires Numbered(c, h)
    ensures Numbered(Request(c, Plain), h + [Requested(c.nextId)])
  {
    hide AnswerTo, Completion, Completions, Expected, TurnOf;
    RequestSeen(h, c.nextId);
    AnswersAreRequested(h, c.nextId);
  }

  lemma RequestQueued(c: Client, h: seq<Event>)
    requires |c.settled| == |c.ids| && Queued(c, h) && Active(c, h)
    ensures Queued(Request(c, Plain), h + [Requested(c.nextId)]) && Active(Request(c, Plain), h + [Requested(c.nextId)])
  {
    hide AnswerTo, Completion, Completions, Expected, TurnOf, ResultOf;
    RequestSeen(h, c.nextId);
  }

  lemma RequestKeeps(c: Client, h: seq<Event>)
    requires Consistent(c, h)
    ensures Consistent(Request(c, Plain), h + [Requested(c.nextId)])
  {
    hide AnswerTo, Completion, Completions, Expected, TurnOf, Queued, Active, Kept;
    var c', h' := Request(c, Plain), h + [Requested(c.nextId)];
    RequestNumbered(c, h);
    RequestQueued(c, h);
    RequestSeen(h, c.nextId);
    KeptStays(c, h, c', h');
    forall k | 0 <= k < |c'.ids| ensures Placed(c', h', k) {
      SamePlace(c, h, c', h', k);
    }
  }

  lemma StartTurnNumbered(c: Client, h: seq<Event>)
    requires Numbered(c, h)
    ensures Numbered(StartTurn(c), h + [Requested(c.nextId)])
  {
    hide AnswerTo, Completion, Completions, Expected, TurnOf;
    RequestSeen(h, c.nextId);
    AnswersAreRequested(h, c.nextId);
  }

  lemma StartTurnQueued(c: Client, h: seq<Event>)
    requires |c.settled| == |c.ids| && Queued(c, h) && Active(c, h)
    ensures Queued(StartTurn(c), h + [Requested(c.nextId)]) && Active(StartTurn(c), h + [Requested(c.nextId)])
  {
  }

  lemma StartTurnPlaced(c: Client, h: seq<Event>, k: nat)
    requires Numbered(c, h) && k < |c.ids| + 1 && (k < |c.ids| ==> Placed(c, h, k))
    ensures Placed(StartTurn(c), h + [Requested(c.nextId)], k)
  {
    hide AnswerTo, Completion, Completions, Expected, TurnOf;
    RequestSeen(h, c.nextId);
    AnswersAreRequested(h, c.nextId);
    if k < |c.ids| {
      SamePlace(c, h, StartTurn(c), h + [Requested(c.nextId)], k);
    }
  }

  lemma StartTurnKeeps(c: Client, h: seq<Event>)
    requires Consistent(c, h)
    ensures Consistent(StartTurn(c), h + [Requested(c.nextId)])
  {
    hide AnswerTo, Completion, Completions, Expected, TurnOf, Queued, Active, Kept, Placed;
    var c', h' := StartTurn(c), h + [Requested(c.nextId)];
    StartTurnNumbered(c, h);
    StartTurnQueued(c, h);
    RequestSeen(h, c.nextId);
    KeptStays(c, h, c', h');
    forall k | 0 <= k < |c'.ids| ensures Placed(c', h', k) {
      StartTurnPlaced(c, h, k);
    }
  }

  lemma AnswerSeen(h: seq<Event>, m: Message, id: nat)
    requires Carries(m) == Some(id) && Requested(id) in h && AnswerTo(h, id).None?
    ensures var h' := h + [Got(m)];
            && AnswerTo(h', id) == Some(m) && TurnOf(h, id) == "" && Expected(h, id).None?
            && (forall other: nat :: other != id ==> AnswerTo(h', other) == AnswerTo(h, other))
            && (forall other: nat :: other != id ==> TurnOf(h', other) == TurnOf(h, other))
            && (forall other: nat :: other != id ==> Expected(h', other) == Expected(h, other))
            && (forall turn :: Completion(h', turn) == Completion(h, turn))
            && (forall x :: x in h' <==> x in h || x == Got(m))
  {
  }

  lemma AnswerNumbered(c: Client, h: seq<Event>, m: Message, id: nat)
    requires Numbered(c, h) && Carries(m) == Some(id) && id in c.pending
    ensures Numbered(Answer(c, id, ResultOf(m)), h + [Got(m)])
  {
  }

  lemma AnswerQueued(c: Client, h: seq<Event>, m: Message, id: nat)
    requires Numbered(c, h) && Queued(c, h) && Active(c, h) && Carries(m) == Some(id) && id in c.pending
    requires forall k :: 0 <= k < |c.ids| ==> Placed(c, h, k)
    ensures Queued(Answer(c, id, ResultOf(m)), h + [Got(m)])
    ensures Active(Answer(c, id, ResultOf(m)), h + [Got(m)])
  {
    hide AnswerTo, Completion, Completions, Expected, TurnOf, ResultOf;
    AnswerSeen(h, m, id);
    if c.pending[id].Turn? {
      assert Placed(c, h, c.pending[id].call);
    }
  }

  lemma AnswerPlaced(c: Client, h: seq<Event>, m: Message, id: nat, k: nat)
    requires Numbered(c, h) && Carries(m) == Some(id) && id in c.pending && k < |c.ids| && Placed(c, h, k)
    ensures Placed(Answer(c, id, ResultOf(m)), h + [Got(m)], k)
  {
    hide AnswerTo, Completion, Completions, Expected, TurnOf, ResultOf;
    var c', h' := Answer(c, id, ResultOf(m)), h + [Got(m)];
    AnswerSeen(h, m, id);
    if c.ids[k] == id {
      assert c'.ready[|c.ready|].call == k;
      assert IsReady(c', k);
    } else {
      ReadyStays(c, c', k);
      SamePlace(c, h, c', h', k);
    }
  }

  lemma AnswerKeeps(c: Client, h: seq<Event>, m: Message, id: nat)
    requires Consistent(c, h) && Carries(m) == Some(id) && id in c.pending
    ensures Consistent(Answer(c, id, ResultOf(m)), h + [Got(m)])
  {
    hide AnswerTo, Completion, Completions, Expected, TurnOf, ResultOf, Queued, Active, Kept, Placed;
    var c', h' := Answer(c, id, ResultOf(m)), h + [Got(m)];
    AnswerNumbered(c, h, m, id);
    AnswerQueued(c, h, m, id);
    AnswerSeen(h, m, id);
    KeptStays(c, h, c', h');
    forall k | 0 <= k < |c.ids| ensures Placed(c', h', k) {
      AnswerPlaced(c, h, m, id, k);
    }
  }

  lemma ReadyStays(c: Client, c': Client, k: nat)
    requires c.ready <= c'.ready
    ensures IsReady(c, k) ==> IsReady(c', k)
  {
  }

  lemma CompletedSeen(h: seq<Event>, turn: string, error: Option<string>)
    requires Orderly(h + [Got(TurnCompleted(turn, error))])
    ensures var h' := h + [Got(TurnCompleted(turn, error))];
            && (turn != "" ==> Completion(h, turn).None? && Completion(h', turn) == Some(error))
            && (forall other :: other != turn ==> Completion(h', other) == Completion(h, other))
            && (forall id: nat :: AnswerTo(h', id) == AnswerTo(h, id))
            && (forall id: nat :: TurnOf(h', id) == TurnOf(h, id))
            && (forall id: nat :: TurnOf(h, id) != turn || turn == "" ==> Expected(h', id) == Expected(h, id))
            && (forall id: nat :: TurnOf(h, id) == turn && turn != "" ==>
                Expected(h, id).None? && Expected(h', id) == Some(OutcomeOf(error)))
            && (forall x :: x in h' <==> x in h || x == Got(TurnCompleted(turn, error)))
  {
    var e := Got(TurnCompleted(turn, error));
    Later(h, e);
    CompletedIsCounted(h, turn);
    assert turn != "" ==> Completions(h + [e], turn) <= 1;
  }

  lemma OtherTurns(c: Client, h: seq<Event>, turn: string, call: nat, k: nat)
    requires Numbered(c, h) && Orderly(h) && call < |c.ids| && k < |c.ids| && k != call && turn != ""
    requires TurnOf(h, c.ids[call]) == turn
    ensures TurnOf(h, c.ids[k]) != turn
  {
  }

  /** What a completion changes in the client. */
  lemma NotifyLeaves(c: Client, turn: string, error: Option<string>)
    requires |c.settled| == |c.ids|
    ensures var c', found := Notify(c, turn, error), turn in c.activeTurns;
            && c'.ids == c.ids && c'.ready == c.ready && |c'.settled| == |c.settled|
            && c'.activeTurns == (if found then c.activeTurns - {turn} else c.activeTurns)
            && c'.completedTurns == (if !found && turn != "" then c.completedTurns[turn := error] else c.completedTurns)
            && forall k :: 0 <= k < |c.ids| ==>
                 c'.settled[k] == c.settled[k] + if found && c.activeTurns[turn] == k then [OutcomeOf(error)] else []
  {
  }

  lemma NotifyNumbered(c: Client, h: seq<Event>, turn: string, error: Option<string>)
    requires Numbered(c, h) && Orderly(h + [Got(TurnCompleted(turn, error))])
    ensures Numbered(Notify(c, turn, error), h + [Got(TurnCompleted(turn, error))])
  {
    hide AnswerTo, Completion, Completions, Expected, TurnOf;
    CompletedSeen(h, turn, error);
  }

  lemma NotifyQueued(c: Client, h: seq<Event>, turn: string, error: Option<string>)
    requires Numbered(c, h) && Queued(c, h) && Active(c, h) && Orderly(h + [Got(TurnCompleted(turn, error))])
    ensures Queued(Notify(c, turn, error), h + [Got(TurnCompleted(turn, error))])
    ensures Active(Notify(c, turn, error), h + [Got(TurnCompleted(turn, error))])
  {
    hide AnswerTo, Completion, Completions, Expected, TurnOf, Orderly, Notify;
    CompletedSeen(h, turn, error);
    NotifyLeaves(c, turn, error);
  }

  lemma NotifyKept(c: Client, h: seq<Event>, turn: string, error: Option<string>)
    requires |c.settled| == |c.ids| && Active(c, h) && Kept(c, h) && Orderly(h + [Got(TurnCompleted(turn, error))])
    ensures Kept(Notify(c, turn, error), h + [Got(TurnCompleted(turn, error))])
  {
    hide AnswerTo, Completion, Completions, Expected, TurnOf, Orderly, Notify, ResultOf;
    var c', h' := Notify(c, turn, error), h + [Got(TurnCompleted(turn, error))];
    CompletedSeen(h, turn, error);
    NotifyLeaves(c, turn, error);
    forall t | t != "" && Completion(h', t).Some? && t !in c'.completedTurns
      ensures exists k :: 0 <= k < |c'.ids| == |c'.settled| && TurnOf(h', c'.ids[k]) == t && c'.settled[k] != []
    {
      if t == turn {
        assert TurnOf(h', c'.ids[c.activeTurns[turn]]) == t;
      } else {
        var k :| 0 <= k < |c.ids| && TurnOf(h, c.ids[k]) == t && c.settled[k] != [];
        assert TurnOf(h', c'.ids[k]) == t;
      }
    }
  }

  lemma NotifyPlaced(c: Client, h: seq<Event>, turn: string, error: Option<string>, k: nat)
    requires Numbered(c, h) && Queued(c, h) && Active(c, h) && Orderly(h + [Got(TurnCompleted(turn, error))])
    requires k < |c.ids| && Placed(c, h, k)
    ensures Placed(Notify(c, turn, error), h + [Got(TurnCompleted(turn, error))], k)
  {
    hide AnswerTo, Completion, Completions, Expected, TurnOf, Orderly, Notify, ResultOf;
    var c', h' := Notify(c, turn, error), h + [Got(TurnCompleted(turn, error))];
    CompletedSeen(h, turn, error);
    NotifyLeaves(c, turn, error);
    OrderlyBefore(h, Got(TurnCompleted(turn, error)));
    ReadyStays(c, c', k);
    if turn in c.activeTurns && c.activeTurns[turn] != k {
      OtherTurns(c, h, turn, c.activeTurns[turn], k);
    }
  }

  lemma NotifyKeeps(c: Client, h: seq<Event>, turn: string, error: Option<string>)
    requires Consistent(c, h) && Orderly(h + [Got(TurnCompleted(turn, error))])
    ensures Consistent(Notify(c, turn, error), h + [Got(TurnCompleted(turn, error))])
  {
    hide AnswerTo, Completion, Completions, Expected, TurnOf, Queued, Active, Kept, Placed, Orderly;
    var c', h' := Notify(c, turn, error), h + [Got(TurnCompleted(turn, error))];
    NotifyNumbered(c, h, turn, error);
    NotifyQueued(c, h, turn, error);
    NotifyKept(c, h, turn, error);
    forall k | 0 <= k < |c'.ids| ensures Placed(c', h', k) {
      NotifyPlaced(c, h, turn, error, k);
    }
  }

  lemma IgnoredKeeps(c: Client, h: seq<Event>, m: Message)
    requires Consistent(c, h) && !m.TurnCompleted? && (Carries(m).Some? ==> Carries(m).value !in c.pending)
    ensures Consistent(c, h + [Got(m)])
  {
    hide AnswerTo, Completion, Completions, Expected, TurnOf, Kept;
    var h' := h + [Got(m)];
    IgnoredSeen(h, m);
    KeptStays(c, h, c, h');
    assert Numbered(c, h') && Active(c, h') && Queued(c, h');
    forall k | 0 <= k < |c.ids| ensures Placed(c, h', k) {
      SamePlace(c, h, c, h', k);
    }
  }

  lemma IgnoredSeen(h: seq<Event>, m: Message)
    requires !m.TurnCompleted?
    requires Carries(m).Some? ==> Requested(Carries(m).value) !in h || AnswerTo(h, Carries(m).value).Some?
    ensures var h' := h + [Got(m)];
            && (forall id: nat :: AnswerTo(h', id) == AnswerTo(h, id))
            && (forall id: nat :: TurnOf(h', id) == TurnOf(h, id))
            && (forall id: nat :: Expected(h', id) == Expected(h, id))
            && (forall turn :: Completion(h', turn) == Completion(h, turn))
            && (forall x :: x in h' <==> x in h || x == Got(m))
  {
  }

  lemma HandleKeeps(c: Client, h: seq<Event>, m: Message)
    requires Consistent(c, h) && Orderly(h + [Got(m)])
    ensures Consistent(Handle(c, m), h + [Got(m)])
  {
    if Carries(m).Some? && Carries(m).value in c.pending {
      AnswerKeeps(c, h, m, Carries(m).value);
    } else if m.TurnCompleted? {
      NotifyKeeps(c, h, m.turn, m.error);
    } else {
      IgnoredKeeps(c, h, m);
    }
  }

  // ---------------------------------------------------------------- the continuations

  function Next(c: Client): Client
    requires c.ready != []
  {
    Continue(c.(ready := c.ready[1..]), c.ready[0].call, c.ready[0].result)
  }

  lemma TurnOfReady(h: seq<Event>, id: nat)
    ensures AnswerTo(h, id).Some? && ResultOf(AnswerTo(h, id).value).Ok? ==>
              TurnOf(h, id) == ResultOf(AnswerTo(h, id).value).turn
    ensures AnswerTo(h, id).None? || ResultOf(AnswerTo(h, id).value).Err? ==> TurnOf(h, id) == ""
  {
  }

  lemma NextNumbered(c: Client, h: seq<Event>)
    requires Numbered(c, h) && c.ready != []
    ensures Numbered(Next(c), h)
  {
    hide AnswerTo, Completion, Completions, Expected, TurnOf;
  }

  /** A turn that goes on and finds no completion is the only one with its id, and is not completed. */
  lemma NextTurn(c: Client, h: seq<Event>, turn: string)
    requires Consistent(c, h) && Orderly(h) && c.ready != [] && c.ready[0].result == Ok(turn) && turn != ""
    ensures c.ready[0].call < |c.ids| && TurnOf(h, c.ids[c.ready[0].call]) == turn && turn !in c.activeTurns
    ensures turn !in c.completedTurns ==> Completion(h, turn).None?
  {
  }

  lemma NextActive(c: Client, h: seq<Event>)
    requires Consistent(c, h) && Orderly(h) && c.ready != []
    ensures Active(Next(c), h)
  {
    hide AnswerTo, Completion, Completions, Expected, TurnOf, Orderly, Kept, Placed, ResultOf, Numbered;
    var r := c.ready[0];
    TurnOfReady(h, c.ids[r.call]);
    if r.result.Ok? && r.result.turn != "" {
      NextTurn(c, h, r.result.turn);
    }
  }

  /** What one continuation leaves alone. */
  lemma NextLeaves(c: Client)
    requires c.ready != [] && |c.settled| == |c.ids|
    ensures Next(c).ids == c.ids && |Next(c).settled| == |c.settled| && Next(c).ready == c.ready[1..]
    ensures forall k :: 0 <= k < |c.ids| && k != c.ready[0].call ==> Next(c).settled[k] == c.settled[k]
    ensures forall turn :: turn in Next(c).activeTurns ==>
              Next(c).activeTurns[turn] == c.ready[0].call ||
              (turn in c.activeTurns && Next(c).activeTurns[turn] == c.activeTurns[turn])
  {
  }

  lemma NextQueuedAt(c: Client, h: seq<Event>, i: nat)
    requires Numbered(c, h) && Queued(c, h) && c.ready != [] && 1 <= i < |c.ready|
    ensures var c', call := Next(c), c.ready[i].call;
            && call < |c'.ids| && |c'.settled| == |c'.ids| && c'.settled[call] == [] && !IsActive(c', h, call)
            && AnswerTo(h, c'.ids[call]).Some? && c.ready[i].result == ResultOf(AnswerTo(h, c'.ids[call]).value)
  {
    hide AnswerTo, TurnOf, ResultOf, Next;
    NextLeaves(c);
    assert c.ready[0].call != c.ready[i].call;
    assert !IsActive(c, h, c.ready[i].call);
  }

  lemma NextQueued(c: Client, h: seq<Event>)
    requires Consistent(c, h) && Orderly(h) && c.ready != []
    ensures Queued(Next(c), h)
  {
    hide AnswerTo, Expected, TurnOf, Orderly, Kept, Placed, ResultOf, Active, Next, IsActive;
    NextLeaves(c);
    var c' := Next(c);
    forall i | 0 <= i < |c'.ready|
      ensures c'.ready[i] == c.ready[i + 1] {
    }
    forall i | 0 <= i < |c'.ready|
      ensures var call := c'.ready[i].call;
              && call < |c'.ids| && |c'.settled| == |c'.ids| && c'.settled[call] == [] && !IsActive(c', h, call)
              && AnswerTo(h, c'.ids[call]).Some? && c'.ready[i].result == ResultOf(AnswerTo(h, c'.ids[call]).value) {
      NextQueuedAt(c, h, i + 1);
    }
  }

  /** A completion that a continuation takes away or leaves behind. */
  lemma NextCompletions(c: Client)
    requires c.ready != []
    ensures forall turn :: turn in Next(c).completedTurns ==>
              turn in c.completedTurns && Next(c).completedTurns[turn] == c.completedTurns[turn]
    ensures forall turn :: turn in c.completedTurns && turn !in Next(c).completedTurns ==>
              turn != "" && c.ready[0].result == Ok(turn)
              && (c.ready[0].call < |c.settled| ==> Next(c).settled[c.ready[0].call] != [])
  {
  }

  lemma SettledStays(c: Client, k: nat)
    requires c.ready != [] && k < |c.settled| && c.settled[k] != []
    ensures |Next(c).settled| == |c.settled| && Next(c).settled[k] != []
  {
  }

  lemma NextKept(c: Client, h: seq<Event>)
    requires Consistent(c, h) && Orderly(h) && c.ready != []
    ensures Kept(Next(c), h)
  {
    hide AnswerTo, Completion, Expected, TurnOf, Orderly, Placed, Active, ResultOf, Next, IsActive;
    var c', r := Next(c), c.ready[0];
    NextLeaves(c);
    NextCompletions(c);
    forall t | t != "" && Completion(h, t).Some? && t !in c'.completedTurns
      ensures exists k :: 0 <= k < |c'.ids| == |c'.settled| && TurnOf(h, c'.ids[k]) == t && c'.settled[k] != []
    {
      if t in c.completedTurns {
        NextTurn(c, h, t);
        assert TurnOf(h, c'.ids[r.call]) == t;
      } else {
        var k :| 0 <= k < |c.ids| && TurnOf(h, c.ids[k]) == t && c.settled[k] != [];
        SettledStays(c, k);
        assert TurnOf(h, c'.ids[k]) == t;
      }
    }
  }

  lemma ReadyMoves(c: Client, k: nat)
    requires c.ready != []
    ensures IsReady(c, k) && k != c.ready[0].call ==> IsReady(Next(c), k)
  {
  }

  lemma NextPlaced(c: Client, h: seq<Event>, k: nat)
    requires Consistent(c, h) && Orderly(h) && c.ready != [] && k < |c.ids|
    ensures |Next(c).settled| == |Next(c).ids| == |c.ids| && Placed(Next(c), h, k)
  {
    hide AnswerTo, Completion, Completions, Orderly, Active;
    var c', r := Next(c), c.ready[0];
    assert Placed(c, h, k);
    ReadyMoves(c, k);
    TurnOfReady(h, c.ids[r.call]);
    if r.result.Ok? && r.result.turn != "" {
      NextTurn(c, h, r.result.turn);
    }
  }

  lemma NextKeeps(c: Client, h: seq<Event>)
    requires Consistent(c, h) && Orderly(h) && c.ready != []
    ensures Consistent(Next(c), h)
  {
    hide AnswerTo, Completion, Completions, Expected, TurnOf, Queued, Active, Kept, Placed, Orderly;
    NextNumbered(c, h);
    NextQueued(c, h);
    NextActive(c, h);
    NextKept(c, h);
    forall k | 0 <= k < |Next(c).ids| ensures Placed(Next(c), h, k) {
      NextPlaced(c, h, k);
    }
  }

  lemma {:induction false} DrainKeeps(c: Client, h: seq<Event>)
    requires Consistent(c, h) && Orderly(h)
    ensures Consistent(Drain(c), h) && Drain(c).ready == []
    decreases |c.ready|
  {
    hide Consistent, Orderly;
    if c.ready != [] {
      NextKeeps(c, h);
      DrainKeeps(Next(c), h);
    }
  }

  function Events(ms: seq<Message>): seq<Event> {
    seq(|ms|, k requires 0 <= k < |ms| => Got(ms[k]))
  }

  lemma {:induction false} HandleAllKeeps(c: Client, h: seq<Event>, ms: seq<Message>)
    requires Consistent(c, h) && Orderly(h + Events(ms))
    ensures Consistent(HandleAll(c, ms), h + Events(ms))
    decreases |ms|
  {
    hide Consistent, Orderly, Handle;
    if ms == [] {
      assert h + Events(ms) == h;
    } else {
      assert h + Events(ms) == h + [Got(ms[0])] + Events(ms[1..]);
      OrderlyPrefix(h + [Got(ms[0])], Events(ms[1..]));
      HandleKeeps(c, h, ms[0]);
      HandleAllKeeps(Handle(c, ms[0]), h + [Got(ms[0])], ms[1..]);
    }
  }

  // ---------------------------------------------------------------- whole runs

  /** Another request, a started turn, or a chunk of output. */
  datatype Act = Ask | Begin | Data(chunk: string)

  datatype World = World(client: Client, buffer: string)

  function Decoded(lines: seq<string>, decode: string -> Message): seq<Message> {
    seq(|lines|, k requires 0 <= k < |lines| => decode(lines[k]))
  }

  function Perform(w: World, act: Act, decode: string -> Message): World {
    match act
    case Ask => w.(client := Request(w.client, Plain))
    case Begin => w.(client := StartTurn(w.client))
    case Data(chunk) =>
      var framed := Split(w.buffer + chunk);
      World(Drain(HandleAll(w.client, Decoded(NonEmpty(framed.lines), decode))), framed.rest)
  }

  /** The events of one act. */
  function Happened(w: World, act: Act, decode: string -> Message): seq<Event> {
    match act
    case Data(chunk) => Events(Decoded(NonEmpty(Split(w.buffer + chunk).lines), decode))
    case _ => [Requested(w.client.nextId)]
  }

  function Run(w: World, acts: seq<Act>, decode: string -> Message): World
    decreases |acts|
  {
    if acts == [] then w else Run(Perform(w, acts[0], decode), acts[1..], decode)
  }

  function History(w: World, acts: seq<Act>, decode: string -> Message): seq<Event>
    decreases |acts|
  {
    if acts == [] then [] else Happened(w, acts[0], decode) + History(Perform(w, acts[0], decode), acts[1..], decode)
  }

  const OPENED := World(NEW_CLIENT, "")

  ghost predicate Resting(w: World, h: seq<Event>) {
    Consistent(w.client, h) && w.client.ready == [] && Split(w.buffer) == Framed([], w.buffer)
  }

  lemma OpenedRests()
    ensures Resting(OPENED, [])
  {
    hide Consistent;
    StartConsistent();
  }

  lemma PerformKeeps(w: World, h: seq<Event>, act: Act, decode: string -> Message)
    requires Resting(w, h) && Orderly(h + Happened(w, act, decode))
    ensures Resting(Perform(w, act, decode), h + Happened(w, act, decode))
  {
    hide Consistent, Orderly, Drain, HandleAll, Split;
    match act {
      case Ask => RequestKeeps(w.client, h);
      case Begin => StartTurnKeeps(w.client, h);
      case Data(chunk) =>
        var ms := Decoded(NonEmpty(Split(w.buffer + chunk).lines), decode);
        HandleAllKeeps(w.client, h, ms);
        DrainKeeps(HandleAll(w.client, ms), h + Events(ms));
        RestHasNoLine(w.buffer + chunk);
    }
  }

  lemma {:induction false} RunKeeps(w: World, h: seq<Event>, acts: seq<Act>, decode: string -> Message)
    requires Resting(w, h) && Orderly(h + History(w, acts, decode))
    ensures Resting(Run(w, acts, decode), h + History(w, acts, decode))
    decreases |acts|
  {
    hide Resting, Orderly, Perform, Happened;
    if acts == [] {
      assert h + [] == h;
    } else {
      var now, next := Happened(w, acts[0], decode), Perform(w, acts[0], decode);
      var more := History(next, acts[1..], decode);
      assert h + (now + more) == h + now + more;
      OrderlyPrefix(h + now, more);
      PerformKeeps(w, h, acts[0], decode);
      RunKeeps(next, h + now, acts[1..], decode);
    }
  }

  /**
   * After every run of requests, turns and chunks the promise of each started turn has been settled exactly once,
   * with what its answer and its completion say, in whatever order and in whatever chunks they came; or not yet,
   * while one is missing.
   */
  lemma TurnsSettleAsExpected(acts: seq<Act>, decode: string -> Message, k: nat)
    requires Orderly(History(OPENED, acts, decode)) && k < |Run(OPENED, acts, decode).client.ids|
    ensures var c, h := Run(OPENED, acts, decode).client, History(OPENED, acts, decode);
            && |c.settled| == |c.ids|
            && c.settled[k] == if Expected(h, c.ids[k]).Some? then [Expected(h, c.ids[k]).value] else []
  {
    hide Orderly, Run, History, Consistent, Expected;
    OpenedRests();
    assert [] + History(OPENED, acts, decode) == History(OPENED, acts, decode);
    RunKeeps(OPENED, [], acts, decode);
    ConsistentAtRest(Run(OPENED, acts, decode).client, History(OPENED, acts, decode), k);
  }

  // ------------------------------------------------ no turn is settled twice, whatever the server sends

  predicate Unsettled(c: Client, call: nat) {
    call < |c.settled| && c.settled[call] == []
  }

  /** Whatever a call waits for, it has not been settled. */
  ghost predicate OpenPlaces(c: Client) {
    && (forall id :: id in c.pending && c.pending[id].Turn? ==> Unsettled(c, c.pending[id].call))
    && (forall i :: 0 <= i < |c.ready| ==> Unsettled(c, c.ready[i].call))
    && (forall turn :: turn in c.activeTurns ==> Unsettled(c, c.activeTurns[turn]))
  }

  /** No call waits at two places of the same kind. */
  ghost predicate PlacesDiffer(c: Client) {
    && (forall i, j :: i in c.pending && j in c.pending && i != j && c.pending[i].Turn? ==>
        c.pending[i] != c.pending[j])
    && (forall i, j :: 0 <= i < j < |c.ready| ==> c.ready[i].call != c.ready[j].call)
    && (forall s, t :: s in c.activeTurns && t in c.activeTurns && s != t ==> c.activeTurns[s] != c.activeTurns[t])
  }

  /** Nor at places of two kinds. */
  ghost predicate KindsDiffer(c: Client) {
    && (forall id, i :: id in c.pending && 0 <= i < |c.ready| ==> c.pending[id] != Turn(c.ready[i].call))
    && (forall id, turn :: id in c.pending && turn in c.activeTurns ==> c.pending[id] != Turn(c.activeTurns[turn]))
    && (forall i, turn :: 0 <= i < |c.ready| && turn in c.activeTurns ==> c.ready[i].call != c.activeTurns[turn])
  }

  ghost predicate AtMostOnce(c: Client) {
    && |c.ids| == |c.settled| && (forall k :: 0 <= k < |c.settled| ==> |c.settled[k]| <= 1)
    && (forall id :: id in c.pending ==> id < c.nextId)
    && OpenPlaces(c) && PlacesDiffer(c) && KindsDiffer(c)
  }

  lemma RequestOnce(c: Client)
    requires AtMostOnce(c)
    ensures AtMostOnce(Request(c, Plain))
  {
  }

  lemma StartTurnOnce(c: Client)
    requires AtMostOnce(c)
    ensures AtMostOnce(StartTurn(c))
  {
  }

  /** A call that waits nowhere and has not been settled. */
  ghost predicate Free(c: Client, call: nat) {
    && Unsettled(c, call) && (forall id :: id in c.pending ==> c.pending[id] != Turn(call))
    && (forall i :: 0 <= i < |c.ready| ==> c.ready[i].call != call)
    && (forall turn :: turn in c.activeTurns ==> c.activeTurns[turn] != call)
  }

  lemma TakeOut(c: Client, id: nat)
    requires AtMostOnce(c) && id in c.pending
    ensures var rest := c.(pending := c.pending - {id});
            AtMostOnce(rest) && (c.pending[id].Turn? ==> Free(rest, c.pending[id].call))
  {
  }

  lemma EnqueueOnce(c: Client, call: nat, result: Result)
    requires AtMostOnce(c) && Free(c, call)
    ensures AtMostOnce(c.(ready := c.ready + [Ready(call, result)]))
  {
  }

  lemma AnswerOnce(c: Client, id: nat, result: Result)
    requires AtMostOnce(c) && id in c.pending
    ensures AtMostOnce(Answer(c, id, result))
  {
    hide AtMostOnce, Free;
    TakeOut(c, id);
    if c.pending[id].Turn? {
      EnqueueOnce(c.(pending := c.pending - {id}), c.pending[id].call, result);
    }
  }

  lemma SettleOnce(c: Client, call: nat, outcome: Outcome)
    requires AtMostOnce(c) && Free(c, call)
    ensures AtMostOnce(Settle(c, call, outcome))
  {
  }

  lemma NotifyOnce(c: Client, turn: string, error: Option<string>)
    requires AtMostOnce(c)
    ensures AtMostOnce(Notify(c, turn, error))
  {
    hide Settle;
    if turn in c.activeTurns {
      SettleOnce(c.(activeTurns := c.activeTurns - {turn}), c.activeTurns[turn], OutcomeOf(error));
    }
  }

  lemma HandleOnce(c: Client, m: Message)
    requires AtMostOnce(c)
    ensures AtMostOnce(Handle(c, m))
  {
    hide AtMostOnce, Notify, Answer;
    if Carries(m).Some? && Carries(m).value in c.pending {
      AnswerOnce(c, Carries(m).value, ResultOf(m));
    } else if m.TurnCompleted? {
      NotifyOnce(c, m.turn, m.error);
    }
  }

  lemma TakeReady(c: Client)
    requires AtMostOnce(c) && c.ready != []
    ensures var rest := c.(ready := c.ready[1..]); AtMostOnce(rest) && Free(rest, c.ready[0].call)
  {
  }

  lemma ActivateOnce(c: Client, turn: string, call: nat)
    requires AtMostOnce(c) && Free(c, call)
    ensures AtMostOnce(c.(activeTurns := c.activeTurns[turn := call]))
  {
  }

  lemma ContinueOnce(c: Client, call: nat, result: Result)
    requires AtMostOnce(c) && Free(c, call)
    ensures AtMostOnce(Continue(c, call, result))
  {
    hide Settle, PlacesDiffer, KindsDiffer;
    forall outcome: Outcome ensures AtMostOnce(Settle(c, call, outcome)) {
      SettleOnce(c, call, outcome);
    }
    if result.Ok? && result.turn in c.completedTurns {
      Forget(c, call, result.turn);
      SettleOnce(c.(completedTurns := c.completedTurns - {result.turn}), call,
                 OutcomeOf(c.completedTurns[result.turn]));
    } else if result.Ok? {
      ActivateOnce(c, result.turn, call);
    }
  }

  lemma Forget(c: Client, call: nat, turn: string)
    requires AtMostOnce(c) && Free(c, call)
    ensures var rest := c.(completedTurns := c.completedTurns - {turn}); AtMostOnce(rest) && Free(rest, call)
  {
  }

  lemma {:induction false} DrainOnce(c: Client)
    requires AtMostOnce(c)
    ensures AtMostOnce(Drain(c))
    decreases |c.ready|
  {
    hide AtMostOnce, Free;
    if c.ready != [] {
      TakeReady(c);
      ContinueOnce(c.(ready := c.ready[1..]), c.ready[0].call, c.ready[0].result);
      DrainOnce(Next(c));
    }
  }

  lemma {:induction false} HandleAllOnce(c: Client, ms: seq<Message>)
    requires AtMostOnce(c)
    ensures AtMostOnce(HandleAll(c, ms))
    decreases |ms|
  {
    hide AtMostOnce, Handle;
    if ms != [] {
      HandleOnce(c, ms[0]);
      HandleAllOnce(Handle(c, ms[0]), ms[1..]);
    }
  }

  lemma {:induction false} RunOnce(w: World, acts: seq<Act>, decode: string -> Message)
    requires AtMostOnce(w.client)
    ensures AtMostOnce(Run(w, acts, decode).client)
    decreases |acts|
  {
    hide AtMostOnce, Drain, HandleAll, Request;
    if acts != [] {
      match acts[0] {
        case Ask => RequestOnce(w.client);
        case Begin => StartTurnOnce(w.client);
        case Data(chunk) =>
          var ms := Decoded(NonEmpty(Split(w.buffer + chunk).lines), decode);
          HandleAllOnce(w.client, ms);
          DrainOnce(HandleAll(w.client, ms));
      }
      RunOnce(Perform(w, acts[0], decode), acts[1..], decode);
    }
  }

  lemma FailAllOnce(c: Client, text: string)
    requires AtMostOnce(c)
    ensures AtMostOnce(FailAll(c, text))
  {
  }

  /** Whatever the server sends, and whether or not it exits then, no started turn is settled twice. */
  lemma NeverSettledTwice(acts: seq<Act>, decode: string -> Message, text: string, k: nat)
    requires k < |Run(OPENED, acts, decode).client.ids|
    ensures var c := Run(OPENED, acts, decode).client;
            && |c.ids| == |c.settled| == |FailAll(c, text).settled|
            && |c.settled[k]| <= 1 && |FailAll(c, text).settled[k]| <= 1
  {
    hide Run, FailAll;
    RunOnce(OPENED, acts, decode);
    FailAllOnce(Run(OPENED, acts, decode).client, text);
    var c := Run(OPENED, acts, decode).client;
    SameLength(c, text);
  }

  lemma SameLength(c: Client, text: string)
    ensures |FailAll(c, text).settled| == |c.settled|
  {
  }

  // ---------------------------------------------------------------- what the server replied

  predicate Replies(m: Message, id: nat) {
    (m.Reply? || m.ErrorReply?) && m.id == id
  }

  /** The first reply to a request: its result or its error, and no request of the server. */
  function ReplyTo(h: seq<Event>, id: nat): Option<Message> {
    if h == [] then None
    else
      var before, last := h[..|h| - 1], h[|h| - 1];
      if ReplyTo(before, id).Some? then ReplyTo(before, id)
      else if last.Got? && Replies(last.message, id) && Requested(id) in before then Some(last.message)
      else None
  }

  /** The server sent a request of its own under the id of a request it had not replied to. */
  ghost predicate Collides(h: seq<Event>, id: nat) {
    exists p :: 0 <= p < |h| && CollidesAt(h, id, p)
  }

  predicate CollidesAt(h: seq<Event>, id: nat, p: nat)
    requires p < |h|
  {
    h[p] == Got(ServerRequest(id)) && Requested(id) in h[..p] && ReplyTo(h[..p], id).None?
  }

  lemma CollidesLater(h: seq<Event>, e: Event, id: nat)
    ensures Collides(h + [e], id) <==>
              Collides(h, id) || (e == Got(ServerRequest(id)) && Requested(id) in h && ReplyTo(h, id).None?)
  {
    hide ReplyTo;
    var h' := h + [e];
    forall p | 0 <= p < |h| ensures CollidesAt(h', id, p) <==> CollidesAt(h, id, p) {
      assert h'[p] == h[p] && h'[..p] == h[..p];
    }
    assert h'[|h|] == e && h'[..|h|] == h;
    if Collides(h, id) {
      var p :| 0 <= p < |h| && CollidesAt(h, id, p);
      assert CollidesAt(h', id, p);
    }
    if Collides(h', id) {
      var p :| 0 <= p < |h'| && CollidesAt(h', id, p);
      assert p < |h| ==> CollidesAt(h, id, p);
    }
    if e == Got(ServerRequest(id)) && Requested(id) in h && ReplyTo(h, id).None? {
      assert CollidesAt(h', id, |h|);
    }
  }

  lemma {:induction false} AnswerOrCollision(h: seq<Event>, id: nat)
    ensures Collides(h, id) <==> AnswerTo(h, id) == Some(ServerRequest(id))
    ensures !Collides(h, id) ==> AnswerTo(h, id) == ReplyTo(h, id)
    ensures ReplyTo(h, id).Some? ==> Replies(ReplyTo(h, id).value, id)
  {
    hide Collides;
    if h == [] {
      NoCollision(id);
    } else {
      var before, last := h[..|h| - 1], h[|h| - 1];
      assert h == before + [last];
      AnswerOrCollision(before, id);
      CollidesLater(before, last, id);
    }
  }

  lemma NoCollision(id: nat)
    ensures !Collides([], id)
  {
  }

  /**
   * The client takes for the answer what the server replied exactly when no request of the server carried the id
   * first.
   */
  lemma AnswerIsReplyExactly(h: seq<Event>, id: nat)
    ensures AnswerTo(h, id) == ReplyTo(h, id) <==> !Collides(h, id)
  {
    hide Collides, AnswerTo, ReplyTo;
    AnswerOrCollision(h, id);
  }

  /** What the caller of `startTurn` should see, told from the server's replies and completions. */
  function Due(h: seq<Event>, id: nat): Option<Outcome> {
    var reply := ReplyTo(h, id);
    if reply.None? then None
    else
      match ResultOf(reply.value)
      case Err(text) => Some(Rejected(text))
      case Ok(turn) =>
        if turn == "" then Some(Rejected(NO_TURN_ID))
        else if Completion(h, turn).Some? then Some(OutcomeOf(Completion(h, turn).value))
        else None
  }

  /**
   * After every run a started turn has been settled exactly once with what its reply and its completion say, or not
   * yet while one is missing, if and only if no request of the server carried its id first, or the reply names no
   * turn either.
   */
  lemma TurnsSettleByTheirReply(acts: seq<Act>, decode: string -> Message, k: nat)
    requires Orderly(History(OPENED, acts, decode)) && k < |Run(OPENED, acts, decode).client.ids|
    ensures var c, h := Run(OPENED, acts, decode).client, History(OPENED, acts, decode);
            var id := c.ids[k];
            && |c.settled| == |c.ids| && |c.settled[k]| <= 1
            && (c.settled[k] == (if Due(h, id).Some? then [Due(h, id).value] else [])
                <==> !Collides(h, id) || Due(h, id) == Some(Rejected(NO_TURN_ID)))
  {
    hide Orderly, Collides, AnswerTo, ReplyTo, Completion, Run, History;
    TurnsSettleAsExpected(acts, decode, k);
    AnswerOrCollision(History(OPENED, acts, decode), Run(OPENED, acts, decode).client.ids[k]);
  }

  lemma {:induction false} CompletionIs(h: seq<Event>, turn: string, error: Option<string>)
    requires Completions(h, turn) <= 1
    ensures Got(TurnCompleted(turn, error)) in h <==> Completion(h, turn) == Some(error)
    decreases |h|
  {
    if h != [] {
      var before, last := h[..|h| - 1], h[|h| - 1];
      assert h == before + [last];
      CompletionIs(before, turn, error);
      CompletedIsCounted(before, turn);
    }
  }

  ghost predicate CompletedSomehow(h: seq<Event>, turn: string) {
    exists error :: Got(TurnCompleted(turn, error)) in h
  }

  /**
   * What the server's messages make of a started turn whose id no request of the server took: an error reply rejects
   * it with its text, a reply without a turn with a fixed one; a turn completed with an error is rejected with that
   * error's text, a turn completed without one is resolved; and until then it is open.
   */
  lemma TurnsSettleByTheirMessages(acts: seq<Act>, decode: string -> Message, k: nat)
    requires Orderly(History(OPENED, acts, decode)) && k < |Run(OPENED, acts, decode).client.ids|
    requires !Collides(History(OPENED, acts, decode), Run(OPENED, acts, decode).client.ids[k])
    ensures var c, h := Run(OPENED, acts, decode).client, History(OPENED, acts, decode);
            && |c.settled| == |c.ids|
            && match ReplyTo(h, c.ids[k])
               case None => c.settled[k] == []
               case Some(ErrorReply(_, text)) => c.settled[k] == [Rejected(text)]
               case Some(Reply(_, turn)) =>
                 if turn == "" then c.settled[k] == [Rejected(NO_TURN_ID)]
                 else
                   && (forall text :: Got(TurnCompleted(turn, Some(text))) in h ==> c.settled[k] == [Rejected(text)])
                   && (Got(TurnCompleted(turn, None)) in h ==> c.settled[k] == [Resolved])
                   && (!CompletedSomehow(h, turn) ==> c.settled[k] == [])
               case _ => false
  {
    hide Orderly, Collides, AnswerTo, ReplyTo, Completion, Run, History;
    var c, h := Run(OPENED, acts, decode).client, History(OPENED, acts, decode);
    TurnsSettleByTheirReply(acts, decode, k);
    AnswerOrCollision(h, c.ids[k]);
    var reply := ReplyTo(h, c.ids[k]);
    if reply.Some? && reply.value.Reply? && reply.value.turn != "" {
      OneCompletion(h, reply.value.turn);
      forall error {:trigger Got(TurnCompleted(reply.value.turn, error))}
        ensures Got(TurnCompleted(reply.value.turn, error)) in h <==> Completion(h, reply.value.turn) == Some(error)
      {
        CompletionIs(h, reply.value.turn, error);
      }
      if Completion(h, reply.value.turn).Some? {
        assert Got(TurnCompleted(reply.value.turn, Completion(h, reply.value.turn).value)) in h;
      }
    }
  }

  lemma OneCompletion(h: seq<Event>, turn: string)
    requires Orderly(h) && turn != ""
    ensures Completions(h, turn) <= 1
  {
  }

  function Chunks(chunks: seq<string>): seq<Act> {
    seq(|chunks|, k requires 0 <= k < |chunks| => Data(chunks[k]))
  }

  lemma DecodedGrows(a: seq<string>, b: seq<string>, decode: string -> Message)
    ensures Events(Decoded(a + b, decode)) == Events(Decoded(a, decode)) + Events(Decoded(b, decode))
  {
  }

  lemma {:induction false} ChunksHistory(w: World, chunks: seq<string>, decode: string -> Message)
    ensures History(w, Chunks(chunks), decode) == Events(Decoded(Handed(w.buffer, chunks), decode))
    decreases |chunks|
  {
    hide HandleAll, Drain, Split;
    if chunks != [] {
      var next := Perform(w, Data(chunks[0]), decode);
      assert Chunks(chunks)[1..] == Chunks(chunks[1..]);
      ChunksHistory(next, chunks[1..], decode);
      DecodedGrows(NonEmpty(Split(w.buffer + chunks[0]).lines), Handed(next.buffer, chunks[1..]), decode);
    }
  }

  lemma {:induction false} SameCalls(w: World, chunks: seq<string>, decode: string -> Message)
    ensures Run(w, Chunks(chunks), decode).client.ids == w.client.ids
    decreases |chunks|
  {
    hide HandleAll, Drain, Split;
    if chunks != [] {
      assert Chunks(chunks)[1..] == Chunks(chunks[1..]);
      var ms := Decoded(NonEmpty(Split(w.buffer + chunks[0]).lines), decode);
      HandlingAddsNoCall(w.client, ms);
      DrainingAddsNoCall(HandleAll(w.client, ms));
      SameCalls(Perform(w, Data(chunks[0]), decode), chunks[1..], decode);
    }
  }

  lemma {:induction false} HandlingAddsNoCall(c: Client, ms: seq<Message>)
    ensures HandleAll(c, ms).ids == c.ids
    decreases |ms|
  {
    if ms != [] {
      HandlingAddsNoCall(Handle(c, ms[0]), ms[1..]);
    }
  }

  lemma {:induction false} DrainingAddsNoCall(c: Client)
    ensures Drain(c).ids == c.ids
    decreases |c.ready|
  {
    if c.ready != [] {
      DrainingAddsNoCall(Next(c));
    }
  }

  /** Cutting the same output differently settles every turn alike. */
  lemma ChunksSettleAlike(w: World, h: seq<Event>, one: seq<string>, other: seq<string>, decode: string -> Message)
    requires Resting(w, h) && Concat(one) == Concat(other)
    requires Orderly(h + Events(Decoded(Handed(w.buffer, one), decode)))
    ensures Run(w, Chunks(one), decode).client.settled == Run(w, Chunks(other), decode).client.settled
  {
    hide Orderly, Numbered, Queued, Active, Kept, Placed, Split, Expected;
    HandedIs(w.buffer, one);
    HandedIs(w.buffer, other);
    ChunksHistory(w, one, decode);
    ChunksHistory(w, other, decode);
    RunKeeps(w, h, Chunks(one), decode);
    RunKeeps(w, h, Chunks(other), decode);
    SameCalls(w, one, decode);
    SameCalls(w, other, decode);
    var a, b := Run(w, Chunks(one), decode).client, Run(w, Chunks(other), decode).client;
    var all := h + Events(Decoded(Handed(w.buffer, one), decode));
    SettledForEach(a, all);
    SettledForEach(b, all);
    forall k | 0 <= k < |a.ids| ensures a.settled[k] == b.settled[k] {
      ConsistentAtRest(a, all, k);
      ConsistentAtRest(b, all, k);
    }
  }

  lemma SettledForEach(c: Client, h: seq<Event>)
    requires Consistent(c, h)
    ensures |c.settled| == |c.ids|
  {
  }

  /** When the process exits every turn still open is rejected, and none is settled twice. */
  lemma ExitSettlesTheRest(c: Client, h: seq<Event>, text: string, k: nat)
    requires Consistent(c, h) && c.ready == [] && k < |c.ids|
    ensures var gone := FailAll(c, text);
            && gone.pending == map[] && gone.activeTurns == map[] && |gone.settled| == |c.ids|
            && gone.settled[k] == [if Expected(h, c.ids[k]).Some? then Expected(h, c.ids[k]).value else Rejected(text)]
            && gone.settled[k] == if c.settled[k] == [] then [Rejected(text)] else c.settled[k]
  {
    hide AnswerTo, Completion, Completions, Expected, TurnOf;
    ConsistentAtRest(c, h, k);
    OpenCalls(c, h, k);
  }

  lemma OpenCalls(c: Client, h: seq<Event>, k: nat)
    requires Consistent(c, h) && c.ready == [] && k < |c.ids|
    ensures c.settled[k] == [] <==>
              k in (set id | id in c.pending && c.pending[id].Turn? :: c.pending[id].call) + c.activeTurns.Values
  {
    hide Completion, Completions, TurnOf;
    assert Placed(c, h, k);
    if c.settled[k] == [] {
      if AnswerTo(h, c.ids[k]).None? {
        assert c.ids[k] in c.pending && c.pending[c.ids[k]] == Turn(k);
      }
    }
    if c.ids[k] in c.pending {
      assert Expected(h, c.ids[k]).None?;
    }
  }

  /** A request of the server that happens to carry the id of a started turn is taken for its answer. */
  lemma CollidingServerRequest()
    ensures var c := StartTurn(NEW_CLIENT);
            var ms := [ServerRequest(1), Reply(1, "t"), TurnCompleted("t", None)];
            Drain(HandleAll(c, ms)).settled == [[Rejected(NO_TURN_ID)]]
  {
    var c := StartTurn(NEW_CLIENT);
    assert c.pending == map[1 := Turn(0)] && c.settled == [[]];
    var ms := [ServerRequest(1), Reply(1, "t"), TurnCompleted("t", None)];
    var c1 := Handle(c, ms[0]);
    assert c1.pending == map[] && c1.ready == [Ready(0, Ok(""))];
    assert Handle(c1, ms[1]) == c1;
    var c3 := Handle(c1, ms[2]);
    assert c3.ready == [Ready(0, Ok(""))] && c3.settled == [[]];
    assert ms[1..][1..][1..] == [];
    assert HandleAll(c, ms) == c3;
    assert [] + [Rejected(NO_TURN_ID)] == [Rejected(NO_TURN_ID)];
    assert Next(c3).settled == [[Rejected(NO_TURN_ID)]] && Next(c3).ready == [];
  }
}
