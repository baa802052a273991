/** The client object itself, method by method: `CodexAppClient` in canvas-agent/src/agents.ts. */
module CodexClient {
  import opened LineFraming
  import opened CodexTurns
  import opened Wrappers

  lemma OneMore(line: string, lines: seq<string>, decode: string -> Message)
    requires line != ""
    ensures var all := Decoded(NonEmpty([line] + lines), decode);
            all != [] && all[0] == decode(line) && all[1..] == Decoded(NonEmpty(lines), decode)
  {
    assert ([line] + lines)[1..] == lines;
  }

  lemma ContinueKeepsReady(c: Client, call: nat, result: Result)
    ensures Continue(c, call, result).ready == c.ready
  {
  }

  /** The client object; `ready`, `ids` and `settled` stand for the promises it has handed out. */
  class CodexAppClient {
    var nextId: nat
    var buffer: string
    var pending: map<nat, Waiter>
    var activeTurns: map<string, nat>
    var completedTurns: map<string, Option<string>>
    var ready: seq<Ready>
    var ids: seq<nat>
    var settled: seq<seq<Outcome>>

    function State(): Client
      reads this
    {
      Client(nextId, pending, activeTurns, completedTurns, ready, ids, settled)
    }

    constructor ()
      ensures World(State(), buffer) == OPENED
    {
      nextId, buffer, pending, activeTurns, completedTurns := 1, "", map[], map[], map[];
      ready, ids, settled := [], [], [];
    }

    method SendRequest(waiter: Waiter) returns (id: nat)
      modifies this`nextId, this`pending
      ensures State() == Request(old(State()), waiter) && id == old(nextId)
    {
      id := nextId;
      nextId := nextId + 1;
      pending := pending[id := waiter];
    }

    method StartTurn()
      modifies this
      ensures State() == CodexTurns.StartTurn(old(State())) && buffer == old(buffer)
    {
      var call := |ids|;
      settled := settled + [[]];
      var id := SendRequest(Turn(call));
      ids := ids + [id];
    }

    /** Settle the promise of a call. */
    method Settle(call: nat, outcome: Outcome)
      modifies this`settled
      ensures State() == CodexTurns.Settle(old(State()), call, outcome)
    {
      if call < |settled| {
        settled := settled[call := settled[call] + [outcome]];
      }
    }

    method Answer(id: nat, result: Result)
      requires id in pending
      modifies this`pending, this`ready
      ensures State() == CodexTurns.Answer(old(State()), id, result)
    {
      var waiter := pending[id];
      pending := pending - {id};
      match waiter {
        case Turn(call) => ready := ready + [Ready(call, result)];
        case Plain =>
      }
    }

    method Handle(m: Message)
      modifies this
      ensures State() == CodexTurns.Handle(old(State()), m) && buffer == old(buffer)
      ensures forall id, call :: id in old(pending) && old(pending)[id] == Turn(call) ==>
                && (forall turn :: m == Reply(id, turn) ==> ready == old(ready) + [Ready(call, Ok(turn))])
                && (forall text :: m == ErrorReply(id, text) ==> ready == old(ready) + [Ready(call, Err(text))])
    {
      var id := Carries(m);
      if m.ErrorReply? && id.value in pending {
        Answer(id.value, Err(m.text));
        return;
      }
      if id.Some? && id.value in pending {
        Answer(id.value, ResultOf(m));
        return;
      }
      if m.TurnCompleted? {
        HandleTurnCompleted(m.turn, m.error);
      }
    }

    method HandleTurnCompleted(turn: string, error: Option<string>)
      modifies this
      ensures State() == Notify(old(State()), turn, error) && buffer == old(buffer)
      ensures turn in old(activeTurns) && old(activeTurns)[turn] < |old(settled)| ==>
                var call := old(activeTurns)[turn];
                && turn !in activeTurns && completedTurns == old(completedTurns)
                && (error == None ==> settled == old(settled)[call := old(settled)[call] + [Resolved]])
                && (forall text :: error == Some(text) ==>
                      settled == old(settled)[call := old(settled)[call] + [Rejected(text)]])
      ensures turn !in old(activeTurns) ==> settled == old(settled) && activeTurns == old(activeTurns)
      ensures turn !in old(activeTurns) && turn != "" ==> completedTurns == old(completedTurns)[turn := error]
    {
      if turn in activeTurns {
        var call := activeTurns[turn];
        activeTurns := activeTurns - {turn};
        if error.Some? {
          Settle(call, Rejected(error.value));
        } else {
          Settle(call, Resolved);
        }
      } else if turn != "" {
        completedTurns := completedTurns[turn := error];
      }
    }

    /** What `startTurn` does with its answer. */
    method Resume(call: nat, result: Result)
      modifies this
      ensures State() == Continue(old(State()), call, result) && buffer == old(buffer)
      ensures call < |old(settled)| && result.Err? ==>
                settled == old(settled)[call := old(settled)[call] + [Rejected(result.text)]]
      ensures call < |old(settled)| && result == Ok("") ==>
                settled == old(settled)[call := old(settled)[call] + [Rejected(NO_TURN_ID)]]
      ensures call < |old(settled)| && result.Ok? && result.turn != "" && result.turn in old(completedTurns) ==>
                && result.turn !in completedTurns && activeTurns == old(activeTurns)
                && (old(completedTurns)[result.turn] == None ==>
                      settled == old(settled)[call := old(settled)[call] + [Resolved]])
                && (forall text :: old(completedTurns)[result.turn] == Some(text) ==>
                      settled == old(settled)[call := old(settled)[call] + [Rejected(text)]])
      ensures result.Ok? && result.turn != "" && result.turn !in old(completedTurns) ==>
                settled == old(settled) && activeTurns == old(activeTurns)[result.turn := call]
    {
      if result.Err? {
        Settle(call, Rejected(result.text));
        return;
      }
      var turn := result.turn;
      if turn == "" {
        Settle(call, Rejected(NO_TURN_ID));
        return;
      }
      if turn in completedTurns {
        var completed := completedTurns[turn];
        completedTurns := completedTurns - {turn};
        if completed.Some? {
          Settle(call, Rejected(completed.value));
        } else {
          Settle(call, Resolved);
        }
        return;
      }
      activeTurns := activeTurns[turn := call];
    }

    /** One chunk: its lines are handled at once, then the continuations they caused. */
    method Read(chunk: string, decode: string -> Message)
      modifies this
      ensures World(State(), buffer) == Perform(World(old(State()), old(buffer)), Data(chunk), decode)
    {
      hide CodexTurns.Handle, Continue, Split;
      var framed := Split(buffer + chunk);
      var lines := framed.lines;
      buffer := framed.rest;
      ghost var ms := Decoded(NonEmpty(lines), decode);
      ghost var target := HandleAll(State(), ms);
      while lines != []
        invariant buffer == framed.rest
        invariant HandleAll(State(), Decoded(NonEmpty(lines), decode)) == target
        decreases |lines|
      {
        var line := lines[0];
        lines := lines[1..];
        if line != "" {
          OneMore(line, lines, decode);
          Handle(decode(line));
        }
      }
      while ready != []
        invariant buffer == framed.rest
        invariant Drain(State()) == Drain(target)
        decreases |ready|
      {
        var first := ready[0];
        ready := ready[1..];
        ContinueKeepsReady(State(), first.call, first.result);
        Resume(first.call, first.result);
      }
    }

    method FailAll(text: string)
      modifies this`settled, this`pending, this`activeTurns
      ensures State() == CodexTurns.FailAll(old(State()), text)
    {
      var waiting := set id | id in pending && pending[id].Turn? :: pending[id].call;
      var calls := waiting + activeTurns.Values;
      var before := settled;
      for k := 0 to |before|
        invariant |settled| == |before| && pending == old(pending) && activeTurns == old(activeTurns)
        invariant forall j :: k <= j < |before| ==> settled[j] == before[j]
        invariant forall j :: 0 <= j < k ==>
                    settled[j] == if j in calls then before[j] + [Rejected(text)] else before[j]
      {
        if k in calls {
          Settle(k, Rejected(text));
        }
      }
      pending, activeTurns := map[], map[];
    }
  }
}
