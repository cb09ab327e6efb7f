/**
 * Server-side dispatch (server.go: handleStream, and the initial state of
 * each connection in handleClient).
 *
 * Each stream carries one framed request. handleStream reads it, checks
 * the connection's protocol state, drives the state cell through a short
 * chain of transitions and writes at most one framed reply. The pure
 * function `Dispatch` states what one message does to a state; the method
 * `HandleStream` performs it on a `StateCell` and a `Stream`. Streams of
 * one connection are taken to be handled one at a time.
 */
module Server {
  import opened Wrappers
  import opened Messages
  import opened ProtocolDfa
  import opened Framing

  /** What handling one message does: the states entered, in order, and the reply written, if any. */
  datatype Step = Step(entered: seq<ProtocolState>, reply: Option<Message>)

  /** The state a step leaves behind when applied to `s`. */
  function After(s: ProtocolState, step: Step): ProtocolState {
    if |step.entered| == 0 then s else step.entered[|step.entered| - 1]
  }

  /** The GAME_SETUP_ACK answering a join request. */
  function SetupAck(request: Message): (ack: Message)
    ensures ack.protocolVersion == request.protocolVersion && ack.msgType == GameSetupAck
    ensures ack.status == 0 && ack.agreedOptions == request.turnOptions
    ensures ack.playerId == "" && ack.gameId == "" && ack.turnOptions == 0 && ack.gameState == ""
  {
    Message(request.protocolVersion, GameSetupAck, "", "", 0, 0, request.turnOptions, "")
  }

  /** The STATE_ACK answering a state update or a resync request. */
  function StateAckFor(request: Message): (ack: Message)
    ensures ack.protocolVersion == request.protocolVersion && ack.msgType == StateAck
    ensures ack.playerId == "" && ack.gameId == "" && ack.gameState == ""
    ensures ack.turnOptions == 0 && ack.status == 0 && ack.agreedOptions == 0
  {
    Message(request.protocolVersion, StateAck, "", "", 0, 0, 0, "")
  }

  /**
   * The switch of handleStream for a decoded message `msg` arriving in
   * state `s`, with every transitionTo it performs. A failure would be a
   * panic; the guards rule every one out.
   */
  function Dispatch(s: ProtocolState, msg: Message): (r: Result<Step, DfaError>)
    ensures r.Success?
  {
    if msg.msgType == JoinGameRequest then
      match (if s == Start then Transition(s, WaitingForJoin) else Success(s))
      case Failure(e) => Failure(e)
      case Success(advanced) =>
        var auto := if s == Start then [WaitingForJoin] else [];
        if advanced != WaitingForJoin then Success(Step(auto, None))
        else match Transition(advanced, Joining)
          case Failure(e) => Failure(e)
          case Success(joining) =>
            match Transition(joining, InGame)
            case Failure(e) => Failure(e)
            case Success(inGame) => Success(Step(auto + [joining, inGame], Some(SetupAck(msg))))
    else if msg.msgType == StateUpdate then
      if s != InGame then Success(Step([], None))
      else Success(Step([], Some(StateAckFor(msg))))
    else if msg.msgType == StateResyncRequest then
      if s != InGame then Success(Step([], None))
      else match Transition(s, Resyncing)
        case Failure(e) => Failure(e)
        case Success(resyncing) =>
          match Transition(resyncing, InGame)
          case Failure(e) => Failure(e)
          case Success(back) => Success(Step([resyncing, back], Some(StateAckFor(msg))))
    else
      Success(Step([], None))
  }

  /**
   * One stream: a failed read ends the stream with no reply and no
   * transition. Every reply echoes the request's version, a stream given
   * no reply changes nothing, and the only change of state one stream can
   * make is a join completing.
   */
  function Serve(s: ProtocolState, read: Result<Message, ReadError>): (step: Step)
    ensures read.Failure? ==> step == Step([], None)
    ensures step.reply.Some? ==> read.Success? && step.reply.value.protocolVersion == read.value.protocolVersion
    ensures step.reply.None? ==> After(s, step) == s
    ensures After(s, step) != s ==> (s == Start || s == WaitingForJoin) && After(s, step) == InGame
  {
    match read
    case Failure(_) => Step([], None)
    case Success(msg) => DispatchTable(s, msg); Dispatch(s, msg).value
  }

  /** The dispatch table, message type by message type. */
  lemma DispatchTable(s: ProtocolState, msg: Message)
    ensures msg.msgType == JoinGameRequest && s == Start ==>
              Dispatch(s, msg).value == Step([WaitingForJoin, Joining, InGame], Some(SetupAck(msg)))
    ensures msg.msgType == JoinGameRequest && s == WaitingForJoin ==>
              Dispatch(s, msg).value == Step([Joining, InGame], Some(SetupAck(msg)))
    ensures msg.msgType == JoinGameRequest && s != Start && s != WaitingForJoin ==>
              Dispatch(s, msg).value == Step([], None)
    ensures msg.msgType == StateUpdate ==>
              Dispatch(s, msg).value == if s == InGame then Step([], Some(StateAckFor(msg))) else Step([], None)
    ensures msg.msgType == StateResyncRequest ==>
              Dispatch(s, msg).value == if s == InGame then Step([Resyncing, InGame], Some(StateAckFor(msg))) else Step([], None)
    ensures msg.msgType !in {JoinGameRequest, StateUpdate, StateResyncRequest} ==>
              Dispatch(s, msg).value == Step([], None)
  {
  }

  /** Every reply echoes the request's protocol version; no reply leaves the state unchanged. */
  lemma RepliesEchoVersion(s: ProtocolState, msg: Message)
    ensures Dispatch(s, msg).value.reply.Some? ==> Dispatch(s, msg).value.reply.value.protocolVersion == msg.protocolVersion
    ensures Dispatch(s, msg).value.reply.None? ==> After(s, Dispatch(s, msg).value) == s
  {
  }

  /** The states a connection rests in between streams. */
  predicate Quiescent(s: ProtocolState) {
    s == Start || s == InGame
  }

  /** One stream handled in a resting state leaves the connection in a resting state. */
  lemma ServePreservesQuiescent(s: ProtocolState, read: Result<Message, ReadError>)
    requires Quiescent(s)
    ensures Quiescent(After(s, Serve(s, read)))
  {
  }

  /** Streams handled one after the other, starting from `s`. */
  function ServeAll(s: ProtocolState, inputs: seq<Result<Message, ReadError>>): (r: ProtocolState)
    ensures r != s ==> (s == Start || s == WaitingForJoin) && r == InGame
    decreases |inputs|
  {
    if |inputs| == 0 then s
    else ServeAll(After(s, Serve(s, inputs[0])), inputs[1..])
  }

  lemma {:induction false} ServeAllQuiescent(s: ProtocolState, inputs: seq<Result<Message, ReadError>>)
    requires Quiescent(s)
    ensures Quiescent(ServeAll(s, inputs))
    decreases |inputs|
  {
    if |inputs| > 0 {
      ServePreservesQuiescent(s, inputs[0]);
      ServeAllQuiescent(After(s, Serve(s, inputs[0])), inputs[1..]);
    }
  }

  /** The initial state every connection gets (handleClient). */
  const InitialConnectionState: ProtocolState := Start

  /**
   * Processed one at a time from a new connection's initial state, the
   * state between streams is always Start or InGame, after any prefix of
   * the streams.
   */
  lemma {:induction false} ConnectionRestsInStartOrInGame(inputs: seq<Result<Message, ReadError>>)
    ensures forall k :: 0 <= k <= |inputs| ==> Quiescent(ServeAll(InitialConnectionState, inputs[..k]))
  {
    forall k | 0 <= k <= |inputs|
      ensures Quiescent(ServeAll(InitialConnectionState, inputs[..k]))
    {
      ServeAllQuiescent(InitialConnectionState, inputs[..k]);
    }
  }

  /** Whether some stream carried a readable join request. */
  predicate HasJoin(inputs: seq<Result<Message, ReadError>>) {
    exists i :: 0 <= i < |inputs| && inputs[i].Success? && inputs[i].value.msgType == JoinGameRequest
  }

  /** Once in game, a connection stays in game whatever arrives. */
  lemma {:induction false} InGameIsStable(inputs: seq<Result<Message, ReadError>>)
    ensures ServeAll(InGame, inputs) == InGame
    decreases |inputs|
  {
    if |inputs| > 0 {
      assert After(InGame, Serve(InGame, inputs[0])) == InGame;
      InGameIsStable(inputs[1..]);
    }
  }

  /** A new connection is in game exactly when one of its streams carried a readable join request. */
  lemma {:induction false} InGameIffJoined(inputs: seq<Result<Message, ReadError>>)
    ensures ServeAll(InitialConnectionState, inputs) == InGame <==> HasJoin(inputs)
    ensures !HasJoin(inputs) ==> ServeAll(InitialConnectionState, inputs) == Start
    decreases |inputs|
  {
    if |inputs| > 0 {
      var first := inputs[0];
      var next := After(Start, Serve(Start, first));
      if first.Success? && first.value.msgType == JoinGameRequest {
        assert next == InGame;
        InGameIsStable(inputs[1..]);
        assert HasJoin(inputs);
      } else {
        assert next == Start;
        InGameIffJoined(inputs[1..]);
        assert HasJoin(inputs) <==> HasJoin(inputs[1..]) by {
          if HasJoin(inputs) {
            var i :| 0 <= i < |inputs| && inputs[i].Success? && inputs[i].value.msgType == JoinGameRequest;
            assert i > 0 && inputs[1..][i - 1] == inputs[i];
          }
          if HasJoin(inputs[1..]) {
            var i :| 0 <= i < |inputs[1..]| && inputs[1..][i].Success? && inputs[1..][i].value.msgType == JoinGameRequest;
            assert inputs[i + 1] == inputs[1..][i];
          }
        }
      }
    }
  }

  /**
   * handleStream's guard and its transitions are not one atomic step. Two
   * join handlers on one connection, run as goroutines from Start: the
   * first moves the cell to WaitingForJoin; both then pass the guard that
   * requires WaitingForJoin before either moves on; the first moves the
   * cell to Joining, and the second's move to Joining is refused, which in
   * Go is a panic that ends the server process.
   */
  method InterleavedJoins(cell: StateCell) returns (first: Outcome<DfaError>, second: Outcome<DfaError>)
    requires cell.state == Start
    modifies cell
    ensures first == Pass && second == Fail(InvalidTransition(Joining, Joining))
    ensures cell.state == Joining
  {
    var advanced := cell.TransitionTo(WaitingForJoin);
    var firstPasses := cell.state == WaitingForJoin;
    var secondPasses := cell.state == WaitingForJoin;
    assert advanced == Pass && firstPasses && secondPasses;
    first := cell.TransitionTo(Joining);
    second := cell.TransitionTo(Joining);
  }

  /** The bytes written for an optional reply. */
  function ReplyBytes(json: JsonText, reply: Option<Message>, w: WriteOutcome): seq<byte> {
    match reply
    case None => []
    case Some(m) => Transmitted(Encode(json, m), w)
  }

  /**
   * handleStream: read one framed message, then apply the dispatch switch
   * to the connection's state cell, writing the reply (if any) to the
   * stream. A panic of transitionTo is returned as Fail; none occurs.
   */
  method HandleStream(cell: StateCell, stream: Stream, json: JsonText, w: WriteOutcome) returns (r: Outcome<DfaError>)
    modifies cell, stream
    ensures r == Pass
    ensures stream.inbound == ReadFrame(json, old(stream.inbound), stream.end).rest
    ensures cell.state == After(old(cell.state), Serve(old(cell.state), ReadFrame(json, old(stream.inbound), stream.end).result))
    ensures stream.outbound == old(stream.outbound) + ReplyBytes(json, Serve(old(cell.state), ReadFrame(json, old(stream.inbound), stream.end).result).reply, w)
  {
    var read := ReadMessage(stream, json);
    if read.Failure? {
      return Pass;
    }
    var msg := read.value;
    ghost var s0 := cell.state;
    DispatchTable(s0, msg);
    if msg.msgType == JoinGameRequest {
      if cell.state == Start {
        r := cell.TransitionTo(WaitingForJoin);
        if r.Fail? {
          return r;
        }
      }
      if cell.state != WaitingForJoin {
        return Pass;
      }
      r := cell.TransitionTo(Joining);
      if r.Fail? {
        return r;
      }
      SendMessage(stream, SetupAck(msg), json, w);
      r := cell.TransitionTo(InGame);
      if r.Fail? {
        return r;
      }
    } else if msg.msgType == StateUpdate {
      if cell.state != InGame {
        return Pass;
      }
      SendMessage(stream, StateAckFor(msg), json, w);
    } else if msg.msgType == StateResyncRequest {
      if cell.state != InGame {
        return Pass;
      }
      r := cell.TransitionTo(Resyncing);
      if r.Fail? {
        return r;
      }
      SendMessage(stream, StateAckFor(msg), json, w);
      r := cell.TransitionTo(InGame);
      if r.Fail? {
        return r;
      }
    }
    return Pass;
  }
}
