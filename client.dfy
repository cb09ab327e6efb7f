/**
 * Client-side driver (client.go: sendJoinGame, sendStateUpdate,
 * sendResyncRequest).
 *
 * The client keeps one process-wide protocol state (the package variable
 * currentState, here a `StateCell`) and changes it step by step around
 * each request. What the network does during an action is an input: whether
 * the stream could be opened, and what readMessage returned. Writing the
 * request reports nothing, so it is not an input. A failure part-way
 * through leaves whatever transitions were already made; nothing is rolled
 * back.
 */
module Client {
  import opened Wrappers
  import opened Messages
  import opened ProtocolDfa
  import opened Framing

  /** The three requests the client sends. */
  const JoinRequest: Message := Message(1, JoinGameRequest, "ashley123", "civilization_game", 1, 0, 0, "")
  const MoveRequest: Message := Message(1, StateUpdate, "", "", 0, 0, 0, "TURN_1:PLAYER_ASHLEY_MOVE")
  const ResyncRequest: Message := Message(1, StateResyncRequest, "", "", 0, 0, 0, "")

  /** What the network does during one action. */
  datatype Exchange = Exchange(streamOpened: bool, reply: Result<Message, ReadError>)

  /** Whether the exchange delivered a reply of the given type. */
  predicate RepliedWith(x: Exchange, msgType: string) {
    x.reply.Success? && x.reply.value.msgType == msgType
  }

  /** What one action does: the request handed to sendMessage, if any, and the state left behind. */
  datatype ActionStep = ActionStep(sent: Option<Message>, final: ProtocolState)

  /** sendJoinGame, with every transitionTo it performs; a failure would be a panic. */
  function JoinGame(s: ProtocolState, x: Exchange): (r: Result<ActionStep, DfaError>)
    ensures r.Success?
  {
    if s != Start then Success(ActionStep(None, s))
    else match Transition(s, WaitingForJoin)
      case Failure(e) => Failure(e)
      case Success(waiting) =>
        if !x.streamOpened then Success(ActionStep(None, waiting))
        else match Transition(waiting, Joining)
          case Failure(e) => Failure(e)
          case Success(joining) =>
            if !RepliedWith(x, GameSetupAck) then Success(ActionStep(Some(JoinRequest), joining))
            else match Transition(joining, InGame)
              case Failure(e) => Failure(e)
              case Success(inGame) => Success(ActionStep(Some(JoinRequest), inGame))
  }

  /** sendStateUpdate: it never changes the state, and sends only from InGame over an opened stream. */
  function MakeMove(s: ProtocolState, x: Exchange): (r: ActionStep)
    ensures r.final == s
    ensures r.sent.Some? <==> s == InGame && x.streamOpened
    ensures r.sent.Some? ==> r.sent.value == MoveRequest
  {
    if s != InGame || !x.streamOpened then ActionStep(None, s)
    else ActionStep(Some(MoveRequest), s)
  }

  /** sendResyncRequest, with every transitionTo it performs; a failure would be a panic. */
  function Resync(s: ProtocolState, x: Exchange): (r: Result<ActionStep, DfaError>)
    ensures r.Success?
  {
    if s != InGame then Success(ActionStep(None, s))
    else match Transition(s, Resyncing)
      case Failure(e) => Failure(e)
      case Success(resyncing) =>
        if !x.streamOpened then Success(ActionStep(None, resyncing))
        else if !RepliedWith(x, StateAck) then Success(ActionStep(Some(ResyncRequest), resyncing))
        else match Transition(resyncing, InGame)
          case Failure(e) => Failure(e)
          case Success(back) => Success(ActionStep(Some(ResyncRequest), back))
  }

  /** The outcomes of sendJoinGame, by where it stops. */
  lemma JoinGameOutcomes(s: ProtocolState, x: Exchange)
    ensures s != Start ==> JoinGame(s, x).value == ActionStep(None, s)
    ensures s == Start && !x.streamOpened ==> JoinGame(s, x).value == ActionStep(None, WaitingForJoin)
    ensures s == Start && x.streamOpened && RepliedWith(x, GameSetupAck) ==> JoinGame(s, x).value == ActionStep(Some(JoinRequest), InGame)
    ensures s == Start && x.streamOpened && !RepliedWith(x, GameSetupAck) ==> JoinGame(s, x).value == ActionStep(Some(JoinRequest), Joining)
  {
  }

  /** The outcomes of sendResyncRequest, by where it stops. */
  lemma ResyncOutcomes(s: ProtocolState, x: Exchange)
    ensures s != InGame ==> Resync(s, x).value == ActionStep(None, s)
    ensures s == InGame && !x.streamOpened ==> Resync(s, x).value == ActionStep(None, Resyncing)
    ensures s == InGame && x.streamOpened && RepliedWith(x, StateAck) ==> Resync(s, x).value == ActionStep(Some(ResyncRequest), InGame)
    ensures s == InGame && x.streamOpened && !RepliedWith(x, StateAck) ==> Resync(s, x).value == ActionStep(Some(ResyncRequest), Resyncing)
  {
  }

  /** The three menu actions. */
  datatype Action = StartGame | SendMove | RequestResync

  /** One menu action taken in state `s`. */
  function Act(s: ProtocolState, a: Action, x: Exchange): ActionStep {
    match a
    case StartGame => JoinGame(s, x).value
    case SendMove => MakeMove(s, x)
    case RequestResync => Resync(s, x).value
  }

  /** The states a failure part-way through an action can leave the client in. */
  predicate Stuck(s: ProtocolState) {
    s == WaitingForJoin || s == Joining || s == Resyncing
  }

  /** In a stuck state every action is refused before any network action: nothing is sent, nothing changes. */
  lemma StuckStatesRefuseEverything(s: ProtocolState, a: Action, x: Exchange)
    requires Stuck(s)
    ensures Act(s, a, x) == ActionStep(None, s)
  {
  }

  /**
   * A sequence of menu choices, each with what the network did. The client
   * never reaches Closed, since no action of it transitions there, and a
   * client in Closed would stay there.
   */
  function RunActions(s: ProtocolState, actions: seq<(Action, Exchange)>): (r: ProtocolState)
    ensures r == Closed <==> s == Closed
    decreases |actions|
  {
    if |actions| == 0 then s
    else
      var next := Act(s, actions[0].0, actions[0].1).final;
      assert next == Closed <==> s == Closed;
      RunActions(next, actions[1..])
  }

  /** A stuck client stays stuck for good: there is no path back to Start or InGame. */
  lemma {:induction false} StuckIsPermanent(s: ProtocolState, actions: seq<(Action, Exchange)>)
    requires Stuck(s)
    ensures RunActions(s, actions) == s
    decreases |actions|
  {
    if |actions| > 0 {
      StuckStatesRefuseEverything(s, actions[0].0, actions[0].1);
      StuckIsPermanent(s, actions[1..]);
    }
  }

  /**
   * sendJoinGame on the global state cell. Returns the panic of
   * transitionTo as Fail (none occurs) and the request handed to
   * sendMessage.
   */
  method SendJoinGame(current: StateCell, x: Exchange) returns (r: Outcome<DfaError>, sent: Option<Message>)
    modifies current
    ensures r == Pass
    ensures current.state == JoinGame(old(current.state), x).value.final
    ensures sent == JoinGame(old(current.state), x).value.sent
  {
    sent := None;
    if current.state != Start {
      return Pass, sent;
    }
    r := current.TransitionTo(WaitingForJoin);
    if r.Fail? {
      return;
    }
    if !x.streamOpened {
      return Pass, sent;
    }
    sent := Some(JoinRequest);
    r := current.TransitionTo(Joining);
    if r.Fail? {
      return;
    }
    if x.reply.Failure? {
      return Pass, sent;
    }
    if x.reply.value.msgType == GameSetupAck {
      r := current.TransitionTo(InGame);
      if r.Fail? {
        return;
      }
    }
    return Pass, sent;
  }

  /** sendStateUpdate on the global state cell: it reads the state and never writes it. */
  method SendStateUpdate(current: StateCell, x: Exchange) returns (sent: Option<Message>)
    ensures sent == MakeMove(current.state, x).sent
  {
    if current.state != InGame {
      return None;
    }
    if !x.streamOpened {
      return None;
    }
    sent := Some(MoveRequest);
  }

  /** sendResyncRequest on the global state cell. */
  method SendResyncRequest(current: StateCell, x: Exchange) returns (r: Outcome<DfaError>, sent: Option<Message>)
    modifies current
    ensures r == Pass
    ensures current.state == Resync(old(current.state), x).value.final
    ensures sent == Resync(old(current.state), x).value.sent
  {
    sent := None;
    if current.state != InGame {
      return Pass, sent;
    }
    r := current.TransitionTo(Resyncing);
    if r.Fail? {
      return;
    }
    if !x.streamOpened {
      return Pass, sent;
    }
    sent := Some(ResyncRequest);
    if x.reply.Failure? {
      return Pass, sent;
    }
    if x.reply.value.msgType == StateAck {
      r := current.TransitionTo(InGame);
      if r.Fail? {
        return;
      }
    }
    return Pass, sent;
  }
}
