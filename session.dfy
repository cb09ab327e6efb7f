/**
 * Whole exchanges between the client driver and the server dispatch:
 * the client's requests as the server handles them, and the server's
 * replies as the client receives them, over the framing layer.
 */
module Session {
  import opened Wrappers
  import opened Messages
  import opened ProtocolDfa
  import opened Framing
  import opened Server
  import opened Client

  /**
   * The client's join request on a new connection is answered with a
   * GAME_SETUP_ACK of status 0 that grants the requested turn options;
   * that reply moves the client from Start to InGame, as the server is.
   */
  lemma JoinHandshake()
    ensures Dispatch(InitialConnectionState, JoinRequest).value == Step([WaitingForJoin, Joining, InGame], Some(SetupAck(JoinRequest)))
    ensures SetupAck(JoinRequest).status == 0 && SetupAck(JoinRequest).agreedOptions == 1
    ensures SetupAck(JoinRequest).protocolVersion == 1
    ensures JoinGame(Start, Exchange(true, Success(SetupAck(JoinRequest)))).value == ActionStep(Some(JoinRequest), InGame)
  {
    DispatchTable(InitialConnectionState, JoinRequest);
  }

  /**
   * The same exchange through the bytes: the reply frame the server
   * writes in full is read back by the client as the same message, and
   * nothing is left on the stream.
   */
  lemma JoinHandshakeOverWire(json: JsonText, end: StreamEnd)
    requires Faithful(json)
    requires |Encode(json, SetupAck(JoinRequest))| < 0x1_0000_0000
    ensures ReadFrame(json, ReplyBytes(json, Dispatch(Start, JoinRequest).value.reply, WriteOutcome(true, true)), end)
              == Received(Success(SetupAck(JoinRequest)), [])
    ensures JoinGame(Start, Exchange(true, ReadFrame(json, ReplyBytes(json, Dispatch(Start, JoinRequest).value.reply, WriteOutcome(true, true)), end).result)).value.final
              == InGame
  {
    JoinHandshake();
    var bytes := Transmitted(Encode(json, SetupAck(JoinRequest)), WriteOutcome(true, true));
    ReadAfterSend(json, SetupAck(JoinRequest), [], end);
    assert bytes + [] == bytes;
  }

  /**
   * If the GAME_SETUP_ACK is lost, the server is in game while the client
   * is left in Joining, where every later action is refused.
   */
  lemma LostSetupAckDesynchronises(err: ReadError, later: seq<(Action, Exchange)>)
    ensures After(InitialConnectionState, Dispatch(InitialConnectionState, JoinRequest).value) == InGame
    ensures JoinGame(Start, Exchange(true, Failure(err))).value.final == Joining
    ensures RunActions(Joining, later) == Joining
  {
    DispatchTable(InitialConnectionState, JoinRequest);
    StuckIsPermanent(Joining, later);
  }

  /** A resync in game passes through Resyncing on the server, and its STATE_ACK returns the client to InGame. */
  lemma ResyncRoundTrip()
    ensures Dispatch(InGame, ResyncRequest).value == Step([Resyncing, InGame], Some(StateAckFor(ResyncRequest)))
    ensures Resync(InGame, Exchange(true, Success(StateAckFor(ResyncRequest)))).value == ActionStep(Some(ResyncRequest), InGame)
  {
    DispatchTable(InGame, ResyncRequest);
  }

  /** Repeated moves in game are each acknowledged and never move either side out of InGame. */
  lemma MovesAreRepeatable(n: nat)
    ensures Dispatch(InGame, MoveRequest).value == Step([], Some(StateAckFor(MoveRequest)))
    ensures ServeAll(InGame, seq(n, _ => Success(MoveRequest))) == InGame
    ensures MakeMove(InGame, Exchange(true, Success(StateAckFor(MoveRequest)))) == ActionStep(Some(MoveRequest), InGame)
  {
    DispatchTable(InGame, MoveRequest);
    InGameIsStable(seq(n, _ => Success(MoveRequest)));
  }
}
