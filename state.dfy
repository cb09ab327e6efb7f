/**
 * The protocol state machine (state.go): the six protocol states, their
 * printable names, the fixed transition table, and the state cell that
 * `transitionTo` overwrites. Where Go panics, the model returns a
 * distinguishable failure and leaves the cell untouched.
 */
module ProtocolDfa {
  import opened Wrappers

  datatype ProtocolState = Start | WaitingForJoin | Joining | InGame | Resyncing | Closed

  /** The integer value Go's iota gives each constant, in declaration order. */
  function Ordinal(s: ProtocolState): (n: nat)
    ensures n < 6
  {
    match s
    case Start => 0
    case WaitingForJoin => 1
    case Joining => 2
    case InGame => 3
    case Resyncing => 4
    case Closed => 5
  }

  /** The name table String() indexes. */
  const Names: seq<string> := ["Start", "WaitingForJoin", "Joining", "InGame", "Resyncing", "Closed"]

  /** String(): the entry of the name table at the state's ordinal. */
  function Name(s: ProtocolState): (name: string)
    ensures StateNamed(name) == Some(s)
  {
    Names[Ordinal(s)]
  }

  /** The state a printed name belongs to, looked up by the constant names. */
  function StateNamed(name: string): Option<ProtocolState> {
    if name == "Start" then Some(Start)
    else if name == "WaitingForJoin" then Some(WaitingForJoin)
    else if name == "Joining" then Some(Joining)
    else if name == "InGame" then Some(InGame)
    else if name == "Resyncing" then Some(Resyncing)
    else if name == "Closed" then Some(Closed)
    else None
  }

  /** The state a Go ProtocolState integer denotes; only 0..5 name a constant. */
  function StateOf(n: int): (s: Option<ProtocolState>)
    ensures s.Some? <==> 0 <= n < 6
    ensures s.Some? ==> Ordinal(s.value) == n
  {
    if n == 0 then Some(Start)
    else if n == 1 then Some(WaitingForJoin)
    else if n == 2 then Some(Joining)
    else if n == 3 then Some(InGame)
    else if n == 4 then Some(Resyncing)
    else if n == 5 then Some(Closed)
    else None
  }

  /** The ordinals are 0..5 in declaration order, one per state, and every name belongs to exactly one state. */
  lemma OrdinalsAreDeclarationOrder(a: ProtocolState, b: ProtocolState)
    ensures StateOf(Ordinal(a)) == Some(a)
    ensures Ordinal(a) == Ordinal(b) ==> a == b
    ensures Name(a) == Name(b) ==> a == b
  {
    if a != b {
      assert Names[Ordinal(a)] != Names[Ordinal(b)];
    }
  }

  /** Each state prints as its constant's name without the `State` prefix. */
  lemma NamesOfStates()
    ensures Name(Start) == "Start" && Name(WaitingForJoin) == "WaitingForJoin"
    ensures Name(Joining) == "Joining" && Name(InGame) == "InGame"
    ensures Name(Resyncing) == "Resyncing" && Name(Closed) == "Closed"
  {
  }

  /** The two panics of transitionTo. */
  datatype DfaError =
    | UndefinedState(from: ProtocolState)                        // "No transitions defined for state"
    | InvalidTransition(from: ProtocolState, to: ProtocolState)  // "Invalid transition"

  /** The transition table `valid`; Closed has no entry. */
  function NextStates(s: ProtocolState): (r: Option<seq<ProtocolState>>)
    ensures r.None? <==> s == Closed
    ensures r.Some? ==> |r.value| > 0 && s !in r.value && Start !in r.value
  {
    match s
    case Start => Some([WaitingForJoin])
    case WaitingForJoin => Some([Joining])
    case Joining => Some([InGame, Closed])
    case InGame => Some([Resyncing, Closed])
    case Resyncing => Some([InGame, Closed])
    case Closed => None
  }

  /** The outcome of transitionTo(&cell, next) when the cell holds `from`: the new state, or the panic. */
  function Transition(from: ProtocolState, next: ProtocolState): (r: Result<ProtocolState, DfaError>)
    ensures r.Success? ==> r.value == next && next != from
    ensures r.Failure? && from == Closed ==> r.error == UndefinedState(Closed)
    ensures r.Failure? && from != Closed ==> r.error == InvalidTransition(from, next)
    ensures from == Closed ==> r.Failure?
  {
    match NextStates(from)
    case None => Failure(UndefinedState(from))
    case Some(allowed) => if next in allowed then Success(next) else Failure(InvalidTransition(from, next))
  }

  predicate Legal(from: ProtocolState, next: ProtocolState) {
    Transition(from, next).Success?
  }

  /** The table spelled out: exactly these eight moves are legal. */
  lemma LegalMoves(from: ProtocolState, next: ProtocolState)
    ensures from == Start ==> (Legal(from, next) <==> next == WaitingForJoin)
    ensures from == WaitingForJoin ==> (Legal(from, next) <==> next == Joining)
    ensures from == Joining ==> (Legal(from, next) <==> next == InGame || next == Closed)
    ensures from == InGame ==> (Legal(from, next) <==> next == Resyncing || next == Closed)
    ensures from == Resyncing ==> (Legal(from, next) <==> next == InGame || next == Closed)
    ensures from == Closed ==> !Legal(from, next)
  {
  }

  /** No move back to Start or to WaitingForJoin is legal from anywhere but their single predecessor. */
  lemma NoReturnToHandshake(from: ProtocolState)
    ensures !Legal(from, Start)
    ensures Legal(from, WaitingForJoin) <==> from == Start
  {
  }

  /** The cell holding one session's protocol state (a `*ProtocolState`). */
  class StateCell {
    var state: ProtocolState

    constructor (initial: ProtocolState)
      ensures state == initial
    {
      state := initial;
    }

    /**
     * transitionTo: look the current state up in the table, scan its
     * allowed successors, and overwrite the cell only when `next` is one
     * of them. A failure (Go's panic) is returned before any assignment.
     */
    method TransitionTo(next: ProtocolState) returns (r: Outcome<DfaError>)
      modifies this
      ensures Transition(old(state), next).Success? ==> r == Pass && state == next
      ensures Transition(old(state), next).Failure? ==> r == Fail(Transition(old(state), next).error) && state == old(state)
    {
      var entry := NextStates(state);
      if entry.None? {
        return Fail(UndefinedState(state));
      }
      var allowed := entry.value;
      for i := 0 to |allowed|
        invariant next !in allowed[..i]
      {
        if next == allowed[i] {
          state := next;
          return Pass;
        }
      }
      return Fail(InvalidTransition(state, next));
    }
  }
}
