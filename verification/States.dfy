/** The eight transfer states and the table of allowed transitions
    (internal/orchestrator/states.go). */
module States {

  datatype State =
    | Requested
    | Validating
    | Analyzing
    | Approved
    | FundsPosted
    | Completed
    | Rejected
    | Returned

  const VALID_TRANSITIONS: map<State, seq<State>> :=
    map[
      Requested := [Validating],
      Validating := [Analyzing, Rejected],
      Analyzing := [Approved, Rejected],
      Approved := [FundsPosted],
      FundsPosted := [Completed, Returned],
      Completed := [Returned]
    ]

  predicate IsValidTransition(from: State, to: State) {
    from in VALID_TRANSITIONS && to in VALID_TRANSITIONS[from]
  }

  /** The position of a state on the longest path from Requested. */
  function Rank(s: State): nat {
    match s
    case Requested => 0
    case Validating => 1
    case Analyzing => 2
    case Approved => 3
    case FundsPosted => 4
    case Completed => 5
    case Rejected => 6
    case Returned => 6
  }

  /** The table read as a relation, which is the form the proofs use. */
  predicate Edge(from: State, to: State) {
    || (from == Requested && to == Validating)
    || (from == Validating && (to == Analyzing || to == Rejected))
    || (from == Analyzing && (to == Approved || to == Rejected))
    || (from == Approved && to == FundsPosted)
    || (from == FundsPosted && (to == Completed || to == Returned))
    || (from == Completed && to == Returned)
  }

  lemma {:induction false} EdgesAreTheTable(from: State, to: State)
    ensures Edge(from, to) <==> IsValidTransition(from, to)
  {
    assert VALID_TRANSITIONS.Keys == {Requested, Validating, Analyzing, Approved, FundsPosted, Completed};
  }

  /** A nonempty sequence of states, each reached from the one before by an edge of the table. */
  ghost predicate IsPath(h: seq<State>) {
    && h != []
    && forall i :: 0 < i < |h| ==> Edge(h[i - 1], h[i])
  }

  /** A path climbs strictly, so a path of the table has at most seven states. */
  lemma {:induction false} PathsAreShort(h: seq<State>)
    requires IsPath(h)
    ensures Rank(h[0]) + |h| - 1 <= Rank(h[|h| - 1])
    ensures |h| <= 7
  {
    if |h| > 1 {
      var g := h[..|h| - 1];
      assert forall i :: 0 < i < |g| ==> Edge(g[i - 1], g[i]) by {
        forall i | 0 < i < |g| ensures Edge(g[i - 1], g[i]) {
          assert g[i - 1] == h[i - 1] && g[i] == h[i];
        }
      }
      PathsAreShort(g);
    }
  }

  /** The money of a deposit may have moved: Approved was once reached. */
  predicate OnceApproved(s: State) {
    s == Approved || s == FundsPosted || s == Completed || s == Returned
  }

  /** FundsPosted was once reached. */
  predicate OncePosted(s: State) {
    s == FundsPosted || s == Completed || s == Returned
  }
}
