/** The runtime environment a mod component may be restricted to. */
module Environments {

  datatype Environment = CLIENT_MODE | SERVER_MODE | DUAL_MODE {

    /** Whether something declared for this environment is eligible in `current`. */
    predicate Matches(current: Environment)
    {
      this == DUAL_MODE || this == current
    }
  }

  /** DUAL_MODE matches every environment. */
  lemma DualMatchesAll(current: Environment)
    ensures DUAL_MODE.Matches(current)
  {
  }

  /** Every environment matches itself. */
  lemma MatchesReflexive(e: Environment)
    ensures e.Matches(e)
  {
  }

  /** Client-only and server-only never match each other. */
  lemma ClientServerExclusive()
    ensures !CLIENT_MODE.Matches(SERVER_MODE)
    ensures !SERVER_MODE.Matches(CLIENT_MODE)
  {
  }

  /** Matches is not symmetric: a client-only component is not eligible under DUAL_MODE. */
  lemma MatchesNotSymmetric()
    ensures DUAL_MODE.Matches(CLIENT_MODE) && !CLIENT_MODE.Matches(DUAL_MODE)
    ensures DUAL_MODE.Matches(SERVER_MODE) && !SERVER_MODE.Matches(DUAL_MODE)
  {
  }

  /** A non-dual environment matches exactly one current environment, itself. */
  lemma SingleEnvironmentMatchesOnlyItself(e: Environment, current: Environment)
    requires e != DUAL_MODE
    ensures e.Matches(current) <==> current == e
  {
  }
}
