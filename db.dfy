/** The database connection helper (`dbConnect`): a module-level flag
    remembers the ready state of the connection, and a call returns at once
    while it is truthy. The connection attempt itself is an input: the
    ready state it reports, or the error it rejects with. */
module Db {
  import opened Common

  /** What one call of the helper comes to: the flag afterwards, whether a
      connection was attempted, and the error it rethrows. The flag is a
      ready state; `false`, like the state 0, is falsy and is written 0. */
  datatype Step = Step(flag: nat, attempted: bool, error: Option<Error>)

  function ConnectStep(flag: nat, outcome: Result<nat>): (s: Step)
    ensures flag != 0 ==> s == Step(flag, false, None)
    ensures flag == 0 ==> s.attempted
    ensures s.error.Some? <==> flag == 0 && outcome.Err?
    ensures s.error.Some? ==> s.flag == 0 && s.error == Some(outcome.error)
    ensures flag == 0 && outcome.Ok? ==> s.flag == outcome.value
  {
    if flag != 0 then Step(flag, false, None)
    else
      match outcome
      case Ok(readyState) => Step(readyState, true, None)
      case Err(e) => Step(flag, true, Some(e))
  }

  /** The module state of `lib/db.js`. */
  class Connection {
    var isConnected: nat
    /** How many connection attempts have been made. */
    ghost var attempts: nat

    constructor ()
      ensures isConnected == 0 && attempts == 0
    {
      isConnected := 0;
      attempts := 0;
    }

    /** `dbConnect()`, with `outcome` what `mongoose.connect` settles to. */
    method Connect(outcome: Result<nat>) returns (error: Option<Error>)
      modifies this
      ensures var s := ConnectStep(old(isConnected), outcome);
        isConnected == s.flag && error == s.error &&
        attempts == old(attempts) + (if s.attempted then 1 else 0)
    {
      if isConnected != 0 {
        return None;
      }
      attempts := attempts + 1;
      match outcome {
        case Ok(readyState) =>
          isConnected := readyState;
          error := None;
        case Err(e) =>
          error := Some(e);
      }
    }
  }

  // ---------------------------------------------------------------------
  // A sequence of calls.

  /** The flag after a sequence of calls with the given outcomes. */
  function FlagAfter(flag: nat, outcomes: seq<Result<nat>>): nat {
    if outcomes == [] then flag
    else ConnectStep(FlagAfter(flag, outcomes[..|outcomes| - 1]), outcomes[|outcomes| - 1]).flag
  }

  /** The number of calls that attempted a connection and left the flag
      truthy. */
  function Established(flag: nat, outcomes: seq<Result<nat>>): nat {
    if outcomes == [] then 0
    else
      var before := FlagAfter(flag, outcomes[..|outcomes| - 1]);
      var s := ConnectStep(before, outcomes[|outcomes| - 1]);
      Established(flag, outcomes[..|outcomes| - 1]) + (if s.attempted && s.flag != 0 then 1 else 0)
  }

  /** The number of calls that attempted a connection. */
  function Attempts(flag: nat, outcomes: seq<Result<nat>>): nat {
    if outcomes == [] then 0
    else
      var before := FlagAfter(flag, outcomes[..|outcomes| - 1]);
      Attempts(flag, outcomes[..|outcomes| - 1]) + (if ConnectStep(before, outcomes[|outcomes| - 1]).attempted then 1 else 0)
  }

  /** Once the flag is truthy it never changes, and no call attempts a
      connection again. */
  lemma {:induction false} ConnectedStays(flag: nat, outcomes: seq<Result<nat>>)
    requires flag != 0
    ensures FlagAfter(flag, outcomes) == flag
    ensures Attempts(flag, outcomes) == 0
    ensures Established(flag, outcomes) == 0
  {
    if outcomes != [] {
      ConnectedStays(flag, outcomes[..|outcomes| - 1]);
    }
  }

  /** Whatever the outcomes, at most one call establishes a connection:
      after it the flag is truthy and every later call returns at once. */
  lemma {:induction false} EstablishedAtMostOnce(flag: nat, outcomes: seq<Result<nat>>)
    ensures Established(flag, outcomes) <= 1
    ensures Established(flag, outcomes) == 1 ==> FlagAfter(flag, outcomes) != 0
    ensures flag != 0 ==> Established(flag, outcomes) == 0
  {
    if outcomes != [] {
      var init := outcomes[..|outcomes| - 1];
      EstablishedAtMostOnce(flag, init);
      if FlagAfter(flag, init) != 0 {
        ConnectedStays(FlagAfter(flag, init), [outcomes[|outcomes| - 1]]);
      }
      if flag != 0 {
        ConnectedStays(flag, outcomes);
      }
    }
  }

  /** A failed attempt leaves the flag falsy, so the next call tries
      again. */
  lemma FailureRetried(flag: nat, e: Error, next: Result<nat>)
    requires flag == 0
    ensures FlagAfter(flag, [Err(e)]) == 0
    ensures Attempts(flag, [Err(e), next]) == 2
  {
    var failed: seq<Result<nat>> := [Err(e)];
    assert (failed + [next])[..1] == failed;
    assert failed[..0] == [];
    assert [Err(e), next] == failed + [next];
    assert FlagAfter(flag, failed) == 0;
    assert Attempts(flag, failed) == 1;
  }
}
