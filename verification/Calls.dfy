/** Calls to the outside: each one takes a tick and gets the answer an oracle holds for it. */
module Calls {
  import opened Seqs

  /** How a call fares: done; turned down without effect; or done with the reply lost on
      the way back, which the caller sees as a failure. */
  datatype Fault = Fine | Refused | Lost

  /** The outcome of one webhook POST. */
  datatype Post =
    | Success(status: nat)
    | Retryable(lastStatus: Option<nat>)
    | Permanent(status: nat)

  /** Everything one call could ask for; each call looks only at what it needs. */
  datatype Answer = Answer(
    fault: Fault,
    completion: Option<string>,  // the model's reply text, or a failed model call
    renders: bool,               // whether a webhook body renders
    post: Post,
    now: int)                    // the wall clock, epoch milliseconds

  type Oracle = nat -> Answer

  /** Why an operation failed. */
  datatype Failure =
    | Io          // the outside turned the call down or its reply was lost
    | Constraint  // a primary or foreign key was violated
    | NoFolder    // a copy or move named a folder that does not exist

  /** No failure, or one the caller could not have avoided. */
  predicate FromOutside(failure: Option<Failure>) { failure.Some? ==> failure.value == Io }

  datatype Result<+T> = Ok(value: T) | Err(failure: Failure)

  predicate AllFine(o: Oracle, from: nat, to: nat) {
    forall t :: from <= t < to ==> o(t).fault == Fine
  }

  class Network {
    const oracle: Oracle
    var tick: nat

    constructor (oracle: Oracle)
      ensures this.oracle == oracle && tick == 0
    {
      this.oracle := oracle;
      tick := 0;
    }

    method Call() returns (a: Answer)
      modifies this
      ensures a == oracle(old(tick)) && tick == old(tick) + 1
    {
      a := oracle(tick);
      tick := tick + 1;
    }

    /** The wall clock, as the next call will find it. */
    function Clock(): int
      reads this
    {
      oracle(tick).now
    }
  }
}
