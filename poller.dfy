/** The wait loops `wait_for_compute_environment` and `wait_for_job_queue`:
    poll AWS Batch once a second while the resource is being created or
    updated, and give up (`sys.exit`) once more polls than `max_wait_time`
    have been made. The Batch service is a function from the poll number
    (1, 2, ...) to the statuses it reports; sleeping and logging are not
    modelled. */
module Poller {

  /** The `status` fields of a describe call's answer, in order. */
  type Statuses = seq<string>

  /** How a wait loop ends: the resource settled at poll `polls`, or the
      loop gave up (`sys.exit`) after poll `polls`. */
  datatype WaitOutcome = Settled(polls: nat) | Abort(polls: nat)

  /** Keep waiting while the resource is not listed yet or is still being
      created or updated. */
  predicate Waiting(statuses: Statuses) {
    statuses == [] || statuses[0] == "CREATING" || statuses[0] == "UPDATING"
  }

  function Max(a: int, b: int): int {
    if a < b then b else a
  }

  /** The poll at which the loop gives up: the first count past
      `maxWaitTime`, and never before the first poll. */
  function AbortPoll(maxWaitTime: int): (n: nat)
    ensures n >= 1 && n > maxWaitTime
    ensures n == 1 || n == maxWaitTime + 1
  {
    Max(1, maxWaitTime + 1)
  }

  /** The loop as a function, from poll `n` on: after poll `n` the count is
      checked before the status, so a poll past the limit aborts even when
      its answer has settled. */
  function PollFrom(describe: nat -> Statuses, maxWaitTime: int, n: nat): WaitOutcome
    requires n >= 1
    decreases maxWaitTime - n
  {
    if n > maxWaitTime then Abort(n)
    else if !Waiting(describe(n)) then Settled(n)
    else PollFrom(describe, maxWaitTime, n + 1)
  }

  function Poll(describe: nat -> Statuses, maxWaitTime: int): WaitOutcome {
    PollFrom(describe, maxWaitTime, 1)
  }

  lemma {:induction false} PollFromFacts(describe: nat -> Statuses, maxWaitTime: int, n: nat)
    requires n >= 1
    requires forall k :: 1 <= k < n ==> Waiting(describe(k))
    requires n <= AbortPoll(maxWaitTime)
    ensures var o := PollFrom(describe, maxWaitTime, n);
            && o.polls >= n
            && (forall k :: 1 <= k < o.polls ==> Waiting(describe(k)))
            && (o.Settled? ==> o.polls <= maxWaitTime && !Waiting(describe(o.polls)))
            && (o.Abort? ==> o.polls == AbortPoll(maxWaitTime))
    decreases maxWaitTime - n
  {
    if n > maxWaitTime {
    } else if !Waiting(describe(n)) {
    } else {
      PollFromFacts(describe, maxWaitTime, n + 1);
    }
  }

  /** What a wait loop promises: at least one poll; every poll before the
      last still saw the resource waiting; it settles exactly when some
      poll within the limit saw it settled, at the first such poll; and
      otherwise it gives up at poll `max(1, maxWaitTime + 1)`. */
  lemma PollCharacterisation(describe: nat -> Statuses, maxWaitTime: int)
    ensures var o := Poll(describe, maxWaitTime);
            && o.polls >= 1
            && (forall k :: 1 <= k < o.polls ==> Waiting(describe(k)))
            && (o.Settled? ==> o.polls <= maxWaitTime && !Waiting(describe(o.polls)))
            && (o.Abort? ==> o.polls == AbortPoll(maxWaitTime))
            && (o.Settled? <==> exists k :: 1 <= k <= maxWaitTime && !Waiting(describe(k)))
  {
    PollFromFacts(describe, maxWaitTime, 1);
    var o := Poll(describe, maxWaitTime);
    if o.Abort? {
      forall k | 1 <= k <= maxWaitTime ensures Waiting(describe(k)) {
        assert k < o.polls;
      }
    }
  }

  /** The `while waiting` loop shared by both wait functions. */
  method WaitForSettlement(describe: nat -> Statuses, maxWaitTime: int) returns (o: WaitOutcome)
    ensures o == Poll(describe, maxWaitTime)
    ensures o.polls >= 1 && forall k :: 1 <= k < o.polls ==> Waiting(describe(k))
    ensures o.Settled? ==> o.polls <= maxWaitTime && !Waiting(describe(o.polls))
    ensures o.Abort? ==> o.polls == AbortPoll(maxWaitTime)
  {
    var waiting := true;
    var numWaits: nat := 0;
    while waiting
      invariant numWaits <= Max(0, maxWaitTime)
      invariant waiting ==> PollFrom(describe, maxWaitTime, numWaits + 1) == Poll(describe, maxWaitTime)
      invariant !waiting ==> numWaits >= 1 && Poll(describe, maxWaitTime) == Settled(numWaits)
      decreases Max(0, maxWaitTime) - numWaits + (if waiting then 1 else 0)
    {
      var statuses := describe(numWaits + 1);
      waiting := Waiting(statuses);
      numWaits := numWaits + 1;
      if numWaits > maxWaitTime {
        o := Abort(numWaits);
        PollCharacterisation(describe, maxWaitTime);
        return;
      }
    }
    o := Settled(numWaits);
    PollCharacterisation(describe, maxWaitTime);
  }

  /** Python's `wait_for_compute_environment(arn, name, log, max_wait_time=60)`;
      `describe(arn, k)` is the k-th `describe_compute_environments` answer. */
  method WaitForComputeEnvironment(arn: string, name: string, describe: (string, nat) -> Statuses,
                                   maxWaitTime: int := 60)
    returns (o: WaitOutcome)
    ensures o.polls >= 1 && forall k :: 1 <= k < o.polls ==> Waiting(describe(arn, k))
    ensures o.Settled? ==> o.polls <= maxWaitTime && !Waiting(describe(arn, o.polls))
    ensures o.Abort? ==> o.polls == AbortPoll(maxWaitTime)
  {
    var d: nat -> Statuses := (k: nat) => describe(arn, k);
    o := WaitForSettlement(d, maxWaitTime);
    assert forall k: nat :: d(k) == describe(arn, k);
  }

  /** Python's `wait_for_job_queue(name, log, max_wait_time=60)`;
      `describe(name, k)` is the k-th `describe_job_queues` answer. */
  method WaitForJobQueue(name: string, describe: (string, nat) -> Statuses, maxWaitTime: int := 60)
    returns (o: WaitOutcome)
    ensures o.polls >= 1 && forall k :: 1 <= k < o.polls ==> Waiting(describe(name, k))
    ensures o.Settled? ==> o.polls <= maxWaitTime && !Waiting(describe(name, o.polls))
    ensures o.Abort? ==> o.polls == AbortPoll(maxWaitTime)
  {
    var d: nat -> Statuses := (k: nat) => describe(name, k);
    o := WaitForSettlement(d, maxWaitTime);
    assert forall k: nat :: d(k) == describe(name, k);
  }

  /** A resource that is CREATING for two polls and then ACTIVE settles at
      the third poll under the default limit. */
  lemma SettlesAtThirdPoll()
    ensures Poll(k => if k < 3 then ["CREATING"] else ["ACTIVE"], 60) == Settled(3)
  {
    var d: nat -> Statuses := k => if k < 3 then ["CREATING"] else ["ACTIVE"];
    assert Waiting(d(1)) && Waiting(d(2)) && !Waiting(d(3));
    assert PollFrom(d, 60, 3) == Settled(3);
  }

  /** With `max_wait_time=2` and a resource that never settles, the loop
      gives up after the third poll, not the second. */
  lemma AbortsAfterThirdPoll()
    ensures Poll(k => ["UPDATING"], 2) == Abort(3)
  {
    var d: nat -> Statuses := k => ["UPDATING"];
    assert PollFrom(d, 2, 3) == Abort(3);
  }

  /** Even a poll that sees the resource settled aborts once it is past the
      limit: with `max_wait_time=0` the first poll always aborts. */
  lemma SettledPastLimitStillAborts(describe: nat -> Statuses)
    ensures Poll(describe, 0) == Abort(1)
  {
  }
}
