/** The wait for propagation after the batch is sent (update_records): ask for
    the change's status once per tick, at most sixty times, and stop at the
    first INSYNC.  The status query is an oracle: `status(i)` is the answer to
    the i-th query, counting from 0.  The one-second sleep is not modelled. */
module SyncPoll {

  const InSync := "INSYNC"
  const SecondsToWaitForInSync := 60

  /** What the loop leaves behind: `synced` and `seconds_waited`. */
  datatype SyncReport = SyncReport(synced: bool, secondsWaited: nat)

  /** The first tick in [from, limit) whose status is INSYNC, or `limit` when
      there is none. */
  function FirstInSync(status: nat -> string, from: nat, limit: nat): (t: nat)
    requires from <= limit
    ensures from <= t <= limit
    ensures forall i :: from <= i < t ==> status(i) != InSync
    ensures t < limit ==> status(t) == InSync
    decreases limit - from
  {
    if from == limit then limit
    else if status(from) == InSync then from
    else FirstInSync(status, from + 1, limit)
  }

  /** The report of the polling loop for a given sequence of answers. */
  function Poll(status: nat -> string): (r: SyncReport)
    ensures r.secondsWaited <= SecondsToWaitForInSync
    ensures r.synced <==> r.secondsWaited < SecondsToWaitForInSync
    ensures r.synced ==> status(r.secondsWaited) == InSync
    ensures forall i :: 0 <= i < r.secondsWaited ==> status(i) != InSync
  {
    var t := FirstInSync(status, 0, SecondsToWaitForInSync);
    SyncReport(t < SecondsToWaitForInSync, t)
  }

  /** The loop of update_records.  `queries` counts the status queries made. */
  method AwaitInSync(status: nat -> string) returns (synced: bool, secondsWaited: nat, ghost queries: nat)
    ensures SyncReport(synced, secondsWaited) == Poll(status)
    ensures synced <==> exists i :: 0 <= i < SecondsToWaitForInSync && status(i) == InSync
    ensures synced ==> status(secondsWaited) == InSync
    ensures forall i :: 0 <= i < secondsWaited ==> status(i) != InSync
    ensures queries == secondsWaited + (if synced then 1 else 0) <= SecondsToWaitForInSync
  {
    secondsWaited := 0;
    synced := false;
    queries := 0;
    while secondsWaited < SecondsToWaitForInSync
      invariant secondsWaited <= SecondsToWaitForInSync
      invariant !synced
      invariant queries == secondsWaited
      invariant forall i :: 0 <= i < secondsWaited ==> status(i) != InSync
      invariant FirstInSync(status, secondsWaited, SecondsToWaitForInSync) == FirstInSync(status, 0, SecondsToWaitForInSync)
    {
      var answer := status(secondsWaited);
      queries := queries + 1;
      if answer == InSync {
        synced := true;
        break;
      }
      secondsWaited := secondsWaited + 1;
    }
    if synced {
      assert 0 <= secondsWaited < SecondsToWaitForInSync && status(secondsWaited) == InSync;
    }
  }

  /** Answers after the INSYNC that stopped the loop are never asked for: two
      oracles that agree up to and including that tick give the same result. */
  lemma OnlyAskedTicksMatter(s1: nat -> string, s2: nat -> string, from: nat, limit: nat)
    requires from <= limit
    requires forall i :: from <= i <= FirstInSync(s1, from, limit) && i < limit ==> s1(i) == s2(i)
    ensures FirstInSync(s1, from, limit) == FirstInSync(s2, from, limit)
  {
  }

  /** INSYNC on the third query stops the loop there: two ticks waited, no more
      queries. */
  lemma InSyncOnThirdQuery(status: nat -> string)
    requires status(0) != InSync && status(1) != InSync && status(2) == InSync
    ensures Poll(status) == SyncReport(true, 2)
  {
  }

  /** Never seeing INSYNC ends in a timeout after sixty ticks, not in an error. */
  lemma NeverInSyncTimesOut(status: nat -> string)
    requires forall i :: 0 <= i < SecondsToWaitForInSync ==> status(i) != InSync
    ensures Poll(status) == SyncReport(false, SecondsToWaitForInSync)
  {
  }
}
