/** When a Tor peer tries to take over the registry: the failure counter of doRound in startTorBootstrap
    (tor/tor_logic.go). */
module Failover {
  const FAILOVER_AFTER: nat := 3

  /** What happens after the third failure in a row: the wait for the jitter ends by cancellation, or the onion turns
      out to be reachable again, or the peer tries to become the server. */
  datatype Jitter = Cancelled | Recovered | Attempted

  datatype Round = Round(registerFailed: bool, fetchFailed: bool, jitter: Jitter)

  predicate BothFailed(r: Round) {
    r.registerFailed && r.fetchFailed
  }

  class Bootstrap {
    var consecutiveFailures: nat

    constructor ()
      ensures consecutiveFailures == 0
    {
      consecutiveFailures := 0;
    }

    method DoRound(r: Round) returns (waited: bool)
      modifies this
      ensures consecutiveFailures == NextCount(old(consecutiveFailures), r)
      ensures waited <==> Waits(old(consecutiveFailures), r)
      ensures waited <==> r.registerFailed && r.fetchFailed && old(consecutiveFailures) >= 2
      ensures consecutiveFailures ==
                if !(r.registerFailed && r.fetchFailed) || (waited && r.jitter != Cancelled) then 0
                else old(consecutiveFailures) + 1
    {
      waited := false;
      if r.registerFailed && r.fetchFailed {
        consecutiveFailures := consecutiveFailures + 1;
        if consecutiveFailures >= FAILOVER_AFTER {
          waited := true;
          if r.jitter == Cancelled {
            return;
          }
          if r.jitter == Recovered {
            consecutiveFailures := 0;
            return;
          }
          // Whether or not the peer became the server, it starts counting anew.
          consecutiveFailures := 0;
        }
        return;
      }
      consecutiveFailures := 0;
    }
  }

  predicate Waits(count: nat, r: Round) {
    BothFailed(r) && count + 1 >= FAILOVER_AFTER
  }

  function NextCount(count: nat, r: Round): nat {
    if !BothFailed(r) then 0
    else if count + 1 < FAILOVER_AFTER then count + 1
    else if r.jitter == Cancelled then count + 1
    else 0
  }

  // ----- runs -----

  /** The counter after a run of rounds. */
  function Count(run: seq<Round>): nat {
    if run == [] then 0 else NextCount(Count(run[..|run| - 1]), run[|run| - 1])
  }

  function FailedRounds(run: seq<Round>): nat {
    if run == [] then 0
    else FailedRounds(run[..|run| - 1]) + (if run[|run| - 1].registerFailed && run[|run| - 1].fetchFailed then 1 else 0)
  }

  /** Rounds that waited and then found the onion recovered or attempted the failover. */
  predicate Decides(run: seq<Round>, i: nat)
    requires i < |run|
  {
    Waits(Count(run[..i]), run[i]) && run[i].jitter != Cancelled
  }

  function Decisions(run: seq<Round>): nat {
    if run == [] then 0
    else Decisions(run[..|run| - 1]) + (if Decides(run, |run| - 1) then 1 else 0)
  }

  /** No wait of the run was cut short by cancellation. */
  predicate Uncancelled(run: seq<Round>) {
    forall i :: 0 <= i < |run| ==> !(Waits(Count(run[..i]), run[i]) && run[i].jitter == Cancelled)
  }

  /** Over every run, three rounds in which both requests failed stand behind each failover attempt and each recovery
      noticed after the jitter, and the counter accounts for further ones. */
  lemma {:induction false} FailoverAccounting(run: seq<Round>)
    ensures 3 * Decisions(run) + Count(run) <= FailedRounds(run)
  {
    if run != [] {
      FailoverAccounting(run[..|run| - 1]);
    }
  }

  /** Between rounds the counter stays below three unless a wait was cancelled. */
  lemma {:induction false} CounterStaysSmall(run: seq<Round>)
    requires Uncancelled(run)
    ensures Count(run) <= 2
  {
    if run != [] {
      var before := run[..|run| - 1];
      forall i | 0 <= i < |before| ensures !(Waits(Count(before[..i]), before[i]) && before[i].jitter == Cancelled) {
        assert before[..i] == run[..i] && before[i] == run[i];
      }
      CounterStaysSmall(before);
      assert !(Waits(Count(run[..|run| - 1]), run[|run| - 1]) && run[|run| - 1].jitter == Cancelled);
    }
  }

  /** A round that counts towards the next decision. */
  predicate Counts(run: seq<Round>, i: nat)
    requires i < |run|
  {
    run[i].registerFailed && run[i].fetchFailed && !Decides(run, i)
  }

  lemma CountsInPrefix(run: seq<Round>, m: nat, i: nat)
    requires i < m <= |run|
    ensures Counts(run[..m], i) <==> Counts(run, i)
  {
    assert run[..m][..i] == run[..i];
  }

  lemma CountStep(run: seq<Round>)
    requires run != []
    ensures Count(run) == if Counts(run, |run| - 1) then Count(run[..|run| - 1]) + 1 else 0
  {
  }

  /** The counter is the number of failed rounds since the last round that succeeded or decided. */
  lemma {:induction false} CounterCountsTheStreak(run: seq<Round>)
    ensures Count(run) <= |run|
    ensures forall i :: |run| - Count(run) <= i < |run| ==> Counts(run, i)
    ensures Count(run) < |run| ==> !Counts(run, |run| - Count(run) - 1)
  {
    if run != [] {
      var before := run[..|run| - 1];
      CounterCountsTheStreak(before);
      CountStep(run);
      forall i | 0 <= i < |before| ensures Counts(before, i) <==> Counts(run, i) {
        CountsInPrefix(run, |before|, i);
      }
    }
  }

  /** A peer attempts the failover only after three failed rounds in a row that no other decision used. */
  lemma AttemptsNeedThreeFailures(run: seq<Round>, i: nat)
    requires i < |run| && Decides(run, i)
    ensures i >= 2 && run[i].registerFailed && run[i].fetchFailed && Counts(run, i - 1) && Counts(run, i - 2)
  {
    var before := run[..i];
    CounterCountsTheStreak(before);
    CountsInPrefix(run, i, i - 1);
    CountsInPrefix(run, i, i - 2);
  }
}
