/** Runs of polls against a store that anybody may change between them. */
module PullRuns {
  import opened Prelude
  import opened BeadModel
  import opened Pull

  /** One poll, and the store as it finds it. */
  datatype Visit = Visit(tasks: seq<Bead>, poll: Poll)

  function LedgerAfter(ledger: Ledger, visits: seq<Visit>): Ledger {
    if visits == [] then ledger
    else
      var last := visits[|visits| - 1];
      NextLedger(last.tasks, LedgerAfter(ledger, visits[..|visits| - 1]), last.poll)
  }

  predicate HeldAt(ledger: Ledger, visits: seq<Visit>, j: nat)
    requires j < |visits|
  {
    Held(visits[j].tasks, LedgerAfter(ledger, visits[..j]), visits[j].poll)
  }

  predicate UnderKey(visits: seq<Visit>, j: nat, key: string)
    requires j < |visits|
  {
    KeyOf(visits[j].poll) == key
  }

  /** This poll may not be handed work by a latched key: it is not forced, and the
      agent it names still has something outstanding. */
  predicate StillOwing(visits: seq<Visit>, k: nat)
    requires k < |visits|
  {
    !visits[k].poll.force && Unresolved(visits[k].tasks, visits[k].poll.agent) != []
  }

  /** Every poll under `key` strictly between `i` and `j` is still owing. */
  ghost predicate OwingBetween(visits: seq<Visit>, key: string, i: nat, j: nat)
    requires j <= |visits|
  {
    forall k: nat :: i < k < j && UnderKey(visits, k, key) ==> StillOwing(visits, k)
  }

  ghost predicate HeldBetween(ledger: Ledger, visits: seq<Visit>, key: string, i: nat, j: nat)
    requires j <= |visits|
  {
    forall k: nat :: i < k < j && UnderKey(visits, k, key) ==> HeldAt(ledger, visits, k)
  }

  lemma OnePoll(tasks: seq<Bead>, ledger: Ledger, p: Poll, key: string)
    ensures KeyOf(p) != key && StillReconciling(ledger, key) ==> StillReconciling(NextLedger(tasks, ledger, p), key)
    ensures KeyOf(p) == key && Held(tasks, ledger, p) ==> StillReconciling(NextLedger(tasks, ledger, p), key)
    ensures KeyOf(p) == key && StillReconciling(ledger, key) && !p.force && Unresolved(tasks, p.agent) != []
            ==> Held(tasks, ledger, p)
  {
  }

  lemma LedgerStep(ledger: Ledger, visits: seq<Visit>, j: nat)
    requires 0 < j <= |visits|
    ensures LedgerAfter(ledger, visits[..j])
         == NextLedger(visits[j - 1].tasks, LedgerAfter(ledger, visits[..j - 1]), visits[j - 1].poll)
  {
    assert visits[..j][..j - 1] == visits[..j - 1];
  }

  /** A held poll is still owing. */
  lemma HeldIsOwing(ledger: Ledger, visits: seq<Visit>, k: nat)
    requires k < |visits| && HeldAt(ledger, visits, k)
    ensures StillOwing(visits, k)
  {
  }

  /** After a poll answered with a reconcile, the ledger still says so while every
      later poll under that key, whoever's it is, is still owing. */
  lemma {:induction false} LatchRemembers(ledger: Ledger, visits: seq<Visit>, key: string, i: nat, j: nat)
    requires i < j <= |visits| && UnderKey(visits, i, key) && HeldAt(ledger, visits, i)
    requires OwingBetween(visits, key, i, j)
    ensures StillReconciling(LedgerAfter(ledger, visits[..j]), key)
  {
    if j - 1 > i {
      OwingSnoc(visits, key, i, j);
      LatchRemembers(ledger, visits, key, i, j - 1);
    }
    LatchStep(ledger, visits, key, j);
  }

  lemma OwingSnoc(visits: seq<Visit>, key: string, i: nat, j: nat)
    requires i + 1 < j <= |visits| && OwingBetween(visits, key, i, j)
    ensures OwingBetween(visits, key, i, j - 1) && (UnderKey(visits, j - 1, key) ==> StillOwing(visits, j - 1))
  {
  }

  /** One poll, seen from the key's row. */
  lemma LatchStep(ledger: Ledger, visits: seq<Visit>, key: string, j: nat)
    requires 0 < j <= |visits|
    requires || (UnderKey(visits, j - 1, key) && HeldAt(ledger, visits, j - 1))
             || (&& StillReconciling(LedgerAfter(ledger, visits[..j - 1]), key)
                 && (UnderKey(visits, j - 1, key) ==> StillOwing(visits, j - 1)))
    ensures StillReconciling(LedgerAfter(ledger, visits[..j]), key)
  {
    LedgerStep(ledger, visits, j);
    OnePoll(visits[j - 1].tasks, LedgerAfter(ledger, visits[..j - 1]), visits[j - 1].poll, key);
  }

  /** Exactly how long the latch holds: after a held poll, the later polls under
      its key are all held if and only if each is unforced and names an agent with
      something outstanding. It does not matter which agents they name. */
  lemma LatchHoldsIff(ledger: Ledger, visits: seq<Visit>, key: string, i: nat, j: nat)
    requires i < j <= |visits| && UnderKey(visits, i, key) && HeldAt(ledger, visits, i)
    ensures HeldBetween(ledger, visits, key, i, j) <==> OwingBetween(visits, key, i, j)
  {
    if OwingBetween(visits, key, i, j) {
      forall k: nat | i < k < j && UnderKey(visits, k, key) ensures HeldAt(ledger, visits, k) {
        LatchRemembers(ledger, visits, key, i, k);
        assert StillOwing(visits, k);
      }
    }
    if HeldBetween(ledger, visits, key, i, j) {
      forall k: nat | i < k < j && UnderKey(visits, k, key) ensures StillOwing(visits, k) {
        HeldIsOwing(ledger, visits, k);
      }
    }
  }

  /** A held poll claims nothing. */
  lemma HeldClaimsNothing(ledger: Ledger, visits: seq<Visit>, key: string, i: nat, j: nat)
    requires i < j < |visits| && UnderKey(visits, i, key) && HeldAt(ledger, visits, i) && UnderKey(visits, j, key)
    requires OwingBetween(visits, key, i, j + 1)
    ensures Claims(visits[j].tasks, LedgerAfter(ledger, visits[..j]), visits[j].poll) == []
  {
    LatchHoldsIff(ledger, visits, key, i, j + 1);
    assert HeldAt(ledger, visits, j);
  }

  /** So work handed out after a reconcile was preceded by a poll under the key
      that was forced or whose agent had nothing outstanding. */
  lemma ReleasedOnlyWhenResolved(ledger: Ledger, visits: seq<Visit>, key: string, i: nat, j: nat) returns (k: nat)
    requires i < j < |visits| && UnderKey(visits, i, key) && HeldAt(ledger, visits, i)
    requires UnderKey(visits, j, key) && !HeldAt(ledger, visits, j)
    ensures i < k <= j && UnderKey(visits, k, key)
    ensures visits[k].poll.force || Unresolved(visits[k].tasks, visits[k].poll.agent) == []
  {
    LatchHoldsIff(ledger, visits, key, i, j + 1);
    k :| i < k < j + 1 && UnderKey(visits, k, key) && !StillOwing(visits, k);
  }

  function PollsUnder(visits: seq<Visit>, key: string): nat {
    if visits == [] then 0
    else PollsUnder(visits[..|visits| - 1], key) + (if KeyOf(visits[|visits| - 1].poll) == key then 1 else 0)
  }

  /** The ledger has a row for exactly the keys that have polled, and counts every
      poll, held or not. */
  lemma {:induction false} LedgerCountsPolls(visits: seq<Visit>, key: string)
    ensures var ledger := LedgerAfter(map[], visits);
      && (key in ledger <==> PollsUnder(visits, key) > 0)
      && (key in ledger ==> ledger[key].pulls == PollsUnder(visits, key))
  {
    if visits != [] {
      LedgerCountsPolls(visits[..|visits| - 1], key);
    }
  }

  /** A poll that finds nothing outstanding leaves its key unlatched and just seen. */
  lemma NothingOwedClears(tasks: seq<Bead>, ledger: Ledger, p: Poll)
    requires Unresolved(tasks, p.agent) == []
    ensures !Held(tasks, ledger, p)
    ensures var next := NextLedger(tasks, ledger, p);
      !StillReconciling(next, KeyOf(p)) && KeyOf(p) in next && next[KeyOf(p)].lastPullAt == p.now
  {
  }

  lemma SeenJustNow(tasks: seq<Bead>, ledger: Ledger, p: Poll)
    requires !StillReconciling(ledger, KeyOf(p)) && KeyOf(p) in ledger && ledger[KeyOf(p)].lastPullAt == p.now
    requires !p.reconcile && p.reconcileAfter >= 0
    ensures !Held(tasks, ledger, p)
  {
  }

  /** The latch is the key's, not the agent's: another agent polling under the
      same node, with nothing of its own outstanding, is not held and clears it. */
  lemma SharedKeyDefeatsLatch(tasks: seq<Bead>, a: string, b: string, node: string, order: seq<Bead> -> seq<Bead>)
    requires node != "" && Unresolved(tasks, a) != [] && Unresolved(tasks, b) == []
    ensures var ours := Visit(tasks, Poll(a, Some(node), {}, false, false, 1, 1, 1, 0, order));
      var theirs := Visit(tasks, ours.poll.(agent := b));
      var visits := [ours, theirs, ours];
      && HeldAt(map[], visits, 0) && !HeldBetween(map[], visits, node, 0, 3)
      && !HeldAt(map[], visits, 2)
  {
    var ours := Visit(tasks, Poll(a, Some(node), {}, false, false, 1, 1, 1, 0, order));
    var theirs := Visit(tasks, ours.poll.(agent := b));
    var visits := [ours, theirs, ours];
    assert visits[..0] == [] && UnderKey(visits, 1, node);
    NothingOwedClears(tasks, LedgerAfter(map[], visits[..1]), theirs.poll);
    LedgerStep(map[], visits, 2);
    SeenJustNow(tasks, LedgerAfter(map[], visits[..2]), ours.poll);
    assert !HeldAt(map[], visits, 1);
  }
}
