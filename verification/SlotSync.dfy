/** What `WithClients` around the two slot queries comes to, read off the node's answers: how many are
    asked for, which of them the tracker ends up with, and how the sync ends. */
module SlotSync {
  import opened Basics
  import opened SlotTracker

  function Failures(answers: seq<Answer>): nat
  {
    if answers == [] then 0 else (if answers[0].failed then 1 else 0) + Failures(answers[1..])
  }

  lemma FailuresStep(answers: seq<Answer>, n: nat)
    requires n < |answers|
    ensures Failures(answers[..n + 1]) == (if answers[0].failed then 1 else 0) + Failures(answers[1..][..n])
  {
    assert answers[..n + 1][0] == answers[0] && answers[..n + 1][1..] == answers[1..][..n];
  }

  /** The number held after `n` answers, failed ones included; `have` at first. */
  function Holding(have: uint64, answers: seq<Answer>, n: nat): uint64
    requires n <= |answers|
  {
    if n == 0 then have else answers[n - 1].slot
  }

  /** The confirmed slot is asked for until it reaches `slot`: `n` times, as the script goes. */
  predicate AskedConfirmed(have: uint64, slot: uint64, answers: seq<Answer>, n: nat)
  {
    && n <= |answers|
    && (forall i :: 0 <= i < n ==> Holding(have, answers, i) < slot)
    && (slot <= Holding(have, answers, n) || n == |answers|)
  }

  /** The finalized slot in use after `n` answers is good enough: it reaches `slot`, or it is what an
      answer that did not fail says. */
  predicate FinalizedSettled(have: uint64, slot: uint64, answers: seq<Answer>, n: nat)
    requires n <= |answers|
  {
    slot <= Holding(have, answers, n) || (n > 0 && !answers[n - 1].failed)
  }

  /** The finalized slot is asked for, `n` times, until then. */
  predicate AskedFinalized(have: uint64, slot: uint64, answers: seq<Answer>, n: nat)
  {
    && n <= |answers|
    && (forall i :: 0 <= i < n ==> !FinalizedSettled(have, slot, answers, i))
    && (FinalizedSettled(have, slot, answers, n) || n == |answers|)
  }

  /** One answer about the confirmed slot, taken from the script. */
  lemma SyncStep(t: Tracker, slot: uint64, clients: nat, confirmed: seq<Answer>, finalized: seq<Answer>)
    requires clients > 0 && t.confirmed < slot && confirmed != []
    ensures Sync(t, slot, clients, confirmed, finalized) ==
            Sync(t.(confirmed := confirmed[0].slot), slot, if confirmed[0].failed then clients - 1 else clients,
                 confirmed[1..], finalized)
  {
  }

  lemma AskedConfirmedStep(have: uint64, slot: uint64, answers: seq<Answer>, n: nat)
    requires AskedConfirmed(have, slot, answers, n) && n > 0
    ensures AskedConfirmed(answers[0].slot, slot, answers[1..], n - 1)
    ensures Holding(answers[0].slot, answers[1..], n - 1) == Holding(have, answers, n)
  {
    assert have < slot ==> Holding(have, answers, 0) < slot;
    assert forall i :: 0 <= i < n ==> Holding(answers[0].slot, answers[1..], i) == Holding(have, answers, i + 1);
  }

  lemma AskedFinalizedStep(have: uint64, slot: uint64, answers: seq<Answer>, n: nat)
    requires AskedFinalized(have, slot, answers, n) && n > 0 && answers[0].failed
    ensures AskedFinalized(answers[0].slot, slot, answers[1..], n - 1)
    ensures Holding(answers[0].slot, answers[1..], n - 1) == Holding(have, answers, n)
    ensures FinalizedSettled(answers[0].slot, slot, answers[1..], n - 1) == FinalizedSettled(have, slot, answers, n)
  {
    assert forall i :: 0 <= i < n ==>
      FinalizedSettled(answers[0].slot, slot, answers[1..], i) == FinalizedSettled(have, slot, answers, i + 1);
  }

  /** With the confirmed slot reached, only the finalized one is left to ask for. */
  lemma {:induction false} FinalizedOutcome(t: Tracker, slot: uint64, clients: nat, confirmed: seq<Answer>,
                                            finalized: seq<Answer>, k: nat)
    requires slot <= t.confirmed && AskedFinalized(t.finalized, slot, finalized, k)
    ensures
      var (t1, turn) := Sync(t, slot, clients, confirmed, finalized);
      && turn == (if Failures(finalized[..k]) >= clients then QueryFailed
                  else if FinalizedSettled(t.finalized, slot, finalized, k) then Synced
                  else Waiting)
      && (turn.Synced? ==> t1 == Tracker(t.confirmed, Holding(t.finalized, finalized, k)))
    decreases k
  {
    if k > 0 {
      assert !FinalizedSettled(t.finalized, slot, finalized, 0);
      FailuresStep(finalized, k - 1);
      if finalized[0].failed {
        AskedFinalizedStep(t.finalized, slot, finalized, k);
        if clients > 0 {
          FinalizedOutcome(t.(finalized := finalized[0].slot), slot, clients - 1, confirmed, finalized[1..], k - 1);
        }
      } else {
        assert FinalizedSettled(t.finalized, slot, finalized, 1);
      }
    }
  }

  /** How a sync ends, and with what: it fails exactly when the answers asked for hold as many failures
      as there are clients; otherwise it gets through once both numbers are good enough, and holds the
      last number it was given of each, or the one it had where it did not have to ask. */
  lemma {:induction false} SyncOutcome(t: Tracker, slot: uint64, clients: nat, confirmed: seq<Answer>,
                                       finalized: seq<Answer>, j: nat, k: nat)
    requires AskedConfirmed(t.confirmed, slot, confirmed, j) && AskedFinalized(t.finalized, slot, finalized, k)
    ensures
      var (t1, turn) := Sync(t, slot, clients, confirmed, finalized);
      var reached := slot <= Holding(t.confirmed, confirmed, j);
      var failures := Failures(confirmed[..j]) + if reached then Failures(finalized[..k]) else 0;
      && turn == (if failures >= clients then QueryFailed
                  else if reached && FinalizedSettled(t.finalized, slot, finalized, k) then Synced
                  else Waiting)
      && (turn.Synced? ==>
            t1 == Tracker(Holding(t.confirmed, confirmed, j), Holding(t.finalized, finalized, k)))
    decreases j
  {
    if j == 0 {
      if slot <= t.confirmed { FinalizedOutcome(t, slot, clients, confirmed, finalized, k); }
    } else {
      assert Holding(t.confirmed, confirmed, 0) < slot;
      FailuresStep(confirmed, j - 1);
      AskedConfirmedStep(t.confirmed, slot, confirmed, j);
      if clients > 0 {
        SyncStep(t, slot, clients, confirmed, finalized);
        SyncOutcome(t.(confirmed := confirmed[0].slot), slot, if confirmed[0].failed then clients - 1 else clients,
                    confirmed[1..], finalized, j - 1, k);
      }
    }
  }

  /** There are such numbers of answers, whatever the script. */
  lemma AskedExist(t: Tracker, slot: uint64, confirmed: seq<Answer>, finalized: seq<Answer>) returns (j: nat, k: nat)
    ensures AskedConfirmed(t.confirmed, slot, confirmed, j) && AskedFinalized(t.finalized, slot, finalized, k)
  {
    j, k := 0, 0;
    while j < |confirmed| && Holding(t.confirmed, confirmed, j) < slot
      invariant j <= |confirmed| && forall i :: 0 <= i < j ==> Holding(t.confirmed, confirmed, i) < slot
    {
      j := j + 1;
    }
    while k < |finalized| && !FinalizedSettled(t.finalized, slot, finalized, k)
      invariant k <= |finalized| && forall i :: 0 <= i < k ==> !FinalizedSettled(t.finalized, slot, finalized, i)
    {
      k := k + 1;
    }
  }

  /** A finalized slot below the requested one is asked for anew: the number in use after a sync is
      that of the first answer that does not fail, or of a failed one that reaches the slot. One that
      is high enough is left alone. */
  lemma SyncUsesFreshFinalized(t: Tracker, slot: uint64, clients: nat, confirmed: seq<Answer>, finalized: seq<Answer>)
    requires Sync(t, slot, clients, confirmed, finalized).1.Synced?
    ensures
      var t1 := Sync(t, slot, clients, confirmed, finalized).0;
      if slot <= t.finalized then t1.finalized == t.finalized
      else exists k :: 0 <= k < |finalized| && t1.finalized == finalized[k].slot
                       && (!finalized[k].failed || slot <= finalized[k].slot)
                       && forall i :: 0 <= i < k ==> finalized[i].failed && finalized[i].slot < slot
  {
    var j, k := AskedExist(t, slot, confirmed, finalized);
    SyncOutcome(t, slot, clients, confirmed, finalized, j, k);
    assert k > 0 ==> !FinalizedSettled(t.finalized, slot, finalized, 0);
    if t.finalized < slot {
      forall i | 0 <= i < k - 1
        ensures finalized[i].failed && finalized[i].slot < slot
      {
        assert !FinalizedSettled(t.finalized, slot, finalized, i + 1);
      }
      assert k > 0 && t.finalized < slot && finalized[k - 1].slot == Holding(t.finalized, finalized, k);
    }
  }

  /** The same of the confirmed slot: the first answer that reaches the requested slot. */
  lemma SyncUsesFirstConfirmed(t: Tracker, slot: uint64, clients: nat, confirmed: seq<Answer>, finalized: seq<Answer>)
    requires Sync(t, slot, clients, confirmed, finalized).1.Synced?
    ensures
      var t1 := Sync(t, slot, clients, confirmed, finalized).0;
      if slot <= t.confirmed then t1.confirmed == t.confirmed
      else exists j :: 0 <= j < |confirmed| && t1.confirmed == confirmed[j].slot >= slot
                       && forall i :: 0 <= i < j ==> confirmed[i].slot < slot
  {
    var j, k := AskedExist(t, slot, confirmed, finalized);
    SyncOutcome(t, slot, clients, confirmed, finalized, j, k);
    assert j > 0 ==> Holding(t.confirmed, confirmed, 0) < slot;
    if t.confirmed < slot {
      forall i | 0 <= i < j - 1
        ensures confirmed[i].slot < slot
      {
        assert Holding(t.confirmed, confirmed, i + 1) < slot;
      }
      assert j > 0 && confirmed[j - 1].slot == Holding(t.confirmed, confirmed, j);
    }
  }
}
