/** Which slots the fetcher reports as available once it has returned a block, and which later calls
    leave them so: a query that fails still overwrites the confirmed slot. */
module SlotAvailability {
  import opened Basics
  import opened SlotTracker
  import opened SlotSync
  import opened FetchRuns

  /** Once a block is returned, the fetcher reports its slot, and every slot below it, as available. */
  lemma EmittedSlotIsAvailable(f: RPCFetcher, t: Tracker, slot: uint64, node: Node, asked: uint64)
    requires Fetch(f.Configured(), t, slot, node).1.Emitted?
    requires f.View() == Fetch(f.Configured(), t, slot, node).0
    requires asked <= slot
    ensures f.IsBlockAvailable(asked)
  {
    SyncReaches(t, slot, node.clients, node.confirmed, node.finalized);
  }

  /** The trackers that the calls of a run find, in turn, and the one that the last to return leaves. */
  function Trackers(setup: Setup, t: Tracker, calls: seq<Call>): (ts: seq<Tracker>)
    ensures 1 <= |ts| <= |calls| + 1 && ts[0] == t
    decreases |calls|
  {
    if calls == [] then [t] else
      var (t1, r) := Fetch(setup, t, calls[0].slot, calls[0].node);
      if r.Emitted? || r.Skipped? || r.Failed? then [t] + Trackers(setup, t1, calls[1..]) else [t]
  }

  /** The report is the comparison with the confirmed slot, whatever happened before: a slot above it
      is not available. */
  lemma AvailableIff(f: RPCFetcher, t: Tracker, asked: uint64)
    requires f.View() == t
    ensures f.IsBlockAvailable(asked) <==> asked <= t.confirmed
  {
  }

  /** Answer `n` about the confirmed slot fails the last client: it and those before it are below
      `slot`, all other clients have failed on one of these, and the number it leaves is below `asked`. */
  predicate LosesAt(slot: uint64, clients: nat, confirmed: seq<Answer>, asked: uint64, n: nat)
  {
    && n < |confirmed|
    && (forall i :: 0 <= i <= n ==> confirmed[i].slot < slot)
    && confirmed[n].failed
    && Failures(confirmed[..n + 1]) == clients
    && confirmed[n].slot < asked
  }

  /** The call has to ask about the confirmed slot, and fails with a number below `asked`. */
  ghost predicate Loses(t: Tracker, call: Call, asked: uint64)
  {
    && !KnownHole(call.slot)
    && t.confirmed < call.slot
    && exists n: nat :: LosesAt(call.slot, call.node.clients, call.node.confirmed, asked, n)
  }

  lemma {:induction false} LastFailureCounts(answers: seq<Answer>, n: nat)
    requires n < |answers| && answers[n].failed
    ensures Failures(answers[..n + 1]) > 0
  {
    FailuresStep(answers, n);
    if n > 0 { LastFailureCounts(answers[1..], n - 1); }
  }

  /** Nothing more is asked about a confirmed slot that has been reached. */
  lemma {:induction false} ReachedIsKept(t: Tracker, slot: uint64, clients: nat, confirmed: seq<Answer>,
                                         finalized: seq<Answer>)
    requires slot <= t.confirmed
    ensures Sync(t, slot, clients, confirmed, finalized).0.confirmed == t.confirmed
    decreases clients
  {
    if clients > 0 {
      var (t2, finalized1, turn2) := AskFinalized(t, slot, finalized);
      if turn2.QueryFailed? { ReachedIsKept(t2, slot, clients - 1, confirmed, finalized1); }
    }
  }

  /** A sync that ends with a lower number had such an answer. */
  lemma {:induction false} LossHasAnAnswer(t: Tracker, slot: uint64, clients: nat, confirmed: seq<Answer>,
                                           finalized: seq<Answer>, asked: uint64) returns (n: nat)
    requires clients > 0 && t.confirmed < slot && asked <= slot
    requires var (t1, turn) := Sync(t, slot, clients, confirmed, finalized); !turn.Waiting? && t1.confirmed < asked
    ensures LosesAt(slot, clients, confirmed, asked, n)
    decreases |confirmed|
  {
    SyncStep(t, slot, clients, confirmed, finalized);
    var t1, left := t.(confirmed := confirmed[0].slot), if confirmed[0].failed then clients - 1 else clients;
    if slot <= t1.confirmed { ReachedIsKept(t1, slot, left, confirmed[1..], finalized); }
    if left == 0 {
      n := 0;
      FailuresStep(confirmed, 0);
    } else {
      var m := LossHasAnAnswer(t1, slot, left, confirmed[1..], finalized, asked);
      n := m + 1;
      FailuresStep(confirmed, n);
      assert forall i :: 0 < i <= n ==> confirmed[i] == confirmed[1..][i - 1];
    }
  }

  /** A sync that is given such an answer ends with its number. */
  lemma {:induction false} AnswerLoses(t: Tracker, slot: uint64, clients: nat, confirmed: seq<Answer>,
                                       finalized: seq<Answer>, asked: uint64, n: nat)
    requires t.confirmed < slot && LosesAt(slot, clients, confirmed, asked, n)
    ensures
      var (t1, turn) := Sync(t, slot, clients, confirmed, finalized);
      turn.QueryFailed? && t1.confirmed < asked
    decreases n
  {
    LastFailureCounts(confirmed, n);
    SyncStep(t, slot, clients, confirmed, finalized);
    FailuresStep(confirmed, n);
    if n > 0 {
      var t1, left := t.(confirmed := confirmed[0].slot), if confirmed[0].failed then clients - 1 else clients;
      AnswerLoses(t1, slot, left, confirmed[1..], finalized, asked, n - 1);
    }
  }

  /** A call that returns leaves a slot available exactly when it is not given such an answer. */
  lemma CallKeepsSlotIff(setup: Setup, t: Tracker, call: Call, asked: uint64)
    requires asked <= t.confirmed
    requires !Fetch(setup, t, call.slot, call.node).1.Pending?
    ensures asked <= Fetch(setup, t, call.slot, call.node).0.confirmed <==> !Loses(t, call, asked)
  {
    var slot, node := call.slot, call.node;
    if t.confirmed >= slot {
      ReachedIsKept(t, slot, node.clients, node.confirmed, node.finalized);
    } else if !KnownHole(slot) {
      if node.clients > 0 && Fetch(setup, t, slot, node).0.confirmed < asked {
        var n := LossHasAnAnswer(t, slot, node.clients, node.confirmed, node.finalized, asked);
      }
      if n: nat :| LosesAt(slot, node.clients, node.confirmed, asked, n) {
        AnswerLoses(t, slot, node.clients, node.confirmed, node.finalized, asked, n);
      }
    }
  }

  /** The slot is reported available in each of these states. */
  predicate Kept(ts: seq<Tracker>, asked: uint64)
  {
    forall i :: 0 <= i < |ts| ==> asked <= ts[i].confirmed
  }

  ghost predicate NoneLoses(ts: seq<Tracker>, calls: seq<Call>, asked: uint64)
    requires |ts| <= |calls| + 1
  {
    forall i :: 0 <= i < |ts| - 1 ==> !Loses(ts[i], calls[i], asked)
  }

  lemma KeptStep(t: Tracker, rest: seq<Tracker>, asked: uint64)
    ensures Kept([t] + rest, asked) <==> asked <= t.confirmed && Kept(rest, asked)
  {
    var ts := [t] + rest;
    assert ts[0] == t && forall i :: 0 <= i < |rest| ==> rest[i] == ts[i + 1];
  }

  lemma NoneLosesStep(t: Tracker, rest: seq<Tracker>, calls: seq<Call>, asked: uint64)
    requires 1 <= |rest| <= |calls|
    ensures NoneLoses([t] + rest, calls, asked) <==> !Loses(t, calls[0], asked) && NoneLoses(rest, calls[1..], asked)
  {
    var ts := [t] + rest;
    assert ts[0] == t && forall i :: 0 <= i < |rest| - 1 ==> rest[i] == ts[i + 1] && calls[1..][i] == calls[i + 1];
  }

  /** A slot reported available stays so after every call of a run exactly when none of those calls
      is left with a lower number by its last client's failure. */
  lemma {:induction false} SlotStaysAvailableIff(setup: Setup, t: Tracker, calls: seq<Call>, asked: uint64)
    requires asked <= t.confirmed
    ensures var ts := Trackers(setup, t, calls); Kept(ts, asked) <==> NoneLoses(ts, calls, asked)
    decreases |calls|
  {
    if |Trackers(setup, t, calls)| > 1 {
      var t1 := Fetch(setup, t, calls[0].slot, calls[0].node).0;
      var rest := Trackers(setup, t1, calls[1..]);
      CallKeepsSlotIff(setup, t, calls[0], asked);
      KeptStep(t, rest, asked);
      NoneLosesStep(t, rest, calls, asked);
      if asked <= t1.confirmed { SlotStaysAvailableIff(setup, t1, calls[1..], asked); }
    }
  }

  /** After a block is returned, its slot stays available exactly as long as no later call is left
      with a lower number; so for as long as no query about the confirmed slot fails with one. */
  lemma EmittedSlotStaysAvailable(setup: Setup, t: Tracker, slot: uint64, node: Node, later: seq<Call>)
    requires Fetch(setup, t, slot, node).1.Emitted?
    ensures
      var ts := Trackers(setup, Fetch(setup, t, slot, node).0, later);
      && (Kept(ts, slot) <==> NoneLoses(ts, later, slot))
      && (AllFailuresReach(later, slot) ==> Kept(ts, slot))
  {
    SyncReaches(t, slot, node.clients, node.confirmed, node.finalized);
    SlotStaysAvailableIff(setup, Fetch(setup, t, slot, node).0, later, slot);
  }

  /** No failed query about the confirmed slot leaves a number below `slot`. */
  predicate AllFailuresReach(calls: seq<Call>, slot: uint64)
  {
    forall i, j :: 0 <= i < |calls| && 0 <= j < |calls[i].node.confirmed| && calls[i].node.confirmed[j].failed ==>
      slot <= calls[i].node.confirmed[j].slot
  }

  /** Where the only client's first query fails and leaves 0, no slot but 0 is available any more. */
  lemma FailedQueryLosesSlots(setup: Setup, t: Tracker, slot: uint64, node: Node, asked: uint64, f: RPCFetcher)
    requires t.confirmed < slot && !KnownHole(slot) && node.clients == 1
    requires node.confirmed != [] && node.confirmed[0] == Answer(0, true)
    ensures Fetch(setup, t, slot, node) == (t.(confirmed := 0), Failed)
    ensures Loses(t, Call(slot, node), asked) <==> asked > 0
    ensures f.View() == Fetch(setup, t, slot, node).0 ==> (f.IsBlockAvailable(asked) <==> asked == 0)
  {
    if asked > 0 {
      FailuresStep(node.confirmed, 0);
      assert LosesAt(slot, 1, node.confirmed, asked, 0);
    }
    SyncStep(t, slot, 1, node.confirmed, node.finalized);
  }
}
