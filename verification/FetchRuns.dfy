/** What one `Fetch` promises, and what a run of `Fetch` calls does. */
module FetchRuns {
  import opened Basics
  import opened Shapes
  import opened SlotTracker
  import opened SlotSync
  import C = Conversion
  import F = ConversionFailures
  import R = Rewards

  // ----- the retry loop -----

  /** A response that settles the slot. */
  predicate Terminal(slot: uint64, confirmed: uint64, r: Response)
  {
    match r
    case Found(_) => true
    case RpcError(code) => code in {-32009, -32007} || (code == -32004 && slot < confirmed)
    case OtherError => false
  }

  predicate FirstTerminal(slot: uint64, confirmed: uint64, responses: seq<Response>, k: nat)
  {
    && k < |responses|
    && Terminal(slot, confirmed, responses[k])
    && forall i :: 0 <= i < k ==> !Terminal(slot, confirmed, responses[i])
  }

  /** `fetch` returns what the first terminal response means, and goes on as long as there is none. */
  lemma {:induction false} FetchStopsAtFirstTerminal(slot: uint64, confirmed: uint64, responses: seq<Response>, k: nat)
    ensures FetchBlock(slot, confirmed, responses).Retrying? <==>
            forall i :: 0 <= i < |responses| ==> !Terminal(slot, confirmed, responses[i])
    ensures FirstTerminal(slot, confirmed, responses, k) ==>
              FetchBlock(slot, confirmed, responses)
              == if responses[k].Found? then Block(responses[k].block) else Skip
    decreases |responses|
  {
    if responses != [] && !Terminal(slot, confirmed, responses[0]) {
      FetchStopsAtFirstTerminal(slot, confirmed, responses[1..], if k > 0 then k - 1 else 0);
      assert forall i :: 0 < i < |responses| ==> responses[i] == responses[1..][i - 1];
    }
  }

  /** At the confirmed tip "block not available" is never an answer: as long as the node gives it,
      the call goes on, for the bound it is compared with is not refreshed. */
  lemma UnavailableTipIsRetried(slot: uint64, responses: seq<Response>)
    requires forall r :: r in responses ==> r == RpcError(-32004)
    ensures FetchBlock(slot, slot, responses).Retrying?
  {
    FetchStopsAtFirstTerminal(slot, slot, responses, 0);
    assert forall i :: 0 <= i < |responses| ==> responses[i] in responses;
  }

  // ----- one call -----

  lemma {:induction false} PollReaches(t: Tracker, slot: uint64, confirmed: seq<Answer>)
    ensures
      var (t1, rest, turn) := PollConfirmed(t, slot, confirmed);
      && (turn.Synced? ==> t1.confirmed >= slot)
      && t1.finalized == t.finalized
    decreases |confirmed|
  {
    if t.confirmed < slot && confirmed != [] && !confirmed[0].failed {
      PollReaches(t.(confirmed := confirmed[0].slot), slot, confirmed[1..]);
    }
  }

  lemma {:induction false} SyncReaches(t: Tracker, slot: uint64, clients: nat, confirmed: seq<Answer>,
                                       finalized: seq<Answer>)
    ensures
      var (t1, turn) := Sync(t, slot, clients, confirmed, finalized);
      turn.Synced? ==> t1.confirmed >= slot
    decreases clients
  {
    if clients > 0 {
      PollReaches(t, slot, confirmed);
      var (t1, confirmed1, turn1) := PollConfirmed(t, slot, confirmed);
      if turn1.QueryFailed? {
        SyncReaches(t1, slot, clients - 1, confirmed1, finalized);
      } else if turn1.Synced? {
        var (t2, finalized1, turn2) := AskFinalized(t1, slot, finalized);
        if turn2.QueryFailed? { SyncReaches(t2, slot, clients - 1, confirmed1, finalized1); }
      }
    }
  }

  /** `b` is the block `r`, with its parent hash patched if need be. */
  ghost predicate CarriesBlock(setup: Setup, r: BlockResult, b: BstreamBlock)
  {
    var p := b.payload;
    && b.id == p.hash == r.hash
    && b.parentId == p.prevHash == (if r.hash in setup.patches then setup.patches[r.hash] else r.prevHash)
    && b.parentNum == p.parentSlot == r.parentSlot
    && b.timestamp == p.blockTime == r.blockTime
    && p.blockHeight == r.blockHeight
    && p.slot == b.number
    && |p.transactions| == |r.transactions|
    && (forall i :: 0 <= i < |r.transactions| ==> C.CarriesTransaction(r.transactions[i], p.transactions[i]))
    && R.OrderedConversion(r.rewards, p.rewards)
  }

  lemma BuiltBlockCarries(setup: Setup, slot: uint64, finalized: uint64, r: BlockResult, b: BstreamBlock)
    requires Sound(setup.lib) && BlockFromBlockResult(setup, slot, finalized, r) == Ok(b)
    ensures CarriesBlock(setup, r, b)
  {
    C.TransactionsComeBack(setup.lib.sort, r.transactions);
    R.ToPBRewardIsOrderedConversion(setup.lib.sort, r.rewards);
  }

  /** The transactions convert and the reward types are supported. */
  ghost predicate Buildable(r: BlockResult)
  {
    && (forall i :: 0 <= i < |r.transactions| ==> C.Convertible(r.transactions[i]))
    && (forall i :: 0 <= i < |r.rewards| ==> !r.rewards[i].kind.OtherType?)
  }

  /** The payload is built, and marshals. */
  predicate PayloadMarshals(setup: Setup, slot: uint64, r: BlockResult)
  {
    var payload := Payload(setup, slot, r);
    payload.Ok? && setup.lib.marshals(payload.value)
  }

  /** A block is built from a result exactly when every transaction converts, every reward type is
      supported, and the payload marshals; where only marshalling fails, that is the error. */
  lemma BlockBuildsIff(setup: Setup, slot: uint64, finalized: uint64, r: BlockResult)
    requires Sound(setup.lib)
    ensures Payload(setup, slot, r).Ok? <==> Buildable(r)
    ensures BlockFromBlockResult(setup, slot, finalized, r).Ok? <==> Buildable(r) && PayloadMarshals(setup, slot, r)
    ensures Buildable(r) && !PayloadMarshals(setup, slot, r) ==> BlockFromBlockResult(setup, slot, finalized, r) == Err
  {
    C.TransactionsConvertIff(setup.lib.sort, r.transactions);
    R.ToPBRewardIsOrderedConversion(setup.lib.sort, r.rewards);
  }

  /** Building gives an error exactly when the first transaction that does not convert has return data
      that does not decode, or when everything converts and the payload does not marshal. */
  lemma BlockFailsIff(setup: Setup, slot: uint64, finalized: uint64, r: BlockResult)
    requires Sound(setup.lib)
    ensures BlockFromBlockResult(setup, slot, finalized, r).Err? <==>
            || (Buildable(r) && !PayloadMarshals(setup, slot, r))
            || exists i: nat ::
                 && F.FirstInconvertible(r.transactions, i)
                 && r.transactions[i].meta.Some?
                 && r.transactions[i].meta.value.returnData.Unreadable?
  {
    BlockBuildsIff(setup, slot, finalized, r);
    C.TransactionsConvertIff(setup.lib.sort, r.transactions);
    F.TransactionsErrIff(setup.lib.sort, r.transactions);
    C.OnlyPanics(R.Convert, r.rewards);
  }

  // ----- slots -----

  lemma {:induction false} PollCountsFailures(t: Tracker, slot: uint64, confirmed: seq<Answer>)
    ensures
      var (t1, rest, turn) := PollConfirmed(t, slot, confirmed);
      Failures(confirmed) == Failures(rest) + (if turn.QueryFailed? then 1 else 0)
    decreases |confirmed|
  {
    if t.confirmed < slot && confirmed != [] && !confirmed[0].failed {
      PollCountsFailures(t.(confirmed := confirmed[0].slot), slot, confirmed[1..]);
    }
  }

  /** A sync fails only when every client has failed a query; and asks nothing when both tracked
      slots already reach the requested one. */
  lemma {:induction false} SyncFailsOnlyAfterEveryClient(t: Tracker, slot: uint64, clients: nat, confirmed: seq<Answer>,
                                                         finalized: seq<Answer>)
    ensures Sync(t, slot, clients, confirmed, finalized).1.QueryFailed? ==>
              Failures(confirmed) + Failures(finalized) >= clients
    ensures clients > 0 && slot <= t.confirmed && slot <= t.finalized ==>
              Sync(t, slot, clients, confirmed, finalized) == (t, Synced)
    decreases clients
  {
    if clients > 0 {
      PollCountsFailures(t, slot, confirmed);
      var (t1, confirmed1, turn1) := PollConfirmed(t, slot, confirmed);
      if turn1.QueryFailed? {
        SyncFailsOnlyAfterEveryClient(t1, slot, clients - 1, confirmed1, finalized);
      } else if turn1.Synced? {
        var (t2, finalized1, turn2) := AskFinalized(t1, slot, finalized);
        if turn2.QueryFailed? { SyncFailsOnlyAfterEveryClient(t2, slot, clients - 1, confirmed1, finalized1); }
      }
    }
  }

  /** A block returned for a slot has that number, was asked for once the slot was confirmed (so it
      and every slot below are reported available), was built from the first response that settled
      the slot, and is irreversible no further than itself and the finalized slot. */
  lemma EmittedBlockContract(setup: Setup, t: Tracker, slot: uint64, node: Node)
    requires Sound(setup.lib) && Fetch(setup, t, slot, node).1.Emitted?
    ensures
      var (t1, r) := Fetch(setup, t, slot, node);
      var b := r.block;
      && b.number == slot
      && t1.confirmed >= slot
      && b.libNum == (if t1.finalized > slot then b.parentNum else t1.finalized)
      && (b.parentNum < slot ==> b.libNum <= slot && b.libNum <= t1.finalized)
      && exists k: nat, result ::
           && FirstTerminal(slot, t1.confirmed, node.responses, k)
           && node.responses[k] == Found(Some(result))
           && CarriesBlock(setup, result, b)
  {
    SyncReaches(t, slot, node.clients, node.confirmed, node.finalized);
    var (t1, r) := Fetch(setup, t, slot, node);
    var result := FetchBlock(slot, t1.confirmed, node.responses).block.value;
    var k := FoundFirst(slot, t1.confirmed, node.responses);
    BuiltBlockCarries(setup, slot, t1.finalized, result, r.block);
  }

  /** A call returns a block exactly when the slots were synced, the first response that settles the
      slot holds a block, and that block can be built and marshalled. */
  lemma BlockIsEmittedIff(setup: Setup, t: Tracker, slot: uint64, node: Node)
    requires Sound(setup.lib)
    ensures
      var (t1, turn) := Sync(t, slot, node.clients, node.confirmed, node.finalized);
      Fetch(setup, t, slot, node).1.Emitted? <==>
        && !(13334464 <= slot <= 13334475)
        && turn.Synced?
        && exists k: nat, result ::
             && FirstTerminal(slot, t1.confirmed, node.responses, k)
             && node.responses[k] == Found(Some(result))
             && Buildable(result)
             && PayloadMarshals(setup, slot, result)
  {
    var (t1, turn) := Sync(t, slot, node.clients, node.confirmed, node.finalized);
    if Fetch(setup, t, slot, node).1.Emitted? {
      var result := FetchBlock(slot, t1.confirmed, node.responses).block.value;
      var k := FoundFirst(slot, t1.confirmed, node.responses);
      BlockBuildsIff(setup, slot, t1.finalized, result);
      assert FirstTerminal(slot, t1.confirmed, node.responses, k) && node.responses[k] == Found(Some(result));
    }
    if k: nat, result :|
      && FirstTerminal(slot, t1.confirmed, node.responses, k)
      && node.responses[k] == Found(Some(result))
      && Buildable(result)
      && PayloadMarshals(setup, slot, result)
    {
      FetchStopsAtFirstTerminal(slot, t1.confirmed, node.responses, k);
      BlockBuildsIff(setup, slot, t1.finalized, result);
    }
  }

  /** How a call ends, in every case: in the known hole it skips and changes nothing; elsewhere it
      fails or waits as the sync does, and then the first response that settles the slot decides. */
  lemma CallOutcome(setup: Setup, t: Tracker, slot: uint64, node: Node, k: nat)
    ensures 13334464 <= slot <= 13334475 ==> Fetch(setup, t, slot, node) == (t, Skipped)
    ensures !(13334464 <= slot <= 13334475) ==>
              var (t1, turn) := Sync(t, slot, node.clients, node.confirmed, node.finalized);
              var (t2, r) := Fetch(setup, t, slot, node);
              && t2 == t1
              && (turn.QueryFailed? ==> r == Failed)
              && (turn.Waiting? ==> r == Pending)
              && (turn.Synced? ==>
                    && (r.Pending? <==>
                          forall i :: 0 <= i < |node.responses| ==> !Terminal(slot, t1.confirmed, node.responses[i]))
                    && (FirstTerminal(slot, t1.confirmed, node.responses, k) ==>
                          match node.responses[k]
                          case RpcError(_) => r == Skipped
                          case Found(None) => r == Panicked
                          case Found(Some(result)) =>
                            (match BlockFromBlockResult(setup, slot, t1.finalized, result)
                             case Ok(b) => r == Emitted(b)
                             case Err => r == Failed
                             case Panic => r == Panicked
                             case Unspecified => r == Undefined)
                          case OtherError => false))
  {
    var (t1, turn) := Sync(t, slot, node.clients, node.confirmed, node.finalized);
    FetchStopsAtFirstTerminal(slot, t1.confirmed, node.responses, k);
  }

  /** A call skips exactly in the hole, or when the slot is settled by an answer that it was skipped,
      or that it is not available although it lies below the confirmed slot. */
  lemma CallSkipsIff(setup: Setup, t: Tracker, slot: uint64, node: Node)
    ensures
      var (t1, turn) := Sync(t, slot, node.clients, node.confirmed, node.finalized);
      Fetch(setup, t, slot, node).1.Skipped? <==>
        || 13334464 <= slot <= 13334475
        || (turn.Synced? && exists k: nat ::
              FirstTerminal(slot, t1.confirmed, node.responses, k) && node.responses[k].RpcError?)
  {
    var (t1, turn) := Sync(t, slot, node.clients, node.confirmed, node.finalized);
    CallOutcome(setup, t, slot, node, 0);
    if i :| 0 <= i < |node.responses| && Terminal(slot, t1.confirmed, node.responses[i]) {
      var k := Earliest(slot, t1.confirmed, node.responses, i);
      CallOutcome(setup, t, slot, node, k);
      assert forall n: nat :: FirstTerminal(slot, t1.confirmed, node.responses, n) ==> n == k;
    }
  }

  /** The last irreversible number of a returned block comes from this call where the tracked finalized
      slot was below the requested one: from the first answer that does not fail or reaches the slot. */
  lemma EmittedLibNumIsFresh(setup: Setup, t: Tracker, slot: uint64, node: Node)
    requires Fetch(setup, t, slot, node).1.Emitted?
    ensures
      var b := Fetch(setup, t, slot, node).1.block;
      if slot <= t.finalized then b.libNum == if t.finalized > slot then b.parentNum else slot
      else exists k :: 0 <= k < |node.finalized|
                       && b.libNum == (if node.finalized[k].slot > slot then b.parentNum else node.finalized[k].slot)
                       && (!node.finalized[k].failed || slot <= node.finalized[k].slot)
                       && forall i :: 0 <= i < k ==> node.finalized[i].failed && node.finalized[i].slot < slot
  {
    SyncUsesFreshFinalized(t, slot, node.clients, node.confirmed, node.finalized);
  }

  lemma FoundFirst(slot: uint64, confirmed: uint64, responses: seq<Response>) returns (k: nat)
    requires FetchBlock(slot, confirmed, responses).Block?
    ensures FirstTerminal(slot, confirmed, responses, k)
    ensures responses[k] == Found(FetchBlock(slot, confirmed, responses).block)
  {
    FetchStopsAtFirstTerminal(slot, confirmed, responses, 0);
    var i :| 0 <= i < |responses| && Terminal(slot, confirmed, responses[i]);
    k := Earliest(slot, confirmed, responses, i);
    FetchStopsAtFirstTerminal(slot, confirmed, responses, k);
  }

  lemma {:induction false} Earliest(slot: uint64, confirmed: uint64, responses: seq<Response>, i: nat) returns (k: nat)
    requires i < |responses| && Terminal(slot, confirmed, responses[i])
    ensures FirstTerminal(slot, confirmed, responses, k)
  {
    if j :| 0 <= j < i && Terminal(slot, confirmed, responses[j]) {
      k := Earliest(slot, confirmed, responses, j);
    } else {
      k := i;
    }
  }

  // ----- runs -----

  datatype Call = Call(slot: uint64, node: Node)

  /** Calls one after the other, until one does not return. */
  function RunCalls(setup: Setup, t: Tracker, calls: seq<Call>): seq<BstreamBlock>
    decreases |calls|
  {
    if calls == [] then [] else
      var (t1, r) := Fetch(setup, t, calls[0].slot, calls[0].node);
      match r
      case Emitted(b) => [b] + RunCalls(setup, t1, calls[1..])
      case Skipped => RunCalls(setup, t1, calls[1..])
      case Failed => RunCalls(setup, t1, calls[1..])
      case Pending => []
      case Panicked => []
      case Undefined => []
  }

  predicate SlotsIncrease(calls: seq<Call>)
  {
    forall i, j :: 0 <= i < j < |calls| ==> calls[i].slot < calls[j].slot
  }

  /** The node's finalized answers never go below `low` or one another; a failed query yields 0. */
  predicate Rising(low: uint64, answers: seq<Answer>)
    decreases |answers|
  {
    answers == [] ||
    if answers[0].failed then answers[0].slot == 0 && Rising(low, answers[1..])
    else low <= answers[0].slot && Rising(answers[0].slot, answers[1..])
  }

  function Top(low: uint64, answers: seq<Answer>): uint64
    decreases |answers|
  {
    if answers == [] then low
    else Top(if answers[0].failed then low else answers[0].slot, answers[1..])
  }

  predicate RisingCalls(low: uint64, calls: seq<Call>)
    decreases |calls|
  {
    calls == [] ||
    (Rising(low, calls[0].node.finalized) && RisingCalls(Top(low, calls[0].node.finalized), calls[1..]))
  }

  /** Each block's parent is the block emitted before it; the first one's is not above it. */
  predicate Linked(prev: Option<uint64>, bs: seq<BstreamBlock>)
    decreases |bs|
  {
    bs == [] ||
    (&& (if prev.Some? then bs[0].parentNum == prev.value else bs[0].parentNum <= bs[0].number)
     && Linked(Some(bs[0].number), bs[1..]))
  }

  /** Last irreversible numbers never go below `low` or one another. */
  predicate LibsRise(low: uint64, bs: seq<BstreamBlock>)
    decreases |bs|
  {
    bs == [] || (low <= bs[0].libNum && LibsRise(bs[0].libNum, bs[1..]))
  }

  /** The tracked finalized slot is unknown, or at least the one last used; neither is above `low`. */
  predicate Holds(t: Tracker, used: uint64, low: uint64)
  {
    (t.finalized == 0 || used <= t.finalized) && t.finalized <= low && used <= low
  }

  lemma {:induction false} TopIsAbove(low: uint64, answers: seq<Answer>)
    requires Rising(low, answers)
    ensures low <= Top(low, answers)
    decreases |answers|
  {
    if answers != [] { TopIsAbove(if answers[0].failed then low else answers[0].slot, answers[1..]); }
  }

  lemma {:induction false} SyncHolds(t: Tracker, slot: uint64, clients: nat, confirmed: seq<Answer>,
                                     finalized: seq<Answer>, used: uint64, low: uint64)
    requires Holds(t, used, low) && Rising(low, finalized)
    ensures
      var (t1, turn) := Sync(t, slot, clients, confirmed, finalized);
      && Holds(t1, used, Top(low, finalized))
      && (turn.Synced? && slot > 0 ==> used <= t1.finalized)
    decreases clients
  {
    TopIsAbove(low, finalized);
    if clients > 0 {
      PollReaches(t, slot, confirmed);
      var (t1, confirmed1, turn1) := PollConfirmed(t, slot, confirmed);
      if turn1.QueryFailed? {
        SyncHolds(t1, slot, clients - 1, confirmed1, finalized, used, low);
      } else if turn1.Synced? {
        var (t2, finalized1, turn2) := AskFinalized(t1, slot, finalized);
        if turn2.QueryFailed? {
          SyncHolds(t2, slot, clients - 1, confirmed1, finalized1, used, low);
        } else if t2.finalized != t1.finalized {
          TopIsAbove(finalized[0].slot, finalized[1..]);
        }
      }
    }
  }

  /** One call keeps the invariant; a block it returns used a finalized slot no lower than before. */
  lemma FetchHolds(setup: Setup, t: Tracker, slot: uint64, node: Node, used: uint64, low: uint64)
    requires Holds(t, used, low) && Rising(low, node.finalized)
    ensures
      var (t1, r) := Fetch(setup, t, slot, node);
      && Holds(t1, used, Top(low, node.finalized))
      && (r.Emitted? ==>
            && (slot > 0 ==> used <= t1.finalized)
            && r.block.number == slot
            && r.block.libNum == LibNum(slot, t1.finalized, r.block.parentNum))
  {
    TopIsAbove(low, node.finalized);
    SyncHolds(t, slot, node.clients, node.confirmed, node.finalized, used, low);
  }

  lemma {:induction false} RunLibsRise(setup: Setup, t: Tracker, calls: seq<Call>, used: uint64, low: uint64,
                                       prev: Option<uint64>, lib: uint64)
    requires Holds(t, used, low) && RisingCalls(low, calls) && SlotsIncrease(calls)
    requires Linked(prev, RunCalls(setup, t, calls))
    requires prev.Some? ==> lib <= prev.value && forall i :: 0 <= i < |calls| ==> prev.value < calls[i].slot
    requires prev.None? ==> lib == 0
    requires lib <= used
    requires used > 0 ==> prev.Some?
    ensures LibsRise(lib, RunCalls(setup, t, calls))
    decreases |calls|
  {
    if calls != [] {
      var slot, node := calls[0].slot, calls[0].node;
      var (t1, r) := Fetch(setup, t, slot, node);
      var low1 := Top(low, node.finalized);
      FetchHolds(setup, t, slot, node, used, low);
      if r.Emitted? {
        var rest := RunCalls(setup, t1, calls[1..]);
        assert RunCalls(setup, t, calls)[1..] == rest;
        RunLibsRise(setup, t1, calls[1..], t1.finalized, low1, Some(slot), r.block.libNum);
      } else if r.Skipped? || r.Failed? {
        RunLibsRise(setup, t1, calls[1..], used, low1, prev, lib);
      }
    }
  }

  lemma {:induction false} LibsRiseEverywhere(low: uint64, bs: seq<BstreamBlock>)
    requires LibsRise(low, bs)
    ensures forall i, j :: 0 <= i <= j < |bs| ==> low <= bs[i].libNum <= bs[j].libNum
    decreases |bs|
  {
    if bs != [] {
      LibsRiseEverywhere(bs[0].libNum, bs[1..]);
      assert forall i :: 0 < i < |bs| ==> bs[i] == bs[1..][i - 1];
    }
  }

  /** Finality never goes backwards: over any run of calls at increasing slots on a fresh fetcher,
      skips and failures included. */
  lemma FinalityNeverGoesBackwards(setup: Setup, calls: seq<Call>)
    requires SlotsIncrease(calls) && RisingCalls(0, calls)
    requires Linked(None, RunCalls(setup, Tracker(0, 0), calls))
    ensures
      var bs := RunCalls(setup, Tracker(0, 0), calls);
      forall i, j :: 0 <= i <= j < |bs| ==> bs[i].libNum <= bs[j].libNum
  {
    RunLibsRise(setup, Tracker(0, 0), calls, 0, 0, None, 0);
    LibsRiseEverywhere(0, RunCalls(setup, Tracker(0, 0), calls));
  }
}
