/** The RPC fetcher: it tracks the latest confirmed and finalized slots across calls, fetches one
    block per call, and derives the block's last irreversible number. */
module SlotTracker {
  import opened Basics
  import opened Shapes
  import opened Conversion
  import R = Rewards

  // ----- what the node answers -----

  /** An answer to `getSlot`. A failed query still assigns a number, `slot`, to the fetcher's field. */
  datatype Answer = Answer(slot: uint64, failed: bool)

  /** What one round of `getBlock` over the clients comes to. */
  datatype Response = Found(block: Option<BlockResult>) | RpcError(code: int) | OtherError

  /** Everything the node does during one `Fetch`: its answers about the confirmed and about the
      finalized slot, in the order they are asked for, and its responses about the block. */
  datatype Node = Node(clients: nat, confirmed: seq<Answer>, finalized: seq<Answer>, responses: seq<Response>)

  // ----- slots -----

  datatype Tracker = Tracker(confirmed: uint64, finalized: uint64)

  /** How a client's turn ends: the slots are up to date, a query failed, or (when the observation
      ends first) it is still waiting for an answer. */
  datatype Turn = Synced | QueryFailed | Waiting

  function PollConfirmed(t: Tracker, slot: uint64, confirmed: seq<Answer>): (Tracker, seq<Answer>, Turn)
    decreases |confirmed|
  {
    if t.confirmed >= slot then (t, confirmed, Synced)
    else if confirmed == [] then (t, confirmed, Waiting)
    else
      var t1 := t.(confirmed := confirmed[0].slot);
      if confirmed[0].failed then (t1, confirmed[1..], QueryFailed)
      else PollConfirmed(t1, slot, confirmed[1..])
  }

  function AskFinalized(t: Tracker, slot: uint64, finalized: seq<Answer>): (Tracker, seq<Answer>, Turn)
  {
    if t.finalized >= slot then (t, finalized, Synced)
    else if finalized == [] then (t, finalized, Waiting)
    else
      (t.(finalized := finalized[0].slot), finalized[1..], if finalized[0].failed then QueryFailed else Synced)
  }

  /** `WithClients` around both queries: clients in turn, until one gets through. With no client
      left the whole sync has failed. */
  function Sync(t: Tracker, slot: uint64, clients: nat, confirmed: seq<Answer>, finalized: seq<Answer>): (Tracker, Turn)
    decreases clients
  {
    if clients == 0 then (t, QueryFailed) else
      var (t1, confirmed1, turn1) := PollConfirmed(t, slot, confirmed);
      if turn1.Waiting? then (t1, Waiting)
      else if turn1.QueryFailed? then Sync(t1, slot, clients - 1, confirmed1, finalized)
      else
        var (t2, finalized1, turn2) := AskFinalized(t1, slot, finalized);
        if turn2.QueryFailed? then Sync(t2, slot, clients - 1, confirmed1, finalized1) else (t2, turn2)
  }

  // ----- the block -----

  datatype Fetched = Block(block: Option<BlockResult>) | Skip | Retrying

  const SLOT_SKIPPED := -32009
  const LONG_TERM_STORAGE_SLOT_SKIPPED := -32007
  const BLOCK_NOT_AVAILABLE := -32004

  function FetchBlock(slot: uint64, confirmed: uint64, responses: seq<Response>): Fetched
  {
    if responses == [] then Retrying else
      match responses[0]
      case Found(block) => Block(block)
      case RpcError(code) =>
        if code == SLOT_SKIPPED || code == LONG_TERM_STORAGE_SLOT_SKIPPED then Skip
        else if code == BLOCK_NOT_AVAILABLE && slot < confirmed then Skip
        else FetchBlock(slot, confirmed, responses[1..])
      case OtherError => FetchBlock(slot, confirmed, responses[1..])
  }

  /** The envelope that firehose passes on. */
  datatype BstreamBlock = BstreamBlock(
    number: uint64,
    id: string,
    parentId: string,
    timestamp: Option<int64>,
    libNum: uint64,
    parentNum: uint64,
    payload: PbBlock)

  /** What a fetcher is built with: the parent hashes to patch, and the libraries it calls. */
  datatype Setup = Setup(patches: map<string, string>, lib: Library)

  function FixPreviousBlockHash(patches: map<string, string>, r: BlockResult): string
  {
    if r.hash in patches then patches[r.hash] else r.prevHash
  }

  function LibNum(slot: uint64, finalized: uint64, parentSlot: uint64): uint64
  {
    if finalized > slot then parentSlot else finalized
  }

  /** The Solana block inside the envelope. */
  function Payload(setup: Setup, slot: uint64, r: BlockResult): Outcome<PbBlock>
  {
    var transactions :- ToPbTransactions(setup.lib.sort, r.transactions);
    var rewards :- R.ToPbRewards(setup.lib.sort, r.rewards);
    Ok(PbBlock(FixPreviousBlockHash(setup.patches, r), r.hash, r.parentSlot, transactions, rewards,
               r.blockTime, r.blockHeight, slot))
  }

  function BlockFromBlockResult(setup: Setup, slot: uint64, finalized: uint64, r: BlockResult): Outcome<BstreamBlock>
  {
    var payload :- Payload(setup, slot, r);
    if !setup.lib.marshals(payload) then Err
    else Ok(BstreamBlock(slot, r.hash, payload.prevHash, r.blockTime, LibNum(slot, finalized, r.parentSlot),
                         r.parentSlot, payload))
  }

  // ----- one call -----

  /** `Pending` is a call still waiting or retrying when the observation ends. */
  datatype FetchResult = Emitted(block: BstreamBlock) | Skipped | Failed | Pending | Panicked | Undefined

  predicate KnownHole(slot: uint64) { 13334464 <= slot <= 13334475 }

  function Fetch(setup: Setup, t: Tracker, slot: uint64, node: Node): (Tracker, FetchResult)
  {
    if KnownHole(slot) then (t, Skipped) else
      var (t1, turn) := Sync(t, slot, node.clients, node.confirmed, node.finalized);
      (t1, match turn
           case QueryFailed => Failed
           case Waiting => Pending
           case Synced => Finish(setup, t1, slot, node.responses))
  }

  function Finish(setup: Setup, t: Tracker, slot: uint64, responses: seq<Response>): FetchResult
  {
    match FetchBlock(slot, t.confirmed, responses)
    case Retrying => Pending
    case Skip => Skipped
    case Block(None) => Panicked
    case Block(Some(r)) =>
      match BlockFromBlockResult(setup, slot, t.finalized, r)
      case Ok(b) => Emitted(b)
      case Err => Failed
      case Panic => Panicked
      case Unspecified => Undefined
  }

  class RPCFetcher {
    const blockToPatch: map<string, string>
    const lib: Library
    var latestConfirmedSlot: uint64
    var latestFinalizedSlot: uint64

    constructor (setup: Setup)
      ensures Configured() == setup && View() == Tracker(0, 0)
    {
      blockToPatch, lib := setup.patches, setup.lib;
      latestConfirmedSlot, latestFinalizedSlot := 0, 0;
    }

    ghost function Configured(): Setup
    {
      Setup(blockToPatch, lib)
    }

    ghost function View(): Tracker
      reads this
    {
      Tracker(latestConfirmedSlot, latestFinalizedSlot)
    }

    predicate IsBlockAvailable(requestedSlot: uint64)
      reads this
    {
      requestedSlot <= latestConfirmedSlot
    }

    /** The closure that `Fetch` hands to `WithClients`, for one client. */
    method SyncWithClient(requestedSlot: uint64, confirmed: seq<Answer>, finalized: seq<Answer>)
      returns (confirmed1: seq<Answer>, finalized1: seq<Answer>, turn: Turn)
      modifies this
      ensures
        var (t1, c1, turn1) := PollConfirmed(old(View()), requestedSlot, confirmed);
        if !turn1.Synced? then View() == t1 && confirmed1 == c1 && finalized1 == finalized && turn == turn1
        else (View(), finalized1, turn) == AskFinalized(t1, requestedSlot, finalized) && confirmed1 == c1
    {
      confirmed1, finalized1 := confirmed, finalized;
      while latestConfirmedSlot < requestedSlot
        invariant latestFinalizedSlot == old(latestFinalizedSlot)
        invariant PollConfirmed(old(View()), requestedSlot, confirmed)
               == PollConfirmed(View(), requestedSlot, confirmed1)
        decreases |confirmed1|
      {
        if confirmed1 == [] {
          return confirmed1, finalized1, Waiting;
        }
        var answer := confirmed1[0];
        confirmed1 := confirmed1[1..];
        latestConfirmedSlot := answer.slot;
        if answer.failed {
          return confirmed1, finalized1, QueryFailed;
        }
      }
      if latestFinalizedSlot < requestedSlot {
        if finalized1 == [] {
          return confirmed1, finalized1, Waiting;
        }
        var answer := finalized1[0];
        finalized1 := finalized1[1..];
        latestFinalizedSlot := answer.slot;
        if answer.failed {
          return confirmed1, finalized1, QueryFailed;
        }
      }
      turn := Synced;
    }

    /** `WithClients` around that closure. */
    method SyncSlots(requestedSlot: uint64, node: Node) returns (turn: Turn)
      modifies this
      ensures (View(), turn) == Sync(old(View()), requestedSlot, node.clients, node.confirmed, node.finalized)
    {
      var left, confirmed, finalized := node.clients, node.confirmed, node.finalized;
      while left > 0
        invariant Sync(old(View()), requestedSlot, node.clients, node.confirmed, node.finalized)
               == Sync(View(), requestedSlot, left, confirmed, finalized)
      {
        confirmed, finalized, turn := SyncWithClient(requestedSlot, confirmed, finalized);
        if turn != QueryFailed {
          return turn;
        }
        left := left - 1;
      }
      turn := QueryFailed;
    }

    /** `fetch`: asks again until a response settles the slot. */
    method FetchLoop(requestedSlot: uint64, lastConfirmed: uint64, responses: seq<Response>) returns (r: Fetched)
      ensures r == FetchBlock(requestedSlot, lastConfirmed, responses)
    {
      var i := 0;
      while i < |responses|
        invariant 0 <= i <= |responses|
        invariant FetchBlock(requestedSlot, lastConfirmed, responses)
               == FetchBlock(requestedSlot, lastConfirmed, responses[i..])
      {
        var response := responses[i];
        assert responses[i..][1..] == responses[i + 1..];
        i := i + 1;
        match response {
          case Found(block) => return Block(block);
          case RpcError(code) =>
            if code == SLOT_SKIPPED || code == LONG_TERM_STORAGE_SLOT_SKIPPED {
              return Skip;
            }
            if code == BLOCK_NOT_AVAILABLE {
              if requestedSlot < lastConfirmed {
                return Skip;
              }
            }
          case OtherError =>
        }
      }
      return Retrying;
    }

    /** `blockFromBlockResult`. */
    method BuildBlock(slot: uint64, result: BlockResult) returns (r: Outcome<BstreamBlock>)
      requires Sound(lib)
      ensures r == BlockFromBlockResult(Configured(), slot, latestFinalizedSlot, result)
    {
      var libNum := latestFinalizedSlot;
      if latestFinalizedSlot > slot {
        libNum := result.parentSlot;
      }
      var prevHash := FixPreviousBlockHash(blockToPatch, result);
      var transactions :- ConvertTransactions(lib.sort, result.transactions);
      var rewards :- R.ToPBReward(lib.sort, result.rewards);
      var payload := PbBlock(prevHash, result.hash, result.parentSlot, transactions, rewards,
                             result.blockTime, result.blockHeight, slot);
      if !lib.marshals(payload) {
        return Err;
      }
      return Ok(BstreamBlock(slot, result.hash, prevHash, result.blockTime, libNum, result.parentSlot, payload));
    }

    method FetchSlot(requestedSlot: uint64, node: Node) returns (r: FetchResult)
      requires Sound(lib)
      modifies this
      ensures (View(), r) == Fetch(Configured(), old(View()), requestedSlot, node)
    {
      if 13334464 <= requestedSlot <= 13334475 {
        return Skipped;
      }
      var turn := SyncSlots(requestedSlot, node);
      if turn == QueryFailed {
        return Failed;
      }
      if turn == Waiting {
        return Pending;
      }
      var fetched := FetchLoop(requestedSlot, latestConfirmedSlot, node.responses);
      if fetched == Retrying {
        return Pending;
      }
      if fetched == Skip {
        return Skipped;
      }
      if fetched.block.None? {
        return Panicked;
      }
      var built := BuildBlock(requestedSlot, fetched.block.value);
      match built {
        case Ok(b) => return Emitted(b);
        case Err => return Failed;
        case Panic => return Panicked;
        case Unspecified => return Undefined;
      }
    }
  }
}
