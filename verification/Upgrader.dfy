/** The merged-block upgrader, and the order of rewards it has in common with the fetcher. */
module Upgrader {
  import opened Basics
  import opened Shapes
  import opened Rewards
  import opened SlotTracker

  /** The parts of a stored block that the upgrader touches; a payload that does not unmarshal as a
      Solana block is absent. */
  datatype Envelope = Envelope(number: uint64, parentNum: uint64, payload: Option<PbBlock>)

  /** `Illegible` is a payload that is not a Solana block; `Unwritable` is a block that does not
      marshal again; its parent number has been assigned by then. */
  datatype Result = Upgraded(block: Envelope) | Illegible | Unwritable(block: Envelope)

  function Tweak(lib: Library, e: Envelope): Result
  {
    match e.payload
    case None => Illegible
    case Some(b) =>
      var b' := b.(rewards := lib.sort(b.rewards));
      if lib.marshals(b') then Upgraded(Envelope(e.number, b.parentSlot, Some(b')))
      else Unwritable(e.(parentNum := b.parentSlot))
  }

  class StoredBlock {
    var number: uint64
    var parentNum: uint64
    var payload: Option<PbBlock>

    constructor (number: uint64, parentNum: uint64, payload: Option<PbBlock>)
      ensures View() == Envelope(number, parentNum, payload)
    {
      this.number, this.parentNum, this.payload := number, parentNum, payload;
    }

    ghost function View(): Envelope
      reads this
    {
      Envelope(number, parentNum, payload)
    }
  }

  /** `tweakBlock`: an illegible block is left alone, an unwritable one but for its parent number. */
  method TweakBlock(lib: Library, block: StoredBlock) returns (ok: bool)
    requires Sound(lib)
    modifies block
    ensures match Tweak(lib, old(block.View()))
            case Upgraded(e) => ok && block.View() == e
            case Illegible => !ok && block.View() == old(block.View())
            case Unwritable(e) => !ok && block.View() == e
  {
    if block.payload.None? {
      return false;
    }
    var b := block.payload.value;
    block.parentNum := b.parentSlot;
    var rewards := new Reward[|b.rewards|](i requires 0 <= i < |b.rewards| => b.rewards[i]);
    assert rewards[..] == b.rewards;
    SortFunc(lib.sort, rewards);
    b := b.(rewards := rewards[..]);
    if !lib.marshals(b) {
      return false;
    }
    block.payload := Some(b);
    return true;
  }

  /** An upgrade loses no reward, orders them by lamports, takes the parent number from the payload,
      and leaves the rest alone; a failed one leaves the payload alone. */
  lemma TweakOrdersRewards(lib: Library, e: Envelope)
    requires Sound(lib)
    ensures match Tweak(lib, e)
            case Illegible => e.payload.None?
            case Unwritable(u) => e.payload.Some? && u == e.(parentNum := e.payload.value.parentSlot)
            case Upgraded(u) =>
              && e.payload.Some? && u.payload.Some?
              && Ordered(u.payload.value.rewards)
              && multiset(u.payload.value.rewards) == multiset(e.payload.value.rewards)
              && u.payload.value == e.payload.value.(rewards := u.payload.value.rewards)
              && u.number == e.number
              && u.parentNum == e.payload.value.parentSlot
  {
  }

  /** A block is upgraded exactly when its payload is legible and marshals again once its rewards are
      sorted; an illegible payload and one that does not marshal are the only failures. */
  lemma UpgradedIff(lib: Library, e: Envelope)
    ensures Tweak(lib, e).Illegible? <==> e.payload.None?
    ensures Tweak(lib, e).Upgraded? <==>
            e.payload.Some? && lib.marshals(e.payload.value.(rewards := lib.sort(e.payload.value.rewards)))
    ensures Tweak(lib, e).Upgraded? ==>
              Tweak(lib, e).block.payload.value.rewards == lib.sort(e.payload.value.rewards)
  {
  }

  /** Upgrading again changes neither the parent number nor the order of lamports. */
  lemma TweakTwice(lib: Library, e: Envelope, once: Envelope, twice: Envelope)
    requires Sound(lib) && Tweak(lib, e) == Upgraded(once) && Tweak(lib, once) == Upgraded(twice)
    ensures twice.parentNum == once.parentNum
    ensures Lamports(twice.payload.value.rewards) == Lamports(once.payload.value.rewards)
  {
    OneOrder(once.payload.value.rewards, twice.payload.value.rewards);
  }

  /** Two paths, one order: a block fetched from the RPC and an upgraded block whose payload holds
      the same rewards, in any order, agree on parent number, lamports in sequence, and their total,
      whatever each of them sorts with. */
  lemma TwoPathsOneOrder(setup: Setup, slot: uint64, finalized: uint64, r: BlockResult, fetched: BstreamBlock,
                         other: Library, stored: Envelope, upgraded: Envelope)
    requires Sound(setup.lib) && Sound(other)
    requires BlockFromBlockResult(setup, slot, finalized, r) == Ok(fetched)
    requires Tweak(other, stored) == Upgraded(upgraded)
    requires stored.payload.value.parentSlot == r.parentSlot
    requires multiset(stored.payload.value.rewards) == multiset(fetched.payload.rewards)
    ensures upgraded.parentNum == fetched.parentNum
    ensures Ordered(fetched.payload.rewards)
    ensures Lamports(upgraded.payload.value.rewards) == Lamports(fetched.payload.rewards)
    ensures Total(Lamports(upgraded.payload.value.rewards)) == Total(Lamports(fetched.payload.rewards))
  {
    var converted := TryMap(Convert, r.rewards).value;
    SortingIsOneOrder(other.sort, setup.lib.sort, stored.payload.value.rewards, converted);
  }

  /** So the upgrader leaves a fetched block's parent number and lamports as they are. */
  lemma FetchedBlockIsUpgraded(setup: Setup, slot: uint64, finalized: uint64, r: BlockResult, fetched: BstreamBlock,
                               other: Library, upgraded: Envelope)
    requires Sound(setup.lib) && Sound(other)
    requires BlockFromBlockResult(setup, slot, finalized, r) == Ok(fetched)
    requires Tweak(other, Envelope(fetched.number, fetched.parentNum, Some(fetched.payload))) == Upgraded(upgraded)
    ensures upgraded.parentNum == fetched.parentNum
    ensures Lamports(upgraded.payload.value.rewards) == Lamports(fetched.payload.rewards)
  {
    TwoPathsOneOrder(setup, slot, finalized, r, fetched, other,
                     Envelope(fetched.number, fetched.parentNum, Some(fetched.payload)), upgraded);
  }
}
