/** The RPC's and the protobuf shapes of transactions and blocks, as far as the model carries them. */
module Shapes {
  import opened Basics
  import opened TransactionErrors
  import R = Rewards

  // ----- as the RPC returns them -----

  datatype CompiledInstruction =
    CompiledInstruction(programIdIndex: uint16, accounts: seq<uint16>, data: seq<byte>, stackHeight: uint32)

  datatype InnerInstruction = InnerInstruction(index: uint16, instructions: seq<CompiledInstruction>)

  datatype MessageHeader = MessageHeader(signatures: byte, readonlySigned: byte, readonlyUnsigned: byte)

  datatype Lookup = Lookup(accountKey: seq<byte>, writable: seq<byte>, readonly: seq<byte>)

  datatype Message = Message(
    header: MessageHeader,
    accountKeys: seq<seq<byte>>,
    recentBlockhash: seq<byte>,
    instructions: seq<CompiledInstruction>,
    versioned: bool,
    lookups: seq<Lookup>)

  datatype Transaction = Transaction(signatures: seq<seq<byte>>, message: Message)

  /** A base58 text of at least one byte is never empty. */
  type Base58 = s: string | s != "" witness "1"

  datatype UiTokenAmount =
    UiTokenAmount(uiAmount: Option<real>, decimals: byte, amount: string, uiAmountString: string)

  datatype TokenBalance = TokenBalance(
    accountIndex: uint16,
    owner: Option<Base58>,
    programId: Base58,
    mint: Base58,
    amount: Option<UiTokenAmount>)

  /** `Unreadable` is return data whose base64 or program id does not decode. */
  datatype ReturnData = NoReturnData | Readable(programId: seq<byte>, data: seq<byte>) | Unreadable

  datatype Meta = Meta(
    err: Json,
    fee: uint64,
    preBalances: seq<uint64>,
    postBalances: seq<uint64>,
    inner: seq<InnerInstruction>,
    logs: seq<string>,
    preTokenBalances: seq<TokenBalance>,
    postTokenBalances: seq<TokenBalance>,
    rewards: seq<R.RpcReward>,
    loadedWritable: seq<seq<byte>>,
    loadedReadonly: seq<seq<byte>>,
    returnData: ReturnData,
    computeUnits: Option<uint64>)

  /** `tx` is absent when `MustGetTransaction` cannot decode it. */
  datatype TransactionWithMeta = TransactionWithMeta(tx: Option<Transaction>, meta: Option<Meta>)

  datatype BlockResult = BlockResult(
    hash: string,
    prevHash: string,
    parentSlot: uint64,
    blockTime: Option<int64>,
    blockHeight: Option<uint64>,
    transactions: seq<TransactionWithMeta>,
    rewards: seq<R.RpcReward>)

  // ----- as protobuf messages -----

  datatype PbHeader = PbHeader(signatures: uint32, readonlySigned: uint32, readonlyUnsigned: uint32)

  datatype PbInstruction = PbInstruction(programIdIndex: uint32, accounts: seq<byte>, data: seq<byte>)

  datatype PbInnerInstruction =
    PbInnerInstruction(programIdIndex: uint32, accounts: seq<byte>, data: seq<byte>, stackHeight: Option<uint32>)

  datatype PbInner = PbInner(index: uint32, instructions: seq<PbInnerInstruction>)

  datatype PbLookup = PbLookup(accountKey: seq<byte>, writable: seq<byte>, readonly: seq<byte>)

  datatype PbUiTokenAmount =
    PbUiTokenAmount(uiAmount: real, decimals: uint32, amount: string, uiAmountString: string)

  datatype PbTokenBalance = PbTokenBalance(
    accountIndex: uint32,
    mint: string,
    amount: Option<PbUiTokenAmount>,
    owner: string,
    programId: string)

  datatype PbMessage = PbMessage(
    header: PbHeader,
    accountKeys: seq<seq<byte>>,
    recentBlockhash: seq<byte>,
    instructions: seq<PbInstruction>,
    versioned: bool,
    lookups: seq<PbLookup>)

  datatype PbTransaction = PbTransaction(signatures: seq<seq<byte>>, message: PbMessage)

  datatype PbReturnData = PbReturnData(programId: seq<byte>, data: seq<byte>)

  datatype PbMeta = PbMeta(
    err: Option<seq<byte>>,
    fee: uint64,
    preBalances: seq<uint64>,
    postBalances: seq<uint64>,
    inner: seq<PbInner>,
    logs: seq<string>,
    preTokenBalances: seq<PbTokenBalance>,
    postTokenBalances: seq<PbTokenBalance>,
    rewards: seq<R.Reward>,
    loadedWritable: seq<seq<byte>>,
    loadedReadonly: seq<seq<byte>>,
    returnData: Option<PbReturnData>,
    computeUnits: Option<uint64>)

  datatype PbConfirmed = PbConfirmed(transaction: PbTransaction, meta: PbMeta)

  datatype PbBlock = PbBlock(
    prevHash: string,
    hash: string,
    parentSlot: uint64,
    transactions: seq<PbConfirmed>,
    rewards: seq<R.Reward>,
    blockTime: Option<int64>,
    blockHeight: Option<uint64>,
    slot: uint64)

  // ----- the libraries both commands call -----

  /** Sorting, and marshalling a block: whether it works out, for the block it is given. */
  datatype Library = Library(sort: R.Sorter, marshals: PbBlock -> bool)

  ghost predicate Sound(lib: Library) { R.IsSort(lib.sort) }
}
