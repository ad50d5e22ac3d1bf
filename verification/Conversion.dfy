/** Transactions from the RPC's shape to protobuf's: nested loops that drop nothing they are meant
    to keep, with the inverse that shows it. */
module Conversion {
  import opened Basics
  import opened Shapes
  import opened TransactionErrors
  import opened ErrorEncoding
  import R = Rewards

  // ----- what each converter computes -----

  function NarrowAccount(account: uint16): Outcome<byte>
  {
    if account > 255 then Panic else Ok(account)
  }

  function ToPbInstruction(i: CompiledInstruction): Outcome<PbInstruction>
  {
    var accounts :- TryMap(NarrowAccount, i.accounts);
    Ok(PbInstruction(i.programIdIndex, accounts, i.data))
  }

  function ToStackHeight(height: uint32): Option<uint32>
  {
    if height == 0 then None else Some(height)
  }

  function ToPbInnerInstruction(i: CompiledInstruction): Outcome<PbInnerInstruction>
  {
    var accounts :- TryMap(NarrowAccount, i.accounts);
    Ok(PbInnerInstruction(i.programIdIndex, accounts, i.data, ToStackHeight(i.stackHeight)))
  }

  function ToPbInner(i: InnerInstruction): Outcome<PbInner>
  {
    var instructions :- TryMap(ToPbInnerInstruction, i.instructions);
    Ok(PbInner(i.index, instructions))
  }

  function ToPbHeader(h: MessageHeader): PbHeader
  {
    PbHeader(h.signatures, h.readonlySigned, h.readonlyUnsigned)
  }

  function ToPbLookup(l: Lookup): PbLookup
  {
    PbLookup(l.accountKey, l.writable, l.readonly)
  }

  function ToPbMessage(m: Message): Outcome<PbMessage>
  {
    var instructions :- TryMap(ToPbInstruction, m.instructions);
    Ok(PbMessage(ToPbHeader(m.header), m.accountKeys, m.recentBlockhash, instructions, m.versioned,
                 MapSeq(ToPbLookup, m.lookups)))
  }

  function ToPbTransaction(t: Transaction): Outcome<PbTransaction>
  {
    var message :- ToPbMessage(t.message);
    Ok(PbTransaction(t.signatures, message))
  }

  /** The address of the system program: thirty-two zero bytes in base58. */
  const SYSTEM_PROGRAM: Base58 := "11111111111111111111111111111111"

  function ToPbUiTokenAmount(a: UiTokenAmount): PbUiTokenAmount
  {
    PbUiTokenAmount(if a.uiAmount.Some? then a.uiAmount.value else 0.0, a.decimals, a.amount, a.uiAmountString)
  }

  function ToPbTokenBalance(b: TokenBalance): PbTokenBalance
  {
    PbTokenBalance(b.accountIndex, b.mint,
                   if b.amount.Some? then Some(ToPbUiTokenAmount(b.amount.value)) else None,
                   if b.owner.Some? then b.owner.value else "",
                   if b.programId != SYSTEM_PROGRAM then b.programId else "")
  }

  function ToPbReturnData(d: ReturnData): Outcome<Option<PbReturnData>>
  {
    match d
    case NoReturnData => Ok(None)
    case Readable(programId, data) => Ok(Some(PbReturnData(programId, data)))
    case Unreadable => Err
  }

  /** A nil instruction error panics while it is encoded. */
  function ToPbTransactionError(e: Json): Outcome<Option<seq<byte>>>
  {
    var parsed :- NewTransactionError(e);
    match parsed
    case None => Ok(None)
    case Some(t) => if t.detail.NilInstruction? then Panic else Ok(Some(Bytes(t)))
  }

  const EMPTY_META := PbMeta(None, 0, [], [], [], [], [], [], [], [], [], None, None)

  function ToPbMeta(sort: R.Sorter, meta: Option<Meta>): Outcome<PbMeta>
  {
    match meta
    case None => Ok(EMPTY_META)
    case Some(m) =>
      var returnData :- ToPbReturnData(m.returnData);
      var inner :- TryMap(ToPbInner, m.inner);
      var err :- ToPbTransactionError(m.err);
      var rewards :- R.ToPbRewards(sort, m.rewards);
      Ok(PbMeta(err, m.fee, m.preBalances, m.postBalances, inner, m.logs,
                MapSeq(ToPbTokenBalance, m.preTokenBalances), MapSeq(ToPbTokenBalance, m.postTokenBalances),
                rewards, m.loadedWritable, m.loadedReadonly, returnData, m.computeUnits))
  }

  function ToPbConfirmed(sort: R.Sorter, t: TransactionWithMeta): Outcome<PbConfirmed>
  {
    var meta :- ToPbMeta(sort, t.meta);
    var transaction :- if t.tx.None? then Panic else ToPbTransaction(t.tx.value);
    Ok(PbConfirmed(transaction, meta))
  }

  /** The same, with the sort fixed. */
  function Confirmer(sort: R.Sorter): TransactionWithMeta -> Outcome<PbConfirmed>
  {
    t => ToPbConfirmed(sort, t)
  }

  function ToPbTransactions(sort: R.Sorter, ts: seq<TransactionWithMeta>): Outcome<seq<PbConfirmed>>
  {
    TryMap(Confirmer(sort), ts)
  }

  function MapSeq<A, B>(f: A -> B, xs: seq<A>): (ys: seq<B>)
    ensures |ys| == |xs| && forall i :: 0 <= i < |xs| ==> ys[i] == f(xs[i])
  {
    seq(|xs|, i requires 0 <= i < |xs| => f(xs[i]))
  }

  // ----- the loops -----

  method NarrowAccounts(accounts: seq<uint16>) returns (r: Outcome<seq<byte>>)
    ensures r == TryMap(NarrowAccount, accounts)
  {
    var out: seq<byte> := [];
    var i := 0;
    assert accounts[..0] == [];
    while i < |accounts|
      invariant 0 <= i <= |accounts| && TryMap(NarrowAccount, accounts[..i]) == Ok(out)
    {
      TryMapStep(NarrowAccount, accounts, i, out);
      if accounts[i] > 255 {
        return Panic;
      }
      out := out + [accounts[i]];
      i := i + 1;
    }
    assert accounts[..i] == accounts;
    return Ok(out);
  }

  method ToPbInstructions(instructions: seq<CompiledInstruction>) returns (r: Outcome<seq<PbInstruction>>)
    ensures r == TryMap(ToPbInstruction, instructions)
  {
    var out: seq<PbInstruction> := [];
    var i := 0;
    assert instructions[..0] == [];
    while i < |instructions|
      invariant 0 <= i <= |instructions| && TryMap(ToPbInstruction, instructions[..i]) == Ok(out)
    {
      TryMapStep(ToPbInstruction, instructions, i, out);
      var accounts :- NarrowAccounts(instructions[i].accounts);
      out := out + [PbInstruction(instructions[i].programIdIndex, accounts, instructions[i].data)];
      i := i + 1;
    }
    assert instructions[..i] == instructions;
    return Ok(out);
  }

  method CompileInner(instructions: seq<CompiledInstruction>) returns (r: Outcome<seq<PbInnerInstruction>>)
    ensures r == TryMap(ToPbInnerInstruction, instructions)
  {
    var out: seq<PbInnerInstruction> := [];
    var i := 0;
    assert instructions[..0] == [];
    while i < |instructions|
      invariant 0 <= i <= |instructions| && TryMap(ToPbInnerInstruction, instructions[..i]) == Ok(out)
    {
      TryMapStep(ToPbInnerInstruction, instructions, i, out);
      var instruction := instructions[i];
      var accounts :- NarrowAccounts(instruction.accounts);
      out := out + [PbInnerInstruction(instruction.programIdIndex, accounts, instruction.data,
                                       ToStackHeight(instruction.stackHeight))];
      i := i + 1;
    }
    assert instructions[..i] == instructions;
    return Ok(out);
  }

  method ToPbInnerInstructions(instructions: seq<InnerInstruction>) returns (r: Outcome<seq<PbInner>>)
    ensures r == TryMap(ToPbInner, instructions)
  {
    var out: seq<PbInner> := [];
    var i := 0;
    assert instructions[..0] == [];
    while i < |instructions|
      invariant 0 <= i <= |instructions| && TryMap(ToPbInner, instructions[..i]) == Ok(out)
    {
      TryMapStep(ToPbInner, instructions, i, out);
      var compiled :- CompileInner(instructions[i].instructions);
      out := out + [PbInner(instructions[i].index, compiled)];
      i := i + 1;
    }
    assert instructions[..i] == instructions;
    return Ok(out);
  }

  method EncodeError(e: Json) returns (r: Outcome<Option<seq<byte>>>)
    ensures r == ToPbTransactionError(e)
  {
    var parsed :- NewTransactionError(e);
    if parsed.None? {
      return Ok(None);
    }
    var encoder := new Encoder(None);
    EncodesInMemory([], parsed.value);
    var _ :- encoder.EncodeTransactionError(parsed.value);
    assert [] + Bytes(parsed.value) == Bytes(parsed.value);
    return Ok(Some(encoder.out));
  }

  /** The loops that copy keys, signatures and addresses into slices of their own. */
  method CopySlices(xs: seq<seq<byte>>) returns (out: seq<seq<byte>>)
    ensures out == xs
  {
    out := [];
    var i := 0;
    while i < |xs|
      invariant 0 <= i <= |xs| && out == xs[..i]
    {
      var o := new byte[|xs[i]|];
      forall k | 0 <= k < |xs[i]| {
        o[k] := xs[i][k];
      }
      assert o[..] == xs[i];
      out := out + [o[..]];
      i := i + 1;
    }
  }

  method ToPbLookups(lookups: seq<Lookup>) returns (out: seq<PbLookup>)
    ensures out == MapSeq(ToPbLookup, lookups)
  {
    out := [];
    var i := 0;
    while i < |lookups|
      invariant 0 <= i <= |lookups| == |MapSeq(ToPbLookup, lookups)| && out == MapSeq(ToPbLookup, lookups)[..i]
    {
      var l := lookups[i];
      var o := new byte[|l.accountKey|];
      forall k | 0 <= k < |l.accountKey| {
        o[k] := l.accountKey[k];
      }
      assert o[..] == l.accountKey;
      out := out + [PbLookup(o[..], l.writable, l.readonly)];
      i := i + 1;
    }
  }

  method ToPbTokenBalances(balances: seq<TokenBalance>) returns (out: seq<PbTokenBalance>)
    ensures out == MapSeq(ToPbTokenBalance, balances)
  {
    out := [];
    var i := 0;
    while i < |balances|
      invariant 0 <= i <= |balances| == |MapSeq(ToPbTokenBalance, balances)|
      invariant out == MapSeq(ToPbTokenBalance, balances)[..i]
    {
      var balance := balances[i];
      var owner := "";
      if balance.owner.Some? {
        owner := balance.owner.value;
      }
      var programId := "";
      if balance.programId != SYSTEM_PROGRAM {
        programId := balance.programId;
      }
      var amount := None;
      if balance.amount.Some? {
        amount := Some(ToPbUiTokenAmount(balance.amount.value));
      }
      out := out + [PbTokenBalance(balance.accountIndex, balance.mint, amount, owner, programId)];
      i := i + 1;
    }
  }

  method ToPbTransactionMeta(sort: R.Sorter, meta: Option<Meta>) returns (r: Outcome<PbMeta>)
    requires R.IsSort(sort)
    ensures r == ToPbMeta(sort, meta)
  {
    if meta.None? {
      return Ok(EMPTY_META);
    }
    var m := meta.value;
    var returnData :- ToPbReturnData(m.returnData);
    var inner :- ToPbInnerInstructions(m.inner);
    var err :- EncodeError(m.err);
    var pre := ToPbTokenBalances(m.preTokenBalances);
    var post := ToPbTokenBalances(m.postTokenBalances);
    var rewards :- R.ToPBReward(sort, m.rewards);
    var writable := CopySlices(m.loadedWritable);
    var readonly := CopySlices(m.loadedReadonly);
    return Ok(PbMeta(err, m.fee, m.preBalances, m.postBalances, inner, m.logs, pre, post, rewards,
                     writable, readonly, returnData, m.computeUnits));
  }

  /** `toPbTransaction`, with the converters of its parts. */
  method ConvertTransaction(t: Transaction) returns (r: Outcome<PbTransaction>)
    ensures r == ToPbTransaction(t)
  {
    var signatures := CopySlices(t.signatures);
    var accountKeys := CopySlices(t.message.accountKeys);
    var instructions :- ToPbInstructions(t.message.instructions);
    var lookups := ToPbLookups(t.message.lookups);
    return Ok(PbTransaction(signatures,
                            PbMessage(ToPbHeader(t.message.header), accountKeys, t.message.recentBlockhash,
                                      instructions, t.message.versioned, lookups)));
  }

  /** `toPbTransactions`. */
  method ConvertTransactions(sort: R.Sorter, ts: seq<TransactionWithMeta>) returns (r: Outcome<seq<PbConfirmed>>)
    requires R.IsSort(sort)
    ensures r == ToPbTransactions(sort, ts)
  {
    var out: seq<PbConfirmed> := [];
    var i := 0;
    assert ts[..0] == [];
    while i < |ts|
      invariant 0 <= i <= |ts| && TryMap(Confirmer(sort), ts[..i]) == Ok(out)
    {
      TryMapStep(Confirmer(sort), ts, i, out);
      var meta :- ToPbTransactionMeta(sort, ts[i].meta);
      if ts[i].tx.None? {
        return Panic;
      }
      var transaction :- ConvertTransaction(ts[i].tx.value);
      out := out + [PbConfirmed(transaction, meta)];
      i := i + 1;
    }
    assert ts[..i] == ts;
    return Ok(out);
  }

  // ----- the way back -----

  function Widen(bs: seq<byte>): (accounts: seq<uint16>)
    ensures |accounts| == |bs| && forall i :: 0 <= i < |bs| ==> accounts[i] == bs[i]
  {
    seq(|bs|, i requires 0 <= i < |bs| => bs[i])
  }

  function Narrowed(n: uint32, limit: nat): nat
    requires limit > 0
    ensures Narrowed(n, limit) < limit
  {
    if n < limit then n else 0
  }

  function FromPbInstruction(p: PbInstruction): CompiledInstruction
  {
    CompiledInstruction(Narrowed(p.programIdIndex, 0x1_0000), Widen(p.accounts), p.data, 0)
  }

  function FromPbInnerInstruction(p: PbInnerInstruction): CompiledInstruction
  {
    CompiledInstruction(Narrowed(p.programIdIndex, 0x1_0000), Widen(p.accounts), p.data,
                        if p.stackHeight.Some? then p.stackHeight.value else 0)
  }

  function FromPbInner(p: PbInner): InnerInstruction
  {
    InnerInstruction(Narrowed(p.index, 0x1_0000), MapSeq(FromPbInnerInstruction, p.instructions))
  }

  function FromPbHeader(p: PbHeader): MessageHeader
  {
    MessageHeader(Narrowed(p.signatures, 0x100), Narrowed(p.readonlySigned, 0x100), Narrowed(p.readonlyUnsigned, 0x100))
  }

  function FromPbLookup(p: PbLookup): Lookup
  {
    Lookup(p.accountKey, p.writable, p.readonly)
  }

  /** An empty text stands for what the converter left out; a mint is never empty. */
  function FromPbTokenBalance(p: PbTokenBalance): TokenBalance
  {
    TokenBalance(Narrowed(p.accountIndex, 0x1_0000),
                 if p.owner == "" then None else Some(p.owner),
                 if p.programId == "" then SYSTEM_PROGRAM else p.programId,
                 if p.mint == "" then SYSTEM_PROGRAM else p.mint,
                 match p.amount
                 case None => None
                 case Some(a) =>
                   Some(UiTokenAmount(Some(a.uiAmount), Narrowed(a.decimals, 0x100), a.amount, a.uiAmountString)))
  }

  /** An absent UI amount becomes zero. */
  function WithUiAmount(b: TokenBalance): TokenBalance
  {
    if b.amount.Some? && b.amount.value.uiAmount.None?
    then b.(amount := Some(b.amount.value.(uiAmount := Some(0.0))))
    else b
  }

  function FromPbTransaction(p: PbTransaction): Transaction
  {
    Transaction(p.signatures,
                Message(FromPbHeader(p.message.header), p.message.accountKeys, p.message.recentBlockhash,
                        MapSeq(FromPbInstruction, p.message.instructions), p.message.versioned,
                        MapSeq(FromPbLookup, p.message.lookups)))
  }

  /** A top-level instruction's stack height has no place in its message. */
  function WithoutHeights(t: Transaction): Transaction
  {
    t.(message := t.message.(instructions :=
      MapSeq((i: CompiledInstruction) => i.(stackHeight := 0), t.message.instructions)))
  }

  // ----- nothing is lost, and when it panics -----

  lemma TryMapBack<A, B>(f: A -> Outcome<B>, g: B -> A, h: A -> A, xs: seq<A>)
    requires forall x :: f(x).Ok? ==> g(f(x).value) == h(x)
    ensures TryMap(f, xs).Ok? ==> MapSeq(g, TryMap(f, xs).value) == MapSeq(h, xs)
  {
    TryMapOk(f, xs);
  }

  lemma AccountsComeBack(accounts: seq<uint16>)
    ensures TryMap(NarrowAccount, accounts).Ok? ==> Widen(TryMap(NarrowAccount, accounts).value) == accounts
  {
    TryMapOk(NarrowAccount, accounts);
  }

  lemma InstructionComesBack(i: CompiledInstruction)
    ensures ToPbInstruction(i).Ok? ==> FromPbInstruction(ToPbInstruction(i).value) == i.(stackHeight := 0)
    ensures ToPbInnerInstruction(i).Ok? ==> FromPbInnerInstruction(ToPbInnerInstruction(i).value) == i
  {
    AccountsComeBack(i.accounts);
  }

  lemma InnerComesBack(i: InnerInstruction)
    ensures ToPbInner(i).Ok? ==> FromPbInner(ToPbInner(i).value) == i
  {
    forall x: CompiledInstruction { InstructionComesBack(x); }
    var same := (x: CompiledInstruction) => x;
    TryMapBack(ToPbInnerInstruction, FromPbInnerInstruction, same, i.instructions);
    assert MapSeq(same, i.instructions) == i.instructions;
  }

  /** Signatures, header, keys, blockhash, instructions and lookups are recovered from a converted
      transaction, element by element and in order. */
  lemma TransactionComesBack(t: Transaction)
    ensures ToPbTransaction(t).Ok? ==> FromPbTransaction(ToPbTransaction(t).value) == WithoutHeights(t)
  {
    forall x: CompiledInstruction { InstructionComesBack(x); }
    TryMapBack(ToPbInstruction, FromPbInstruction, (i: CompiledInstruction) => i.(stackHeight := 0),
               t.message.instructions);
    assert MapSeq(FromPbLookup, MapSeq(ToPbLookup, t.message.lookups)) == t.message.lookups;
  }

  /** A token balance is recovered, with zero for an absent UI amount; so exactly, unless that is absent. */
  lemma TokenBalanceComesBack(b: TokenBalance)
    ensures FromPbTokenBalance(ToPbTokenBalance(b)) == WithUiAmount(b)
    ensures FromPbTokenBalance(ToPbTokenBalance(b)) == b <==> b.amount.None? || b.amount.value.uiAmount.Some?
  {
  }

  lemma TokenBalancesComeBack(bs: seq<TokenBalance>)
    ensures MapSeq(FromPbTokenBalance, MapSeq(ToPbTokenBalance, bs)) == MapSeq(WithUiAmount, bs)
  {
    forall b: TokenBalance { TokenBalanceComesBack(b); }
  }

  /** What metadata loses is the order of its rewards and whether a UI amount was absent or zero. */
  ghost predicate CarriesMeta(m: Meta, p: PbMeta)
  {
    && p.fee == m.fee
    && p.preBalances == m.preBalances
    && p.postBalances == m.postBalances
    && MapSeq(FromPbInner, p.inner) == m.inner
    && p.logs == m.logs
    && MapSeq(FromPbTokenBalance, p.preTokenBalances) == MapSeq(WithUiAmount, m.preTokenBalances)
    && MapSeq(FromPbTokenBalance, p.postTokenBalances) == MapSeq(WithUiAmount, m.postTokenBalances)
    && R.OrderedConversion(m.rewards, p.rewards)
    && p.loadedWritable == m.loadedWritable
    && p.loadedReadonly == m.loadedReadonly
    && m.returnData == (match p.returnData
                        case None => NoReturnData
                        case Some(d) => Readable(d.programId, d.data))
    && p.computeUnits == m.computeUnits
    && CarriesError(m.err, p.err)
  }

  /** The bytes decode to the tree the error value stands for, and print as that value if it was
      written without loss. */
  predicate CarriesError(j: Json, bytes: Option<seq<byte>>)
  {
    match bytes
    case None => j.Null?
    case Some(bs) =>
      && Decode(bs, true).Some?
      && NewTransactionError(j) == Ok(Some(Decode(bs, true).value.0))
      && (Print(Decode(bs, true).value.0) == j <==> Exact(j))
  }

  lemma ErrorComesBack(j: Json, bytes: Option<seq<byte>>)
    requires ToPbTransactionError(j) == Ok(bytes)
    ensures CarriesError(j, bytes)
  {
    NullIsTheOnlyNoError(j);
    if bytes.Some? { JsonRoundTrip(j, NewTransactionError(j).value.value); }
  }

  lemma InnersComeBack(inner: seq<InnerInstruction>)
    ensures TryMap(ToPbInner, inner).Ok? ==> MapSeq(FromPbInner, TryMap(ToPbInner, inner).value) == inner
  {
    forall i: InnerInstruction { InnerComesBack(i); }
    var same := (i: InnerInstruction) => i;
    TryMapBack(ToPbInner, FromPbInner, same, inner);
    assert MapSeq(same, inner) == inner;
  }

  /** The parts of converted metadata are the parts, converted. */
  lemma MetaParts(sort: R.Sorter, m: Meta, p: PbMeta)
    requires ToPbMeta(sort, Some(m)) == Ok(p)
    ensures ToPbReturnData(m.returnData) == Ok(p.returnData)
    ensures TryMap(ToPbInner, m.inner) == Ok(p.inner)
    ensures ToPbTransactionError(m.err) == Ok(p.err)
    ensures R.ToPbRewards(sort, m.rewards) == Ok(p.rewards)
    ensures p == PbMeta(p.err, m.fee, m.preBalances, m.postBalances, p.inner, m.logs,
                        MapSeq(ToPbTokenBalance, m.preTokenBalances), MapSeq(ToPbTokenBalance, m.postTokenBalances),
                        p.rewards, m.loadedWritable, m.loadedReadonly, p.returnData, m.computeUnits)
  {
  }

  /** The inner instructions of a transaction with their stack heights, its error, and the rest of
      its metadata are recovered from the converted form. */
  lemma MetaComesBack(sort: R.Sorter, m: Meta, p: PbMeta)
    requires R.IsSort(sort) && ToPbMeta(sort, Some(m)) == Ok(p)
    ensures CarriesMeta(m, p)
  {
    MetaParts(sort, m, p);
    InnersComeBack(m.inner);
    ErrorComesBack(m.err, p.err);
    TokenBalancesComeBack(m.preTokenBalances);
    TokenBalancesComeBack(m.postTokenBalances);
    R.ToPBRewardIsOrderedConversion(sort, m.rewards);
  }

  lemma NullIsTheOnlyNoError(j: Json)
    ensures NewTransactionError(j) == Ok(None) <==> j.Null?
  {
  }

  /** Of the values the constructors accept, only a null instruction error cannot be converted. */
  lemma OnlyNullInstructionErrorPanics(j: Json)
    requires NewTransactionError(j).Ok?
    ensures ToPbTransactionError(j).Ok? || ToPbTransactionError(j).Panic?
    ensures ToPbTransactionError(j).Panic? <==> j == Obj(map[TrxName(INSTRUCTION_ERROR) := Null])
  {
    var nil := TxError(INSTRUCTION_ERROR, NilInstruction);
    var name := TrxName(INSTRUCTION_ERROR);
    ParserIsExact(j, nil);
    ParserIsExact(Obj(map[name := Null]), nil);
    if Single(j, name) { OneField(j, name, Null); }
    if ToPbTransactionError(j).Panic? {
      ParserIsExact(j, NewTransactionError(j).value.value);
    }
  }

  /** Every account index fits in a byte. */
  predicate Narrow(i: CompiledInstruction)
  {
    forall k :: 0 <= k < |i.accounts| ==> i.accounts[k] <= 255
  }

  lemma OnlyPanics<A, B>(f: A -> Outcome<B>, xs: seq<A>)
    requires forall x :: f(x).Ok? || f(x).Panic?
    ensures TryMap(f, xs).Ok? || TryMap(f, xs).Panic?
  {
    if xs != [] { OnlyPanics(f, xs[..|xs| - 1]); }
  }

  lemma InstructionPanics(i: CompiledInstruction)
    ensures ToPbInstruction(i).Ok? <==> Narrow(i)
    ensures ToPbInstruction(i).Panic? <==> !Narrow(i)
    ensures ToPbInnerInstruction(i).Ok? <==> Narrow(i)
    ensures ToPbInnerInstruction(i).Panic? <==> !Narrow(i)
  {
    TryMapOk(NarrowAccount, i.accounts);
    OnlyPanics(NarrowAccount, i.accounts);
  }

  /** Converting a transaction panics exactly when some account index exceeds 255. */
  lemma TransactionPanics(t: Transaction)
    ensures ToPbTransaction(t).Ok? <==>
            NarrowAll(t.message.instructions)
    ensures ToPbTransaction(t).Ok? || ToPbTransaction(t).Panic?
  {
    forall i: CompiledInstruction { InstructionPanics(i); }
    TryMapOk(ToPbInstruction, t.message.instructions);
    OnlyPanics(ToPbInstruction, t.message.instructions);
  }

  /** The same for inner instructions. */
  lemma InnerPanics(i: InnerInstruction)
    ensures ToPbInner(i).Ok? <==> NarrowAll(i.instructions)
    ensures ToPbInner(i).Ok? || ToPbInner(i).Panic?
  {
    forall x: CompiledInstruction { InstructionPanics(x); }
    TryMapOk(ToPbInnerInstruction, i.instructions);
    OnlyPanics(ToPbInnerInstruction, i.instructions);
  }

  /** The metadata, if there is any, converts: readable return data, no account index above 255, an
      error value that is null or spells a tree with its detail, and supported reward types. */
  ghost predicate ConvertibleMeta(meta: Option<Meta>)
  {
    meta.Some? ==>
      var m := meta.value;
      && !m.returnData.Unreadable?
      && (forall k :: 0 <= k < |m.inner| ==> NarrowAll(m.inner[k].instructions))
      && (m.err.Null? || exists e :: Spells(m.err, e) && !e.detail.NilInstruction?)
      && (forall k :: 0 <= k < |m.rewards| ==> !m.rewards[k].kind.OtherType?)
  }

  predicate NarrowAll(instructions: seq<CompiledInstruction>)
  {
    forall k :: 0 <= k < |instructions| ==> Narrow(instructions[k])
  }

  lemma ErrorConvertsIff(j: Json)
    ensures ToPbTransactionError(j).Ok? <==> j.Null? || exists e :: Spells(j, e) && !e.detail.NilInstruction?
  {
    NullIsTheOnlyNoError(j);
    if ToPbTransactionError(j).Ok? && !j.Null? {
      var e := NewTransactionError(j).value.value;
      ParserIsExact(j, e);
      assert Spells(j, e) && !e.detail.NilInstruction?;
    }
    if e :| Spells(j, e) && !e.detail.NilInstruction? {
      ParserIsExact(j, e);
    }
  }

  lemma InnersConvertIff(inner: seq<InnerInstruction>)
    ensures TryMap(ToPbInner, inner).Ok? <==> forall k :: 0 <= k < |inner| ==> NarrowAll(inner[k].instructions)
  {
    forall i: InnerInstruction { InnerPanics(i); }
    TryMapOk(ToPbInner, inner);
  }

  lemma RewardsConvertIff(sort: R.Sorter, rewards: seq<R.RpcReward>)
    requires R.IsSort(sort)
    ensures R.ToPbRewards(sort, rewards).Ok? <==> forall k :: 0 <= k < |rewards| ==> !rewards[k].kind.OtherType?
  {
    R.ToPBRewardIsOrderedConversion(sort, rewards);
  }

  /** Metadata converts when each part that can fail does. */
  lemma MetaPartsConvert(sort: R.Sorter, m: Meta)
    ensures ToPbMeta(sort, Some(m)).Ok? <==>
            && ToPbReturnData(m.returnData).Ok?
            && TryMap(ToPbInner, m.inner).Ok?
            && ToPbTransactionError(m.err).Ok?
            && R.ToPbRewards(sort, m.rewards).Ok?
  {
  }

  lemma MetaConvertsIff(sort: R.Sorter, meta: Option<Meta>)
    requires R.IsSort(sort)
    ensures ToPbMeta(sort, meta).Ok? <==> ConvertibleMeta(meta)
  {
    if meta.Some? {
      var m := meta.value;
      MetaPartsConvert(sort, m);
      InnersConvertIff(m.inner);
      ErrorConvertsIff(m.err);
      RewardsConvertIff(sort, m.rewards);
    }
  }

  /** The transaction decodes and has no account index above 255, and its metadata converts. */
  ghost predicate Convertible(t: TransactionWithMeta)
  {
    ConvertibleMeta(t.meta) && t.tx.Some? && NarrowAll(t.tx.value.message.instructions)
  }

  /** The list converts exactly when every transaction decodes, has no account index above 255, and
      has metadata that converts. */
  lemma TransactionsConvertIff(sort: R.Sorter, ts: seq<TransactionWithMeta>)
    requires R.IsSort(sort)
    ensures ToPbTransactions(sort, ts).Ok? <==> forall i :: 0 <= i < |ts| ==> Convertible(ts[i])
  {
    TryMapOk(Confirmer(sort), ts);
    forall i | 0 <= i < |ts|
      ensures ToPbConfirmed(sort, ts[i]).Ok? <==> Convertible(ts[i])
    {
      MetaConvertsIff(sort, ts[i].meta);
      if ts[i].tx.Some? { TransactionPanics(ts[i].tx.value); }
    }
  }

  /** `p` is the transaction `t`, converted: all of it can be recovered. */
  ghost predicate CarriesTransaction(t: TransactionWithMeta, p: PbConfirmed)
  {
    && t.tx.Some?
    && FromPbTransaction(p.transaction) == WithoutHeights(t.tx.value)
    && (if t.meta.Some? then CarriesMeta(t.meta.value, p.meta) else p.meta == EMPTY_META)
  }

  /** A converted list of transactions is the transactions converted, one for one and in order. */
  lemma TransactionsComeBack(sort: R.Sorter, ts: seq<TransactionWithMeta>)
    requires R.IsSort(sort)
    requires ToPbTransactions(sort, ts).Ok?
    ensures
      var out := ToPbTransactions(sort, ts).value;
      |out| == |ts| && forall i :: 0 <= i < |ts| ==> CarriesTransaction(ts[i], out[i])
  {
    TryMapOk(Confirmer(sort), ts);
    var out := ToPbTransactions(sort, ts).value;
    forall i | 0 <= i < |ts|
      ensures CarriesTransaction(ts[i], out[i])
    {
      assert ToPbConfirmed(sort, ts[i]) == Ok(out[i]);
      TransactionComesBack(ts[i].tx.value);
      if ts[i].meta.Some? { MetaComesBack(sort, ts[i].meta.value, out[i].meta); }
    }
  }
}
