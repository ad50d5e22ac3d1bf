/** How a conversion fails when it does: which failure wins, and in which order they are met. */
module ConversionFailures {
  import opened Basics
  import opened Shapes
  import opened TransactionErrors
  import opened Conversion
  import R = Rewards

  // ----- one transaction -----

  /** Return data is looked at first and alone gives an error; account indices come next, and panic;
      then the error value, whose numbers may be out of range; reward types, which panic, are last. */
  lemma MetaFails(sort: R.Sorter, m: Meta)
    requires R.IsSort(sort)
    ensures
      var r := ToPbMeta(sort, Some(m));
      var narrow := forall k :: 0 <= k < |m.inner| ==> NarrowAll(m.inner[k].instructions);
      && (r.Err? <==> m.returnData.Unreadable?)
      && (r.Unspecified? <==> !m.returnData.Unreadable? && narrow && NewTransactionError(m.err).Unspecified?)
      && (r.Panic? <==> !ConvertibleMeta(Some(m)) && !r.Err? && !r.Unspecified?)
  {
    MetaConvertsIff(sort, Some(m));
    InnersConvertIff(m.inner);
    forall i: InnerInstruction { InnerPanics(i); }
    OnlyPanics(ToPbInner, m.inner);
    OnlyPanics(R.Convert, m.rewards);
    NeverErr(m.err);
  }

  /** A transaction fails as its metadata does; where that converts, it panics. */
  lemma TransactionFails(sort: R.Sorter, t: TransactionWithMeta)
    requires R.IsSort(sort) && !Convertible(t)
    ensures
      var r := ToPbConfirmed(sort, t);
      && (r.Err? <==> t.meta.Some? && t.meta.value.returnData.Unreadable?)
      && (r.Unspecified? <==> ToPbMeta(sort, t.meta).Unspecified?)
      && !r.Ok?
  {
    MetaConvertsIff(sort, t.meta);
    if t.meta.Some? { MetaFails(sort, t.meta.value); }
    if t.tx.Some? { TransactionPanics(t.tx.value); }
  }

  // ----- a list of them -----

  ghost predicate FirstInconvertible(ts: seq<TransactionWithMeta>, i: nat)
  {
    && i < |ts|
    && !Convertible(ts[i])
    && forall k :: 0 <= k < i ==> Convertible(ts[k])
  }

  lemma FindInconvertible(ts: seq<TransactionWithMeta>) returns (i: nat)
    ensures FirstInconvertible(ts, i) || (i == |ts| && forall k :: 0 <= k < |ts| ==> Convertible(ts[k]))
  {
    i := 0;
    while i < |ts| && Convertible(ts[i])
      invariant i <= |ts| && forall k :: 0 <= k < i ==> Convertible(ts[k])
    {
      i := i + 1;
    }
  }

  /** The first transaction that does not convert decides how the list fails. */
  lemma FirstFailureDecides(sort: R.Sorter, ts: seq<TransactionWithMeta>, i: nat)
    requires R.IsSort(sort) && FirstInconvertible(ts, i)
    ensures ToPbConfirmed(sort, ts[i]).IsFailure()
    ensures ToPbTransactions(sort, ts) == ToPbConfirmed(sort, ts[i]).PropagateFailure()
  {
    TransactionFails(sort, ts[i]);
    TransactionsConvertIff(sort, ts[..i]);
    TryMapStep(Confirmer(sort), ts, i, TryMap(Confirmer(sort), ts[..i]).value);
  }

  /** The list gives an error exactly when that first one has return data that does not decode. */
  lemma TransactionsErrIff(sort: R.Sorter, ts: seq<TransactionWithMeta>)
    requires R.IsSort(sort)
    ensures ToPbTransactions(sort, ts).Err? <==>
            exists i: nat :: FirstInconvertible(ts, i) && ts[i].meta.Some? && ts[i].meta.value.returnData.Unreadable?
  {
    TransactionsConvertIff(sort, ts);
    var first := FindInconvertible(ts);
    if first < |ts| {
      FirstFailureDecides(sort, ts, first);
      TransactionFails(sort, ts[first]);
      assert forall i: nat :: FirstInconvertible(ts, i) ==> i == first;
    }
  }

  // ----- what stands for an absent value -----

  /** Zero alone is written as no stack height at all. */
  lemma StackHeightIsAbsentIffZero(i: CompiledInstruction)
    requires ToPbInnerInstruction(i).Ok?
    ensures ToPbInnerInstruction(i).value.stackHeight == if i.stackHeight == 0 then None else Some(i.stackHeight)
  {
  }

  /** Only the system program is written as an empty program id; the mint is always written. */
  lemma SystemProgramIsLeftOut(b: TokenBalance)
    ensures ToPbTokenBalance(b).mint == b.mint
    ensures ToPbTokenBalance(b).programId == "" <==> b.programId == "11111111111111111111111111111111"
    ensures ToPbTokenBalance(b).programId != "" ==> ToPbTokenBalance(b).programId == b.programId
    ensures ToPbTokenBalance(b).owner == "" <==> b.owner.None?
  {
  }

  /** A transaction without metadata is given metadata in which nothing is set. */
  lemma NoMetaIsEmpty(sort: R.Sorter)
    ensures
      var r := ToPbMeta(sort, None);
      && r.Ok?
      && r.value.err == None && r.value.fee == 0
      && r.value.preBalances == [] && r.value.postBalances == []
      && r.value.inner == [] && r.value.logs == []
      && r.value.preTokenBalances == [] && r.value.postTokenBalances == []
      && r.value.rewards == [] && r.value.loadedWritable == [] && r.value.loadedReadonly == []
      && r.value.returnData == None && r.value.computeUnits == None
  {
  }
}
