/** The error names that the node sends, with their codes: what the tables, the constants for the codes
    that carry a detail, and the constructors make of the JSON in which they arrive. */
module ErrorCodes {
  import opened Basics
  import opened ErrorNames
  import opened TransactionErrors

  /** The name is that of a transaction error, with this code. */
  predicate Trx(name: string, code: nat) { |name| <= 40 && TrxCode(Ascii(name)) == Some(code) }

  /** The name is that of an instruction error, with this code. */
  predicate Ix(name: string, code: nat) { |name| <= 40 && IxCode(Ascii(name)) == Some(code) }

  // ----- transaction errors -----

  lemma TrxCodesFrom0()
    ensures Trx("AccountInUse", 0)
    ensures Trx("AccountLoadedTwice", 1)
    ensures Trx("AccountNotFound", 2)
    ensures Trx("ProgramAccountNotFound", 3)
    ensures Trx("InsufficientFundsForFee", 4)
    ensures Trx("InvalidAccountForFee", 5)
    ensures Trx("AlreadyProcessed", 6)
    ensures Trx("BlockhashNotFound", 7)
  {
    TrxTable(Ascii("AccountInUse"), 0);
    TrxTable(Ascii("AccountLoadedTwice"), 1);
    TrxTable(Ascii("AccountNotFound"), 2);
    TrxTable(Ascii("ProgramAccountNotFound"), 3);
    TrxTable(Ascii("InsufficientFundsForFee"), 4);
    TrxTable(Ascii("InvalidAccountForFee"), 5);
    TrxTable(Ascii("AlreadyProcessed"), 6);
    TrxTable(Ascii("BlockhashNotFound"), 7);
  }

  lemma TrxCodesFrom8()
    ensures Trx("InstructionError", 8)
    ensures Trx("CallChainTooDeep", 9)
    ensures Trx("MissingSignatureForFee", 10)
    ensures Trx("InvalidAccountIndex", 11)
    ensures Trx("SignatureFailure", 12)
    ensures Trx("InvalidProgramForExecution", 13)
    ensures Trx("SanitizeFailure", 14)
    ensures Trx("ClusterMaintenance", 15)
  {
    TrxTable(Ascii("InstructionError"), 8);
    TrxTable(Ascii("CallChainTooDeep"), 9);
    TrxTable(Ascii("MissingSignatureForFee"), 10);
    TrxTable(Ascii("InvalidAccountIndex"), 11);
    TrxTable(Ascii("SignatureFailure"), 12);
    TrxTable(Ascii("InvalidProgramForExecution"), 13);
    TrxTable(Ascii("SanitizeFailure"), 14);
    TrxTable(Ascii("ClusterMaintenance"), 15);
  }

  lemma TrxCodesFrom16()
    ensures Trx("AccountBorrowOutstanding", 16)
    ensures Trx("WouldExceedMaxBlockCostLimit", 17)
    ensures Trx("UnsupportedVersion", 18)
    ensures Trx("InvalidWritableAccount", 19)
    ensures Trx("WouldExceedMaxAccountCostLimit", 20)
    ensures Trx("WouldExceedAccountDataBlockLimit", 21)
    ensures Trx("TooManyAccountLocks", 22)
    ensures Trx("AddressLookupTableNotFound", 23)
  {
    TrxTable(Ascii("AccountBorrowOutstanding"), 16);
    TrxTable(Ascii("WouldExceedMaxBlockCostLimit"), 17);
    TrxTable(Ascii("UnsupportedVersion"), 18);
    TrxTable(Ascii("InvalidWritableAccount"), 19);
    TrxTable(Ascii("WouldExceedMaxAccountCostLimit"), 20);
    TrxTable(Ascii("WouldExceedAccountDataBlockLimit"), 21);
    TrxTable(Ascii("TooManyAccountLocks"), 22);
    TrxTable(Ascii("AddressLookupTableNotFound"), 23);
  }

  lemma TrxCodesFrom24()
    ensures Trx("InvalidAddressLookupTableOwner", 24)
    ensures Trx("InvalidAddressLookupTableData", 25)
    ensures Trx("InvalidAddressLookupTableIndex", 26)
    ensures Trx("InvalidRentPayingAccount", 27)
    ensures Trx("WouldExceedMaxVoteCostLimit", 28)
    ensures Trx("WouldExceedAccountDataTotalLimit", 29)
    ensures Trx("DuplicateInstruction", 30)
    ensures Trx("InsufficientFundsForRent", 31)
  {
    TrxTable(Ascii("InvalidAddressLookupTableOwner"), 24);
    TrxTable(Ascii("InvalidAddressLookupTableData"), 25);
    TrxTable(Ascii("InvalidAddressLookupTableIndex"), 26);
    TrxTable(Ascii("InvalidRentPayingAccount"), 27);
    TrxTable(Ascii("WouldExceedMaxVoteCostLimit"), 28);
    TrxTable(Ascii("WouldExceedAccountDataTotalLimit"), 29);
    TrxTable(Ascii("DuplicateInstruction"), 30);
    TrxTable(Ascii("InsufficientFundsForRent"), 31);
  }

  lemma TrxCodesFrom32()
    ensures Trx("MaxLoadedAccountsDataSizeExceeded", 32)
    ensures Trx("InvalidLoadedAccountsDataSizeLimit", 33)
    ensures Trx("ResanitizationNeeded", 34)
    ensures Trx("ProgramExecutionTemporarilyRestricted", 35)
    ensures Trx("UnbalancedTransaction", 36)
  {
    TrxTable(Ascii("MaxLoadedAccountsDataSizeExceeded"), 32);
    TrxTable(Ascii("InvalidLoadedAccountsDataSizeLimit"), 33);
    TrxTable(Ascii("ResanitizationNeeded"), 34);
    TrxTable(Ascii("ProgramExecutionTemporarilyRestricted"), 35);
    TrxTable(Ascii("UnbalancedTransaction"), 36);
  }

  // ----- instruction errors -----

  lemma InstructionCodesFrom0()
    ensures Ix("GenericError", 0)
    ensures Ix("InvalidArgument", 1)
    ensures Ix("InvalidInstructionData", 2)
    ensures Ix("InvalidAccountData", 3)
    ensures Ix("AccountDataTooSmall", 4)
    ensures Ix("InsufficientFunds", 5)
    ensures Ix("IncorrectProgramId", 6)
    ensures Ix("MissingRequiredSignature", 7)
  {
    IxTable(Ascii("GenericError"), 0);
    IxTable(Ascii("InvalidArgument"), 1);
    IxTable(Ascii("InvalidInstructionData"), 2);
    IxTable(Ascii("InvalidAccountData"), 3);
    IxTable(Ascii("AccountDataTooSmall"), 4);
    IxTable(Ascii("InsufficientFunds"), 5);
    IxTable(Ascii("IncorrectProgramId"), 6);
    IxTable(Ascii("MissingRequiredSignature"), 7);
  }

  lemma InstructionCodesFrom8()
    ensures Ix("AccountAlreadyInitialized", 8)
    ensures Ix("UninitializedAccount", 9)
    ensures Ix("UnbalancedInstruction", 10)
    ensures Ix("ModifiedProgramId", 11)
    ensures Ix("ExternalAccountLamportSpend", 12)
    ensures Ix("ExternalAccountDataModified", 13)
    ensures Ix("ReadonlyLamportChange", 14)
    ensures Ix("ReadonlyDataModified", 15)
  {
    IxTable(Ascii("AccountAlreadyInitialized"), 8);
    IxTable(Ascii("UninitializedAccount"), 9);
    IxTable(Ascii("UnbalancedInstruction"), 10);
    IxTable(Ascii("ModifiedProgramId"), 11);
    IxTable(Ascii("ExternalAccountLamportSpend"), 12);
    IxTable(Ascii("ExternalAccountDataModified"), 13);
    IxTable(Ascii("ReadonlyLamportChange"), 14);
    IxTable(Ascii("ReadonlyDataModified"), 15);
  }

  lemma InstructionCodesFrom16()
    ensures Ix("DuplicateAccountIndex", 16)
    ensures Ix("ExecutableModified", 17)
    ensures Ix("RentEpochModified", 18)
    ensures Ix("NotEnoughAccountKeys", 19)
    ensures Ix("AccountDataSizeChanged", 20)
    ensures Ix("AccountNotExecutable", 21)
    ensures Ix("AccountBorrowFailed", 22)
    ensures Ix("AccountBorrowOutstanding", 23)
  {
    IxTable(Ascii("DuplicateAccountIndex"), 16);
    IxTable(Ascii("ExecutableModified"), 17);
    IxTable(Ascii("RentEpochModified"), 18);
    IxTable(Ascii("NotEnoughAccountKeys"), 19);
    IxTable(Ascii("AccountDataSizeChanged"), 20);
    IxTable(Ascii("AccountNotExecutable"), 21);
    IxTable(Ascii("AccountBorrowFailed"), 22);
    IxTable(Ascii("AccountBorrowOutstanding"), 23);
  }

  lemma InstructionCodesFrom24()
    ensures Ix("DuplicateAccountOutOfSync", 24)
    ensures Ix("Custom", 25)
    ensures Ix("InvalidError", 26)
    ensures Ix("ExecutableDataModified", 27)
    ensures Ix("ExecutableLamportChange", 28)
    ensures Ix("ExecutableAccountNotRentExempt", 29)
    ensures Ix("UnsupportedProgramId", 30)
    ensures Ix("CallDepth", 31)
  {
    IxTable(Ascii("DuplicateAccountOutOfSync"), 24);
    IxTable(Ascii("Custom"), 25);
    IxTable(Ascii("InvalidError"), 26);
    IxTable(Ascii("ExecutableDataModified"), 27);
    IxTable(Ascii("ExecutableLamportChange"), 28);
    IxTable(Ascii("ExecutableAccountNotRentExempt"), 29);
    IxTable(Ascii("UnsupportedProgramId"), 30);
    IxTable(Ascii("CallDepth"), 31);
  }

  lemma InstructionCodesFrom32()
    ensures Ix("MissingAccount", 32)
    ensures Ix("ReentrancyNotAllowed", 33)
    ensures Ix("MaxSeedLengthExceeded", 34)
    ensures Ix("InvalidSeeds", 35)
    ensures Ix("InvalidRealloc", 36)
    ensures Ix("ComputationalBudgetExceeded", 37)
    ensures Ix("PrivilegeEscalation", 38)
    ensures Ix("ProgramEnvironmentSetupFailure", 39)
  {
    IxTable(Ascii("MissingAccount"), 32);
    IxTable(Ascii("ReentrancyNotAllowed"), 33);
    IxTable(Ascii("MaxSeedLengthExceeded"), 34);
    IxTable(Ascii("InvalidSeeds"), 35);
    IxTable(Ascii("InvalidRealloc"), 36);
    IxTable(Ascii("ComputationalBudgetExceeded"), 37);
    IxTable(Ascii("PrivilegeEscalation"), 38);
    IxTable(Ascii("ProgramEnvironmentSetupFailure"), 39);
  }

  lemma InstructionCodesFrom40()
    ensures Ix("ProgramFailedToComplete", 40)
    ensures Ix("ProgramFailedToCompile", 41)
    ensures Ix("Immutable", 42)
    ensures Ix("IncorrectAuthority", 43)
    ensures Ix("BorshIoError", 44)
    ensures Ix("AccountNotRentExempt", 45)
    ensures Ix("InvalidAccountOwner", 46)
    ensures Ix("ArithmeticOverflow", 47)
  {
    IxTable(Ascii("ProgramFailedToComplete"), 40);
    IxTable(Ascii("ProgramFailedToCompile"), 41);
    IxTable(Ascii("Immutable"), 42);
    IxTable(Ascii("IncorrectAuthority"), 43);
    IxTable(Ascii("BorshIoError"), 44);
    IxTable(Ascii("AccountNotRentExempt"), 45);
    IxTable(Ascii("InvalidAccountOwner"), 46);
    IxTable(Ascii("ArithmeticOverflow"), 47);
  }

  lemma InstructionCodesFrom48()
    ensures Ix("UnsupportedSysvar", 48)
    ensures Ix("IllegalOwner", 49)
    ensures Ix("MaxAccountsDataAllocationsExceeded", 50)
    ensures Ix("MaxAccountsExceeded", 51)
    ensures Ix("MaxInstructionTraceLengthExceeded", 52)
    ensures Ix("BuiltinProgramsMustConsumeComputeUnits", 53)
  {
    IxTable(Ascii("UnsupportedSysvar"), 48);
    IxTable(Ascii("IllegalOwner"), 49);
    IxTable(Ascii("MaxAccountsDataAllocationsExceeded"), 50);
    IxTable(Ascii("MaxAccountsExceeded"), 51);
    IxTable(Ascii("MaxInstructionTraceLengthExceeded"), 52);
    IxTable(Ascii("BuiltinProgramsMustConsumeComputeUnits"), 53);
  }

  // ----- errors as they arrive -----

  /** A name alone. */
  lemma PlainError(name: string, code: nat)
    requires Trx(name, code)
    ensures NewTransactionError(Str(Ascii(name))) == Ok(Some(TxError(code, NoDetail)))
  {
  }

  /** `{"InstructionError": [index, second]}` */
  function InstructionJson(index: byte, second: Json): Json
  {
    Obj(map[Ascii("InstructionError") := List([Num(index as real), second])])
  }

  /** `{"InstructionError": [index, name]}` */
  lemma InstructionError(index: byte, name: string, code: nat)
    requires Ix(name, code)
    ensures NewTransactionError(InstructionJson(index, Str(Ascii(name))))
         == Ok(Some(TxError(8, Instruction(index, code, NoIxDetail))))
  {
    IxTable(Ascii(name), code);
    InstructionNames();
    PrintParses(TxError(8, Instruction(index, code, NoIxDetail)));
  }

  /** `{"InstructionError": [index, {"Custom": n}]}`, for every index and code. */
  lemma CustomError(index: byte, n: uint32)
    ensures NewInstructionDetail(Obj(map[Ascii("Custom") := Num(n as real)])) == Ok((25, Custom(n)))
    ensures NewTransactionError(InstructionJson(index, Obj(map[Ascii("Custom") := Num(n as real)])))
         == Ok(Some(TxError(8, Instruction(index, 25, Custom(n)))))
  {
    InstructionNames();
    var e := TxError(8, Instruction(index, 25, Custom(n)));
    PrintParses(e);
    SecondPart(index, 25, Custom(n));
  }

  /** `{"InstructionError": [index, {"BorshIoError": message}]}` */
  lemma BorshError(index: byte, msg: GoString)
    ensures NewInstructionDetail(Obj(map[Ascii("BorshIoError") := Str(msg)])) == Ok((44, Borsh(msg)))
    ensures NewTransactionError(InstructionJson(index, Obj(map[Ascii("BorshIoError") := Str(msg)])))
         == Ok(Some(TxError(8, Instruction(index, 44, Borsh(msg)))))
  {
    InstructionNames();
    PrintParses(TxError(8, Instruction(index, 44, Borsh(msg))));
    SecondPart(index, 44, Borsh(msg));
  }

  /** `{"InsufficientFundsForRent": {"account_index": i}}` */
  lemma RentError(i: byte)
    ensures NewTransactionError(Obj(map[Ascii("InsufficientFundsForRent") :=
                                          Obj(map[Ascii("account_index") := Num(i as real)])]))
         == Ok(Some(TxError(31, Rent(i))))
  {
    PrintParses(TxError(31, Rent(i)));
  }

  /** `{"ProgramExecutionTemporarilyRestricted": {"account_index": i}}` */
  lemma RestrictedError(i: byte)
    ensures NewTransactionError(Obj(map[Ascii("ProgramExecutionTemporarilyRestricted") :=
                                          Obj(map[Ascii("account_index") := Num(i as real)])]))
         == Ok(Some(TxError(35, Restricted(i))))
  {
    PrintParses(TxError(35, Restricted(i)));
  }

  /** A duplicate instruction is reported by a Go byte alone. */
  lemma DuplicateError(i: byte)
    ensures NewTransactionError(Obj(map[Ascii("DuplicateInstruction") := Byte(i)]))
         == Ok(Some(TxError(30, Duplicate(i))))
  {
    PrintParses(TxError(30, Duplicate(i)));
  }

  lemma InstructionNames()
    ensures TrxName(8) == Ascii("InstructionError")
    ensures IxName(25) == Ascii("Custom") && IxName(44) == Ascii("BorshIoError")
  {
  }

  lemma SecondPart(index: byte, code: nat, d: IxDetail)
    requires Constructible(TxError(8, Instruction(index, code, d)))
    ensures NewInstructionDetail(PrintIx(code, d)) == Ok((code, d))
  {
    if d.Custom? { WholeNumbers(d.customCode); }
    IxDetailIsExact(PrintIx(code, d), code, d);
  }
}
