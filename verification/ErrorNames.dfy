/** The two tables of error names. A name's code is its place in the Solana enumeration. */
module ErrorNames {
  import opened Basics

  /** The bytes of a Go string constant. */
  function Ascii(s: string): (b: seq<byte>)
    ensures |b| == |s|
  {
    seq(|s|, i requires 0 <= i < |s| => s[i] as int % 256)
  }

  const TRX_ERRORS: nat := 37
  const INSTRUCTION_ERRORS: nat := 54

  function TrxErrorNameFrom0(code: nat): (name: string)
    ensures |name| <= 40
  {
    if code == 0 then "AccountInUse"
    else if code == 1 then "AccountLoadedTwice"
    else if code == 2 then "AccountNotFound"
    else if code == 3 then "ProgramAccountNotFound"
    else if code == 4 then "InsufficientFundsForFee"
    else if code == 5 then "InvalidAccountForFee"
    else if code == 6 then "AlreadyProcessed"
    else if code == 7 then "BlockhashNotFound"
    else ""
  }

  function TrxErrorNameFrom8(code: nat): (name: string)
    ensures |name| <= 40
  {
    if code == 8 then "InstructionError"
    else if code == 9 then "CallChainTooDeep"
    else if code == 10 then "MissingSignatureForFee"
    else if code == 11 then "InvalidAccountIndex"
    else if code == 12 then "SignatureFailure"
    else if code == 13 then "InvalidProgramForExecution"
    else if code == 14 then "SanitizeFailure"
    else if code == 15 then "ClusterMaintenance"
    else ""
  }

  function TrxErrorNameFrom16(code: nat): (name: string)
    ensures |name| <= 40
  {
    if code == 16 then "AccountBorrowOutstanding"
    else if code == 17 then "WouldExceedMaxBlockCostLimit"
    else if code == 18 then "UnsupportedVersion"
    else if code == 19 then "InvalidWritableAccount"
    else if code == 20 then "WouldExceedMaxAccountCostLimit"
    else if code == 21 then "WouldExceedAccountDataBlockLimit"
    else if code == 22 then "TooManyAccountLocks"
    else if code == 23 then "AddressLookupTableNotFound"
    else ""
  }

  function TrxErrorNameFrom24(code: nat): (name: string)
    ensures |name| <= 40
  {
    if code == 24 then "InvalidAddressLookupTableOwner"
    else if code == 25 then "InvalidAddressLookupTableData"
    else if code == 26 then "InvalidAddressLookupTableIndex"
    else if code == 27 then "InvalidRentPayingAccount"
    else if code == 28 then "WouldExceedMaxVoteCostLimit"
    else if code == 29 then "WouldExceedAccountDataTotalLimit"
    else if code == 30 then "DuplicateInstruction"
    else if code == 31 then "InsufficientFundsForRent"
    else ""
  }

  function TrxErrorNameFrom32(code: nat): (name: string)
    ensures |name| <= 40
  {
    if code == 32 then "MaxLoadedAccountsDataSizeExceeded"
    else if code == 33 then "InvalidLoadedAccountsDataSizeLimit"
    else if code == 34 then "ResanitizationNeeded"
    else if code == 35 then "ProgramExecutionTemporarilyRestricted"
    else if code == 36 then "UnbalancedTransaction"
    else ""
  }

  /** Names of transaction errors, by `TrxErrCode`. */
  function TrxErrorName(code: nat): (name: string)
    ensures |name| <= 40
  {
    if code < 8 then TrxErrorNameFrom0(code)
    else if code < 16 then TrxErrorNameFrom8(code)
    else if code < 24 then TrxErrorNameFrom16(code)
    else if code < 32 then TrxErrorNameFrom24(code)
    else TrxErrorNameFrom32(code)
  }

  function InstructionErrorNameFrom0(code: nat): (name: string)
    ensures |name| <= 40
  {
    if code == 0 then "GenericError"
    else if code == 1 then "InvalidArgument"
    else if code == 2 then "InvalidInstructionData"
    else if code == 3 then "InvalidAccountData"
    else if code == 4 then "AccountDataTooSmall"
    else if code == 5 then "InsufficientFunds"
    else if code == 6 then "IncorrectProgramId"
    else if code == 7 then "MissingRequiredSignature"
    else ""
  }

  function InstructionErrorNameFrom8(code: nat): (name: string)
    ensures |name| <= 40
  {
    if code == 8 then "AccountAlreadyInitialized"
    else if code == 9 then "UninitializedAccount"
    else if code == 10 then "UnbalancedInstruction"
    else if code == 11 then "ModifiedProgramId"
    else if code == 12 then "ExternalAccountLamportSpend"
    else if code == 13 then "ExternalAccountDataModified"
    else if code == 14 then "ReadonlyLamportChange"
    else if code == 15 then "ReadonlyDataModified"
    else ""
  }

  function InstructionErrorNameFrom16(code: nat): (name: string)
    ensures |name| <= 40
  {
    if code == 16 then "DuplicateAccountIndex"
    else if code == 17 then "ExecutableModified"
    else if code == 18 then "RentEpochModified"
    else if code == 19 then "NotEnoughAccountKeys"
    else if code == 20 then "AccountDataSizeChanged"
    else if code == 21 then "AccountNotExecutable"
    else if code == 22 then "AccountBorrowFailed"
    else if code == 23 then "AccountBorrowOutstanding"
    else ""
  }

  function InstructionErrorNameFrom24(code: nat): (name: string)
    ensures |name| <= 40
  {
    if code == 24 then "DuplicateAccountOutOfSync"
    else if code == 25 then "Custom"
    else if code == 26 then "InvalidError"
    else if code == 27 then "ExecutableDataModified"
    else if code == 28 then "ExecutableLamportChange"
    else if code == 29 then "ExecutableAccountNotRentExempt"
    else if code == 30 then "UnsupportedProgramId"
    else if code == 31 then "CallDepth"
    else ""
  }

  function InstructionErrorNameFrom32(code: nat): (name: string)
    ensures |name| <= 40
  {
    if code == 32 then "MissingAccount"
    else if code == 33 then "ReentrancyNotAllowed"
    else if code == 34 then "MaxSeedLengthExceeded"
    else if code == 35 then "InvalidSeeds"
    else if code == 36 then "InvalidRealloc"
    else if code == 37 then "ComputationalBudgetExceeded"
    else if code == 38 then "PrivilegeEscalation"
    else if code == 39 then "ProgramEnvironmentSetupFailure"
    else ""
  }

  function InstructionErrorNameFrom40(code: nat): (name: string)
    ensures |name| <= 40
  {
    if code == 40 then "ProgramFailedToComplete"
    else if code == 41 then "ProgramFailedToCompile"
    else if code == 42 then "Immutable"
    else if code == 43 then "IncorrectAuthority"
    else if code == 44 then "BorshIoError"
    else if code == 45 then "AccountNotRentExempt"
    else if code == 46 then "InvalidAccountOwner"
    else if code == 47 then "ArithmeticOverflow"
    else ""
  }

  function InstructionErrorNameFrom48(code: nat): (name: string)
    ensures |name| <= 40
  {
    if code == 48 then "UnsupportedSysvar"
    else if code == 49 then "IllegalOwner"
    else if code == 50 then "MaxAccountsDataAllocationsExceeded"
    else if code == 51 then "MaxAccountsExceeded"
    else if code == 52 then "MaxInstructionTraceLengthExceeded"
    else if code == 53 then "BuiltinProgramsMustConsumeComputeUnits"
    else ""
  }

  /** Names of instruction errors, by `InstructionErrorCode`. */
  function InstructionErrorName(code: nat): (name: string)
    ensures |name| <= 40
  {
    if code < 8 then InstructionErrorNameFrom0(code)
    else if code < 16 then InstructionErrorNameFrom8(code)
    else if code < 24 then InstructionErrorNameFrom16(code)
    else if code < 32 then InstructionErrorNameFrom24(code)
    else if code < 40 then InstructionErrorNameFrom32(code)
    else if code < 48 then InstructionErrorNameFrom40(code)
    else InstructionErrorNameFrom48(code)
  }

  // ----- looking a name up -----

  /** The code under which a table lists a name: the first, should there be several. */
  function CodeOf(names: nat -> string, count: nat, s: seq<byte>): Option<nat>
  {
    if count == 0 then None else
      match CodeOf(names, count - 1, s)
      case Some(code) => Some(code)
      case None => if Ascii(names(count - 1)) == s then Some(count - 1) else None
  }

  predicate Distinct(names: nat -> string, count: nat)
  {
    forall i, j :: 0 <= i < j < count ==> Ascii(names(i)) != Ascii(names(j))
  }

  lemma {:induction false} CodeOfFinds(names: nat -> string, count: nat, s: seq<byte>)
    ensures match CodeOf(names, count, s)
            case Some(code) => code < count && Ascii(names(code)) == s
            case None => forall i :: 0 <= i < count ==> Ascii(names(i)) != s
  {
    if count > 0 { CodeOfFinds(names, count - 1, s); }
  }

  /** With distinct names, name to code and code to name undo each other. */
  lemma TableIsBijection(names: nat -> string, count: nat, s: seq<byte>, code: nat)
    requires Distinct(names, count)
    ensures CodeOf(names, count, s) == Some(code) <==> code < count && Ascii(names(code)) == s
  {
    CodeOfFinds(names, count, s);
  }

  // ----- the names are distinct -----

  /** Three features that tell the names of either table apart: the length, and the third and the
      sixth byte from the end. */
  function Mark(s: string): int
  {
    if |s| < 6 then 0 else 0x1_0000 * |s| + 0x100 * (s[|s| - 3] as int % 256) + s[|s| - 6] as int % 256
  }

  lemma SameBytesSameMark(s: string, t: string)
    requires Ascii(s) == Ascii(t)
    ensures Mark(s) == Mark(t)
  {
    if |s| >= 6 {
      assert Ascii(s)[|s| - 3] == Ascii(t)[|s| - 3] && Ascii(s)[|s| - 6] == Ascii(t)[|s| - 6];
    }
  }

  /** The code whose name has this mark, written as three bytes in hexadecimal. */
  function TrxByMark(mark: int): nat
  {
    if mark == 0x0C_55_74 then 0
    else if mark == 0x12_69_64 then 1
    else if mark == 0x0F_75_74 then 2
    else if mark == 0x16_75_74 then 3
    else if mark == 0x17_46_46 then 4
    else if mark == 0x14_46_46 then 5
    else if mark == 0x10_73_63 then 6
    else if mark == 0x11_75_74 then 7
    else if mark == 0x10_72_6E then 8
    else if mark == 0x10_65_6F then 9
    else if mark == 0x16_46_46 then 10
    else if mark == 0x13_64_74 then 11
    else if mark == 0x10_75_61 then 12
    else if mark == 0x1A_69_63 then 13
    else if mark == 0x0F_75_61 then 14
    else if mark == 0x12_6E_65 then 15
    else if mark == 0x18_69_61 then 16
    else if mark == 0x1C_6D_74 then 17
    else if mark == 0x12_69_65 then 18
    else if mark == 0x16_75_63 then 19
    else if mark == 0x1E_6D_74 then 20
    else if mark == 0x20_6D_6B then 21
    else if mark == 0x13_63_74 then 22
    else if mark == 0x1A_75_74 then 23
    else if mark == 0x1E_6E_65 then 24
    else if mark == 0x1D_61_6C then 25
    else if mark == 0x1E_64_65 then 26
    else if mark == 0x18_75_63 then 27
    else if mark == 0x1B_6D_74 then 28
    else if mark == 0x20_6D_6C then 29
    else if mark == 0x14_69_75 then 30
    else if mark == 0x18_65_6F then 31
    else if mark == 0x21_64_63 then 32
    else if mark == 0x22_6D_65 then 33
    else if mark == 0x14_64_4E then 34
    else if mark == 0x25_74_72 then 35
    else if mark == 0x15_69_61 then 36
    else 37
  }

  lemma TrxMarksFrom0(code: nat)
    requires 0 <= code < 8
    ensures TrxByMark(Mark(TrxErrorNameFrom0(code))) == code
  {
    match code {
      case 0 => assert Mark(TrxErrorNameFrom0(0)) == 0x0C_55_74;
      case 1 => assert Mark(TrxErrorNameFrom0(1)) == 0x12_69_64;
      case 2 => assert Mark(TrxErrorNameFrom0(2)) == 0x0F_75_74;
      case 3 => assert Mark(TrxErrorNameFrom0(3)) == 0x16_75_74;
      case 4 => assert Mark(TrxErrorNameFrom0(4)) == 0x17_46_46;
      case 5 => assert Mark(TrxErrorNameFrom0(5)) == 0x14_46_46;
      case 6 => assert Mark(TrxErrorNameFrom0(6)) == 0x10_73_63;
      case 7 => assert Mark(TrxErrorNameFrom0(7)) == 0x11_75_74;
    }
  }

  lemma TrxMarksFrom8(code: nat)
    requires 8 <= code < 16
    ensures TrxByMark(Mark(TrxErrorNameFrom8(code))) == code
  {
    match code {
      case 8 => assert Mark(TrxErrorNameFrom8(8)) == 0x10_72_6E;
      case 9 => assert Mark(TrxErrorNameFrom8(9)) == 0x10_65_6F;
      case 10 => assert Mark(TrxErrorNameFrom8(10)) == 0x16_46_46;
      case 11 => assert Mark(TrxErrorNameFrom8(11)) == 0x13_64_74;
      case 12 => assert Mark(TrxErrorNameFrom8(12)) == 0x10_75_61;
      case 13 => assert Mark(TrxErrorNameFrom8(13)) == 0x1A_69_63;
      case 14 => assert Mark(TrxErrorNameFrom8(14)) == 0x0F_75_61;
      case 15 => assert Mark(TrxErrorNameFrom8(15)) == 0x12_6E_65;
    }
  }

  lemma TrxMarksFrom16(code: nat)
    requires 16 <= code < 24
    ensures TrxByMark(Mark(TrxErrorNameFrom16(code))) == code
  {
    match code {
      case 16 => assert Mark(TrxErrorNameFrom16(16)) == 0x18_69_61;
      case 17 => assert Mark(TrxErrorNameFrom16(17)) == 0x1C_6D_74;
      case 18 => assert Mark(TrxErrorNameFrom16(18)) == 0x12_69_65;
      case 19 => assert Mark(TrxErrorNameFrom16(19)) == 0x16_75_63;
      case 20 => assert Mark(TrxErrorNameFrom16(20)) == 0x1E_6D_74;
      case 21 => assert Mark(TrxErrorNameFrom16(21)) == 0x20_6D_6B;
      case 22 => assert Mark(TrxErrorNameFrom16(22)) == 0x13_63_74;
      case 23 => assert Mark(TrxErrorNameFrom16(23)) == 0x1A_75_74;
    }
  }

  lemma TrxMarksFrom24(code: nat)
    requires 24 <= code < 32
    ensures TrxByMark(Mark(TrxErrorNameFrom24(code))) == code
  {
    match code {
      case 24 => assert Mark(TrxErrorNameFrom24(24)) == 0x1E_6E_65;
      case 25 => assert Mark(TrxErrorNameFrom24(25)) == 0x1D_61_6C;
      case 26 => assert Mark(TrxErrorNameFrom24(26)) == 0x1E_64_65;
      case 27 => assert Mark(TrxErrorNameFrom24(27)) == 0x18_75_63;
      case 28 => assert Mark(TrxErrorNameFrom24(28)) == 0x1B_6D_74;
      case 29 => assert Mark(TrxErrorNameFrom24(29)) == 0x20_6D_6C;
      case 30 => assert Mark(TrxErrorNameFrom24(30)) == 0x14_69_75;
      case 31 => assert Mark(TrxErrorNameFrom24(31)) == 0x18_65_6F;
    }
  }

  lemma TrxMarksFrom32(code: nat)
    requires 32 <= code < 37
    ensures TrxByMark(Mark(TrxErrorNameFrom32(code))) == code
  {
    match code {
      case 32 => assert Mark(TrxErrorNameFrom32(32)) == 0x21_64_63;
      case 33 => assert Mark(TrxErrorNameFrom32(33)) == 0x22_6D_65;
      case 34 => assert Mark(TrxErrorNameFrom32(34)) == 0x14_64_4E;
      case 35 => assert Mark(TrxErrorNameFrom32(35)) == 0x25_74_72;
      case 36 => assert Mark(TrxErrorNameFrom32(36)) == 0x15_69_61;
    }
  }

  lemma TrxMarkFits(code: nat)
    requires code < TRX_ERRORS
    ensures TrxByMark(Mark(TrxErrorName(code))) == code
  {
    if code < 8 {
      TrxMarksFrom0(code);
    } else if code < 16 {
      TrxMarksFrom8(code);
    } else if code < 24 {
      TrxMarksFrom16(code);
    } else if code < 32 {
      TrxMarksFrom24(code);
    } else {
      TrxMarksFrom32(code);
    }
  }

  lemma TrxNamesDistinct()
    ensures Distinct(TrxErrorName, TRX_ERRORS)
  {
    forall i: nat, j: nat | i < j < TRX_ERRORS
      ensures Ascii(TrxErrorName(i)) != Ascii(TrxErrorName(j))
    {
      TrxMarkFits(i);
      TrxMarkFits(j);
      if Ascii(TrxErrorName(i)) == Ascii(TrxErrorName(j)) {
        SameBytesSameMark(TrxErrorName(i), TrxErrorName(j));
      }
    }
  }

  /** The code whose name has this mark, written as three bytes in hexadecimal. */
  function InstructionByMark(mark: int): nat
  {
    if mark == 0x0C_72_63 then 0
    else if mark == 0x0F_65_67 then 1
    else if mark == 0x16_61_6F then 2
    else if mark == 0x12_61_6E then 3
    else if mark == 0x13_61_6F then 4
    else if mark == 0x11_6E_74 then 5
    else if mark == 0x12_6D_67 then 6
    else if mark == 0x18_75_6E then 7
    else if mark == 0x19_7A_61 then 8
    else if mark == 0x14_75_63 then 9
    else if mark == 0x15_69_75 then 10
    else if mark == 0x11_6D_67 then 11
    else if mark == 0x1B_65_74 then 12
    else if mark == 0x1B_69_64 then 13
    else if mark == 0x15_6E_43 then 14
    else if mark == 0x14_69_64 then 15
    else if mark == 0x15_64_74 then 16
    else if mark == 0x12_69_64 then 17
    else if mark == 0x11_69_64 then 18
    else if mark == 0x14_65_6E then 19
    else if mark == 0x16_67_68 then 20
    else if mark == 0x14_62_75 then 21
    else if mark == 0x13_6C_46 then 22
    else if mark == 0x18_69_61 then 23
    else if mark == 0x19_79_4F then 24
    else if mark == 0x06_74_43 then 25
    else if mark == 0x0C_72_64 then 26
    else if mark == 0x16_69_64 then 27
    else if mark == 0x17_6E_43 then 28
    else if mark == 0x1E_6D_45 then 29
    else if mark == 0x14_6D_67 then 30
    else if mark == 0x09_70_6C then 31
    else if mark == 0x0E_75_63 then 32
    else if mark == 0x14_77_6C then 33
    else if mark == 0x15_64_63 then 34
    else if mark == 0x0C_65_64 then 35
    else if mark == 0x0E_6C_65 then 36
    else if mark == 0x1B_64_63 then 37
    else if mark == 0x13_69_6C then 38
    else if mark == 0x1E_75_61 then 39
    else if mark == 0x17_65_6D then 40
    else if mark == 0x16_69_6F then 41
    else if mark == 0x09_62_75 then 42
    else if mark == 0x12_69_68 then 43
    else if mark == 0x0C_72_6F then 44
    else if mark == 0x14_6D_45 then 45
    else if mark == 0x13_6E_74 then 46
    else if mark == 0x12_6C_65 then 47
    else if mark == 0x11_76_53 then 48
    else if mark == 0x0C_6E_6C then 49
    else if mark == 0x22_64_63 then 50
    else if mark == 0x13_64_63 then 51
    else if mark == 0x21_64_63 then 52
    else if mark == 0x26_69_65 then 53
    else 54
  }

  lemma InstructionMarksFrom0(code: nat)
    requires 0 <= code < 8
    ensures InstructionByMark(Mark(InstructionErrorNameFrom0(code))) == code
  {
    match code {
      case 0 => assert Mark(InstructionErrorNameFrom0(0)) == 0x0C_72_63;
      case 1 => assert Mark(InstructionErrorNameFrom0(1)) == 0x0F_65_67;
      case 2 => assert Mark(InstructionErrorNameFrom0(2)) == 0x16_61_6F;
      case 3 => assert Mark(InstructionErrorNameFrom0(3)) == 0x12_61_6E;
      case 4 => assert Mark(InstructionErrorNameFrom0(4)) == 0x13_61_6F;
      case 5 => assert Mark(InstructionErrorNameFrom0(5)) == 0x11_6E_74;
      case 6 => assert Mark(InstructionErrorNameFrom0(6)) == 0x12_6D_67;
      case 7 => assert Mark(InstructionErrorNameFrom0(7)) == 0x18_75_6E;
    }
  }

  lemma InstructionMarksFrom8(code: nat)
    requires 8 <= code < 16
    ensures InstructionByMark(Mark(InstructionErrorNameFrom8(code))) == code
  {
    match code {
      case 8 => assert Mark(InstructionErrorNameFrom8(8)) == 0x19_7A_61;
      case 9 => assert Mark(InstructionErrorNameFrom8(9)) == 0x14_75_63;
      case 10 => assert Mark(InstructionErrorNameFrom8(10)) == 0x15_69_75;
      case 11 => assert Mark(InstructionErrorNameFrom8(11)) == 0x11_6D_67;
      case 12 => assert Mark(InstructionErrorNameFrom8(12)) == 0x1B_65_74;
      case 13 => assert Mark(InstructionErrorNameFrom8(13)) == 0x1B_69_64;
      case 14 => assert Mark(InstructionErrorNameFrom8(14)) == 0x15_6E_43;
      case 15 => assert Mark(InstructionErrorNameFrom8(15)) == 0x14_69_64;
    }
  }

  lemma InstructionMarksFrom16(code: nat)
    requires 16 <= code < 24
    ensures InstructionByMark(Mark(InstructionErrorNameFrom16(code))) == code
  {
    match code {
      case 16 => assert Mark(InstructionErrorNameFrom16(16)) == 0x15_64_74;
      case 17 => assert Mark(InstructionErrorNameFrom16(17)) == 0x12_69_64;
      case 18 => assert Mark(InstructionErrorNameFrom16(18)) == 0x11_69_64;
      case 19 => assert Mark(InstructionErrorNameFrom16(19)) == 0x14_65_6E;
      case 20 => assert Mark(InstructionErrorNameFrom16(20)) == 0x16_67_68;
      case 21 => assert Mark(InstructionErrorNameFrom16(21)) == 0x14_62_75;
      case 22 => assert Mark(InstructionErrorNameFrom16(22)) == 0x13_6C_46;
      case 23 => assert Mark(InstructionErrorNameFrom16(23)) == 0x18_69_61;
    }
  }

  lemma InstructionMarksFrom24(code: nat)
    requires 24 <= code < 32
    ensures InstructionByMark(Mark(InstructionErrorNameFrom24(code))) == code
  {
    match code {
      case 24 => assert Mark(InstructionErrorNameFrom24(24)) == 0x19_79_4F;
      case 25 => assert Mark(InstructionErrorNameFrom24(25)) == 0x06_74_43;
      case 26 => assert Mark(InstructionErrorNameFrom24(26)) == 0x0C_72_64;
      case 27 => assert Mark(InstructionErrorNameFrom24(27)) == 0x16_69_64;
      case 28 => assert Mark(InstructionErrorNameFrom24(28)) == 0x17_6E_43;
      case 29 => assert Mark(InstructionErrorNameFrom24(29)) == 0x1E_6D_45;
      case 30 => assert Mark(InstructionErrorNameFrom24(30)) == 0x14_6D_67;
      case 31 => assert Mark(InstructionErrorNameFrom24(31)) == 0x09_70_6C;
    }
  }

  lemma InstructionMarksFrom32(code: nat)
    requires 32 <= code < 40
    ensures InstructionByMark(Mark(InstructionErrorNameFrom32(code))) == code
  {
    match code {
      case 32 => assert Mark(InstructionErrorNameFrom32(32)) == 0x0E_75_63;
      case 33 => assert Mark(InstructionErrorNameFrom32(33)) == 0x14_77_6C;
      case 34 => assert Mark(InstructionErrorNameFrom32(34)) == 0x15_64_63;
      case 35 => assert Mark(InstructionErrorNameFrom32(35)) == 0x0C_65_64;
      case 36 => assert Mark(InstructionErrorNameFrom32(36)) == 0x0E_6C_65;
      case 37 => assert Mark(InstructionErrorNameFrom32(37)) == 0x1B_64_63;
      case 38 => assert Mark(InstructionErrorNameFrom32(38)) == 0x13_69_6C;
      case 39 => assert Mark(InstructionErrorNameFrom32(39)) == 0x1E_75_61;
    }
  }

  lemma InstructionMarksFrom40(code: nat)
    requires 40 <= code < 48
    ensures InstructionByMark(Mark(InstructionErrorNameFrom40(code))) == code
  {
    match code {
      case 40 => assert Mark(InstructionErrorNameFrom40(40)) == 0x17_65_6D;
      case 41 => assert Mark(InstructionErrorNameFrom40(41)) == 0x16_69_6F;
      case 42 => assert Mark(InstructionErrorNameFrom40(42)) == 0x09_62_75;
      case 43 => assert Mark(InstructionErrorNameFrom40(43)) == 0x12_69_68;
      case 44 => assert Mark(InstructionErrorNameFrom40(44)) == 0x0C_72_6F;
      case 45 => assert Mark(InstructionErrorNameFrom40(45)) == 0x14_6D_45;
      case 46 => assert Mark(InstructionErrorNameFrom40(46)) == 0x13_6E_74;
      case 47 => assert Mark(InstructionErrorNameFrom40(47)) == 0x12_6C_65;
    }
  }

  lemma InstructionMarksFrom48(code: nat)
    requires 48 <= code < 54
    ensures InstructionByMark(Mark(InstructionErrorNameFrom48(code))) == code
  {
    match code {
      case 48 => assert Mark(InstructionErrorNameFrom48(48)) == 0x11_76_53;
      case 49 => assert Mark(InstructionErrorNameFrom48(49)) == 0x0C_6E_6C;
      case 50 => assert Mark(InstructionErrorNameFrom48(50)) == 0x22_64_63;
      case 51 => assert Mark(InstructionErrorNameFrom48(51)) == 0x13_64_63;
      case 52 => assert Mark(InstructionErrorNameFrom48(52)) == 0x21_64_63;
      case 53 => assert Mark(InstructionErrorNameFrom48(53)) == 0x26_69_65;
    }
  }

  lemma InstructionMarkFits(code: nat)
    requires code < INSTRUCTION_ERRORS
    ensures InstructionByMark(Mark(InstructionErrorName(code))) == code
  {
    if code < 8 {
      InstructionMarksFrom0(code);
    } else if code < 16 {
      InstructionMarksFrom8(code);
    } else if code < 24 {
      InstructionMarksFrom16(code);
    } else if code < 32 {
      InstructionMarksFrom24(code);
    } else if code < 40 {
      InstructionMarksFrom32(code);
    } else if code < 48 {
      InstructionMarksFrom40(code);
    } else {
      InstructionMarksFrom48(code);
    }
  }

  lemma InstructionNamesDistinct()
    ensures Distinct(InstructionErrorName, INSTRUCTION_ERRORS)
  {
    forall i: nat, j: nat | i < j < INSTRUCTION_ERRORS
      ensures Ascii(InstructionErrorName(i)) != Ascii(InstructionErrorName(j))
    {
      InstructionMarkFits(i);
      InstructionMarkFits(j);
      if Ascii(InstructionErrorName(i)) == Ascii(InstructionErrorName(j)) {
        SameBytesSameMark(InstructionErrorName(i), InstructionErrorName(j));
      }
    }
  }
}
