/** Transaction errors: the dynamically typed JSON value the RPC returns, the error tree the
    constructors build from it, and the printer that is their inverse. */
module TransactionErrors {
  import opened Basics
  import opened ErrorNames

  /** A Go value of type `any`. The JSON decoder never produces `Byte`. */
  datatype Json =
    | Null
    | Bool(b: bool)
    | Str(s: GoString)
    | Num(x: real)
    | Byte(n: byte)
    | List(items: seq<Json>)
    | Obj(fields: map<GoString, Json>)

  /** The detail of an instruction error. */
  datatype IxDetail = NoIxDetail | Custom(customCode: uint32) | Borsh(msg: GoString)

  /** The detail of a transaction error. `NilInstruction` is the nil `*InstructionError` that a null
      detail gives: as an interface value it is not nil. */
  datatype TxDetail =
    | NoDetail
    | NilInstruction
    | Instruction(index: byte, ixCode: nat, ixDetail: IxDetail)
    | Duplicate(instructionIndex: byte)
    | Rent(account: byte)
    | Restricted(account: byte)

  datatype TxError = TxError(code: nat, detail: TxDetail)

  const INSTRUCTION_ERROR: nat := 8
  const DUPLICATE_INSTRUCTION: nat := 30
  const INSUFFICIENT_FUNDS_FOR_RENT: nat := 31
  const PROGRAM_RESTRICTED: nat := 35
  const CUSTOM: nat := 25
  const BORSH_IO_ERROR: nat := 44

  function TrxName(code: nat): GoString { Ascii(TrxErrorName(code)) }
  function IxName(code: nat): GoString { Ascii(InstructionErrorName(code)) }
  function TrxCode(name: GoString): Option<nat> { CodeOf(TrxErrorName, TRX_ERRORS, name) }
  function IxCode(name: GoString): Option<nat> { CodeOf(InstructionErrorName, INSTRUCTION_ERRORS, name) }
  function AccountIndexKey(): GoString { Ascii("account_index") }

  /** Go converts a float to an integer by dropping the fraction. */
  function Trunc(x: real): int
  {
    if x >= 0.0 then x.Floor else -((-x).Floor)
  }

  /** So the result is the whole number next to it on the side of zero. */
  lemma TruncDropsFraction(x: real)
    ensures x >= 0.0 ==> 0.0 <= x - Trunc(x) as real < 1.0
    ensures x <= 0.0 ==> 0.0 <= Trunc(x) as real - x < 1.0
  {
  }

  function ToUint8(x: real): Outcome<byte>
  {
    if 0 <= Trunc(x) < 0x100 then Ok(Trunc(x)) else Unspecified
  }

  function ToUint32(x: real): Outcome<uint32>
  {
    if 0 <= Trunc(x) < 0x1_0000_0000 then Ok(Trunc(x)) else Unspecified
  }

  lemma OneKey<V>(m: map<GoString, V>)
    requires |m| == 1
    ensures exists k :: k in m && m.Keys == {k}
    ensures forall j, k :: j in m && k in m ==> j == k
  {
    var k :| k in m.Keys;
    assert |m.Keys - {k}| == 0;
    assert m.Keys == {k};
  }

  /** The only key of a map with one. */
  function SoleKey<V>(m: map<GoString, V>): (k: GoString)
    requires |m| == 1
    ensures m.Keys == {k}
  {
    OneKey(m);
    var k :| k in m;
    k
  }

  // ----- the constructors -----

  function NewInstructionCustomError(e: Json): Outcome<IxDetail>
  {
    match e
    case Num(x) => (var n :- ToUint32(x); Ok(Custom(n)))
    case _ => Panic
  }

  function NewBorshIoError(e: Json): Outcome<IxDetail>
  {
    match e
    case Str(msg) => Ok(Borsh(msg))
    case _ => Panic
  }

  /** The second part of an instruction error: a name, or a name with a detail. */
  function NewInstructionDetail(e: Json): Outcome<(nat, IxDetail)>
  {
    match e
    case Str(name) => (match IxCode(name) case Some(code) => Ok((code, NoIxDetail)) case None => Panic)
    case Obj(m) =>
      if |m| != 1 then Panic else
        var name := SoleKey(m);
        (match IxCode(name)
         case None => Panic
         case Some(code) =>
           var d :- if code == CUSTOM then NewInstructionCustomError(m[name])
                    else if code == BORSH_IO_ERROR then NewBorshIoError(m[name])
                    else Panic;
           Ok((code, d)))
    case _ => Panic
  }

  /** The index is converted first, but an out-of-range conversion does not stop what follows. */
  function NewInstructionError(e: Json): Outcome<TxDetail>
  {
    match e
    case Null => Ok(NilInstruction)
    case List(parts) =>
      if |parts| != 2 || !parts[0].Num? then Panic else
        (var second :- NewInstructionDetail(parts[1]);
         var index :- ToUint8(parts[0].x);
         Ok(Instruction(index, second.0, second.1)))
    case _ => Panic
  }

  /** Shared by the two details that hold an account index; further keys are ignored. */
  function NewAccountIndex(e: Json): Outcome<byte>
  {
    match e
    case Obj(m) =>
      if AccountIndexKey() in m && m[AccountIndexKey()].Num? then ToUint8(m[AccountIndexKey()].x) else Panic
    case _ => Panic
  }

  function NewDetail(code: nat, e: Json): Outcome<TxDetail>
  {
    if code == INSTRUCTION_ERROR then NewInstructionError(e)
    else if code == DUPLICATE_INSTRUCTION then
      if e.Byte? then Ok(Duplicate(e.n)) else Panic
    else if code == INSUFFICIENT_FUNDS_FOR_RENT then
      var i :- NewAccountIndex(e);
      Ok(Rent(i))
    else if code == PROGRAM_RESTRICTED then
      var i :- NewAccountIndex(e);
      Ok(Restricted(i))
    else Panic
  }

  /** `MustNewTransactionError`; nil gives no error at all. */
  function NewTransactionError(e: Json): Outcome<Option<TxError>>
  {
    match e
    case Null => Ok(None)
    case Str(name) => (match TrxCode(name) case Some(code) => Ok(Some(TxError(code, NoDetail))) case None => Panic)
    case Obj(m) =>
      if |m| != 1 then Panic else
        var name := SoleKey(m);
        (match TrxCode(name)
         case None => Panic
         case Some(code) =>
           var detail :- NewDetail(code, m[name]);
           Ok(Some(TxError(code, detail))))
    case _ => Panic
  }

  // ----- the trees they build, and how JSON spells them -----

  predicate CodeFits(code: nat, detail: TxDetail)
  {
    match detail
    case NoDetail => true
    case NilInstruction => code == INSTRUCTION_ERROR
    case Instruction(_, ixCode, d) => code == INSTRUCTION_ERROR && ixCode < INSTRUCTION_ERRORS && IxFits(ixCode, d)
    case Duplicate(_) => code == DUPLICATE_INSTRUCTION
    case Rent(_) => code == INSUFFICIENT_FUNDS_FOR_RENT
    case Restricted(_) => code == PROGRAM_RESTRICTED
  }

  predicate IxFits(ixCode: nat, d: IxDetail)
  {
    match d
    case NoIxDetail => true
    case Custom(_) => ixCode == CUSTOM
    case Borsh(_) => ixCode == BORSH_IO_ERROR
  }

  /** A tree that some constructor call can return. */
  predicate Constructible(e: TxError)
  {
    e.code < TRX_ERRORS && CodeFits(e.code, e.detail)
  }

  predicate Single(j: Json, name: GoString)
  {
    j.Obj? && j.fields.Keys == {name}
  }

  predicate NumberAs(j: Json, n: int)
  {
    j.Num? && Trunc(j.x) == n
  }

  predicate SpellsIx(j: Json, code: nat, d: IxDetail)
  {
    match d
    case NoIxDetail => j == Str(IxName(code))
    case Custom(n) => Single(j, IxName(code)) && NumberAs(j.fields[IxName(code)], n)
    case Borsh(msg) => Single(j, IxName(code)) && j.fields[IxName(code)] == Str(msg)
  }

  predicate SpellsAccount(j: Json, i: byte)
  {
    j.Obj? && AccountIndexKey() in j.fields && NumberAs(j.fields[AccountIndexKey()], i)
  }

  predicate SpellsDetail(j: Json, d: TxDetail)
  {
    match d
    case NoDetail => false
    case NilInstruction => j == Null
    case Instruction(i, code, ix) =>
      j.List? && |j.items| == 2 && NumberAs(j.items[0], i) && SpellsIx(j.items[1], code, ix)
    case Duplicate(i) => j == Byte(i)
    case Rent(i) => SpellsAccount(j, i)
    case Restricted(i) => SpellsAccount(j, i)
  }

  /** The accepted grammar, read from the tree: `j` is a way to write `e`. */
  predicate Spells(j: Json, e: TxError)
  {
    Constructible(e) &&
    if e.detail.NoDetail? then j == Str(TrxName(e.code))
    else Single(j, TrxName(e.code)) && SpellsDetail(j.fields[TrxName(e.code)], e.detail)
  }

  lemma TrxTable(name: GoString, code: nat)
    ensures TrxCode(name) == Some(code) <==> code < TRX_ERRORS && TrxName(code) == name
  {
    TrxNamesDistinct();
    TableIsBijection(TrxErrorName, TRX_ERRORS, name, code);
  }

  lemma IxTable(name: GoString, code: nat)
    ensures IxCode(name) == Some(code) <==> code < INSTRUCTION_ERRORS && IxName(code) == name
  {
    InstructionNamesDistinct();
    TableIsBijection(InstructionErrorName, INSTRUCTION_ERRORS, name, code);
  }

  lemma SoleKeyIs<V>(m: map<GoString, V>, name: GoString)
    ensures m.Keys == {name} <==> |m| == 1 && SoleKey(m) == name
  {
    assert |m| == |m.Keys|;
    if |m| == 1 { assert m.Keys == {SoleKey(m)}; }
  }

  lemma IxDetailIsExact(j: Json, code: nat, d: IxDetail)
    ensures NewInstructionDetail(j) == Ok((code, d)) <==>
            code < INSTRUCTION_ERRORS && IxFits(code, d) && SpellsIx(j, code, d)
  {
    if j.Str? { IxTable(j.s, code); }
    if j.Obj? {
      SoleKeyIs(j.fields, IxName(code));
      if |j.fields| == 1 { IxTable(SoleKey(j.fields), code); }
    }
  }

  lemma DetailIsExact(code: nat, j: Json, d: TxDetail)
    requires !d.NoDetail?
    ensures NewDetail(code, j) == Ok(d) <==> CodeFits(code, d) && SpellsDetail(j, d)
  {
    if d.Instruction? && j.List? && |j.items| == 2 {
      IxDetailIsExact(j.items[1], d.ixCode, d.ixDetail);
    }
  }

  /** The constructors return a tree exactly when the value spells it; so they succeed on the
      stated grammar and panic, or overflow a conversion, on everything else. */
  lemma ParserIsExact(j: Json, e: TxError)
    ensures NewTransactionError(j) == Ok(Some(e)) <==> Spells(j, e)
  {
    if j.Str? { TrxTable(j.s, e.code); }
    if j.Obj? {
      SoleKeyIs(j.fields, TrxName(e.code));
      if |j.fields| == 1 {
        TrxTable(SoleKey(j.fields), e.code);
        NeverNoDetail(e.code, j.fields[SoleKey(j.fields)]);
        if !e.detail.NoDetail? {
          DetailIsExact(e.code, j.fields[SoleKey(j.fields)], e.detail);
        }
      }
    }
  }

  lemma NeverNoDetail(code: nat, j: Json)
    ensures NewDetail(code, j) != Ok(NoDetail)
  {
  }

  // ----- when they panic -----

  /** The same value with every number replaced by zero. */
  function Zeroed(j: Json): Json
  {
    match j
    case Num(_) => Num(0.0)
    case List(items) => List(seq(|items|, i requires 0 <= i < |items| => Zeroed(items[i])))
    case Obj(m) => Obj(map k | k in m :: Zeroed(m[k]))
    case _ => j
  }

  lemma ZeroedKeys(m: map<GoString, Json>)
    ensures var z := Zeroed(Obj(m)).fields; z.Keys == m.Keys && |z| == |m|
    ensures |m| == 1 ==> SoleKey(Zeroed(Obj(m)).fields) == SoleKey(m)
  {
    var z := Zeroed(Obj(m)).fields;
    assert z.Keys == m.Keys;
    assert |z| == |z.Keys| && |m| == |m.Keys|;
    if |m| == 1 { assert SoleKey(m) in z.Keys && SoleKey(z) in m.Keys; }
  }

  lemma ZeroedValue(j: Json)
    ensures NewInstructionCustomError(Zeroed(j)) != Unspecified && NewBorshIoError(j) != Unspecified
    ensures NewInstructionCustomError(j) == Panic <==> NewInstructionCustomError(Zeroed(j)) == Panic
    ensures NewBorshIoError(Zeroed(j)) == NewBorshIoError(j)
  {
  }

  lemma ZeroedIx(j: Json)
    ensures NewInstructionDetail(Zeroed(j)) != Unspecified
    ensures NewInstructionDetail(j) == Panic <==> NewInstructionDetail(Zeroed(j)) == Panic
  {
    if j.Obj? {
      ZeroedKeys(j.fields);
      if |j.fields| == 1 {
        var name, z := SoleKey(j.fields), Zeroed(j).fields;
        assert SoleKey(z) == name && z[name] == Zeroed(j.fields[name]);
        ZeroedValue(j.fields[name]);
      }
    }
  }

  lemma ZeroedInstruction(j: Json)
    ensures NewInstructionError(Zeroed(j)) != Unspecified
    ensures NewInstructionError(j) == Panic <==> NewInstructionError(Zeroed(j)) == Panic
  {
    if j.List? && |j.items| == 2 {
      var z := Zeroed(j).items;
      assert |z| == 2 && z[0] == Zeroed(j.items[0]) && z[1] == Zeroed(j.items[1]);
      ZeroedIx(j.items[1]);
    }
  }

  lemma ZeroedAccount(j: Json)
    ensures NewAccountIndex(Zeroed(j)) != Unspecified
    ensures NewAccountIndex(j) == Panic <==> NewAccountIndex(Zeroed(j)) == Panic
  {
    if j.Obj? { ZeroedKeys(j.fields); }
  }

  lemma ZeroedDetail(code: nat, j: Json)
    ensures NewDetail(code, Zeroed(j)) != Unspecified
    ensures NewDetail(code, j) == Panic <==> NewDetail(code, Zeroed(j)) == Panic
  {
    if code == INSTRUCTION_ERROR {
      ZeroedInstruction(j);
    } else if code == DUPLICATE_INSTRUCTION {
    } else {
      ZeroedAccount(j);
    }
  }

  /** Numbers never decide a panic, shape does; and they alone can put a conversion out of range. */
  lemma ShapeDecidesPanic(j: Json)
    ensures NewTransactionError(Zeroed(j)) != Unspecified
    ensures NewTransactionError(j) == Panic <==> NewTransactionError(Zeroed(j)) == Panic
  {
    if j.Obj? {
      ZeroedKeys(j.fields);
      if |j.fields| == 1 {
        var name := SoleKey(j.fields);
        if TrxCode(name).Some? { ZeroedDetail(TrxCode(name).value, j.fields[name]); }
      }
    }
  }

  lemma NeverErr(j: Json)
    ensures NewTransactionError(j) != Err
  {
    assert forall e :: NewInstructionDetail(e) != Err;
    assert forall code: nat, e :: NewDetail(code, e) != Err;
  }

  /** The exact domains: a value panics when no choice of its numbers spells a tree, and overflows a
      conversion when some choice does but its own numbers do not. */
  lemma PanicDomain(j: Json)
    ensures NewTransactionError(j) == Panic <==> !j.Null? && !exists e :: Spells(Zeroed(j), e)
    ensures NewTransactionError(j) == Unspecified <==>
            (exists e :: Spells(Zeroed(j), e)) && !exists e :: Spells(j, e)
  {
    ShapeDecidesPanic(j);
    OkIffSpelled(j);
    OkIffSpelled(Zeroed(j));
    NeverErr(j);
    NeverErr(Zeroed(j));
  }

  lemma OkIffSpelled(j: Json)
    ensures NewTransactionError(j).Ok? <==> j.Null? || exists e :: Spells(j, e)
    ensures j.Null? ==> !exists e :: Spells(j, e)
  {
    forall e: TxError { ParserIsExact(j, e); }
    if NewTransactionError(j).Ok? && !j.Null? {
      assert Spells(j, NewTransactionError(j).value.value);
    }
  }

  // ----- the printer -----

  function PrintIx(code: nat, d: IxDetail): Json
  {
    match d
    case NoIxDetail => Str(IxName(code))
    case Custom(n) => Obj(map[IxName(code) := Num(n as real)])
    case Borsh(msg) => Obj(map[IxName(code) := Str(msg)])
  }

  function PrintDetail(d: TxDetail): Json
  {
    match d
    case NoDetail => Null
    case NilInstruction => Null
    case Instruction(i, code, ix) => List([Num(i as real), PrintIx(code, ix)])
    case Duplicate(i) => Byte(i)
    case Rent(i) => Obj(map[AccountIndexKey() := Num(i as real)])
    case Restricted(i) => Obj(map[AccountIndexKey() := Num(i as real)])
  }

  /** The JSON form of an error, as the RPC writes it. */
  function Print(e: TxError): Json
  {
    if e.detail.NoDetail? then Str(TrxName(e.code))
    else Obj(map[TrxName(e.code) := PrintDetail(e.detail)])
  }

  /** Written without loss: whole numbers, and no key beside the one that is read. */
  predicate Exact(j: Json)
  {
    match j
    case Num(x) => x == x.Floor as real
    case List(items) => forall i :: 0 <= i < |items| ==> Exact(items[i])
    case Obj(m) => |m| == 1 && forall k :: k in m ==> Exact(m[k])
    case _ => true
  }

  lemma WholeNumbers(n: nat)
    ensures Trunc(n as real) == n && Exact(Num(n as real))
  {
  }

  /** Every constructible tree is what the constructors make of its printed form. */
  lemma PrintParses(e: TxError)
    requires Constructible(e)
    ensures NewTransactionError(Print(e)) == Ok(Some(e))
  {
    match e.detail {
      case Instruction(i, code, ix) =>
        WholeNumbers(i);
        if ix.Custom? { WholeNumbers(ix.customCode); }
        assert SpellsIx(PrintIx(code, ix), code, ix);
      case Rent(i) => WholeNumbers(i);
      case Restricted(i) => WholeNumbers(i);
      case _ =>
    }
    ParserIsExact(Print(e), e);
  }

  lemma OneField(j: Json, name: GoString, v: Json)
    requires Single(j, name)
    ensures j == Obj(map[name := v]) <==> j.fields[name] == v
    ensures Exact(j) <==> Exact(j.fields[name])
  {
    SoleKeyIs(j.fields, name);
    if j.fields[name] == v { assert j.fields == map[name := v]; }
  }

  lemma NumberIsPrinted(j: Json, n: nat)
    requires NumberAs(j, n)
    ensures j == Num(n as real) <==> Exact(j)
  {
  }

  lemma IxIsPrinted(j: Json, code: nat, d: IxDetail)
    requires SpellsIx(j, code, d)
    ensures j == PrintIx(code, d) <==> Exact(j)
  {
    match d {
      case NoIxDetail =>
      case Custom(n) =>
        OneField(j, IxName(code), Num(n as real));
        NumberIsPrinted(j.fields[IxName(code)], n);
      case Borsh(msg) => OneField(j, IxName(code), Str(msg));
    }
  }

  lemma AccountIsPrinted(j: Json, i: byte)
    requires SpellsAccount(j, i)
    ensures j == Obj(map[AccountIndexKey() := Num(i as real)]) <==> Exact(j)
  {
    var name := AccountIndexKey();
    NumberIsPrinted(j.fields[name], i);
    if |j.fields| == 1 {
      assert SoleKey(j.fields) == name;
      OneField(j, name, Num(i as real));
    } else {
      assert |map[name := Num(i as real)]| == 1;
    }
  }

  lemma DetailIsPrinted(j: Json, d: TxDetail)
    requires SpellsDetail(j, d)
    ensures j == PrintDetail(d) <==> Exact(j)
  {
    match d {
      case Instruction(i, code, ix) =>
        NumberIsPrinted(j.items[0], i);
        IxIsPrinted(j.items[1], code, ix);
        assert j.items == [j.items[0], j.items[1]];
        assert Exact(j) <==> Exact(j.items[0]) && Exact(j.items[1]);
      case Rent(i) => AccountIsPrinted(j, i);
      case Restricted(i) => AccountIsPrinted(j, i);
      case _ =>
    }
  }

  /** Printing undoes parsing exactly on the values written without loss. */
  lemma ParsePrints(j: Json, e: TxError)
    requires NewTransactionError(j) == Ok(Some(e))
    ensures Print(e) == j <==> Exact(j)
  {
    ParserIsExact(j, e);
    if !e.detail.NoDetail? {
      var name := TrxName(e.code);
      DetailIsPrinted(j.fields[name], e.detail);
      OneField(j, name, PrintDetail(e.detail));
    }
  }

  // ----- what the node really sends -----

  /** A value the JSON decoder can produce. */
  predicate FromJson(j: Json)
  {
    match j
    case Byte(_) => false
    case List(items) => forall i :: 0 <= i < |items| ==> FromJson(items[i])
    case Obj(m) => forall k :: k in m ==> FromJson(m[k])
    case _ => true
  }

  /** No JSON text can report a duplicate instruction with its index: the constructor wants a Go
      byte, so every such report from a node panics. */
  lemma DuplicateInstructionPanics(j: Json)
    requires FromJson(j) && Single(j, TrxName(DUPLICATE_INSTRUCTION))
    ensures NewTransactionError(j) == Panic
  {
    SoleKeyIs(j.fields, TrxName(DUPLICATE_INSTRUCTION));
    TrxTable(TrxName(DUPLICATE_INSTRUCTION), DUPLICATE_INSTRUCTION);
    assert FromJson(j.fields[TrxName(DUPLICATE_INSTRUCTION)]);
  }
}
