/** From the JSON of an error to the bytes of its protobuf form, written out. */
module ErrorBytes {
  import opened Basics
  import opened ErrorNames
  import opened TransactionErrors
  import opened ErrorEncoding
  import opened ErrorCodes
  import C = Conversion

  lemma Converted(j: Json, e: TxError)
    requires NewTransactionError(j) == Ok(Some(e)) && !e.detail.NilInstruction?
    ensures C.ToPbTransactionError(j) == Ok(Some(Bytes(e)))
  {
  }

  lemma InstructionBytes(index: byte, code: nat, codeBytes: seq<byte>, d: IxDetail, detail: seq<byte>)
    requires LittleEndian(code, 4) == codeBytes && IxBytes(d) == detail
    ensures Bytes(TxError(8, Instruction(index, code, d))) == [8, 0, 0, 0] + ([index] + (codeBytes + detail))
  {
    FourBytes(8, 0, 0, 0);
    InstructionEncoding(index, code, codeBytes, d, detail);
  }

  /** A name alone becomes its code. */
  lemma PlainErrorBytes(name: string, code: byte)
    requires Trx(name, code)
    ensures C.ToPbTransactionError(Str(Ascii(name))) == Ok(Some([code, 0, 0, 0]))
  {
    PlainError(name, code);
    FourBytes(code, 0, 0, 0);
    assert [code, 0, 0, 0] + [] == [code, 0, 0, 0];
  }

  /** The commonest error: after the index and the code of "Custom", the custom code, little-endian. */
  lemma CustomErrorBytes(index: byte, n: uint32, bs: seq<byte>)
    requires |bs| == 4 && FromLittleEndian(bs) == n
    ensures C.ToPbTransactionError(InstructionJson(index, Obj(map[Ascii("Custom") := Num(n as real)])))
         == Ok(Some([8, 0, 0, 0] + ([index] + ([25, 0, 0, 0] + bs))))
  {
    CustomError(index, n);
    FourBytes(25, 0, 0, 0);
    WritesBack(bs);
    InstructionBytes(index, 25, [25, 0, 0, 0], Custom(n), bs);
    Converted(InstructionJson(index, Obj(map[Ascii("Custom") := Num(n as real)])),
              TxError(8, Instruction(index, 25, Custom(n))));
  }

  /** An instruction error with a name alone. */
  lemma InstructionErrorBytes(index: byte, name: string, code: byte)
    requires Ix(name, code)
    ensures C.ToPbTransactionError(InstructionJson(index, Str(Ascii(name))))
         == Ok(Some([8, 0, 0, 0] + ([index] + ([code, 0, 0, 0] + []))))
  {
    InstructionError(index, name, code);
    FourBytes(code, 0, 0, 0);
    InstructionBytes(index, code, [code, 0, 0, 0], NoIxDetail, []);
    Converted(InstructionJson(index, Str(Ascii(name))), TxError(8, Instruction(index, code, NoIxDetail)));
  }

  /** A message comes with its length, `len`, in eight bytes. */
  lemma BorshErrorBytes(index: byte, msg: GoString) returns (len: seq<byte>)
    ensures |len| == 8 && FromLittleEndian(len) == |msg|
    ensures C.ToPbTransactionError(InstructionJson(index, Obj(map[Ascii("BorshIoError") := Str(msg)])))
         == Ok(Some([8, 0, 0, 0] + ([index] + ([44, 0, 0, 0] + (len + msg)))))
  {
    len := BorshBytes(msg);
    BorshError(index, msg);
    FourBytes(44, 0, 0, 0);
    InstructionBytes(index, 44, [44, 0, 0, 0], Borsh(msg), len + msg);
    Converted(InstructionJson(index, Obj(map[Ascii("BorshIoError") := Str(msg)])),
              TxError(8, Instruction(index, 44, Borsh(msg))));
  }

  lemma BorshBytes(msg: GoString) returns (len: seq<byte>)
    ensures |len| == 8 && FromLittleEndian(len) == |msg|
    ensures IxBytes(Borsh(msg)) == len + msg
  {
    len := LittleEndian(|msg|, 8);
    Widths();
    ReadsBack(|msg|, 8);
  }

  /** The two errors that name an account. */
  lemma RentErrorBytes(i: byte)
    ensures C.ToPbTransactionError(Obj(map[Ascii("InsufficientFundsForRent") :=
                                             Obj(map[Ascii("account_index") := Num(i as real)])]))
         == Ok(Some([31, 0, 0, 0] + [i]))
  {
    RentError(i);
    FourBytes(31, 0, 0, 0);
  }

  lemma RestrictedErrorBytes(i: byte)
    ensures C.ToPbTransactionError(Obj(map[Ascii("ProgramExecutionTemporarilyRestricted") :=
                                             Obj(map[Ascii("account_index") := Num(i as real)])]))
         == Ok(Some([35, 0, 0, 0] + [i]))
  {
    RestrictedError(i);
    FourBytes(35, 0, 0, 0);
  }
}
