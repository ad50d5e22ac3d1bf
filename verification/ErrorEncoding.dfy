/** The binary form of a transaction error, written step by step into an encoder, and the decoder
    that serves as its specification. */
module ErrorEncoding {
  import opened Basics
  import opened ErrorNames
  import opened TransactionErrors

  // ----- little-endian integers -----

  function LittleEndian(n: nat, width: nat): (bs: seq<byte>)
    ensures |bs| == width
  {
    if width == 0 then [] else [n % 256] + LittleEndian(n / 256, width - 1)
  }

  function FromLittleEndian(bs: seq<byte>): nat
  {
    if bs == [] then 0 else bs[0] + 256 * FromLittleEndian(bs[1..])
  }

  function Pow256(k: nat): nat
  {
    if k == 0 then 1 else 256 * Pow256(k - 1)
  }

  lemma {:induction false} ReadsBack(n: nat, width: nat)
    requires n < Pow256(width)
    ensures FromLittleEndian(LittleEndian(n, width)) == n
  {
    if width > 0 {
      ReadsBack(n / 256, width - 1);
      var bs := LittleEndian(n, width);
      assert bs[0] == n % 256 && bs[1..] == LittleEndian(n / 256, width - 1);
    }
  }

  lemma {:induction false} WritesBack(bs: seq<byte>)
    ensures LittleEndian(FromLittleEndian(bs), |bs|) == bs
    ensures FromLittleEndian(bs) < Pow256(|bs|)
  {
    if bs != [] {
      WritesBack(bs[1..]);
      LowByte(bs[0], FromLittleEndian(bs[1..]));
      assert bs == [bs[0]] + bs[1..];
    }
  }

  lemma LowByte(b: byte, rest: nat)
    ensures (b + 256 * rest) % 256 == b && (b + 256 * rest) / 256 == rest
  {
  }

  lemma Widths()
    ensures Pow256(4) == 0x1_0000_0000
    ensures Pow256(8) == 0x1_0000_0000_0000_0000
  {
    assert Pow256(2) == 0x1_0000;
    assert Pow256(4) == 0x1_0000 * Pow256(2);
    assert Pow256(6) == 0x1_0000 * Pow256(4);
    assert Pow256(8) == 0x1_0000 * Pow256(6);
  }

  // ----- the encoder -----

  /** The writer behind a `bin.Encoder`. `quota` is the number of writes it still accepts; an
      in-memory buffer has none. */
  datatype Writer = Writer(out: seq<byte>, quota: Option<nat>)

  function Write(w: Writer, bs: seq<byte>): (Writer, bool)
  {
    if w.quota == Some(0) then (w, false)
    else (Writer(w.out + bs, if w.quota.Some? then Some(w.quota.value - 1) else None), true)
  }

  /** Writes in turn, up to the first that fails. */
  function WriteAll(w: Writer, chunks: seq<seq<byte>>): (Writer, bool)
    decreases |chunks|
  {
    if chunks == [] then (w, true) else
      var (w1, ok) := Write(w, chunks[0]);
      if ok then WriteAll(w1, chunks[1..]) else (w1, false)
  }

  function IxChunks(d: IxDetail): seq<seq<byte>>
  {
    match d
    case NoIxDetail => []
    case Custom(n) => [LittleEndian(n, 4)]
    case Borsh(msg) => [LittleEndian(|msg|, 8), msg]
  }

  function DetailChunks(d: TxDetail): seq<seq<byte>>
  {
    match d
    case NoDetail => []
    case NilInstruction => []
    case Instruction(i, code, ix) => [[i], LittleEndian(code, 4)] + IxChunks(ix)
    case Duplicate(i) => [[i]]
    case Rent(i) => [[i]]
    case Restricted(i) => [[i]]
  }

  function Chunks(e: TxError): seq<seq<byte>>
  {
    [LittleEndian(e.code, 4)] + DetailChunks(e.detail)
  }

  class Encoder {
    var out: seq<byte>
    var quota: Option<nat>

    constructor (quota: Option<nat>)
      ensures View() == Writer([], quota)
    {
      this.out, this.quota := [], quota;
    }

    ghost function View(): Writer
      reads this
    {
      Writer(out, quota)
    }

    method WriteRaw(bs: seq<byte>) returns (ok: bool)
      modifies this
      ensures (View(), ok) == Write(old(View()), bs)
    {
      if quota == Some(0) {
        return false;
      }
      out := out + bs;
      if quota.Some? {
        quota := Some(quota.value - 1);
      }
      return true;
    }

    /** `WriteUint32` and `WriteInt64` with `binary.LittleEndian`, for values that are not negative. */
    method WriteUint(n: nat, width: nat) returns (ok: bool)
      modifies this
      ensures (View(), ok) == Write(old(View()), LittleEndian(n, width))
    {
      ok := WriteRaw(LittleEndian(n, width));
    }

    method WriteString(s: GoString) returns (ok: bool)
      modifies this
      ensures (View(), ok) == WriteAll(old(View()), [LittleEndian(|s|, 8), s])
    {
      assert [LittleEndian(|s|, 8), s][1..] == [s];
      OneChunk(s);
      ok := WriteUint(|s|, 8);
      if ok {
        ok := WriteRaw(s);
      }
    }

    method EncodeIxDetail(d: IxDetail) returns (ok: bool)
      modifies this
      ensures (View(), ok) == WriteAll(old(View()), IxChunks(d))
    {
      match d {
        case NoIxDetail => ok := true;
        case Custom(n) =>
          assert IxChunks(d)[1..] == [];
          ok := WriteUint(n, 4);
        case Borsh(msg) => ok := WriteString(msg);
      }
    }

    method EncodeInstructionError(index: byte, code: nat, d: IxDetail) returns (ok: bool)
      modifies this
      ensures (View(), ok) == WriteAll(old(View()), DetailChunks(Instruction(index, code, d)))
    {
      ghost var chunks := DetailChunks(Instruction(index, code, d));
      assert chunks[1..] == [LittleEndian(code, 4)] + IxChunks(d) && chunks[1..][1..] == IxChunks(d);
      ok := WriteRaw([index]);
      if !ok {
        return false;
      }
      ok := WriteUint(code, 4);
      if !ok {
        return false;
      }
      ok := EncodeIxDetail(d);
    }

    /** `TransactionError.Encode`. A nil instruction error is not a nil detail: its `Encode` is
        called, and panics after the code has been written. */
    method EncodeTransactionError(e: TxError) returns (r: Outcome<()>)
      modifies this
      ensures
        var (w, ok) := WriteAll(old(View()), Chunks(e));
        View() == w && r == if !ok then Err else if e.detail.NilInstruction? then Panic else Ok(())
    {
      assert Chunks(e)[1..] == DetailChunks(e.detail);
      var ok := WriteUint(e.code, 4);
      if !ok {
        return Err;
      }
      match e.detail {
        case NoDetail => return Ok(());
        case NilInstruction => return Panic;
        case Instruction(i, code, ix) => ok := EncodeInstructionError(i, code, ix);
        case Duplicate(i) => OneChunk([i]); ok := WriteRaw([i]);
        case Rent(i) => OneChunk([i]); ok := WriteRaw([i]);
        case Restricted(i) => OneChunk([i]); ok := WriteRaw([i]);
      }
      return if ok then Ok(()) else Err;
    }
  }

  lemma OneChunk(bs: seq<byte>)
    ensures forall w :: WriteAll(w, [bs]) == Write(w, bs)
  {
    assert [bs][1..] == [];
  }

  // ----- the bytes -----

  function Concat(chunks: seq<seq<byte>>): seq<byte>
  {
    if chunks == [] then [] else chunks[0] + Concat(chunks[1..])
  }

  /** A tree whose encoding does not panic. */
  predicate Encodable(e: TxError) { Constructible(e) && !e.detail.NilInstruction? }

  function IxBytes(d: IxDetail): seq<byte>
  {
    match d
    case NoIxDetail => []
    case Custom(n) => LittleEndian(n, 4)
    case Borsh(msg) => LittleEndian(|msg|, 8) + msg
  }

  function DetailBytes(d: TxDetail): seq<byte>
  {
    match d
    case NoDetail => []
    case NilInstruction => []
    case Instruction(i, code, ix) => [i] + (LittleEndian(code, 4) + IxBytes(ix))
    case Duplicate(i) => [i]
    case Rent(i) => [i]
    case Restricted(i) => [i]
  }

  function Bytes(e: TxError): seq<byte>
  {
    LittleEndian(e.code, 4) + DetailBytes(e.detail)
  }

  lemma {:induction false} ConcatAppend(a: seq<seq<byte>>, b: seq<seq<byte>>)
    ensures Concat(a + b) == Concat(a) + Concat(b)
  {
    if a == [] {
      assert a + b == b;
    } else {
      assert (a + b)[1..] == a[1..] + b;
      ConcatAppend(a[1..], b);
    }
  }

  lemma ConcatOfOne(bs: seq<byte>)
    ensures Concat([bs]) == bs
  {
    assert [bs][1..] == [];
  }

  lemma ChunksAreBytes(e: TxError)
    ensures Concat(Chunks(e)) == Bytes(e)
  {
    ConcatAppend([LittleEndian(e.code, 4)], DetailChunks(e.detail));
    ConcatOfOne(LittleEndian(e.code, 4));
    match e.detail {
      case Instruction(i, code, ix) =>
        ConcatAppend([[i], LittleEndian(code, 4)], IxChunks(ix));
        ConcatAppend([[i]], [LittleEndian(code, 4)]);
        assert [[i]] + [LittleEndian(code, 4)] == [[i], LittleEndian(code, 4)];
        ConcatOfOne([i]);
        ConcatOfOne(LittleEndian(code, 4));
        IxChunksAreBytes(ix);
      case Duplicate(i) => ConcatOfOne([i]);
      case Rent(i) => ConcatOfOne([i]);
      case Restricted(i) => ConcatOfOne([i]);
      case _ =>
    }
  }

  lemma IxChunksAreBytes(d: IxDetail)
    ensures Concat(IxChunks(d)) == IxBytes(d)
  {
    match d {
      case NoIxDetail =>
      case Custom(n) => ConcatOfOne(LittleEndian(n, 4));
      case Borsh(msg) =>
        assert [LittleEndian(|msg|, 8), msg] == [LittleEndian(|msg|, 8)] + [msg];
        ConcatAppend([LittleEndian(|msg|, 8)], [msg]);
        ConcatOfOne(LittleEndian(|msg|, 8));
        ConcatOfOne(msg);
    }
  }

  /** Writing to a buffer that accepts everything appends all the bytes; to one that does not, whole
      writes from the front and no more. */
  lemma {:induction false} WriteAllAppends(w: Writer, chunks: seq<seq<byte>>)
    ensures
      var (w1, ok) := WriteAll(w, chunks);
      var n := if w.quota.Some? && w.quota.value < |chunks| then w.quota.value else |chunks|;
      && w1.out == w.out + Concat(chunks[..n])
      && (ok <==> n == |chunks|)
    decreases |chunks|
  {
    if chunks != [] {
      var (w1, ok) := Write(w, chunks[0]);
      if ok {
        WriteAllAppends(w1, chunks[1..]);
        var n := if w.quota.Some? && w.quota.value < |chunks| then w.quota.value else |chunks|;
        assert chunks[..n][0] == chunks[0] && chunks[..n][1..] == chunks[1..][..n - 1];
      }
    }
  }

  /** On an in-memory buffer the encoding never fails and is `Bytes(e)`. */
  lemma EncodesInMemory(out: seq<byte>, e: TxError)
    ensures WriteAll(Writer(out, None), Chunks(e)).1
    ensures WriteAll(Writer(out, None), Chunks(e)).0.out == out + Bytes(e)
  {
    WriteAllAppends(Writer(out, None), Chunks(e));
    assert Chunks(e)[..|Chunks(e)|] == Chunks(e);
    ChunksAreBytes(e);
  }

  // ----- the decoder -----

  predicate Carries(code: nat)
  {
    code == INSTRUCTION_ERROR || code == DUPLICATE_INSTRUCTION ||
    code == INSUFFICIENT_FUNDS_FOR_RENT || code == PROGRAM_RESTRICTED
  }

  predicate IxCarries(code: nat) { code == CUSTOM || code == BORSH_IO_ERROR }

  /** A detail is present exactly when the code calls for one, at both levels. */
  predicate Canonical(e: TxError)
  {
    && Encodable(e)
    && (Carries(e.code) <==> !e.detail.NoDetail?)
    && (e.detail.Instruction? ==> (IxCarries(e.detail.ixCode) <==> !e.detail.ixDetail.NoIxDetail?))
  }

  /** With `whole`, the input is one complete message, and its end stands for an absent detail. */
  function DecodeIx(code: nat, bs: seq<byte>, whole: bool): Option<(IxDetail, seq<byte>)>
  {
    if !IxCarries(code) || (whole && bs == []) then Some((NoIxDetail, bs))
    else if code == CUSTOM then
      if |bs| < 4 then None else
        WritesBack(bs[..4]);
        Widths();
        Some((Custom(FromLittleEndian(bs[..4])), bs[4..]))
    else
      if |bs| < 8 then None else
        var n := FromLittleEndian(bs[..8]);
        if n >= 0x8000_0000_0000_0000 || |bs| - 8 < n then None
        else Some((Borsh(bs[8..8 + n]), bs[8 + n..]))
  }

  /** What follows the instruction index. */
  function DecodeInstruction(index: byte, bs: seq<byte>, whole: bool): Option<(TxDetail, seq<byte>)>
  {
    if |bs| < 4 then None else
      var code := FromLittleEndian(bs[..4]);
      if code >= INSTRUCTION_ERRORS then None else
        match DecodeIx(code, bs[4..], whole)
        case None => None
        case Some((d, rest)) => Some((Instruction(index, code, d), rest))
  }

  function DecodeDetail(code: nat, bs: seq<byte>, whole: bool): Option<(TxDetail, seq<byte>)>
  {
    if !Carries(code) || (whole && bs == []) then Some((NoDetail, bs))
    else if bs == [] then None
    else if code == INSTRUCTION_ERROR then DecodeInstruction(bs[0], bs[1..], whole)
    else
      Some((if code == DUPLICATE_INSTRUCTION then Duplicate(bs[0])
            else if code == INSUFFICIENT_FUNDS_FOR_RENT then Rent(bs[0])
            else Restricted(bs[0]), bs[1..]))
  }

  function Decode(bs: seq<byte>, whole: bool): Option<(TxError, seq<byte>)>
  {
    if |bs| < 4 then None else
      var code := FromLittleEndian(bs[..4]);
      if code >= TRX_ERRORS then None else
        match DecodeDetail(code, bs[4..], whole)
        case None => None
        case Some((d, rest)) => Some((TxError(code, d), rest))
  }

  // ----- the decoder undoes the encoder -----

  lemma CodeReadsBack(code: nat, rest: seq<byte>)
    requires code < 0x1_0000_0000
    ensures (LittleEndian(code, 4) + rest)[..4] == LittleEndian(code, 4)
    ensures (LittleEndian(code, 4) + rest)[4..] == rest
    ensures FromLittleEndian(LittleEndian(code, 4)) == code
  {
    Widths();
    ReadsBack(code, 4);
  }

  /** An input that starts as an encoding does, possibly one with an absent detail at its end. */
  predicate Readable(carries: bool, absent: bool, tail: seq<byte>, whole: bool)
  {
    (carries <==> !absent) || (absent && whole && tail == [])
  }

  lemma IxReadsBack(code: nat, d: IxDetail, tail: seq<byte>, whole: bool)
    requires IxFits(code, d) && Readable(IxCarries(code), d.NoIxDetail?, tail, whole)
    ensures DecodeIx(code, IxBytes(d) + tail, whole) == Some((d, tail))
  {
    match d {
      case NoIxDetail => assert [] + tail == tail;
      case Custom(n) => CodeReadsBack(n, tail);
      case Borsh(msg) =>
        var bs := IxBytes(d) + tail;
        Widths();
        ReadsBack(|msg|, 8);
        assert bs[..8] == LittleEndian(|msg|, 8);
        assert bs[8..8 + |msg|] == msg && bs[8 + |msg|..] == tail;
    }
  }

  lemma InstructionReadsBack(index: byte, code: nat, d: IxDetail, tail: seq<byte>, whole: bool)
    requires code < INSTRUCTION_ERRORS && IxFits(code, d) && Readable(IxCarries(code), d.NoIxDetail?, tail, whole)
    ensures DecodeInstruction(index, LittleEndian(code, 4) + (IxBytes(d) + tail), whole)
         == Some((Instruction(index, code, d), tail))
  {
    CodeReadsBack(code, IxBytes(d) + tail);
    IxReadsBack(code, d, tail, whole);
  }

  lemma FirstByte(b: byte, more: seq<byte>, tail: seq<byte>)
    ensures var bs := [b] + more + tail; bs != [] && bs[0] == b && bs[1..] == more + tail
    ensures [b] + tail == [b] + [] + tail && [] + tail == tail
  {
  }

  lemma DetailReadsBack(code: nat, d: TxDetail, tail: seq<byte>, whole: bool)
    requires CodeFits(code, d) && !d.NilInstruction?
    requires Readable(Carries(code), d.NoDetail?, tail, whole)
    requires d.Instruction? ==> Readable(IxCarries(d.ixCode), d.ixDetail.NoIxDetail?, tail, whole)
    ensures DecodeDetail(code, DetailBytes(d) + tail, whole) == Some((d, tail))
  {
    match d {
      case NoDetail => assert [] + tail == tail;
      case Instruction(i, ixCode, ix) =>
        FirstByte(i, LittleEndian(ixCode, 4) + IxBytes(ix), tail);
        assert LittleEndian(ixCode, 4) + IxBytes(ix) + tail == LittleEndian(ixCode, 4) + (IxBytes(ix) + tail);
        InstructionReadsBack(i, ixCode, ix, tail, whole);
      case Duplicate(i) => FirstByte(i, [], tail);
      case Rent(i) => FirstByte(i, [], tail);
      case Restricted(i) => FirstByte(i, [], tail);
    }
  }

  lemma ReadsBackWith(e: TxError, tail: seq<byte>, whole: bool)
    requires Encodable(e)
    requires Readable(Carries(e.code), e.detail.NoDetail?, tail, whole)
    requires e.detail.Instruction? ==>
               Readable(IxCarries(e.detail.ixCode), e.detail.ixDetail.NoIxDetail?, tail, whole)
    ensures Decode(Bytes(e) + tail, whole) == Some((e, tail))
  {
    var bs := DetailBytes(e.detail) + tail;
    assert Bytes(e) + tail == LittleEndian(e.code, 4) + bs;
    CodeReadsBack(e.code, bs);
    DetailReadsBack(e.code, e.detail, tail, whole);
  }

  /** Any encodable tree, even one whose code could carry a detail and does not, is read back from
      its whole encoding. */
  lemma WholeMessageReadsBack(e: TxError)
    requires Encodable(e)
    ensures Decode(Bytes(e), true) == Some((e, []))
  {
    ReadsBackWith(e, [], true);
    assert Bytes(e) + [] == Bytes(e);
  }

  lemma IxIsWhatItReads(code: nat, bs: seq<byte>)
    ensures match DecodeIx(code, bs, false)
            case None => true
            case Some((d, tail)) =>
              && IxFits(code, d)
              && (IxCarries(code) <==> !d.NoIxDetail?)
              && bs == IxBytes(d) + tail
  {
    if IxCarries(code) && |bs| >= 4 {
      WritesBack(bs[..4]);
      if |bs| >= 8 { WritesBack(bs[..8]); }
    }
  }

  lemma InstructionIsWhatItReads(index: byte, bs: seq<byte>)
    ensures match DecodeInstruction(index, bs, false)
            case None => true
            case Some((d, tail)) => Canonical(TxError(INSTRUCTION_ERROR, d)) && [index] + bs == DetailBytes(d) + tail
  {
    if |bs| >= 4 {
      var code := FromLittleEndian(bs[..4]);
      WritesBack(bs[..4]);
      IxIsWhatItReads(code, bs[4..]);
      match DecodeIx(code, bs[4..], false) {
        case None =>
        case Some((d, tail)) => Regroup(index, bs, IxBytes(d), tail);
      }
    }
  }

  lemma Regroup(index: byte, bs: seq<byte>, detail: seq<byte>, tail: seq<byte>)
    requires |bs| >= 4 && bs[4..] == detail + tail
    ensures [index] + bs == [index] + (bs[..4] + detail) + tail
  {
    assert bs == bs[..4] + bs[4..];
  }

  lemma DetailIsWhatItReads(code: nat, bs: seq<byte>)
    requires code < TRX_ERRORS
    ensures match DecodeDetail(code, bs, false)
            case None => true
            case Some((d, tail)) => Canonical(TxError(code, d)) && bs == DetailBytes(d) + tail
  {
    if bs != [] {
      assert bs == [bs[0]] + bs[1..];
      if code == INSTRUCTION_ERROR { InstructionIsWhatItReads(bs[0], bs[1..]); }
    }
  }

  /** Decoding is exactly the inverse of canonical encoding followed by anything: the encoding
      delimits itself, and the decoder accepts nothing else. */
  lemma SelfDelimiting(bs: seq<byte>, e: TxError, tail: seq<byte>)
    ensures Decode(bs, false) == Some((e, tail)) <==> Canonical(e) && bs == Bytes(e) + tail
  {
    if Decode(bs, false) == Some((e, tail)) {
      WritesBack(bs[..4]);
      DetailIsWhatItReads(e.code, bs[4..]);
      assert bs == bs[..4] + bs[4..];
    } else if Canonical(e) && bs == Bytes(e) + tail {
      ReadsBackWith(e, tail, false);
    }
  }

  /** No canonical encoding is a proper prefix of another. */
  lemma PrefixFree(a: TxError, b: TxError)
    requires Canonical(a) && Canonical(b) && Bytes(a) <= Bytes(b)
    ensures a == b
  {
    var x, y := Bytes(a), Bytes(b);
    var tail := y[|x|..];
    PrefixAndRest(x, y);
    SelfDelimiting(y, a, tail);
    SelfDelimiting(y, b, []);
    OneReading(y, a, tail, b, []);
  }

  lemma PrefixAndRest<T>(x: seq<T>, y: seq<T>)
    requires x <= y
    ensures y == x + y[|x|..] && y == y + []
  {
  }

  lemma OneReading(bs: seq<byte>, a: TxError, afterA: seq<byte>, b: TxError, afterB: seq<byte>)
    requires Decode(bs, false) == Some((a, afterA)) && Decode(bs, false) == Some((b, afterB))
    ensures a == b
  {
  }

  /** Distinct trees encode differently, canonical or not. */
  lemma EncodingIsInjective(a: TxError, b: TxError)
    requires Encodable(a) && Encodable(b) && Bytes(a) == Bytes(b)
    ensures a == b
  {
    WholeMessageReadsBack(a);
    WholeMessageReadsBack(b);
  }

  /** Encodings have exactly these lengths. */
  lemma EncodingLength(e: TxError)
    requires Encodable(e)
    ensures |Bytes(e)| ==
            match e.detail
            case NoDetail => 4
            case Instruction(_, _, NoIxDetail) => 9
            case Instruction(_, _, Custom(_)) => 13
            case Instruction(_, _, Borsh(msg)) => 17 + |msg|
            case _ => 5
  {
  }

  /** From JSON to bytes and back: whatever the constructors accept, other than a null instruction
      error, is recovered from its bytes; and as the very same JSON exactly when that was written
      without fractions and ignored keys. */
  lemma JsonRoundTrip(j: Json, e: TxError)
    requires NewTransactionError(j) == Ok(Some(e)) && !e.detail.NilInstruction?
    ensures Decode(Bytes(e), true) == Some((e, []))
    ensures Print(Decode(Bytes(e), true).value.0) == j <==> Exact(j)
  {
    ParserIsExact(j, e);
    WholeMessageReadsBack(e);
    ParsePrints(j, e);
  }

  // ----- the encodings that the repository's own tests list -----

  /** Transaction errors without a nested one, with and without an index. */
  lemma KnownEncodings()
    ensures Bytes(TxError(1, NoDetail)) == [1, 0, 0, 0]
    ensures Bytes(TxError(30, Duplicate(42))) == [30, 0, 0, 0, 42]
    ensures Bytes(TxError(31, Rent(42))) == [31, 0, 0, 0, 42]
  {
    FourBytes(1, 0, 0, 0);
    assert [1, 0, 0, 0] + [] == [1, 0, 0, 0];
    FourBytes(30, 0, 0, 0);
    FiveBytes(30, 0, 0, 0, 42);
    FourBytes(31, 0, 0, 0);
    FiveBytes(31, 0, 0, 0, 42);
  }

  /** Instruction errors alone: one without a detail, and one with a custom code. */
  lemma KnownInstructionEncodings()
    ensures DetailBytes(Instruction(1, 0, NoIxDetail)) == [1, 0, 0, 0, 0]
    ensures DetailBytes(Instruction(9, 25, Custom(6001))) == [9, 25, 0, 0, 0, 113, 23, 0, 0]
  {
    FourBytes(0, 0, 0, 0);
    InstructionEncoding(1, 0, [0, 0, 0, 0], NoIxDetail, []);
    FiveBytes(1, 0, 0, 0, 0);
    FourBytes(25, 0, 0, 0);
    FourBytes(113, 23, 0, 0);
    InstructionEncoding(9, 25, [25, 0, 0, 0], Custom(6001), [113, 23, 0, 0]);
    NineBytes(9, 25, 0, 0, 0, 113, 23, 0, 0);
  }

  /** Transaction errors around an instruction error with a custom code. */
  lemma KnownCustomEncodings()
    ensures Bytes(TxError(8, Instruction(0, 25, Custom(42)))) == [8, 0, 0, 0] + ([0] + ([25, 0, 0, 0] + [42, 0, 0, 0]))
    ensures Bytes(TxError(8, Instruction(0, 25, Custom(0)))) == [8, 0, 0, 0] + ([0] + ([25, 0, 0, 0] + [0, 0, 0, 0]))
  {
    FourBytes(8, 0, 0, 0);
    FourBytes(25, 0, 0, 0);
    FourBytes(42, 0, 0, 0);
    FourBytes(0, 0, 0, 0);
    InstructionEncoding(0, 25, [25, 0, 0, 0], Custom(42), [42, 0, 0, 0]);
    InstructionEncoding(0, 25, [25, 0, 0, 0], Custom(0), [0, 0, 0, 0]);
  }

  /** A transaction error around an instruction error with the Borsh message "error.1". */
  lemma KnownBorshEncoding()
    ensures Bytes(TxError(8, Instruction(1, 44, Borsh([101, 114, 114, 111, 114, 46, 49])))) ==
            [8, 0, 0, 0] + ([1] + ([44, 0, 0, 0] + ([7, 0, 0, 0, 0, 0, 0, 0] + [101, 114, 114, 111, 114, 46, 49])))
  {
    var msg: GoString := [101, 114, 114, 111, 114, 46, 49];
    FourBytes(8, 0, 0, 0);
    FourBytes(44, 0, 0, 0);
    SevenInEight();
    InstructionEncoding(1, 44, [44, 0, 0, 0], Borsh(msg), [7, 0, 0, 0, 0, 0, 0, 0] + msg);
  }

  lemma InstructionEncoding(index: byte, code: nat, codeBytes: seq<byte>, d: IxDetail, detail: seq<byte>)
    requires LittleEndian(code, 4) == codeBytes && IxBytes(d) == detail
    ensures DetailBytes(Instruction(index, code, d)) == [index] + (codeBytes + detail)
  {
  }

  lemma FiveBytes(a: byte, b: byte, c: byte, d: byte, e: byte)
    ensures [a] + ([b, c, d, e] + []) == [a, b, c, d, e] == [a, b, c, d] + [e]
  {
  }

  lemma NineBytes(a: byte, b: byte, c: byte, d: byte, e: byte, f: byte, g: byte, h: byte, i: byte)
    ensures [a] + ([b, c, d, e] + [f, g, h, i]) == [a, b, c, d, e, f, g, h, i]
  {
  }

  lemma OneByteMore(b: byte, rest: nat, width: nat)
    ensures LittleEndian(b + 256 * rest, width + 1) == [b] + LittleEndian(rest, width)
  {
    LowByte(b, rest);
  }

  lemma FourBytes(a: byte, b: byte, c: byte, d: byte)
    ensures LittleEndian(a + 256 * (b + 256 * (c + 256 * d)), 4) == [a, b, c, d]
  {
    OneByteMore(d, 0, 0);
    OneByteMore(c, d, 1);
    OneByteMore(b, c + 256 * d, 2);
    OneByteMore(a, b + 256 * (c + 256 * d), 3);
  }

  lemma SevenInEight()
    ensures LittleEndian(7, 8) == [7, 0, 0, 0, 0, 0, 0, 0]
  {
    OneByteMore(7, 0, 7);
    ZeroBytes(7);
  }

  lemma {:induction false} ZeroBytes(width: nat)
    ensures forall i :: 0 <= i < width ==> LittleEndian(0, width)[i] == 0
  {
    if width > 0 {
      OneByteMore(0, 0, width - 1);
      ZeroBytes(width - 1);
    }
  }
}
