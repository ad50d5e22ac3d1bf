/** One row of the `blocks` table and what `ProcessRow` makes of it. */
module BlockRows {
  import opened Basics
  import opened RowKeys

  /** The fields of a Solana block the reader looks at; `body` stands for everything else. */
  datatype Block = Block(slot: uint64, hash: string, prevHash: string, body: seq<byte>)

  datatype Cell = Cell(key: string, column: string, value: seq<byte>)

  /** The cells of column family "x"; a row without that family has none. */
  datatype Row = Row(x: seq<Cell>)

  datatype RowType = RowTypeProto | RowTypeBin

  /** Decompression, the external decoder and protobuf, together. */
  datatype Decoding = Decoded(blk: Block) | DecodeError | DecodePanic
  type Decoder = (RowType, seq<byte>) -> Decoding

  /** `Unreadable` is an error from `ProcessRow`; `Crash` is a panic inside it. */
  datatype RowResult = Good(blk: Block) | Unreadable | Crash

  const GENESIS_HASH := "11111111111111111111111111111111"

  /** The parent hash that `ProcessRow` writes over the all-ones hash, for five known blocks. */
  function KnownParent(hash: string): Option<string>
  {
    if hash == "Goi3t9JjgDkyULZbM2TzE5QqHP1fPeMcHNaXNFBCBv1v" then
      Some("HQEr9qcbUVBt2okfu755FdJvJrPYTSpzzmmyeWTj5oau")
    else if hash == "6UFQveZ94DUKGbcLFoyayn1QwthVfD3ZqvrM2916pHCR" then
      Some("7cLQx2cZvyKbGoMuutXEZ3peg3D21D5qbX19T5V1XEiK")
    else if hash == "Fqbm7QvCTYnToXWcCw6nbkWhMmXx2Nv91LsXBrKraB43" then
      Some("RfXUrekgajPSb1R4CGFJWNaHTnB6p53Tzert4gouj2u")
    else if hash == "ABp9G2NaPzM6kQbeyZYCYgdzL8JN9AxSSbCQG2X1K9UF" then
      Some("9F2C7TGqUpFu6krd8vQbUv64BskrneBSgY7U2QfrGx96")
    else if hash == "ByUxmGuaT7iQS9qGS8on5xHRjiHXcGxvwPPaTGZXQyz7" then
      Some("J6rRToKMK5DQDzVLqo7ibL3snwBYtqkYnRnQ7vXoUSEc")
    else None
  }

  function Tweaked(blk: Block): Block
  {
    if KnownParent(blk.hash).Some? && blk.prevHash == GENESIS_HASH
    then blk.(prevHash := KnownParent(blk.hash).value)
    else blk
  }

  /** The tweak touches nothing but the parent hash, and that only when it is the all-ones hash of
      one of the five blocks; doing it again changes nothing. */
  lemma TweakReplacesOnlyGenesis(blk: Block)
    ensures Tweaked(blk).(prevHash := blk.prevHash) == blk
    ensures Tweaked(blk) != blk ==> KnownParent(blk.hash) == Some(Tweaked(blk).prevHash) && blk.prevHash == GENESIS_HASH
    ensures Tweaked(Tweaked(blk)) == Tweaked(blk)
  {
  }

  /** And it does replace that hash: of a known block with the all-ones parent, always. */
  lemma TweakReplacesGenesis(blk: Block)
    requires blk.prevHash == "11111111111111111111111111111111"
    ensures KnownParent(blk.hash).Some? ==> KnownParent(blk.hash) == Some(Tweaked(blk).prevHash)
    ensures KnownParent(blk.hash).None? ==> Tweaked(blk) == blk
  {
  }

  /** The five known blocks, by the first character of their hashes, and their parents. */
  lemma KnownParents(hash: string)
    ensures hash == "Goi3t9JjgDkyULZbM2TzE5QqHP1fPeMcHNaXNFBCBv1v" ==>
              KnownParent(hash) == Some("HQEr9qcbUVBt2okfu755FdJvJrPYTSpzzmmyeWTj5oau")
    ensures hash == "6UFQveZ94DUKGbcLFoyayn1QwthVfD3ZqvrM2916pHCR" ==>
              KnownParent(hash) == Some("7cLQx2cZvyKbGoMuutXEZ3peg3D21D5qbX19T5V1XEiK")
    ensures hash == "Fqbm7QvCTYnToXWcCw6nbkWhMmXx2Nv91LsXBrKraB43" ==>
              KnownParent(hash) == Some("RfXUrekgajPSb1R4CGFJWNaHTnB6p53Tzert4gouj2u")
    ensures hash == "ABp9G2NaPzM6kQbeyZYCYgdzL8JN9AxSSbCQG2X1K9UF" ==>
              KnownParent(hash) == Some("9F2C7TGqUpFu6krd8vQbUv64BskrneBSgY7U2QfrGx96")
    ensures hash == "ByUxmGuaT7iQS9qGS8on5xHRjiHXcGxvwPPaTGZXQyz7" ==>
              KnownParent(hash) == Some("J6rRToKMK5DQDzVLqo7ibL3snwBYtqkYnRnQ7vXoUSEc")
    ensures KnownParent(hash).Some? <==> hash in {
              "Goi3t9JjgDkyULZbM2TzE5QqHP1fPeMcHNaXNFBCBv1v", "6UFQveZ94DUKGbcLFoyayn1QwthVfD3ZqvrM2916pHCR",
              "Fqbm7QvCTYnToXWcCw6nbkWhMmXx2Nv91LsXBrKraB43", "ABp9G2NaPzM6kQbeyZYCYgdzL8JN9AxSSbCQG2X1K9UF",
              "ByUxmGuaT7iQS9qGS8on5xHRjiHXcGxvwPPaTGZXQyz7"}
  {
    assert "Goi3t9JjgDkyULZbM2TzE5QqHP1fPeMcHNaXNFBCBv1v"[0] == 'G';
    assert "6UFQveZ94DUKGbcLFoyayn1QwthVfD3ZqvrM2916pHCR"[0] == '6';
    assert "Fqbm7QvCTYnToXWcCw6nbkWhMmXx2Nv91LsXBrKraB43"[0] == 'F';
    assert "ABp9G2NaPzM6kQbeyZYCYgdzL8JN9AxSSbCQG2X1K9UF"[0] == 'A';
    assert "ByUxmGuaT7iQS9qGS8on5xHRjiHXcGxvwPPaTGZXQyz7"[0] == 'B';
  }

  predicate HasSuffix(s: string, suffix: string)
  {
    |suffix| <= |s| && s[|s| - |suffix|..] == suffix
  }

  /** The slot a row is filed under: its first cell's key, if there is one and it is hexadecimal. */
  function RowSlot(row: Row): Option<uint64>
  {
    if row.x == [] then None else ParseKey(row.x[0].key)
  }

  /** That slot, for rows known to have one. */
  function Slot(row: Row): uint64
  {
    if RowSlot(row).Some? then RowSlot(row).value else 0
  }

  function ProcessRow(decode: Decoder, row: Row): RowResult
  {
    if RowSlot(row).None? then Crash else
      var rowType := if HasSuffix(row.x[0].column, "proto") then RowTypeProto else RowTypeBin;
      match decode(rowType, row.x[0].value)
      case Decoded(blk) => Good(Tweaked(blk.(slot := RowSlot(row).value)))
      case DecodeError => Unreadable
      case DecodePanic => Crash
  }

  /** `ProcessRow` with its decoder fixed. */
  function RowReader(decode: Decoder): Row -> RowResult { row => ProcessRow(decode, row) }

  /** Whatever the row's content says, the block's slot is the slot its key was printed from. */
  lemma SlotComesFromKey(decode: Decoder, row: Row, slot: uint64)
    requires row.x != [] && row.x[0].key == Key(slot)
    ensures RowSlot(row) == Some(slot)
    ensures ProcessRow(decode, row).Good? ==> ProcessRow(decode, row).blk.slot == slot
  {
    KeyRoundTrip(slot);
  }

  lemma SuffixIsAnEnd(s: string, suffix: string)
    ensures HasSuffix(s, suffix) <==> exists before: string :: s == before + suffix
  {
    if HasSuffix(s, suffix) { assert s == s[..|s| - |suffix|] + suffix; }
  }

  /** The type that the first cell's column asks the decoder for: any column that ends in "proto" is
      compressed protobuf, any other is for the external decoder. */
  ghost function TypeOf(column: string): RowType
  {
    if exists before: string :: column == before + "proto" then RowTypeProto else RowTypeBin
  }

  /** What `ProcessRow` makes of a row, by its first cell alone: it panics without one, on a key that
      is not hexadecimal, or when decoding does; it fails when decoding does; otherwise it returns the
      decoded block with the slot of the key, and, for a known block, with its real parent. */
  lemma ProcessRowOutcome(decode: Decoder, row: Row)
    ensures row.x == [] ==> ProcessRow(decode, row).Crash?
    ensures row.x != [] ==>
              var cell, r := row.x[0], ProcessRow(decode, row);
              var decoding := decode(TypeOf(cell.column), cell.value);
              && (r.Crash? <==> ParseKey(cell.key).None? || decoding.DecodePanic?)
              && (r.Unreadable? <==> ParseKey(cell.key).Some? && decoding.DecodeError?)
              && (r.Good? ==>
                    var parent := KnownParent(decoding.blk.hash);
                    && r.blk.slot == ParseKey(cell.key).value
                    && r.blk.hash == decoding.blk.hash
                    && r.blk.body == decoding.blk.body
                    && r.blk.prevHash == if parent.Some? && decoding.blk.prevHash == "11111111111111111111111111111111"
                                         then parent.value else decoding.blk.prevHash)
  {
    if row.x != [] { SuffixIsAnEnd(row.x[0].column, "proto"); }
  }

  /** A prefix does not matter, and a column that ends otherwise is of the other type. */
  lemma KnownRowTypes(before: string)
    ensures TypeOf(before + "proto") == RowTypeProto
    ensures TypeOf(before + "bin") == RowTypeBin
  {
    var s := before + "bin";
    assert s[|s| - 1] == 'n';
    forall other: string
      ensures s != other + "proto"
    {
      var t := other + "proto";
      assert t[|t| - 1] == 'o';
    }
  }
}
