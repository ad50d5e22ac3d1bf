/** Emitted slots strictly increase over a whole run, across reconnects, once the table answers
    in slot order and keeps the hash it has filed under a slot. */
module ReadOrder {
  import opened Basics
  import opened BlockRows
  import opened ReadSpec
  import opened ReadSafety

  /** A block's slot is the one its row is filed under, as `ProcessRow` arranges. */
  ghost predicate SlotsFromKeys(c: Config)
  {
    forall row: Row :: c.read(row).Good? ==> c.read(row).blk.slot == c.filed(row)
  }

  predicate SlotOrdered(c: Config, rows: seq<Row>)
  {
    forall i, j :: 0 <= i < j < |rows| ==> c.filed(rows[i]) < c.filed(rows[j])
  }

  /** What a scan from `slot` may return: rows in order from `slot` on, with settled hashes. */
  predicate InOrderFrom(c: Config, slot: uint64, rows: seq<Row>, hashAt: uint64 -> string)
  {
    && SlotOrdered(c, rows)
    && (forall row :: row in rows ==> slot <= c.filed(row))
    && (forall row :: row in rows && c.read(row).Good? ==> c.read(row).blk.hash == hashAt(c.filed(row)))
  }

  predicate Increasing(bs: seq<Block>)
  {
    forall i, j :: 0 <= i < j < |bs| ==> bs[i].slot < bs[j].slot
  }

  /** Slots emitted so far increase, and the newest carries the hash settled for its slot. */
  predicate Ascending(s: State, hashAt: uint64 -> string)
  {
    && Increasing(s.emitted)
    && (s.last.Some? <==> s.emitted != [])
    && (s.last.Some? ==> s.last.value == Last(s.emitted) && s.last.value.hash == hashAt(s.last.value.slot))
  }

  lemma OnRowAscends(c: Config, s: State, row: Row, hashAt: uint64 -> string)
    requires SlotsFromKeys(c) && Ascending(s, hashAt)
    requires s.last.Some? ==> s.last.value.slot <= c.filed(row)
    requires c.read(row).Good? ==> c.read(row).blk.hash == hashAt(c.filed(row))
    ensures
      var s1 := OnRow(c, s, row).0;
      Ascending(s1, hashAt) && (s1.last.Some? ==> s1.last.value.slot <= c.filed(row))
  {
  }

  lemma {:induction false} DeliverAscends(c: Config, s: State, from: uint64, rows: seq<Row>, hashAt: uint64 -> string)
    requires SlotsFromKeys(c) && Ascending(s, hashAt) && InOrderFrom(c, from, rows, hashAt)
    requires s.last.Some? ==> s.last.value.slot <= from
    ensures Ascending(Deliver(c, s, rows).0, hashAt)
    decreases |rows|
  {
    if rows != [] {
      var first := rows[0];
      var (s1, v) := OnRow(c, s, first);
      assert first in rows;
      OnRowAscends(c, s, first, hashAt);
      if v.More? {
        assert forall row :: row in rows[1..] ==> row in rows && c.filed(first) <= c.filed(row);
        DeliverAscends(c, s1, c.filed(first), rows[1..], hashAt);
      }
    }
  }

  lemma {:induction false} RunAscends(c: Config, s: State, attempts: nat, env: Environment, hashAt: uint64 -> string)
    requires SlotsFromKeys(c) && Ascending(s, hashAt)
    requires forall n, slot: uint64 :: 0 <= n < |env| ==> InOrderFrom(c, slot, env[n](slot).rows, hashAt)
    ensures Ascending(Run(c, s, attempts, env).state, hashAt)
    decreases |env|
  {
    if env != [] {
      var s0 := Resume(s);
      DeliverAscends(c, s0, s0.start, env[0](s0.start).rows, hashAt);
      OneRoundEnds(c, s, attempts, env[0]);
      var t := OneRound(c, s, attempts, env[0]);
      if t.result.None? { RunAscends(c, t.state, t.attempts, env[1..], hashAt); }
    }
  }

  /** No other assumption: tables may differ from round to round, rows may be unlinked, undecodable
      or refused, and any round may fail. */
  lemma EmittedSlotsIncrease(c: Config, start: uint64, env: Environment, hashAt: uint64 -> string)
    requires SlotsFromKeys(c)
    requires forall n, slot: uint64 :: 0 <= n < |env| ==> InOrderFrom(c, slot, env[n](slot).rows, hashAt)
    ensures Increasing(Read(c, start, env).state.emitted)
  {
    RunAscends(c, Init(start), 0, env, hashAt);
  }
}
