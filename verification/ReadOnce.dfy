/** The faulty, retried read against one clean scan of the table: the same blocks, each once, in
    the same order; and exactly when a scan gives every row. */
module ReadOnce {
  import opened Basics
  import opened BlockRows
  import opened ReadSpec
  import opened ReadSafety
  import opened ReadOrder

  // ----- the table and its scans -----

  /** The rows of `table` filed at `slot` or above. */
  function Scan(c: Config, table: seq<Row>, slot: uint64): seq<Row>
  {
    if table == [] then [] else
      var rest := Scan(c, table[..|table| - 1], slot);
      if c.filed(Last(table)) >= slot then rest + [Last(table)] else rest
  }

  /** One uninterrupted pass over the table. */
  function CleanScan(c: Config, table: seq<Row>, start: uint64): State
  {
    Deliver(c, Init(start), Scan(c, table, start)).0
  }

  /** How a table answers: some of the rows in range, and all of them unless the round breaks. */
  ghost predicate Serves(c: Config, table: seq<Row>, answer: uint64 -> Round)
  {
    forall slot: uint64 ::
      && answer(slot).rows <= Scan(c, table, slot)
      && (!answer(slot).fault ==> answer(slot).rows == Scan(c, table, slot))
  }

  /** The table as it stands in each round: it only ever grows at its end. */
  ghost predicate AppendOnly(c: Config, tables: seq<seq<Row>>)
  {
    && (forall i :: 0 <= i < |tables| ==> SlotOrdered(c, tables[i]))
    && (forall i, j :: 0 <= i <= j < |tables| ==> tables[i] <= tables[j])
  }

  ghost predicate ServedBy(c: Config, tables: seq<seq<Row>>, env: Environment)
  {
    && AppendOnly(c, tables)
    && |tables| == |env|
    && (forall i :: 0 <= i < |env| ==> Serves(c, tables[i], env[i]))
  }

  lemma {:induction false} ScanOfPrefix(c: Config, table: seq<Row>, longer: seq<Row>, slot: uint64)
    requires table <= longer
    ensures Scan(c, table, slot) <= Scan(c, longer, slot)
    decreases |longer|
  {
    if |table| < |longer| {
      var init := longer[..|longer| - 1];
      assert table <= init;
      ScanOfPrefix(c, table, init, slot);
    } else {
      assert table == longer;
    }
  }

  /** The rows before `n` are those filed below `slot`. */
  predicate SplitsAt(c: Config, table: seq<Row>, slot: uint64, n: nat)
  {
    n <= |table| && forall i :: 0 <= i < |table| ==> (c.filed(table[i]) < slot <==> i < n)
  }

  lemma FindSplit(c: Config, table: seq<Row>, slot: uint64) returns (n: nat)
    requires SlotOrdered(c, table)
    ensures SplitsAt(c, table, slot, n)
  {
    n := 0;
    while n < |table| && c.filed(table[n]) < slot
      invariant n <= |table| && forall i :: 0 <= i < n ==> c.filed(table[i]) < slot
    {
      n := n + 1;
    }
  }

  lemma {:induction false} SplitIsSuffix(c: Config, table: seq<Row>, slot: uint64, n: nat)
    requires SplitsAt(c, table, slot, n)
    ensures Scan(c, table, slot) == table[n..]
  {
    if table != [] {
      var k := |table| - 1;
      var init := table[..k];
      assert Last(table) == table[k];
      assert forall i :: 0 <= i < k ==> init[i] == table[i];
      if n == |table| {
        assert SplitsAt(c, init, slot, k) && c.filed(table[k]) < slot;
        SplitIsSuffix(c, init, slot, k);
        assert init[k..] == [] && table[n..] == [];
      } else {
        assert SplitsAt(c, init, slot, n) && c.filed(table[k]) >= slot;
        SplitIsSuffix(c, init, slot, n);
        assert table[n..] == init[n..] + [table[k]];
      }
    }
  }

  /** In slot order, a scan is a suffix of the table. */
  lemma ScanIsSuffix(c: Config, table: seq<Row>, slot: uint64) returns (n: nat)
    requires SlotOrdered(c, table)
    ensures SplitsAt(c, table, slot, n) && Scan(c, table, slot) == table[n..]
  {
    n := FindSplit(c, table, slot);
    SplitIsSuffix(c, table, slot, n);
  }

  /** A scan that starts from a row of an earlier scan is the rest of that scan from this row. */
  lemma RescanFromRow(c: Config, table: seq<Row>, start: uint64, j: nat)
    requires SlotOrdered(c, table) && j < |Scan(c, table, start)|
    ensures Scan(c, table, c.filed(Scan(c, table, start)[j])) == Scan(c, table, start)[j..]
  {
    var n := ScanIsSuffix(c, table, start);
    var m := ScanIsSuffix(c, table, c.filed(table[n + j]));
    assert m <= n + j;
    assert table[n..][j..] == table[n + j..];
  }

  /** The guard that skips rows below the start has nothing to skip. */
  lemma ScanNeverGoesBelowStart(c: Config, table: seq<Row>, start: uint64)
    requires SlotOrdered(c, table) && SlotsFromKeys(c)
    ensures NoLower(c, start, Scan(c, table, start))
  {
    var n := ScanIsSuffix(c, table, start);
  }

  // ----- replaying a prefix -----

  /** Equal for the callback: the start slot matters only until a block has been seen. */
  predicate Same(s: State, t: State)
  {
    s.(start := t.start) == t && (!s.seen ==> s.start == t.start)
  }

  lemma {:induction false} DeliverSame(c: Config, s: State, t: State, rows: seq<Row>)
    requires Same(s, t)
    ensures Same(Deliver(c, s, rows).0, Deliver(c, t, rows).0)
    ensures Deliver(c, s, rows).1 == Deliver(c, t, rows).1
    decreases |rows|
  {
    if rows != [] {
      var (s1, v) := OnRow(c, s, rows[0]);
      var (t1, w) := OnRow(c, t, rows[0]);
      assert Same(s1, t1) && v == w;
      if v.More? { DeliverSame(c, s1, t1, rows[1..]); }
    }
  }

  /** Rows that repeat the hash of the last block leave the state alone. */
  lemma {:induction false} RepeatsAreDropped(c: Config, s: State, rows: seq<Row>)
    requires s.seen && s.last.Some?
    requires forall i :: 0 <= i < |rows| ==> c.read(rows[i]).Good? && c.read(rows[i]).blk.hash == s.last.value.hash
    ensures Deliver(c, s, rows) == (s, More)
    decreases |rows|
  {
    if rows != [] { RepeatsAreDropped(c, s, rows[1..]); }
  }

  /** `s` is what a clean pass over the first `n` rows leaves, and the pass wants more. */
  predicate At(c: Config, start: uint64, rows: seq<Row>, n: nat, s: State)
  {
    && n <= |rows|
    && Deliver(c, Init(start), rows[..n]).1.More?
    && Same(Deliver(c, Init(start), rows[..n]).0, s)
  }

  predicate NoLower(c: Config, start: uint64, rows: seq<Row>)
  {
    forall row :: row in rows && c.read(row).Good? ==> c.read(row).blk.slot >= start
  }

  /** The row that gave the last block, `j`; every row since then repeats its hash. */
  lemma {:induction false} WhereLast(c: Config, start: uint64, rows: seq<Row>, n: nat) returns (j: nat)
    requires n <= |rows| && NoLower(c, start, rows)
    requires Deliver(c, Init(start), rows[..n]).1.More?
    ensures
      var s := Deliver(c, Init(start), rows[..n]).0;
      && s.seen == s.last.Some?
      && s.fatal.None?
      && (s.last.None? ==> n == 0)
      && (s.last.Some? ==>
            && j < n
            && c.read(rows[j]) == Good(s.last.value)
            && forall i :: j <= i < n ==> c.read(rows[i]).Good? && c.read(rows[i]).blk.hash == s.last.value.hash)
  {
    j := 0;
    if n > 0 {
      assert rows[..n] == rows[..n - 1] + [rows[n - 1]];
      DeliverAppend(c, Init(start), rows[..n - 1], [rows[n - 1]]);
      j := WhereLast(c, start, rows, n - 1);
      var s := Deliver(c, Init(start), rows[..n - 1]).0;
      assert rows[n - 1] in rows;
      var (s1, v) := OnRow(c, s, rows[n - 1]);
      assert Deliver(c, s1, []) == (s1, More);
      assert Deliver(c, s, [rows[n - 1]]) == (s1, v);
      if s1.emitted != s.emitted { j := n - 1; }
    }
  }

  /** Rows that begin again at the last block's row, `j`: those up to `n` are dropped, the rest
      continue the clean pass. */
  lemma ReplayFromLast(c: Config, start: uint64, rows: seq<Row>, s: State, n: nat, j: nat, got: seq<Row>)
    returns (m: nat)
    requires At(c, start, rows, n, s) && s.seen && s.last.Some? && j < n
    requires forall i :: j <= i < n ==> c.read(rows[i]).Good? && c.read(rows[i]).blk.hash == s.last.value.hash
    requires got <= rows[j..]
    ensures n <= m <= |rows|
    ensures Deliver(c, Init(start), rows[..m]).1 == Deliver(c, Resume(s), got).1
    ensures Same(Deliver(c, Init(start), rows[..m]).0, Deliver(c, Resume(s), got).0)
    ensures got == rows[j..] ==> m == |rows|
  {
    var s0 := Resume(s);
    var clean := Deliver(c, Init(start), rows[..n]).0;
    if j + |got| <= n {
      m := n;
      RepeatsAreDropped(c, s0, got);
    } else {
      m := j + |got|;
      assert got == rows[j..n] + rows[n..m];
      RepeatsAreDropped(c, s0, rows[j..n]);
      DeliverAppend(c, s0, rows[j..n], rows[n..m]);
      assert rows[..m] == rows[..n] + rows[n..m];
      DeliverAppend(c, Init(start), rows[..n], rows[n..m]);
      DeliverSame(c, clean, s0, rows[n..m]);
    }
  }

  /** One round, from wherever the clean pass had got to, gets the clean pass to row `m`. */
  lemma RoundReplays(c: Config, table: seq<Row>, start: uint64, s: State, n: nat, got: seq<Row>) returns (m: nat)
    requires SlotOrdered(c, table) && SlotsFromKeys(c)
    requires At(c, start, Scan(c, table, start), n, s)
    requires got <= Scan(c, table, Resume(s).start)
    ensures
      var rows := Scan(c, table, start);
      && m <= |rows|
      && Deliver(c, Init(start), rows[..m]).1 == Deliver(c, Resume(s), got).1
      && Same(Deliver(c, Init(start), rows[..m]).0, Deliver(c, Resume(s), got).0)
      && (got == Scan(c, table, Resume(s).start) ==> m == |rows|)
  {
    var rows := Scan(c, table, start);
    ScanNeverGoesBelowStart(c, table, start);
    var j := WhereLast(c, start, rows, n);
    if s.last.None? {
      m := |got|;
      assert got == rows[..m] && rows[..0] == [];
      DeliverSame(c, Init(start), Resume(s), got);
    } else {
      RescanFromRow(c, table, start, j);
      m := ReplayFromLast(c, start, rows, s, n, j, got);
    }
  }

  /** In an unbounded read, a round that asks for no more without failing stopped before an
      unlinkable row; the pass up to that row still wants more. */
  lemma {:induction false} BeforeUnlinkable(c: Config, start: uint64, rows: seq<Row>, m: nat) returns (n: nat)
    requires c.stop == 0 && m <= |rows| && NoLower(c, start, rows)
    requires var (s, v) := Deliver(c, Init(start), rows[..m]); v.Stop? && s.fatal.None?
    ensures n < m && Deliver(c, Init(start), rows[..n]) == (Deliver(c, Init(start), rows[..m]).0, More)
  {
    assert rows[..m] == rows[..m - 1] + [rows[m - 1]];
    DeliverAppend(c, Init(start), rows[..m - 1], [rows[m - 1]]);
    var (s, v) := Deliver(c, Init(start), rows[..m - 1]);
    if v.More? {
      n := m - 1;
      var j := WhereLast(c, start, rows, n);
      var (s1, w) := OnRow(c, s, rows[m - 1]);
      assert Deliver(c, s1, []) == (s1, More);
      assert Deliver(c, s, [rows[m - 1]]) == (s1, w);
    } else {
      n := BeforeUnlinkable(c, start, rows, m - 1);
    }
  }

  /** The same for one iteration of the retry loop, with the position to go on from. */
  lemma OneRoundReplays(c: Config, table: seq<Row>, start: uint64, s: State, n: nat, attempts: nat,
                        answer: uint64 -> Round) returns (m: nat)
    requires SlotOrdered(c, table) && SlotsFromKeys(c) && Serves(c, table, answer)
    requires At(c, start, Scan(c, table, start), n, s)
    ensures
      var rows := Scan(c, table, start);
      var t := OneRound(c, s, attempts, answer);
      && m <= |rows|
      && Same(Deliver(c, Init(start), rows[..m]).0, t.state)
      && (t.end.Clean? ==> Same(CleanScan(c, table, start), t.state))
      && (t.result.None? ==> At(c, start, rows, m, t.state))
  {
    var rows := Scan(c, table, start);
    var s0 := Resume(s);
    var round := answer(s0.start);
    m := RoundReplays(c, table, start, s, n, round.rows);
    var (s1, v) := Deliver(c, s0, round.rows);
    OneRoundEnds(c, s, attempts, answer);
    assert rows == rows[..m] + rows[m..];
    DeliverAppend(c, Init(start), rows[..m], rows[m..]);
    if m == |rows| { assert rows[..m] == rows; }
    if v.Stop? && c.stop == 0 && s1.fatal.None? {
      ScanNeverGoesBelowStart(c, table, start);
      m := BeforeUnlinkable(c, start, rows, m);
    }
  }

  /** The same, for a table that is still to grow: positions count in what it will become. */
  lemma OneRoundReplaysIn(c: Config, current: seq<Row>, table: seq<Row>, start: uint64, s: State, n: nat,
                          attempts: nat, answer: uint64 -> Round) returns (m: nat)
    requires SlotOrdered(c, current) && SlotsFromKeys(c) && Serves(c, current, answer) && current <= table
    requires At(c, start, Scan(c, table, start), n, s) && n <= |Scan(c, current, start)|
    ensures
      var rows := Scan(c, table, start);
      var t := OneRound(c, s, attempts, answer);
      && m <= |Scan(c, current, start)| <= |rows|
      && Same(Deliver(c, Init(start), rows[..m]).0, t.state)
      && (t.end.Clean? ==> Same(CleanScan(c, current, start), t.state))
      && (t.result.None? ==> At(c, start, rows, m, t.state))
  {
    var rows, now := Scan(c, table, start), Scan(c, current, start);
    ScanOfPrefix(c, current, table, start);
    assert now[..n] == rows[..n];
    m := OneRoundReplays(c, current, start, s, n, attempts, answer);
    assert now[..m] == rows[..m];
  }

  /** The whole run is a clean pass over some first `m` rows; and over every row the table held in
      its last round, if that round ended cleanly. */
  lemma {:induction false} RunReplays(c: Config, tables: seq<seq<Row>>, start: uint64, s: State, attempts: nat,
                                      env: Environment, table: seq<Row>, n: nat) returns (m: nat)
    requires SlotsFromKeys(c) && ServedBy(c, tables, env) && SlotOrdered(c, table)
    requires forall i :: 0 <= i < |tables| ==> tables[i] <= table
    requires At(c, start, Scan(c, table, start), n, s)
    requires tables != [] ==> n <= |Scan(c, tables[0], start)|
    ensures
      var o := Run(c, s, attempts, env);
      var rows := Scan(c, table, start);
      && m <= |rows|
      && Same(Deliver(c, Init(start), rows[..m]).0, o.state)
      && (o.ends != [] && Last(o.ends).Clean? ==> Same(CleanScan(c, tables[|o.ends| - 1], start), o.state))
    decreases |env|
  {
    m := n;
    if env != [] {
      m := OneRoundReplaysIn(c, tables[0], table, start, s, n, attempts, env[0]);
      var t := OneRound(c, s, attempts, env[0]);
      if t.result.None? {
        ServedLater(c, tables, env);
        if |env| > 1 { ScanOfPrefix(c, tables[0], tables[1], start); }
        m := RunReplays(c, tables[1..], start, t.state, t.attempts, env[1..], table, m);
        AfterRound(c, s, attempts, env);
      }
    }
  }

  lemma ServedLater(c: Config, tables: seq<seq<Row>>, env: Environment)
    requires ServedBy(c, tables, env) && env != []
    ensures ServedBy(c, tables[1..], env[1..])
  {
  }

  /** The rounds of a run are its first one and those of the rest. */
  lemma AfterRound(c: Config, s: State, attempts: nat, env: Environment)
    requires env != [] && OneRound(c, s, attempts, env[0]).result.None?
    ensures
      var t := OneRound(c, s, attempts, env[0]);
      var o, rest := Run(c, s, attempts, env), Run(c, t.state, t.attempts, env[1..]);
      && o.state == rest.state
      && |o.ends| == 1 + |rest.ends|
      && o.ends[0] == t.end
      && (rest.ends != [] ==> Last(o.ends) == Last(rest.ends))
      && (rest.ends == [] ==> o.state == t.state)
  {
  }
}
