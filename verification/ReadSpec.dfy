/** The reconnecting reader as a state machine on values: what one row, one `ReadRows` call and
    one whole `Read` do to the variables that the row callback captures. */
module ReadSpec {
  import opened Basics
  import opened BlockRows

  /** What one `Read` call is given. `read` is `ProcessRow`, and `filed` the slot of a row's key.
      `sink` is `processBlock`: it is shown every block handed to it so far, the newest last, and
      says whether it accepts the newest. */
  datatype Config = Config(
    stop: uint64,
    maxAttempts: uint64,
    read: Row -> RowResult,
    filed: Row -> uint64,
    sink: seq<Block> -> bool)

  datatype Cause = RowUnreadable | SinkRefused

  datatype State = State(start: uint64, seen: bool, last: Option<Block>, fatal: Option<Cause>, emitted: seq<Block>)

  function Init(start: uint64): State { State(start, false, None, None, []) }

  /** What the row callback asks for: the next row, no more rows, or it panicked. */
  datatype Verdict = More | Stop | Crashing

  function OnRow(c: Config, s: State, row: Row): (State, Verdict)
  {
    match c.read(row)
    case Crash => (s, Crashing)
    case Unreadable => (s.(fatal := Some(RowUnreadable)), Stop)
    case Good(blk) =>
      if !s.seen && blk.slot < s.start then (s, More) else
        var s1 := s.(seen := true);
        if s.last.Some? && s.last.value.hash == blk.hash then (s1, More)
        else if s.last.Some? && s.last.value.hash != blk.prevHash then (s1, Stop)
        else
          var s2 := s1.(last := Some(blk), emitted := s.emitted + [blk]);
          if !c.sink(s2.emitted) then (s2.(fatal := Some(SinkRefused)), Stop)
          else if c.stop != 0 && blk.slot > c.stop then (s2, Stop)
          else (s2, More)
  }

  /** Rows handed to the callback in turn, until it asks for no more. */
  function Deliver(c: Config, s: State, rows: seq<Row>): (State, Verdict)
    decreases |rows|
  {
    if rows == [] then (s, More) else
      var (s1, v) := OnRow(c, s, rows[0]);
      if v.More? then Deliver(c, s1, rows[1..]) else (s1, v)
  }

  /** One `ReadRows` call as the table answers it: the rows it has to give, then a clean end or
      a transient error. A callback that asks for no more rows ends the call without an error. */
  datatype Round = Round(rows: seq<Row>, fault: bool)

  datatype RoundEnd = Clean | Broken | Panicked

  function ReadRows(c: Config, s: State, round: Round): (State, RoundEnd)
  {
    var (s1, v) := Deliver(c, s, round.rows);
    (s1, match v
         case More => if round.fault then Broken else Clean
         case Stop => Clean
         case Crashing => Panicked)
  }

  /** The table's answers, one per round, each a function of the slot the scan starts from. */
  type Environment = seq<uint64 -> Round>

  /** `Running` is a read still looping when the observation ends. */
  datatype Result = Running | Done | TooManyAttempts(attempts: nat) | Fatal(cause: Cause, last: Option<Block>) | Crashed

  /** What a whole run comes to: the state it leaves, the failures it counted, how each round ended,
      and what `Read` returned. */
  datatype Report = Report(state: State, attempts: nat, ends: seq<RoundEnd>, result: Result)

  /** A new round starts over from the last boundary. */
  function Resume(s: State): State
  {
    if s.last.Some? then s.(start := s.last.value.slot) else s
  }

  /** One iteration of the retry loop: the state after it, and the result if the read ends here. */
  datatype Turn = Turn(state: State, attempts: nat, end: RoundEnd, result: Option<Result>)

  /** What follows a `ReadRows` call. */
  function Conclude(c: Config, s: State, attempts: nat, end: RoundEnd): Turn
  {
    match end
    case Panicked => Turn(s, attempts, end, Some(Crashed))
    case Broken =>
      var n := attempts + 1;
      Turn(s, n, end, if n >= c.maxAttempts then Some(TooManyAttempts(n)) else None)
    case Clean =>
      Turn(s, attempts, end,
           if s.fatal.Some? then Some(Fatal(s.fatal.value, s.last))
           else if c.stop != 0 then Some(Done)
           else None)
  }

  function OneRound(c: Config, s: State, attempts: nat, answer: uint64 -> Round): Turn
  {
    var s0 := Resume(s);
    var (s1, end) := ReadRows(c, s0, answer(s0.start));
    Conclude(c, s1, attempts, end)
  }

  function Run(c: Config, s: State, attempts: nat, env: Environment): (o: Report)
    ensures |o.ends| <= |env|
    decreases |env|
  {
    if env == [] then Report(s, attempts, [], Running) else
      var t := OneRound(c, s, attempts, env[0]);
      if t.result.Some? then Report(t.state, t.attempts, [t.end], t.result.value)
      else After(t.end, Run(c, t.state, t.attempts, env[1..]))
  }

  function After(end: RoundEnd, o: Report): Report { o.(ends := [end] + o.ends) }

  function Read(c: Config, start: uint64, env: Environment): Report
  {
    Run(c, Init(start), 0, env)
  }
}
