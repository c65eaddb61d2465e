// VEDirect::read: scan the VE.Direct text stream line by line for one
// label and decode its value. The method mirrors the source's loops; the
// functions ScanLine (the inner loop), Round and Run (the outer loop)
// state what it computes.
module VictronVEDirect {
  import opened Ints
  import opened CString
  import opened VEDirectDefs
  import opened SerialLink

  // ---------------------------------------------------------------------
  // The inner loop: accumulating one line

  /** A value of b the inner loop skips at the cost of one loop: an empty
      read or '\r'. Since b is an int8_t, a data byte 0xFF arrives as -1
      and is skipped as well. */
  predicate Skipped(b: int) {
    b == -1 || b == Cr
  }

  /** The int8_t b the reader makes of observation i. */
  function ByteAt(rx: seq<Sample>, i: nat): I8 {
    ToI8(Obs(rx, i))
  }

  /** Bytes that may sit in the line buffer: chars that are neither
      skipped nor a newline. */
  predicate Clean(s: seq<int>) {
    forall i :: 0 <= i < |s| ==> !Skipped(s[i]) && s[i] != Lf && -0x80 <= s[i] < 0x80
  }

  /** The bytes of observations from..to that are not skipped, in order. */
  function Kept(rx: seq<Sample>, from: nat, to: nat): seq<int>
    decreases to - from
  {
    if to <= from then []
    else if Skipped(ByteAt(rx, from)) then Kept(rx, from + 1, to)
    else [ByteAt(rx, from)] + Kept(rx, from + 1, to)
  }

  /** The number of observations from..to that are skipped. */
  function SkippedCount(rx: seq<Sample>, from: nat, to: nat): nat
    decreases to - from
  {
    if to <= from then 0
    else if Skipped(ByteAt(rx, from)) then 1 + SkippedCount(rx, from + 1, to)
    else SkippedCount(rx, from + 1, to)
  }

  /** How the inner loop ended: at a newline, with the loop budget used up,
      or at a data byte with the buffer full. */
  datatype LineEnd = Newline | OutOfLoops | Overflow

  /** The line bytes accumulated, the read position and loop budget after
      the inner loop, and how it ended. */
  datatype LineScan = LineScan(bytes: seq<int>, pos: nat, loops: nat, end: LineEnd)

  /** The inner loop, from read position pos with loops of budget left and
      acc already in the buffer. */
  function ScanLine(rx: seq<Sample>, pos: nat, loops: nat, acc: seq<int>): (sc: LineScan)
    requires |acc| <= LineSize
    ensures |sc.bytes| <= LineSize
    decreases loops, LineSize - |acc|
  {
    if loops == 0 then LineScan(acc, pos, 0, OutOfLoops)
    else
      var b := ByteAt(rx, pos);
      if Skipped(b) then ScanLine(rx, pos + 1, loops - 1, acc)
      else if b == Lf then LineScan(acc, pos + 1, loops, Newline)
      else if |acc| < LineSize then ScanLine(rx, pos + 1, loops, acc + [b])
      else LineScan(acc, pos + 1, loops, Overflow)
  }

  /** How the inner loop ends: only at a newline, with the budget used up
      (and then exactly then), or at a data byte with the buffer full; it
      never moves back, and spends none of the budget it is not given. */
  lemma {:induction false} ScanLineEnds(rx: seq<Sample>, pos: nat, loops: nat, acc: seq<int>)
    requires |acc| <= LineSize
    ensures var sc := ScanLine(rx, pos, loops, acc);
            && pos <= sc.pos && sc.loops <= loops
            && (sc.end == OutOfLoops) == (sc.loops == 0)
            && (sc.end != OutOfLoops ==> pos < sc.pos)
            && (sc.end == Newline ==> ByteAt(rx, sc.pos - 1) == Lf)
            && (sc.end == Overflow ==>
                  var b := ByteAt(rx, sc.pos - 1);
                  |sc.bytes| == LineSize && !Skipped(b) && b != Lf)
    decreases loops, LineSize - |acc|
  {
    if loops > 0 {
      var b := ByteAt(rx, pos);
      if Skipped(b) {
        ScanLineEnds(rx, pos + 1, loops - 1, acc);
      } else if b != Lf && |acc| < LineSize {
        ScanLineEnds(rx, pos + 1, loops, acc + [b]);
      }
    }
  }

  /** What the inner loop keeps: every observation that is not skipped, in
      order, up to the one that ends it. */
  lemma {:induction false} ScanLineKeeps(rx: seq<Sample>, pos: nat, loops: nat, acc: seq<int>)
    requires |acc| <= LineSize
    ensures var sc := ScanLine(rx, pos, loops, acc);
            var stop := if sc.end == OutOfLoops then sc.pos else sc.pos - 1;
            pos <= stop && sc.bytes == acc + Kept(rx, pos, stop)
    decreases loops, LineSize - |acc|
  {
    var sc := ScanLine(rx, pos, loops, acc);
    var stop := if sc.end == OutOfLoops then sc.pos else sc.pos - 1;
    ScanLineEnds(rx, pos, loops, acc);
    if loops > 0 {
      var b := ByteAt(rx, pos);
      if Skipped(b) {
        ScanLineKeeps(rx, pos + 1, loops - 1, acc);
      } else if b == Lf {
        assert stop == pos;
      } else if |acc| < LineSize {
        ScanLineKeeps(rx, pos + 1, loops, acc + [b]);
        assert Kept(rx, pos, stop) == [b] + Kept(rx, pos + 1, stop);
        assert acc + [b] + Kept(rx, pos + 1, stop) == acc + ([b] + Kept(rx, pos + 1, stop));
      } else {
        assert stop == pos;
      }
    }
  }

  /** The inner loop spends one loop on each skipped observation and on
      nothing else. */
  lemma {:induction false} ScanLineSpends(rx: seq<Sample>, pos: nat, loops: nat, acc: seq<int>)
    requires |acc| <= LineSize
    ensures var sc := ScanLine(rx, pos, loops, acc);
            var stop := if sc.end == OutOfLoops then sc.pos else sc.pos - 1;
            pos <= stop && loops - sc.loops == SkippedCount(rx, pos, stop)
    decreases loops, LineSize - |acc|
  {
    ScanLineEnds(rx, pos, loops, acc);
    if loops > 0 {
      var b := ByteAt(rx, pos);
      if Skipped(b) {
        ScanLineSpends(rx, pos + 1, loops - 1, acc);
      } else if b != Lf && |acc| < LineSize {
        ScanLineSpends(rx, pos + 1, loops, acc + [b]);
      }
    }
  }

  /** The line buffer never holds an empty read, a '\r' or a '\n': only
      the int8_t values of data bytes. */
  lemma {:induction false} ScanLineClean(rx: seq<Sample>, pos: nat, loops: nat, acc: seq<int>)
    requires |acc| <= LineSize && Clean(acc)
    ensures Clean(ScanLine(rx, pos, loops, acc).bytes)
    decreases loops, LineSize - |acc|
  {
    if loops > 0 {
      var b := ByteAt(rx, pos);
      if Skipped(b) {
        ScanLineClean(rx, pos + 1, loops - 1, acc);
      } else if b != Lf && |acc| < LineSize {
        assert Clean(acc + [b]);
        ScanLineClean(rx, pos + 1, loops, acc + [b]);
      }
    }
  }

  // ---------------------------------------------------------------------
  // Decoding a value token

  /** The value a matching line yields for its value token v: a token that
      starts with 'O' is ON (1) when its second char is 'N' and OFF (0)
      otherwise; any other token is read with sscanf("%ld"), and when that
      fails the result keeps its initial 0. (strtok never returns an empty
      token; the empty one would fail the conversion.) */
  function DecodeValue(v: seq<int>): I32 {
    if v != [] && v[0] == 'O' as int then
      if |v| >= 2 && v[1] == 'N' as int then 1 else 0
    else
      match ScanLong(v)
      case Some(n) => n
      case None => 0
  }

  // ---------------------------------------------------------------------
  // The outer loop

  /** What the source makes of a complete line: strtok(line, "\t") gives
      NULL (NoLabel); the label token differs from the target's label
      (Miss); strtok(NULL, "\t") gives NULL (NoValue); or the value token
      decodes to a value (Hit). */
  datatype Verdict = NoLabel | Miss | NoValue | Hit(value: I32)

  function Classify(text: seq<int>, target: nat): Verdict
    requires target < LastLabel
  {
    match NextToken(text)
    case None => NoLabel
    case Some(key) =>
      if !SameStr(key.text, Label(target)) then Miss
      else
        match NextToken(key.rest)
        case None => NoValue
        case Some(value) => Hit(DecodeValue(value.text))
  }

  /** How a read ended. The source returns 0 in every case but Matched;
      NullLabel and NullValue are the lines on which strtok returns NULL
      and the source then dereferences it (undefined in C: the model stops
      the read there). */
  datatype Outcome = Matched | Overrun | NotFound | Timeout | NullLabel | NullValue

  /** What a read works on: the recorded line, the recorded clock, the
      timeout serial_timout and the target field's enum value. */
  datatype Request = Request(rx: seq<Sample>, clock: seq<U32>, timeout: U32, target: nat)

  /** The end of a read: the value returned and how the read ended, the
      read position and clock step it leaves, serial_last_available, the
      number of lines discarded and the diagnostic output. */
  datatype Reading = Reading(value: int, outcome: Outcome, pos: nat, tick: nat, last: U32,
                             discarded: nat, log: seq<Printed>)

  /** A line the reader prints on the diagnostic console (Serial): a line
      of the stream echoed in dump mode, or the notice "VESerial Timeout". */
  datatype Printed = Echo(text: seq<int>) | TimeoutNotice

  /** The state at the head of the outer loop (`while (lines > 0)`): the
      read position, the clock step, the line budget left,
      serial_last_available, the lines discarded so far and the output so
      far. The loop budget and the buffer need no place here: they are full
      and empty at every head. */
  datatype State = State(pos: nat, tick: nat, lines: nat, last: U32, discarded: nat, log: seq<Printed>)

  /** Whether read() returns after a pass through the loop body (with the
      end of the read), or goes on to the next pass (from that state). */
  datatype Turn = Stop(r: Reading) | Go(s: State)

  predicate Fits(q: Request, s: State) {
    q.target < LastLabel && s.tick <= |q.clock|
  }

  /** A pass that finds a byte pending: read a line, echo it in dump mode
      and look at its label. Go is the state after a line not of interest,
      once serial_last_available is renewed. */
  function TakeLineSpec(q: Request, s: State): (t: Turn)
    requires Fits(q, s) && s.lines > 0
    ensures t.Go? ==> Fits(q, t.s) && s.tick <= t.s.tick
  {
    var sc := ScanLine(q.rx, s.pos, MaxReadLoops, []);
    if sc.end == Overflow then Stop(Reading(0, Overrun, sc.pos, s.tick, s.last, s.discarded, s.log))
    else Decide(q, s, sc.pos, CStr(sc.bytes))
  }

  /** What a complete line, the C string text, makes of the pass once the
      inner loop has left the read position at pos. */
  function Decide(q: Request, s: State, pos: nat, text: seq<int>): (t: Turn)
    requires Fits(q, s) && s.lines > 0
    ensures t.Go? ==> Fits(q, t.s) && s.tick <= t.s.tick
  {
    var log := if q.target == Index(Dump) then s.log + [Echo(text)] else s.log;
    match Classify(text, q.target)
    case NoLabel => Stop(Reading(0, NullLabel, pos, s.tick, s.last, s.discarded, log))
    case NoValue => Stop(Reading(0, NullValue, pos, s.tick, s.last, s.discarded, log))
    case Hit(v) => Stop(Reading(v, Matched, pos, s.tick, s.last, s.discarded, log))
    case Miss =>
      Go(State(pos, Next(q.clock, s.tick), s.lines - 1, Now(q.clock, s.tick), s.discarded + 1, log))
  }

  /** The timeout test at the foot of the loop body. */
  function Expire(q: Request, s: State): (t: Turn)
    requires Fits(q, s)
    ensures t.Go? ==> s.tick < t.s.tick <= |q.clock|
  {
    if s.tick == |q.clock| || SubU32(q.clock[s.tick], s.last) > q.timeout then
      Stop(Reading(0, Timeout, s.pos, Next(q.clock, s.tick), s.last, s.discarded, s.log + [TimeoutNotice]))
    else
      Go(s.(tick := s.tick + 1))
  }

  /** One pass through the body of the outer loop. */
  function Round(q: Request, s: State): (t: Turn)
    requires Fits(q, s) && s.lines > 0
    ensures t.Go? ==> s.tick < t.s.tick <= |q.clock|
  {
    if Obs(q.rx, s.pos) == -1 then Expire(q, s.(pos := s.pos + 1))
    else
      match TakeLineSpec(q, s)
      case Stop(r) => Stop(r)
      case Go(m) => Expire(q, m)
  }

  /** The outer loop from its head in state s. Every pass that goes on
      reads the clock, so the recorded clock bounds the passes. */
  function Run(q: Request, s: State): Reading
    requires Fits(q, s)
    decreases |q.clock| - s.tick
  {
    if s.lines == 0 then Reading(0, NotFound, s.pos, s.tick, s.last, s.discarded, s.log)
    else
      match Round(q, s)
      case Stop(r) => r
      case Go(s') => Run(q, s')
  }

  /** A whole read: record the time, then run the outer loop with the full
      line budget. */
  function ReadSpec(q: Request, pos: nat, tick: nat): Reading
    requires q.target < LastLabel && tick <= |q.clock|
  {
    Run(q, Start(q, pos, tick))
  }

  /** The state at the first head of the outer loop of a read that starts
      at read position pos and clock step tick: serial_last_available is the
      time at entry, the whole line budget is left, nothing is printed. */
  function Start(q: Request, pos: nat, tick: nat): State {
    State(pos, Next(q.clock, tick), MaxReadLines, Now(q.clock, tick), 0, [])
  }

  // ---------------------------------------------------------------------
  // The reader object

  class VEDirect {
    const port: Link                 // VESerial
    var serialTimeout: U32           // serial_timout
    var serialLastAvailable: U32     // serial_last_available

    /** The constructor, with the member set from the parameter (see
        "Findings" for the constructor as written). */
    constructor (port: Link, serialTimeout: U32 := 5000)
      ensures this.port == port && this.serialTimeout == serialTimeout
      ensures serialLastAvailable == 0
    {
      this.port := port;
      this.serialTimeout := serialTimeout;
      serialLastAvailable := 0;
    }

    /** The constructor as written: its body assigns the parameter
        serial_timout to itself, so the member keeps the value it had
        before: 0 for a reader of static storage duration (a global), the
        case taken here; the parameter is lost (see "Findings"). */
    constructor AsWritten(port: Link, serialTimeout: U32 := 5000)
      ensures this.port == port && this.serialTimeout == 0
      ensures serialLastAvailable == 0
    {
      this.port := port;
      this.serialTimeout := 0;
      serialLastAvailable := 0;
    }

    /** read(target): the decoded value of the first line labelled
        ved_labels[target], or 0; printed is what it prints on the
        diagnostic console. */
    method Read(target: Byte) returns (ret: I32, ghost outcome: Outcome, ghost printed: seq<Printed>)
      requires target < LastLabel && port.Valid()
      modifies this, port
      ensures port.Valid() && port.rx == old(port.rx) && port.clock == old(port.clock)
      ensures serialTimeout == old(serialTimeout)
      ensures var r := ReadSpec(Request(old(port.rx), old(port.clock), old(serialTimeout), target),
                                old(port.pos), old(port.tick));
              && ret == r.value && outcome == r.outcome
              && port.pos == r.pos && port.tick == r.tick
              && serialLastAvailable == r.last && printed == r.log
    {
      var lines: nat := MaxReadLines;
      ret := 0;
      // The line buffer has room for VED_LINE_SIZE bytes and the NUL.
      var line := new int[LineSize + 1];
      ghost var q := Request(port.rx, port.clock, serialTimeout, target as nat);
      ghost var total := ReadSpec(q, port.pos, port.tick);
      ghost var discarded: nat := 0;
      outcome, printed := NotFound, [];

      serialLastAvailable := port.Millis();

      while lines > 0
        invariant port.Valid() && port.rx == q.rx && port.clock == q.clock
        invariant serialTimeout == q.timeout && q.target == target as nat
        invariant ret == 0 && outcome == NotFound && line.Length == LineSize + 1
        invariant Run(q, State(port.pos, port.tick, lines, serialLastAvailable, discarded, printed)) == total
        decreases |port.clock| - port.tick
      {
        var stop;
        ghost var ended;
        stop, ret, lines, ended, discarded, printed := Poll(line, target, q, lines, discarded, printed);
        if stop {
          outcome := ended;
          return;
        }
      }
    }

    /** One pass of the body of read()'s outer loop; stop says whether
        read() returns after it. discarded and printed are the lines
        discarded and the console output so far; the pass updates them. */
    method Poll(line: array<int>, target: Byte, ghost q: Request, lines: nat,
                ghost discarded: nat, ghost printed: seq<Printed>)
        returns (stop: bool, ret: I32, lines': nat,
                 ghost outcome: Outcome, ghost discarded': nat, ghost printed': seq<Printed>)
      requires target < LastLabel && port.Valid() && line.Length == LineSize + 1 && lines > 0
      requires q == Request(port.rx, port.clock, serialTimeout, target as nat)
      modifies this`serialLastAvailable, port`pos, port`tick, line
      ensures port.Valid()
      ensures var t := Round(q, State(old(port.pos), old(port.tick), lines, old(serialLastAvailable),
                                      discarded, printed));
              && stop == t.Stop?
              && (stop ==> && ret == t.r.value && outcome == t.r.outcome && printed' == t.r.log
                           && port.pos == t.r.pos && port.tick == t.r.tick && serialLastAvailable == t.r.last)
              && (!stop ==> && ret == 0 && lines' == t.s.lines && discarded' == t.s.discarded
                            && printed' == t.s.log && port.pos == t.s.pos && port.tick == t.s.tick
                            && serialLastAvailable == t.s.last)
    {
      ghost var s := State(port.pos, port.tick, lines, serialLastAvailable, discarded, printed);
      ret, lines', outcome, discarded', printed' := 0, lines, NotFound, discarded, printed;
      var pending := port.Available();
      if pending {
        var taken;
        taken, ret, outcome, printed', discarded' := TakeLine(line, target, q, s);
        if taken {
          stop := true;
          return;
        }
        lines' := lines - 1;
      }
      var expired := port.TimedOut(serialLastAvailable, serialTimeout);
      if expired {
        outcome, printed' := Timeout, printed' + [TimeoutNotice];
      }
      stop := expired;
    }

    /** The part of a pass that runs when a byte is pending: read a line
        (the inner loop, which starts with the budget VED_MAX_READ_LOOPS and
        an empty buffer), echo it in dump mode and look at its label. stop
        says whether read() returns after it; otherwise the line was not of
        interest, is counted as discarded, and the buffer is reset for the
        next one. */
    method TakeLine(line: array<int>, target: Byte, ghost q: Request, ghost s: State)
        returns (stop: bool, ret: I32, ghost outcome: Outcome, ghost log: seq<Printed>, ghost discarded: nat)
      requires target < LastLabel && line.Length == LineSize + 1
      requires q == Request(port.rx, port.clock, serialTimeout, target as nat)
      requires s.pos == port.pos && s.tick == port.tick && Fits(q, s) && s.lines > 0
      requires s.last == serialLastAvailable && port.Valid()
      modifies this`serialLastAvailable, port`pos, port`tick, line
      ensures port.Valid()
      ensures var t := TakeLineSpec(q, s);
              && stop == t.Stop?
              && (stop ==> && ret == t.r.value && outcome == t.r.outcome && log == t.r.log
                           && port.pos == t.r.pos && port.tick == t.r.tick && serialLastAvailable == t.r.last)
              && (!stop ==> && ret == 0 && log == t.s.log && discarded == t.s.discarded
                            && port.pos == t.s.pos && port.tick == t.s.tick && serialLastAvailable == t.s.last)
    {
      ret, outcome, log, discarded := 0, Overrun, s.log, s.discarded;
      var idx, loops, overflow := ReadLine(line);
      ghost var sc := ScanLine(q.rx, s.pos, MaxReadLoops, []);
      if overflow {
        return true, 0, Overrun, s.log, s.discarded;
      }
      var verdict;
      ghost var text;
      verdict, text := ParseLine(line, idx, target, sc.bytes);
      if target as nat == Index(Dump) {
        log := log + [Echo(text)];
      }
      if verdict.NoLabel? {
        stop, outcome := true, NullLabel;
      } else if verdict.NoValue? {
        stop, outcome := true, NullValue;
      } else if verdict.Hit? {
        stop, ret, outcome := true, verdict.value, Matched;
      } else {
        stop := false;
        loops := MaxReadLoops;
        line[0] := Nul;
        idx := 0;
        serialLastAvailable := port.Millis();
        discarded := discarded + 1;
      }
    }

    /** A complete line in the buffer: terminate it (the text is then the C
        string the buffer holds) and split it with strtok into a label and
        a value token. */
    method ParseLine(line: array<int>, idx: nat, target: Byte, ghost data: seq<int>)
        returns (verdict: Verdict, ghost text: seq<int>)
      requires idx < line.Length && target < LastLabel && line[..idx] == data
      modifies line
      ensures text == CStr(data)
      ensures verdict == Classify(text, target as nat)
    {
      line[idx] := Nul;
      assert line[..] == data + [Nul] + line[idx + 1..];
      CStrTerminated(data, line[idx + 1..]);
      text := CStr(line[..]);
      verdict := Classify(CStr(line[..]), target as nat);
    }

    /** The inner loop (`while (loops > 0)`): read bytes into line until a
        newline, the loop budget is used up, or a data byte finds the buffer
        full (overflow), which ends the whole read. */
    method ReadLine(line: array<int>) returns (idx: nat, loops: nat, overflow: bool)
      requires port.Valid() && line.Length == LineSize + 1
      modifies port`pos, line
      ensures port.Valid() && idx <= LineSize
      ensures var sc := ScanLine(port.rx, old(port.pos), MaxReadLoops, []);
              && sc.bytes == line[..idx] && sc.pos == port.pos && sc.loops == loops
              && overflow == (sc.end == Overflow)
    {
      idx, loops := 0, MaxReadLoops;
      ghost var sc := ScanLine(port.rx, port.pos, MaxReadLoops, []);
      assert line[..0] == [];
      while loops > 0
        invariant port.Valid() && port.rx == old(port.rx) && port.clock == old(port.clock)
        invariant idx <= LineSize
        invariant ScanLine(port.rx, port.pos, loops, line[..idx]) == sc
        decreases loops, LineSize - idx
      {
        var v := port.Read();
        var b := ToI8(v);
        if b == -1 || b == Cr {
          loops := loops - 1;
        } else if b == Lf {
          assert sc == LineScan(line[..idx], port.pos, loops, Newline);
          return idx, loops, false;
        } else if idx < LineSize {
          line[idx] := b;
          assert line[..idx + 1] == line[..idx] + [b];
          idx := idx + 1;
        } else {
          assert sc == LineScan(line[..idx], port.pos, loops, Overflow);
          return idx, loops, true;
        }
      }
      overflow := false;
    }
  }
}
