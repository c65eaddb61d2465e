// What VEDirect::read promises, proved about the functions that specify it
// (ScanLine, Round, Run, ReadSpec): which bytes the inner loop keeps and
// spends its budget on, which line wins, when the line budget and the
// timeout end a read, what is printed, and what the value decoder yields.
module VEDirectProps {
  import opened Ints
  import opened CString
  import opened VEDirectDefs
  import opened SerialLink
  import opened VictronVEDirect

  // ---------------------------------------------------------------------
  // Streams of lines

  /** A byte an ASCII line of the protocol may hold: not NUL, '\r' or '\n',
      and below 0x80 (so read() gives it back unchanged as an int8_t). */
  predicate Plain(c: int) {
    0 < c < 0x80 && c != Cr && c != Lf
  }

  predicate PlainLine(line: seq<int>)
    decreases |line|
  {
    |line| == 0 || (Plain(line[0]) && PlainLine(line[1..]))
  }

  /** The observations from p on are the bytes of data. */
  predicate DataAt(rx: seq<Sample>, p: nat, data: seq<int>)
    decreases |data|
  {
    |data| == 0 || (p < |rx| && rx[p] == data[0] && DataAt(rx, p + 1, data[1..]))
  }

  /** Where the data lie in the observations. */
  lemma {:induction false} DataAtIndex(rx: seq<Sample>, p: nat, data: seq<int>, i: nat)
    requires DataAt(rx, p, data) && i < |data|
    ensures p + |data| <= |rx| && rx[p + i] == data[i]
    decreases |data|
  {
    if i > 0 {
      DataAtIndex(rx, p + 1, data[1..], i - 1);
    } else if |data| > 1 {
      DataAtIndex(rx, p + 1, data[1..], |data| - 2);
    }
  }

  /** Every byte of a plain line is plain. */
  lemma {:induction false} PlainAt(line: seq<int>, i: nat)
    requires PlainLine(line) && i < |line|
    ensures Plain(line[i])
    decreases i
  {
    if i > 0 {
      PlainAt(line[1..], i - 1);
    }
  }

  /** A plain line holds no NUL. */
  lemma {:induction false} PlainHasNoNul(line: seq<int>)
    requires PlainLine(line)
    ensures Nul !in line
    decreases |line|
  {
    if line != [] {
      PlainHasNoNul(line[1..]);
      assert line == [line[0]] + line[1..];
    }
  }

  /** The observations from p on are line followed by "\r\n". */
  predicate FramedAt(rx: seq<Sample>, p: nat, line: seq<int>) {
    DataAt(rx, p, line) && p + |line| + 2 <= |rx| && rx[p + |line|] == Cr && rx[p + |line| + 1] == Lf
  }

  /** No observation from..to-1 reads as '\n'. */
  predicate NoNewline(rx: seq<Sample>, from: nat, to: nat)
    decreases to - from
  {
    to <= from || (ByteAt(rx, from) != Lf && NoNewline(rx, from + 1, to))
  }

  /** The n observations from p on carry one line of the protocol as the
      inner loop reads it: a byte is pending at p; the last of them is the
      first '\n'; the bytes kept before it are line, free of NUL (any other
      byte, from 0x80 up included, may occur) and short enough for the
      buffer; and the empty reads, '\r's and bytes 0xFF among them cost
      fewer than VED_MAX_READ_LOOPS loops. */
  predicate LineAt(rx: seq<Sample>, p: nat, n: nat, line: seq<int>) {
    && 0 < n && Obs(rx, p) != -1 && ByteAt(rx, p + n - 1) == Lf
    && NoNewline(rx, p, p + n - 1) && Kept(rx, p, p + n - 1) == line
    && SkippedCount(rx, p, p + n - 1) < MaxReadLoops
    && Nul !in line && |line| <= LineSize
  }

  // ---------------------------------------------------------------------
  // The inner loop on concrete bytes

  /** The buffer keeps data bytes as they come, without spending any of the
      loop budget. */
  lemma {:induction false} ScanData(rx: seq<Sample>, p: nat, loops: nat, acc: seq<int>, data: seq<int>)
    requires loops > 0 && |acc| + |data| <= LineSize
    requires DataAt(rx, p, data) && PlainLine(data)
    ensures ScanLine(rx, p, loops, acc) == ScanLine(rx, p + |data|, loops, acc + data)
    decreases |data|
  {
    if |data| == 0 {
      assert acc + data == acc;
    } else {
      assert ByteAt(rx, p) == data[0];
      ScanData(rx, p + 1, loops, acc + [data[0]], data[1..]);
      assert acc + [data[0]] + data[1..] == acc + data;
    }
  }

  /** Up to a newline, the inner loop keeps what Kept says and spends one
      loop on each skipped observation, as long as the budget and the
      buffer last. */
  lemma {:induction false} ScanBody(rx: seq<Sample>, p: nat, e: nat, loops: nat, acc: seq<int>)
    requires p <= e && NoNewline(rx, p, e) && SkippedCount(rx, p, e) < loops
    requires |acc| + |Kept(rx, p, e)| <= LineSize
    ensures ScanLine(rx, p, loops, acc) == ScanLine(rx, e, loops - SkippedCount(rx, p, e), acc + Kept(rx, p, e))
    decreases e - p
  {
    if p == e {
      assert acc + Kept(rx, p, e) == acc;
    } else {
      var b := ByteAt(rx, p);
      if Skipped(b) {
        ScanBody(rx, p + 1, e, loops - 1, acc);
      } else {
        assert Kept(rx, p, e) == [b] + Kept(rx, p + 1, e);
        ScanBody(rx, p + 1, e, loops, acc + [b]);
        assert acc + [b] + Kept(rx, p + 1, e) == acc + Kept(rx, p, e);
      }
    }
  }

  /** A line of the protocol is read whole: the inner loop stops right
      after its '\n' with the line in the buffer, having spent one loop per
      observation it skipped. */
  lemma ScanLineAt(rx: seq<Sample>, p: nat, n: nat, line: seq<int>)
    requires LineAt(rx, p, n, line)
    ensures ScanLine(rx, p, MaxReadLoops, []) ==
            LineScan(line, p + n, MaxReadLoops - SkippedCount(rx, p, p + n - 1), Newline)
  {
    ScanBody(rx, p, p + n - 1, MaxReadLoops, []);
    assert [] + line == line;
  }

  /** Plain bytes followed by '\r' are kept whole, the '\r' skipped. */
  lemma {:induction false} DataKept(rx: seq<Sample>, p: nat, data: seq<int>)
    requires DataAt(rx, p, data) && PlainLine(data) && p + |data| < |rx| && rx[p + |data|] == Cr
    ensures Kept(rx, p, p + |data| + 1) == data
    ensures SkippedCount(rx, p, p + |data| + 1) == 1
    ensures NoNewline(rx, p, p + |data| + 1)
    decreases |data|
  {
    var e := p + |data| + 1;
    if |data| == 0 {
      assert ByteAt(rx, p) == Cr;
    } else {
      var b := data[0];
      assert ByteAt(rx, p) == b && Plain(b);
      DataKept(rx, p + 1, data[1..]);
      assert (p + 1) + |data[1..]| + 1 == e;
      KeptStep(rx, p, e);
      assert [b] + data[1..] == data;
    }
  }

  /** A data byte at the head of a stretch is kept, costs no loop and is no
      newline. */
  lemma KeptStep(rx: seq<Sample>, p: nat, e: nat)
    requires p < e && !Skipped(ByteAt(rx, p)) && ByteAt(rx, p) != Lf
    ensures Kept(rx, p, e) == [ByteAt(rx, p)] + Kept(rx, p + 1, e)
    ensures SkippedCount(rx, p, e) == SkippedCount(rx, p + 1, e)
    ensures NoNewline(rx, p, e) == NoNewline(rx, p + 1, e)
  {
  }

  /** A plain line followed by "\r\n" is a line of the protocol that takes
      |line| + 2 observations. */
  lemma FramedLine(rx: seq<Sample>, p: nat, line: seq<int>)
    requires FramedAt(rx, p, line) && PlainLine(line) && |line| <= LineSize
    ensures LineAt(rx, p, |line| + 2, line)
    ensures SkippedCount(rx, p, p + |line| + 1) == 1
  {
    DataKept(rx, p, line);
    FramedStartsPending(rx, p, line);
    PlainHasNoNul(line);
  }

  /** A line of at most VED_LINE_SIZE plain bytes followed by "\r\n" is read
      whole: the '\r' costs one loop, the '\n' ends the line. */
  lemma ScanFramed(rx: seq<Sample>, p: nat, line: seq<int>)
    requires FramedAt(rx, p, line) && PlainLine(line) && |line| <= LineSize
    ensures ScanLine(rx, p, MaxReadLoops, []) == LineScan(line, p + |line| + 2, MaxReadLoops - 1, Newline)
  {
    FramedLine(rx, p, line);
    ScanLineAt(rx, p, |line| + 2, line);
  }

  /** A data byte that finds the buffer full: when the observations from
      p up to p+n hold VED_LINE_SIZE kept bytes and no newline, within the
      loop budget, and observation p+n is one more data byte, the inner
      loop stops right after that byte with the buffer full. */
  lemma ScanOverlong(rx: seq<Sample>, p: nat, n: nat)
    requires NoNewline(rx, p, p + n) && |Kept(rx, p, p + n)| == LineSize
    requires SkippedCount(rx, p, p + n) < MaxReadLoops
    requires !Skipped(ByteAt(rx, p + n)) && ByteAt(rx, p + n) != Lf
    ensures ScanLine(rx, p, MaxReadLoops, []) ==
            LineScan(Kept(rx, p, p + n), p + n + 1, MaxReadLoops - SkippedCount(rx, p, p + n), Overflow)
  {
    ScanBody(rx, p, p + n, MaxReadLoops, []);
    assert [] + Kept(rx, p, p + n) == Kept(rx, p, p + n);
  }

  /** int8_t b: a data byte 0xFF reads as -1, the value of an empty read,
      and the inner loop drops it at the cost of one loop. */
  lemma ByteFFIsDropped(rx: seq<Sample>, p: nat, loops: nat, acc: seq<int>)
    requires p < |rx| && rx[p] == 0xFF && loops > 0
    requires |acc| <= LineSize
    ensures ByteAt(rx, p) == -1
    ensures ScanLine(rx, p, loops, acc) == ScanLine(rx, p + 1, loops - 1, acc)
  {
  }

  /** A framed line starts with a byte pending. */
  lemma FramedStartsPending(rx: seq<Sample>, p: nat, line: seq<int>)
    requires FramedAt(rx, p, line) && PlainLine(line)
    ensures Obs(rx, p) != -1
  {
  }

  // ---------------------------------------------------------------------
  // Lines as they arrive

  /** A line as the reader meets it: idle polls that find nothing pending,
      then the len observations of the line, its '\n' included. */
  datatype Arrival = Arrival(idle: nat, len: nat, line: seq<int>)

  /** The state after n idle polls: n observations and n clock readings on. */
  function Waited(s: State, n: nat): State {
    s.(pos := s.pos + n, tick := s.tick + n)
  }

  /** The next n polls from state s on each find nothing pending, and each
      timeout test finds the clock within serial_timout of the last
      activity. */
  predicate Waits(q: Request, s: State, n: nat)
    decreases n
  {
    n == 0 ||
    (&& Obs(q.rx, s.pos) == -1 && s.tick < |q.clock| && SubU32(q.clock[s.tick], s.last) <= q.timeout
     && Waits(q, Waited(s, 1), n - 1))
  }

  /** In state s the line a arrives: after its idle polls, its
      observations carry it. */
  predicate Arrives(q: Request, s: State, a: Arrival) {
    Waits(q, s, a.idle) && LineAt(q.rx, s.pos + a.idle, a.len, a.line)
  }

  /** In state s the line a arrives, is not of interest, and the timeout
      test after it finds the clock within serial_timout of the renewal of
      serial_last_available. */
  predicate MissOnTime(q: Request, s: State, a: Arrival)
    requires q.target < LastLabel
  {
    && Arrives(q, s, a) && Classify(a.line, q.target) == Miss
    && s.tick + a.idle + 2 <= |q.clock|
    && SubU32(q.clock[s.tick + a.idle + 1], q.clock[s.tick + a.idle]) <= q.timeout
  }

  /** The number of observations the lines take, idle polls included. */
  function Span(lines: seq<Arrival>): nat {
    if lines == [] then 0 else lines[0].idle + lines[0].len + Span(lines[1..])
  }

  /** The number of clock readings lines not of interest take: one per idle
      poll, and two per line (the renewal and the timeout test). */
  function Ticks(lines: seq<Arrival>): nat {
    if lines == [] then 0 else lines[0].idle + 2 + Ticks(lines[1..])
  }

  /** The dump-mode echo of the lines. */
  function Echoes(lines: seq<Arrival>): seq<Printed> {
    if lines == [] then [] else [Echo(lines[0].line)] + Echoes(lines[1..])
  }

  // ---------------------------------------------------------------------
  // One pass, one line

  /** An idle poll within the timeout lets the read go on from the next
      observation and clock reading. */
  lemma IdleWithinTimeout(q: Request, s: State)
    requires Fits(q, s) && s.lines > 0 && s.tick < |q.clock|
    requires Obs(q.rx, s.pos) == -1 && SubU32(q.clock[s.tick], s.last) <= q.timeout
    ensures Round(q, s) == Go(Waited(s, 1))
  {
  }

  /** A pass that goes on leaves the rest of the read to the next pass. */
  lemma RunGoesOn(q: Request, s: State, m: State)
    requires Fits(q, s) && s.lines > 0 && Round(q, s) == Go(m)
    ensures Fits(q, m) && Run(q, s) == Run(q, m)
  {
  }

  /** Idle polls within the timeout are passed over, one clock reading each. */
  lemma {:induction false} WaitRun(q: Request, s: State, n: nat)
    requires Fits(q, s) && s.lines > 0 && Waits(q, s, n)
    ensures s.tick + n <= |q.clock| && Run(q, s) == Run(q, Waited(s, n))
    decreases n
  {
    if n > 0 {
      var m := Waited(s, 1);
      IdleWithinTimeout(q, s);
      RunGoesOn(q, s, m);
      WaitRun(q, m, n - 1);
      assert Waited(m, n - 1) == Waited(s, n);
    }
  }

  /** A pass that meets a line of the protocol: the line is read whole and
      its text is the line itself. */
  lemma TakeLineOf(rx: seq<Sample>, p: nat, n: nat, line: seq<int>)
    requires LineAt(rx, p, n, line)
    ensures Obs(rx, p) != -1
    ensures var sc := ScanLine(rx, p, MaxReadLoops, []);
            sc.end == Newline && sc.bytes == line && sc.pos == p + n
    ensures CStr(line) == line
  {
    ScanLineAt(rx, p, n, line);
    NulFreeIsCStr(line);
  }

  /** How a read ends on a line of interest a that starts in state w, once
      its idle polls are over: with its value, right after its '\n', the
      line echoed in dump mode. */
  function Hit(q: Request, w: State, a: Arrival): Reading
    requires q.target < LastLabel && Classify(a.line, q.target).Hit?
  {
    Reading(Classify(a.line, q.target).value, Matched, w.pos + a.len, w.tick, w.last, w.discarded,
            if q.target == Index(Dump) then w.log + [Echo(a.line)] else w.log)
  }

  /** A line of interest read whole decides the pass. */
  lemma HitTake(q: Request, w: State, a: Arrival)
    requires Fits(q, w) && w.lines > 0
    requires LineAt(q.rx, w.pos, a.len, a.line) && Classify(a.line, q.target).Hit?
    ensures TakeLineSpec(q, w) == Stop(Hit(q, w, a))
  {
    TakeLineOf(q.rx, w.pos, a.len, a.line);
  }

  /** The pass that meets a line of interest ends the read. */
  lemma HitLine(q: Request, w: State, a: Arrival)
    requires Fits(q, w) && w.lines > 0
    requires LineAt(q.rx, w.pos, a.len, a.line) && Classify(a.line, q.target).Hit?
    ensures Run(q, w) == Hit(q, w, a)
  {
    HitTake(q, w, a);
    TakeLineOf(q.rx, w.pos, a.len, a.line);
  }

  /** First match wins: a line whose label is the target's ends the read
      right after its '\n', with its value. */
  lemma HitRun(q: Request, s: State, a: Arrival)
    requires Fits(q, s) && s.lines > 0
    requires Arrives(q, s, a) && Classify(a.line, q.target).Hit?
    ensures Run(q, s) == Hit(q, Waited(s, a.idle), a)
  {
    WaitRun(q, s, a.idle);
    var w := Waited(s, a.idle);
    assert LineAt(q.rx, w.pos, a.len, a.line);
    HitLine(q, w, a);
  }

  /** The state after a line not of interest: past its '\n', one line of
      the budget used, serial_last_available renewed and the time-out test
      passed, the line echoed in dump mode. */
  function Step(q: Request, s: State, a: Arrival): State
    requires s.tick + a.idle + 2 <= |q.clock| && s.lines > 0
  {
    State(s.pos + a.idle + a.len, s.tick + a.idle + 2, s.lines - 1, q.clock[s.tick + a.idle], s.discarded + 1,
          if q.target == Index(Dump) then s.log + [Echo(a.line)] else s.log)
  }

  /** A line not of interest read whole uses one line of the budget and
      renews serial_last_available. */
  lemma MissTake(q: Request, w: State, a: Arrival)
    requires Fits(q, w) && w.lines > 0 && w.tick < |q.clock|
    requires LineAt(q.rx, w.pos, a.len, a.line) && Classify(a.line, q.target) == Miss
    ensures TakeLineSpec(q, w) ==
            Go(State(w.pos + a.len, w.tick + 1, w.lines - 1, q.clock[w.tick], w.discarded + 1,
                     if q.target == Index(Dump) then w.log + [Echo(a.line)] else w.log))
  {
    TakeLineOf(q.rx, w.pos, a.len, a.line);
  }

  /** The pass that meets a line not of interest goes on after it. */
  lemma MissRound(q: Request, s: State, a: Arrival)
    requires Fits(q, s) && s.lines > 0 && MissOnTime(q, s, a)
    ensures Round(q, Waited(s, a.idle)) == Go(Step(q, s, a))
  {
    var w := Waited(s, a.idle);
    assert LineAt(q.rx, w.pos, a.len, a.line);
    MissTake(q, w, a);
    var m := State(w.pos + a.len, w.tick + 1, w.lines - 1, q.clock[w.tick], w.discarded + 1,
                   if q.target == Index(Dump) then w.log + [Echo(a.line)] else w.log);
    assert TakeLineSpec(q, w) == Go(m);
    assert Expire(q, m) == Go(m.(tick := w.tick + 2));
    assert m.(tick := w.tick + 2) == Step(q, s, a);
  }

  /** A line not of interest, after its idle polls, uses one line of the
      budget, renews serial_last_available and, on time, lets the read go
      on after it. */
  lemma MissLine(q: Request, s: State, a: Arrival)
    requires Fits(q, s) && s.lines > 0 && MissOnTime(q, s, a)
    ensures Fits(q, Step(q, s, a)) && Run(q, s) == Run(q, Step(q, s, a))
  {
    WaitRun(q, s, a.idle);
    MissRound(q, s, a);
    RunGoesOn(q, Waited(s, a.idle), Step(q, s, a));
  }

  /** A line longer than the buffer ends the read with 0 as soon as the
      first data byte that does not fit arrives, wherever empty reads and
      '\r's fall before it, and consumes nothing after it. */
  lemma OverlongLine(q: Request, s: State, n: nat)
    requires Fits(q, s) && s.lines > 0 && Obs(q.rx, s.pos) != -1
    requires NoNewline(q.rx, s.pos, s.pos + n) && |Kept(q.rx, s.pos, s.pos + n)| == LineSize
    requires SkippedCount(q.rx, s.pos, s.pos + n) < MaxReadLoops
    requires !Skipped(ByteAt(q.rx, s.pos + n)) && ByteAt(q.rx, s.pos + n) != Lf
    ensures Round(q, s) == Stop(Reading(0, Overrun, s.pos + n + 1, s.tick, s.last, s.discarded, s.log))
  {
    ScanOverlong(q.rx, s.pos, n);
  }

  // ---------------------------------------------------------------------
  // Many lines

  /** From state s on, the lines misses arrive one after the other, each
      not of interest, within the line budget and on time. */
  predicate Passing(q: Request, s: State, misses: seq<Arrival>)
    requires Fits(q, s)
    decreases |misses|
  {
    misses == [] ||
    (s.lines > 0 && MissOnTime(q, s, misses[0]) && Passing(q, Step(q, s, misses[0]), misses[1..]))
  }

  /** The state after the lines misses have been read. */
  function After(q: Request, s: State, misses: seq<Arrival>): (t: State)
    requires Fits(q, s) && Passing(q, s, misses)
    ensures Fits(q, t) && t.pos == s.pos + Span(misses) && t.tick == s.tick + Ticks(misses)
    ensures t.lines + |misses| == s.lines && t.discarded == s.discarded + |misses|
    decreases |misses|
  {
    if misses == [] then s else After(q, Step(q, s, misses[0]), misses[1..])
  }

  /** What the lines not of interest print: their echoes in dump mode,
      nothing otherwise. */
  function Trail(target: nat, lines: seq<Arrival>): seq<Printed> {
    if target == Index(Dump) then Echoes(lines) else []
  }

  lemma TrailSplits(target: nat, lines: seq<Arrival>)
    requires lines != []
    ensures Trail(target, lines) == Trail(target, [lines[0]]) + Trail(target, lines[1..])
  {
    EchoesOne(lines[0]);
    if target != Index(Dump) {
      assert Trail(target, lines) == [] + [];
    }
  }

  lemma EchoesOne(a: Arrival)
    ensures Echoes([a]) == [Echo(a.line)]
  {
    assert [a][1..] == [];
    assert [Echo(a.line)] + [] == [Echo(a.line)];
  }

  lemma Regroup(x: seq<Printed>, y: seq<Printed>, z: seq<Printed>)
    ensures x + y + z == x + (y + z)
  {
  }

  /** A line not of interest prints its echo in dump mode. */
  lemma StepLog(q: Request, s: State, a: Arrival)
    requires s.tick + a.idle + 2 <= |q.clock| && s.lines > 0
    ensures Step(q, s, a).log == s.log + Trail(q.target, [a])
  {
    EchoesOne(a);
    if q.target != Index(Dump) {
      assert s.log + [] == s.log;
    }
  }

  /** The lines not of interest are echoed, in order, in dump mode and not
      otherwise. */
  lemma {:induction false} AfterLog(q: Request, s: State, misses: seq<Arrival>)
    requires Fits(q, s) && Passing(q, s, misses)
    ensures After(q, s, misses).log == s.log + Trail(q.target, misses)
    decreases |misses|
  {
    if misses == [] {
      assert s.log + [] == s.log;
    } else {
      var m := Step(q, s, misses[0]);
      AfterLog(q, m, misses[1..]);
      StepLog(q, s, misses[0]);
      TrailSplits(q.target, misses);
      Regroup(s.log, Trail(q.target, [misses[0]]), Trail(q.target, misses[1..]));
    }
  }

  /** Lines not of interest, arriving on time, each use one line of the
      budget and are otherwise passed over. */
  lemma {:induction false} MissesThen(q: Request, s: State, misses: seq<Arrival>)
    requires Fits(q, s) && Passing(q, s, misses)
    ensures Run(q, s) == Run(q, After(q, s, misses))
    decreases |misses|
  {
    if misses != [] {
      MissLine(q, s, misses[0]);
      MissesThen(q, Step(q, s, misses[0]), misses[1..]);
    }
  }

  /** After lines not of interest, the first line of interest ends the read. */
  lemma {:induction false} FirstMatchRun(q: Request, s: State, misses: seq<Arrival>, hit: Arrival)
    requires Fits(q, s) && Passing(q, s, misses) && |misses| < s.lines
    requires Arrives(q, After(q, s, misses), hit) && Classify(hit.line, q.target).Hit?
    ensures Run(q, s) == Hit(q, Waited(After(q, s, misses), hit.idle), hit)
  {
    MissesThen(q, s, misses);
    HitRun(q, After(q, s, misses), hit);
  }

  /** First match wins: after lines not of interest, the first line with the
      target's label decides the read, and nothing after it is consumed. */
  lemma {:induction false} FirstMatchWins(q: Request, s: State, misses: seq<Arrival>, hit: Arrival)
    requires Fits(q, s) && Passing(q, s, misses) && |misses| < s.lines
    requires Arrives(q, After(q, s, misses), hit) && Classify(hit.line, q.target).Hit?
    ensures var r := Run(q, s);
            && r.value == Classify(hit.line, q.target).value && r.outcome == Matched
            && r.pos == s.pos + Span(misses) + hit.idle + hit.len
            && r.tick == s.tick + Ticks(misses) + hit.idle
            && r.discarded == s.discarded + |misses|
            && r.log == s.log + if q.target == Index(Dump) then Echoes(misses) + [Echo(hit.line)] else []
  {
    FirstMatchRun(q, s, misses, hit);
    AfterLog(q, s, misses);
    if q.target == Index(Dump) {
      Regroup(s.log, Echoes(misses), [Echo(hit.line)]);
    }
  }

  /** VED_MAX_READ_LINES lines not of interest, arriving on time, end the
      read with 0 and nothing found right after the last of them. */
  lemma {:induction false} BudgetRunsOut(q: Request, s: State, misses: seq<Arrival>)
    requires Fits(q, s) && Passing(q, s, misses) && |misses| == s.lines
    ensures var r := Run(q, s);
            && r.value == 0 && r.outcome == NotFound
            && r.pos == s.pos + Span(misses) && r.tick == s.tick + Ticks(misses)
            && r.discarded == s.discarded + s.lines
            && r.log == s.log + Trail(q.target, misses)
  {
    MissesThen(q, s, misses);
    AfterLog(q, s, misses);
  }

  // ---------------------------------------------------------------------
  // The timeout

  /** On a line that stays silent, a read ends with a time-out, and at the
      first check that finds more than serial_timout ms since the last
      recorded activity (or the clock recording used up): every earlier
      check found the time within the timeout. */
  lemma {:induction false} SilenceTimesOut(q: Request, s: State)
    requires Fits(q, s) && s.lines > 0
    requires forall i :: s.pos <= i < |q.rx| ==> q.rx[i] == -1
    ensures var r := Run(q, s);
            var n := r.pos - s.pos;
            && r.value == 0 && r.outcome == Timeout
            && r.discarded == s.discarded && r.last == s.last && r.log == s.log + [TimeoutNotice]
            && s.pos < r.pos && s.tick + n - 1 <= |q.clock|
            && (forall t :: s.tick <= t < s.tick + n - 1 ==> SubU32(q.clock[t], s.last) <= q.timeout)
            && (s.tick + n - 1 == |q.clock| || SubU32(q.clock[s.tick + n - 1], s.last) > q.timeout)
    decreases |q.clock| - s.tick
  {
    assert Obs(q.rx, s.pos) == -1;
    var m := s.(pos := s.pos + 1);
    assert Round(q, s) == Expire(q, m);
    if Expire(q, m).Go? {
      var s' := m.(tick := s.tick + 1);
      SilenceTimesOut(q, s');
    }
  }

  /** With serial_timout at 0xFFFFFFFF no time-out test can find more than
      the timeout elapsed: the test only ends a read when the clock
      recording is used up, and on a line that stays silent the read never
      returns. */
  lemma MaxTimeoutNeverExpires(q: Request, s: State)
    requires Fits(q, s) && q.timeout == 0xFFFF_FFFF && Expire(q, s).Stop?
    ensures s.tick == |q.clock|
  {
  }

  // ---------------------------------------------------------------------
  // Every read

  /** The lines a read printed from state s on, when it ends with r: one
      echo per line read in dump mode (none otherwise; an overrun line is
      not printed) and then the time-out notice exactly on a time-out. */
  predicate Printout(target: nat, s: State, r: Reading)
    requires s.log <= r.log && s.discarded <= r.discarded
  {
    var added := r.log[|s.log|..];
    var notice := if r.outcome == Timeout then 1 else 0;
    var parsed := if r.outcome == Matched || r.outcome == NullLabel || r.outcome == NullValue then 1 else 0;
    var echoed := if target != Index(Dump) then 0 else r.discarded - s.discarded + parsed;
    && |added| == echoed + notice
    && (forall i :: 0 <= i < echoed ==> added[i].Echo?)
    && (notice == 1 ==> added[echoed] == TimeoutNotice)
  }

  /** The output of a pass so far: in dump mode one echo per line, none
      otherwise. */
  predicate Echoed(target: nat, before: seq<Printed>, after: seq<Printed>, lines: nat) {
    && before <= after
    && |after| == |before| + (if target == Index(Dump) then lines else 0)
    && forall i :: |before| <= i < |after| ==> after[i].Echo?
  }

  /** What holds of the part of a pass that reads a line. */
  lemma TakeLineFacts(q: Request, s: State)
    requires Fits(q, s) && s.lines > 0
    ensures var text := CStr(ScanLine(q.rx, s.pos, MaxReadLoops, []).bytes);
            match TakeLineSpec(q, s)
            case Stop(r) =>
              && (r.outcome != Matched ==> r.value == 0)
              && (r.outcome == Matched || r.outcome == Overrun || r.outcome == NullLabel || r.outcome == NullValue)
              && s.pos <= r.pos && r.discarded == s.discarded && r.last == s.last
              && Echoed(q.target, s.log, r.log, if r.outcome == Overrun then 0 else 1)
              && (r.outcome == Overrun ==> r.log == s.log)
              && (r.outcome != Overrun && q.target == Index(Dump) ==> r.log == s.log + [Echo(text)])
            case Go(m) =>
              && s.pos <= m.pos && m.discarded == s.discarded + 1 && m.lines == s.lines - 1
              && m.last == Now(q.clock, s.tick)
              && Echoed(q.target, s.log, m.log, 1)
              && (q.target == Index(Dump) ==> m.log == s.log + [Echo(text)])
  {
    var sc := ScanLine(q.rx, s.pos, MaxReadLoops, []);
    ScanLineEnds(q.rx, s.pos, MaxReadLoops, []);
    if sc.end != Overflow {
      DecideFacts(q, s, sc.pos, CStr(sc.bytes));
    }
  }

  /** What holds of the verdict on a complete line: it is echoed as text in
      dump mode, and only a miss records the time of activity. */
  lemma DecideFacts(q: Request, s: State, pos: nat, text: seq<int>)
    requires Fits(q, s) && s.lines > 0
    ensures match Decide(q, s, pos, text)
            case Stop(r) =>
              && (r.outcome != Matched ==> r.value == 0)
              && (r.outcome == Matched || r.outcome == NullLabel || r.outcome == NullValue)
              && r.pos == pos && r.discarded == s.discarded && r.last == s.last
              && Echoed(q.target, s.log, r.log, 1)
              && (q.target == Index(Dump) ==> r.log == s.log + [Echo(text)])
            case Go(m) =>
              && m.pos == pos && m.discarded == s.discarded + 1 && m.lines == s.lines - 1
              && m.last == Now(q.clock, s.tick)
              && Echoed(q.target, s.log, m.log, 1)
              && (q.target == Index(Dump) ==> m.log == s.log + [Echo(text)])
  {
    EchoOne(q.target, s.log, text);
  }

  /** A line read echoes once in dump mode. */
  lemma EchoOne(target: nat, log: seq<Printed>, text: seq<int>)
    ensures Echoed(target, log, if target == Index(Dump) then log + [Echo(text)] else log, 1)
  {
  }

  /** What holds of the timeout test. */
  lemma ExpireFacts(q: Request, m: State)
    requires Fits(q, m)
    ensures match Expire(q, m)
            case Stop(r) =>
              && r.value == 0 && r.outcome == Timeout && r.pos == m.pos && r.discarded == m.discarded
              && r.last == m.last && r.log == m.log + [TimeoutNotice]
            case Go(m') => m' == m.(tick := m.tick + 1)
  {
  }

  /** What holds of one pass, for the induction below. */
  lemma RoundFacts(q: Request, s: State)
    requires Fits(q, s) && s.lines > 0
    ensures match Round(q, s)
            case Stop(r) =>
              && (r.outcome != Matched ==> r.value == 0) && r.outcome != NotFound
              && s.pos <= r.pos && s.discarded <= r.discarded <= s.discarded + 1
              && s.log <= r.log && Printout(q.target, s, r)
              && (r.last == s.last || (r.discarded == s.discarded + 1 && r.last == Now(q.clock, s.tick)))
            case Go(m) =>
              && s.pos <= m.pos && m.lines + m.discarded == s.lines + s.discarded
              && s.discarded <= m.discarded <= s.discarded + 1
              && Echoed(q.target, s.log, m.log, m.discarded - s.discarded)
              && (m.discarded == s.discarded ==> m.last == s.last)
              && (m.discarded == s.discarded + 1 ==> m.last == Now(q.clock, s.tick))
  {
    if Obs(q.rx, s.pos) == -1 {
      ExpireFacts(q, s.(pos := s.pos + 1));
    } else {
      TakeLineFacts(q, s);
      match TakeLineSpec(q, s)
      case Stop(r) =>
      case Go(m) =>
        ExpireFacts(q, m);
    }
  }

  /** What holds of every read from state s on: the value is 0 unless a line
      matched; discarded lines are counted against the budget, and a read
      that found nothing used all of it; the read position never moves
      back; the output only grows, as Printout says. */
  lemma {:induction false} RunFacts(q: Request, s: State)
    requires Fits(q, s)
    ensures var r := Run(q, s);
            && (r.outcome != Matched ==> r.value == 0)
            && s.pos <= r.pos
            && s.discarded <= r.discarded <= s.discarded + s.lines
            && (r.outcome == NotFound ==> r.discarded == s.discarded + s.lines)
            && s.log <= r.log && Printout(q.target, s, r)
            && (r.discarded == s.discarded ==> r.last == s.last)
    decreases |q.clock| - s.tick
  {
    if s.lines > 0 {
      RoundFacts(q, s);
      match Round(q, s)
      case Stop(r) =>
      case Go(m) =>
        RunFacts(q, m);
        PrintoutAfterEchoes(q.target, s, m, Run(q, m));
    }
  }

  /** Echoes printed before a state are the start of what is printed from
      there on. */
  lemma PrintoutAfterEchoes(target: nat, s: State, m: State, r: Reading)
    requires s.discarded <= m.discarded && Echoed(target, s.log, m.log, m.discarded - s.discarded)
    requires m.log <= r.log && m.discarded <= r.discarded && Printout(target, m, r)
    ensures s.log <= r.log && Printout(target, s, r)
  {
    assert r.log[|s.log|..] == m.log[|s.log|..] + r.log[|m.log|..];
  }
}
