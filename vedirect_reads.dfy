// Whole reads: what VEDirect::read returns when called on a stream, from
// the moment it records the time at entry; how a line's label and value
// are judged and decoded; and the two defects of the reader's source.
module VEDirectReads {
  import opened Ints
  import opened CString
  import opened VEDirectDefs
  import opened SerialLink
  import opened VictronVEDirect
  import opened VEDirectProps

  // ---------------------------------------------------------------------
  // Judging a line

  /** A line "label\tvalue" whose label is row i of the table: for the
      target of row i it yields the decoded value, and for every other
      target it is a line not of interest. */
  lemma ClassifyLabelled(i: nat, target: nat, value: seq<int>)
    requires i < LastLabel && target < LastLabel
    requires value != [] && Tab !in value
    ensures Classify(Label(i) + [Tab] + value, target) ==
            if i == target then Hit(DecodeValue(value)) else Miss
  {
    LabelFacts(i);
    LabelValueSplit(Label(i), value);
    SameStrIsEqual(Label(i), Label(target));
    if i != target {
      LabelsDistinct(i, target);
    }
  }

  /** strcmp against the target's label: a line is not of interest exactly
      when it has a label token and that token differs from the label. */
  lemma ClassifyMiss(text: seq<int>, target: nat)
    requires target < LastLabel
    ensures Classify(text, target) == Miss <==>
              NextToken(text).Some? && NextToken(text).value.text != Label(target)
  {
    if NextToken(text).Some? {
      SameStrIsEqual(NextToken(text).value.text, Label(target));
    }
  }

  /** In dump mode every line of a real field is not of interest, so the
      reader goes on to the next line after echoing it. */
  lemma DumpPassesOver(f: Field, value: seq<int>)
    requires f != Dump && value != [] && Tab !in value
    ensures Classify(LabelOf(f) + [Tab] + value, Index(Dump)) == Miss
  {
    ClassifyLabelled(Index(f), Index(Dump), value);
  }

  // ---------------------------------------------------------------------
  // Decoding a value

  /** A value token starting "ON" reads as 1. */
  lemma DecodeOn(rest: seq<int>)
    ensures DecodeValue(['O' as int, 'N' as int] + rest) == 1
  {
  }

  /** A value token starting with 'O' but not "ON" ("OFF", or even "Ox")
      reads as 0. */
  lemma DecodeOff(rest: seq<int>)
    requires rest == [] || rest[0] != 'N' as int
    ensures DecodeValue(['O' as int] + rest) == 0
  {
  }

  /** Round trip: a decimal number, up to the first byte that is not a
      digit, reads as itself. */
  lemma DecodeDecimal(n: I32, tail: seq<int>)
    requires tail == [] || !IsDigit(tail[0])
    ensures DecodeValue(Decimal(n) + tail) == n
  {
    ScanLongDecimal(n, tail);
    assert (Decimal(n) + tail)[0] == Decimal(n)[0];
    if n < 0 {
      assert Decimal(n)[0] == Minus;
    } else {
      assert IsDigit(Digits(n)[0]);
    }
  }

  /** A token that is neither ON/OFF nor a number reads as the initial 0. */
  lemma DecodeNoNumber(v: seq<int>)
    requires v == [] || v[0] != 'O' as int
    requires ScanLong(v).None?
    ensures DecodeValue(v) == 0
  {
  }

  /** The tokens ON and OFF of a VE.Direct device. */
  lemma DecodeOnOffText()
    ensures DecodeValue(Codes("ON")) == 1
    ensures DecodeValue(Codes("OFF")) == 0
  {
    assert Codes("ON") == ['O' as int, 'N' as int] + [];
    DecodeOn([]);
    assert Codes("OFF") == ['O' as int] + ['F' as int, 'F' as int];
    DecodeOff(['F' as int, 'F' as int]);
  }

  /** A battery voltage of 12.95 V as the device sends it, in mV. */
  lemma DecodeVoltageText()
    ensures DecodeValue(Codes("12950")) == 12950
  {
    assert Codes("12950") == Decimal(12950) by {
      assert Digits(12) == [Zero + 1, Zero + 2];
      assert Digits(129) == [Zero + 1, Zero + 2, Zero + 9];
      assert Digits(1295) == [Zero + 1, Zero + 2, Zero + 9, Zero + 5];
      assert Digits(12950) == [Zero + 1, Zero + 2, Zero + 9, Zero + 5, Zero + 0];
    }
    assert Decimal(12950) + [] == Decimal(12950);
    DecodeDecimal(12950, []);
  }

  /** A discharge current of -1.25 A as the device sends it, in mA. */
  lemma DecodeCurrentText()
    ensures DecodeValue(Codes("-1250")) == -1250
  {
    assert Codes("-1250") == Decimal(-1250) by {
      assert Digits(12) == [Zero + 1, Zero + 2];
      assert Digits(125) == [Zero + 1, Zero + 2, Zero + 5];
      assert Digits(1250) == [Zero + 1, Zero + 2, Zero + 5, Zero + 0];
    }
    assert Decimal(-1250) + [] == Decimal(-1250);
    DecodeDecimal(-1250, []);
  }

  /** The placeholder "---" the device sends for an unknown value reads as 0. */
  lemma DecodeDashesText()
    ensures DecodeValue(Codes("---")) == 0
  {
    var v := Codes("---");
    assert v == [Minus, Minus, Minus];
    ScanLongFails(v);
    assert LeadingSpaces(v) == 0;
    assert v[0..] == v;
    DecodeNoNumber(v);
  }

  // ---------------------------------------------------------------------
  // Whole reads

  /** What every read returns: 0 unless a line matched; the read position
      never moves back; at most VED_MAX_READ_LINES lines are discarded,
      and all of them when nothing was found; the console shows the dump
      echoes and the time-out notice as Printout says; unless a line was
      discarded, the time of activity is still the one taken at entry. */
  lemma {:induction false} ReadFacts(q: Request, pos: nat, tick: nat)
    requires q.target < LastLabel && tick <= |q.clock|
    ensures var r := ReadSpec(q, pos, tick);
            && (r.outcome != Matched ==> r.value == 0)
            && pos <= r.pos
            && r.discarded <= MaxReadLines
            && (r.outcome == NotFound ==> r.discarded == MaxReadLines)
            && Printout(q.target, Start(q, pos, tick), r)
            && (r.discarded == 0 ==> r.last == Now(q.clock, tick))
  {
    RunFacts(q, Start(q, pos, tick));
  }

  /** A read for a field returns the value of the first line labelled with
      the field's label, after lines not of interest that arrive on time;
      lines may hold empty reads and '\r's and may come after idle polls
      within the timeout. The read consumes the stream up to the end of
      that line and nothing more. */
  lemma {:induction false} ReadFirstMatch(q: Request, pos: nat, tick: nat, misses: seq<Arrival>, hit: Arrival, value: seq<int>)
    requires q.target < LastLabel && tick < |q.clock|
    requires value != [] && Tab !in value && hit.line == Label(q.target) + [Tab] + value
    requires Passing(q, Start(q, pos, tick), misses) && |misses| < MaxReadLines
    requires Arrives(q, After(q, Start(q, pos, tick), misses), hit)
    ensures var r := ReadSpec(q, pos, tick);
            && r.value == DecodeValue(value) && r.outcome == Matched
            && r.pos == pos + Span(misses) + hit.idle + hit.len
            && r.tick == tick + 1 + Ticks(misses) + hit.idle
            && r.last == After(q, Start(q, pos, tick), misses).last
            && r.discarded == |misses|
            && r.log == if q.target == Index(Dump) then Echoes(misses) + [Echo(hit.line)] else []
  {
    ClassifyLabelled(q.target, q.target, value);
    var s := Start(q, pos, tick);
    assert s.pos == pos && s.tick == tick + 1 && s.lines == MaxReadLines && s.log == [] && Fits(q, s);
    FirstMatchWins(q, s, misses, hit);
    ReadHit(q, pos, tick, misses, hit);
  }

  /** ReadFirstMatch for any line the target matches: the read ends as a
      line of interest ends it, once the lines not of interest are read. */
  lemma {:induction false} ReadHit(q: Request, pos: nat, tick: nat, misses: seq<Arrival>, hit: Arrival)
    requires q.target < LastLabel && tick < |q.clock|
    requires Passing(q, Start(q, pos, tick), misses) && |misses| < MaxReadLines
    requires Arrives(q, After(q, Start(q, pos, tick), misses), hit) && Classify(hit.line, q.target).Hit?
    ensures ReadSpec(q, pos, tick) == VEDirectProps.Hit(q, Waited(After(q, Start(q, pos, tick), misses), hit.idle), hit)
  {
    var s := Start(q, pos, tick);
    assert s.pos == pos && s.tick == tick + 1 && s.lines == MaxReadLines && Fits(q, s);
    FirstMatchRun(q, s, misses, hit);
  }

  /** VED_MAX_READ_LINES lines not of interest, arriving on time, make a
      read return 0 having found nothing; in dump mode it printed each of
      them. */
  lemma {:induction false} ReadBudget(q: Request, pos: nat, tick: nat, misses: seq<Arrival>)
    requires q.target < LastLabel && tick < |q.clock|
    requires Passing(q, Start(q, pos, tick), misses) && |misses| == MaxReadLines
    ensures var r := ReadSpec(q, pos, tick);
            && r.value == 0 && r.outcome == NotFound
            && r.pos == pos + Span(misses) && r.tick == tick + 1 + Ticks(misses)
            && r.discarded == MaxReadLines
            && r.log == if q.target == Index(Dump) then Echoes(misses) else []
  {
    var s := Start(q, pos, tick);
    assert s.pos == pos && s.tick == tick + 1 && s.lines == MaxReadLines && s.log == [] && Fits(q, s);
    BudgetRunsOut(q, s, misses);
  }

  /** A read on a silent line polls until the first time-out test that
      finds more than serial_timout ms since the time at entry, or until
      the clock recording is used up, and then returns 0 with a time-out,
      printing only the notice. */
  lemma {:induction false} ReadSilence(q: Request, pos: nat, tick: nat)
    requires q.target < LastLabel && tick <= |q.clock|
    requires forall i :: pos <= i < |q.rx| ==> q.rx[i] == -1
    ensures var r := ReadSpec(q, pos, tick);
            var t0 := Next(q.clock, tick);
            var n := r.pos - pos;
            && r.value == 0 && r.outcome == Timeout
            && r.discarded == 0 && r.last == Now(q.clock, tick) && r.log == [TimeoutNotice]
            && pos < r.pos && t0 + n - 1 <= |q.clock|
            && (forall t :: t0 <= t < t0 + n - 1 ==> SubU32(q.clock[t], Now(q.clock, tick)) <= q.timeout)
            && (t0 + n - 1 == |q.clock| || SubU32(q.clock[t0 + n - 1], Now(q.clock, tick)) > q.timeout)
  {
    SilenceTimesOut(q, Start(q, pos, tick));
  }

  /** With serial_timout at 0xFFFFFFFF a read on a silent line never times
      out: it polls once for every clock reading there is, so on a real
      clock it does not return. */
  lemma SilenceNeverEndsAtMaxTimeout(q: Request, pos: nat, tick: nat)
    requires q.target < LastLabel && tick <= |q.clock| && q.timeout == 0xFFFF_FFFF
    requires forall i :: pos <= i < |q.rx| ==> q.rx[i] == -1
    ensures ReadSpec(q, pos, tick).pos - pos == |q.clock| - Next(q.clock, tick) + 1
  {
    ReadSilence(q, pos, tick);
  }

  // ---------------------------------------------------------------------
  // The constructor's self-assignment

  /** With serial_timout left at 0, as the constructor as written leaves
      it, the first idle poll after the clock has moved on from the last
      activity ends the read with a time-out. */
  lemma ZeroTimeoutExpires(q: Request, s: State)
    requires Fits(q, s) && s.lines > 0 && s.tick < |q.clock| && q.timeout == 0
    requires Obs(q.rx, s.pos) == -1 && q.clock[s.tick] != s.last
    ensures Round(q, s) ==
            Stop(Reading(0, Timeout, s.pos + 1, s.tick + 1, s.last, s.discarded, s.log + [TimeoutNotice]))
  {
  }

  /** With the timeout the constructor is given (5000 ms by default), an
      idle poll within 5000 ms of the last activity lets the read go on. */
  lemma DefaultTimeoutWaits(q: Request, s: State)
    requires Fits(q, s) && s.lines > 0 && s.tick < |q.clock| && q.timeout == 5000
    requires Obs(q.rx, s.pos) == -1 && SubU32(q.clock[s.tick], s.last) <= 5000
    ensures Round(q, s) == Go(s.(pos := s.pos + 1, tick := s.tick + 1))
  {
    IdleWithinTimeout(q, s);
  }

  // ---------------------------------------------------------------------
  // Terminating the line buffer

  /** The bound the write line[idx] = '\0' needs in the source's buffer
      char line[VED_LINE_SIZE]. */
  predicate TerminatorFitsAsWritten(idx: nat) {
    idx < LineSize
  }

  /** A line of exactly VED_LINE_SIZE bytes passes the buffer check (idx <
      VED_LINE_SIZE holds before every store), ends at its newline with idx
      == VED_LINE_SIZE, and the terminator is then written one past the
      end of the source's buffer. */
  lemma TerminatorOverrunsAsWritten(rx: seq<Sample>, p: nat, n: nat, line: seq<int>)
    requires LineAt(rx, p, n, line) && |line| == LineSize
    ensures var sc := ScanLine(rx, p, MaxReadLoops, []);
            sc.end == Newline && !TerminatorFitsAsWritten(|sc.bytes|)
  {
    ScanLineAt(rx, p, n, line);
  }

  /** In the model's buffer of VED_LINE_SIZE + 1 entries the terminator
      always fits: a complete line leaves idx at most VED_LINE_SIZE. */
  lemma TerminatorFits(rx: seq<Sample>, p: nat)
    ensures var sc := ScanLine(rx, p, MaxReadLoops, []);
            |sc.bytes| < LineSize + 1
  {
  }

  // ---------------------------------------------------------------------
  // A read of a concrete stream

  /** The observations from p on are the bytes of data, whatever follows. */
  lemma {:induction false} DataAtSlice(rx: seq<Sample>, p: nat, data: seq<int>)
    requires p + |data| <= |rx| && rx[p..p + |data|] == data
    ensures DataAt(rx, p, data)
    decreases |data|
  {
    if |data| > 0 {
      assert rx[p] == rx[p..p + |data|][0];
      assert rx[p + 1..p + 1 + |data[1..]|] == rx[p..p + |data|][1..];
      DataAtSlice(rx, p + 1, data[1..]);
    }
  }

  /** A line framed by "\r\n" inside a recording. */
  lemma LineInside(pre: seq<Sample>, line: seq<Sample>, post: seq<Sample>)
    requires PlainLine(line) && |line| <= LineSize
    ensures LineAt(pre + line + [Cr, Lf] + post, |pre|, |line| + 2, line)
  {
    var rx := pre + line + [Cr, Lf] + post;
    assert rx[|pre|..|pre| + |line|] == line;
    DataAtSlice(rx, |pre|, line);
    assert rx[|pre| + |line|] == Cr && rx[|pre| + |line| + 1] == Lf;
    FramedLine(rx, |pre|, line);
  }

  /** The lines "SOC\t42" and "V\t12950" as a charge controller sends them. */
  const SocLine: seq<Sample> := [83, 79, 67, 9, 52, 50]
  const VoltLine: seq<Sample> := [86, 9, 49, 50, 57, 53, 48]

  /** An idle poll, then two framed lines in a row. */
  lemma {:induction false} TwoLines(rx: seq<Sample>, a: seq<Sample>, b: seq<Sample>)
    requires PlainLine(a) && |a| <= LineSize && PlainLine(b) && |b| <= LineSize
    requires rx == [-1] + a + [Cr, Lf] + b + [Cr, Lf]
    ensures Obs(rx, 0) == -1 && LineAt(rx, 1, |a| + 2, a) && LineAt(rx, |a| + 3, |b| + 2, b)
  {
    LineInside([-1], a, b + [Cr, Lf]);
    assert rx == [-1] + a + [Cr, Lf] + (b + [Cr, Lf]);
    LineInside([-1] + a + [Cr, Lf], b, []);
    assert rx == [-1] + a + [Cr, Lf] + b + [Cr, Lf] + [];
  }

  /** The SOC line is not of interest to a read for the battery voltage,
      and the V line is, with the value 12950. */
  lemma ExampleMiss()
    ensures Classify(SocLine, Index(BatVoltage)) == Miss
  {
    var v42: seq<int> := [52, 50];
    assert SocLine == Label(1) + [Tab] + v42;
    ClassifyLabelled(1, 2, v42);
  }

  lemma ExampleHit()
    ensures Classify(VoltLine, Index(BatVoltage)) == Hit(12950)
  {
    var v: seq<int> := [49, 50, 57, 53, 48];
    assert VoltLine == Label(2) + [Tab] + v;
    ClassifyLabelled(2, 2, v);
    ExampleValue(v);
  }

  /** The value token of the V line reads as 12950. */
  lemma ExampleValue(v: seq<int>)
    requires v == [49, 50, 57, 53, 48]
    ensures DecodeValue(v) == 12950
  {
    CodesFacts("12950");
    assert Codes("12950") == v;
    DecodeVoltageText();
  }

  /** An idle poll, then "SOC\t42\r\nV\t12950\r\n", read for the battery
      voltage on a clock that stands still: the idle poll and the SOC line
      are passed over and the read returns 12950 right after the V line. */
  lemma {:induction false} ReadVoltageExample(q: Request)
    requires q.rx == [-1] + SocLine + [Cr, Lf] + VoltLine + [Cr, Lf] && q.target == Index(BatVoltage)
    requires |q.clock| == 4 && q.clock[0] == q.clock[1] == q.clock[2] == q.clock[3]
    ensures var r := ReadSpec(q, 0, 0);
            r.value == 12950 && r.outcome == Matched && r.pos == |q.rx| && r.discarded == 1
  {
    assert PlainLine(SocLine) && PlainLine(VoltLine);
    TwoLines(q.rx, SocLine, VoltLine);
    ExampleMiss();
    ExampleHit();
    ExampleRead(q, SocLine, VoltLine, 12950);
  }

  /** A read that first polls once in vain, then meets a line not of
      interest and then one of interest with the value v, on a clock that
      stands still. */
  lemma {:induction false} ExampleRead(q: Request, miss: seq<int>, line: seq<int>, v: I32)
    requires q.target < LastLabel && |q.clock| == 4
    requires q.clock[0] == q.clock[1] == q.clock[2] == q.clock[3]
    requires Obs(q.rx, 0) == -1 && LineAt(q.rx, 1, |miss| + 2, miss) && LineAt(q.rx, |miss| + 3, |line| + 2, line)
    requires Classify(miss, q.target) == Miss && Classify(line, q.target) == Hit(v)
    ensures var r := ReadSpec(q, 0, 0);
            r.value == v && r.outcome == Matched && r.pos == |miss| + |line| + 5 && r.discarded == 1
  {
    var s := Start(q, 0, 0);
    var first := Arrival(1, |miss| + 2, miss);
    var hit := Arrival(0, |line| + 2, line);
    var misses := [first];
    assert Waits(q, Waited(s, 1), 0);
    assert Waits(q, s, 1);
    assert MissOnTime(q, s, first);
    var m := Step(q, s, first);
    assert Passing(q, m, misses[1..]);
    assert Passing(q, s, misses);
    assert After(q, m, []) == m;
    assert After(q, s, misses) == m;
    assert Arrives(q, m, hit);
    ReadHit(q, 0, 0, misses, hit);
    assert Waited(m, 0) == m && m.pos == |miss| + 3 && m.discarded == 1;
    assert ReadSpec(q, 0, 0) == VEDirectProps.Hit(q, m, hit);
  }
}
