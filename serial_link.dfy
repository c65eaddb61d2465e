// The serial port and the millisecond clock the VE.Direct reader uses,
// reduced to recordings the reader consumes in order.
module SerialLink {
  import opened Ints

  /** What one poll or read observes: a byte 0..255, or -1 for none. */
  type Sample = x: int | -1 <= x < 0x100

  /** What the line shows at observation i: a byte 0..255, or -1 when
      nothing is pending. Past the end of the recording the line is silent. */
  function Obs(rx: seq<Sample>, i: nat): Sample {
    if i < |rx| then rx[i] else -1
  }

  /** The reading millis() gives at clock step tick; past the recording the
      value is never looked at (the next timeout check fires). */
  function Now(clock: seq<U32>, tick: nat): U32 {
    if tick < |clock| then clock[tick] else 0
  }

  /** The clock step after reading the clock once at step tick. */
  function Next(clock: seq<U32>, tick: nat): (t: nat)
    ensures tick <= |clock| ==> t <= |clock|
  {
    if tick < |clock| then tick + 1 else tick
  }

  /** A serial line (HardwareSerial) together with the clock (millis()).
      rx lists, in order, what each poll or read observes; clock lists the
      values successive millis() calls return. */
  class Link {
    var rx: seq<Sample>
    var pos: nat
    var clock: seq<U32>
    var tick: nat

    ghost predicate Valid()
      reads this
    {
      tick <= |clock|
    }

    constructor (rx: seq<Sample>, clock: seq<U32>)
      ensures Valid()
      ensures this.rx == rx && pos == 0 && this.clock == clock && tick == 0
    {
      this.rx, this.clock := rx, clock;
      pos, tick := 0, 0;
    }

    /** available(): whether a byte is pending. A poll that finds none lets
        that idle moment pass. */
    method Available() returns (pending: bool)
      modifies this`pos
      ensures pending == (Obs(rx, old(pos)) != -1)
      ensures pos == if pending then old(pos) else old(pos) + 1
    {
      pending := Obs(rx, pos) != -1;
      if !pending {
        pos := pos + 1;
      }
    }

    /** read(): the pending byte, or -1 when none is pending. */
    method Read() returns (v: Sample)
      modifies this`pos
      ensures v == Obs(rx, old(pos)) && pos == old(pos) + 1
    {
      v := Obs(rx, pos);
      pos := pos + 1;
    }

    /** millis(). */
    method Millis() returns (now: U32)
      requires Valid()
      modifies this`tick
      ensures Valid()
      ensures now == Now(clock, old(tick)) && tick == Next(clock, old(tick))
    {
      now := Now(clock, tick);
      tick := Next(clock, tick);
    }

    /** The test `millis() - since > limit` on uint32_t. Once the recorded
        clock is used up, the line is taken to have stayed silent past every
        deadline, so the test holds: this is what makes a read on a silent
        line end. */
    method TimedOut(since: U32, limit: U32) returns (expired: bool)
      requires Valid()
      modifies this`tick
      ensures Valid()
      ensures expired == (old(tick) == |clock| || SubU32(clock[old(tick)], since) > limit)
      ensures tick == Next(clock, old(tick))
    {
      expired := tick == |clock| || SubU32(clock[tick], since) > limit;
      tick := Next(clock, tick);
    }
  }
}
