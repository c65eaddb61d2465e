// The relay that moves the load between the grid (relay open, pin LOW) and
// the battery (relay closed, pin HIGH): battery-voltage thresholds with a
// band between them, and inside the band a comparison of solar power with
// the load. The pin is a ghost field; the methods mirror the source and are
// proved against the functions PvVerdict, ByVoltage and PrioritizeSolar.
module RelayControl {
  import opened Ints

  const DefaultMinV: U32 := 12700        // bat_min_v, in mV
  const DefaultMaxV: U32 := 13600        // bat_max_v, in mV
  const DefaultWattsDiff: U16 := 5       // watts_diff, in W

  /** The "value is not set" default -1 of the constructor's parameters,
      as the uint32_t and uint16_t parameters hold it. */
  const NotSetV: U32 := 0xFFFF_FFFF
  const NotSetW: U16 := 0xFFFF

  /** The control settings: bat_min_v, bat_max_v and watts_diff. */
  datatype Settings = Settings(batMinV: U32, batMaxV: U32, wattsDiff: U16)

  /** What a relay shows: relay_state, base_state, pv_exceeds_load and the
      level of its pin. */
  datatype Outputs = Outputs(relayState: Byte, baseState: Byte, pvExceedsLoad: Byte, pinHigh: bool)

  /** The new outputs of a decision and the value it returns. */
  datatype Decision = Decision(out: Outputs, ret: Byte)

  /** relay_state and base_state hold 0 or 1, pv_exceeds_load 0, 1 or 2. */
  predicate Binary(o: Outputs) {
    o.relayState <= 1 && o.baseState <= 1 && o.pvExceedsLoad <= 2
  }

  // ---------------------------------------------------------------------
  // The constructor's settings

  /** The settings as the constructor's guards compute them. -1 converted
      to uint32_t is its largest value, so `battery_min_v > -1` and
      `battery_max_v > -1` never hold; `watts_diff > -1` tests the member,
      which holds 5, so it always holds and the parameter is taken even
      when it is "not set". */
  function SettingsAsWritten(batteryMinV: U32, batteryMaxV: U32, wattsDifferential: U16): Settings {
    var minV := if batteryMinV > ToU32(-1) then batteryMinV else DefaultMinV;
    var maxV := if batteryMaxV > ToU32(-1) then batteryMaxV else DefaultMaxV;
    var diff := if DefaultWattsDiff > -1 then wattsDifferential else DefaultWattsDiff;
    Settings(minV, maxV, diff)
  }

  /** As written, the thresholds given are always dropped for the header's,
      and the differential is whatever was passed, unset or not. */
  lemma SettingsAsWrittenIgnoreThresholds(batteryMinV: U32, batteryMaxV: U32, wattsDifferential: U16)
    ensures var s := SettingsAsWritten(batteryMinV, batteryMaxV, wattsDifferential);
            s.batMinV == DefaultMinV && s.batMaxV == DefaultMaxV && s.wattsDiff == wattsDifferential
  {
  }

  /** A relay built for the thresholds 12000/14400 mV and no differential
      gets 12700/13600 mV and a differential of 65535 W. */
  lemma SettingsAsWrittenExample()
    ensures SettingsAsWritten(12000, 14400, NotSetW) == Settings(12700, 13600, 65535)
    ensures SettingsAsWritten(12000, 14400, NotSetW) != SettingsIntended(12000, 14400, NotSetW)
  {
  }

  /** The same guards where int has 16 bits (the ATmega boards): uint32_t
      is then unsigned long and -1 still converts to 0xFFFFFFFF, but
      uint16_t promotes to unsigned int, so `watts_diff > -1` compares 5
      with 0xFFFF and never holds. */
  function SettingsAsWrittenOn16BitInt(batteryMinV: U32, batteryMaxV: U32, wattsDifferential: U16): Settings {
    var minV := if batteryMinV > ToU32(-1) then batteryMinV else DefaultMinV;
    var maxV := if batteryMaxV > ToU32(-1) then batteryMaxV else DefaultMaxV;
    var diff := if DefaultWattsDiff > ToU16(-1) then wattsDifferential else DefaultWattsDiff;
    Settings(minV, maxV, diff)
  }

  /** Where int has 16 bits, every parameter is dropped: the settings are
      the header's whatever is passed, so a differential that is set is
      lost too. */
  lemma SettingsOn16BitIntAreDefaults(batteryMinV: U32, batteryMaxV: U32, wattsDifferential: U16)
    ensures SettingsAsWrittenOn16BitInt(batteryMinV, batteryMaxV, wattsDifferential) ==
            Settings(DefaultMinV, DefaultMaxV, DefaultWattsDiff)
    ensures wattsDifferential != NotSetW && wattsDifferential != DefaultWattsDiff ==>
            SettingsAsWrittenOn16BitInt(batteryMinV, batteryMaxV, wattsDifferential) !=
            SettingsIntended(batteryMinV, batteryMaxV, wattsDifferential)
  {
  }

  /** The settings the constructor's comment describes: each parameter
      that is set replaces the header default. */
  function SettingsIntended(batteryMinV: U32, batteryMaxV: U32, wattsDifferential: U16): Settings {
    Settings(if batteryMinV == NotSetV then DefaultMinV else batteryMinV,
             if batteryMaxV == NotSetV then DefaultMaxV else batteryMaxV,
             if wattsDifferential == NotSetW then DefaultWattsDiff else wattsDifferential)
  }

  /** The markers are -1 in the parameters' types; with nothing set the
      settings are the header's, whose band between the thresholds is
      non-empty; a setting given is kept. */
  lemma SettingsIntendedDefaults(batteryMinV: U32, batteryMaxV: U32, wattsDifferential: U16)
    ensures NotSetV == ToU32(-1) && NotSetW == ToU16(-1)
    ensures SettingsIntended(NotSetV, NotSetV, NotSetW) == Settings(12700, 13600, 5)
    ensures DefaultMinV < DefaultMaxV
    ensures var s := SettingsIntended(batteryMinV, batteryMaxV, wattsDifferential);
            && (batteryMinV != NotSetV ==> s.batMinV == batteryMinV)
            && (batteryMaxV != NotSetV ==> s.batMaxV == batteryMaxV)
            && (wattsDifferential != NotSetW ==> s.wattsDiff == wattsDifferential)
  {
  }

  // ---------------------------------------------------------------------
  // The decisions

  /** pvExceedsLoad: 1 when solar power reaches the load plus the
      differential, else 0 when it is at most the load minus the
      differential, else 2. The uint16_t operands are promoted to int, so
      the sum and the difference do not wrap. */
  function PvVerdict(solar: U16, load: U16, diff: U16): Byte {
    if solar >= load + diff then 1
    else if solar <= load - diff then 0
    else 2
  }

  /** pvExceedsLoad where int has 16 bits: the uint16_t operands promote to
      unsigned int, so the sum and the difference wrap modulo 2^16. */
  function PvVerdictOn16BitInt(solar: U16, load: U16, diff: U16): Byte {
    if solar >= ToU16(load + diff) then 1
    else if solar <= ToU16(load - diff) then 0
    else 2
  }

  /** The two widths agree while load + diff fits in 16 bits and diff does
      not exceed load; outside that a 16-bit int gives other verdicts, for
      instance 0 instead of 2 for no solar power, a load of 3 W and a
      differential of 5 W. */
  lemma PvVerdictWidths(solar: U16, load: U16, diff: U16)
    ensures load + diff < 0x1_0000 && diff <= load ==>
            PvVerdictOn16BitInt(solar, load, diff) == PvVerdict(solar, load, diff)
    ensures PvVerdictOn16BitInt(0, 3, 5) == 0 && PvVerdict(0, 3, 5) == 2
  {
  }

  /** The three verdicts split the solar power into three bands around the
      load: 1 at or above load + diff, 0 at or below load - diff (and below
      load + diff), 2 strictly within the differential. */
  lemma PvVerdictBands(solar: U16, load: U16, diff: U16)
    ensures var r := PvVerdict(solar, load, diff);
            && r <= 2
            && (r == 1 <==> solar - load >= diff)
            && (r == 0 <==> solar - load < diff && load - solar >= diff)
            && (r == 2 <==> solar - load < diff && load - solar < diff)
  {
  }

  /** With a differential of 0 there is no band: the verdict is always 1
      or 0; with a positive one, equal powers fall within it. */
  lemma PvVerdictDifferential(solar: U16, load: U16, diff: U16)
    ensures diff == 0 ==> PvVerdict(solar, load, diff) != 2
    ensures diff > 0 && solar == load ==> PvVerdict(solar, load, diff) == 2
  {
  }

  /** The verdict as an order: 0 (short of the load) < 2 (within the
      differential) < 1 (above the load). */
  function Rank(r: Byte): nat {
    if r == 0 then 0 else if r == 2 then 1 else 2
  }

  /** More solar power never gives a lower verdict, and less load never
      does either. */
  lemma PvVerdictMonotone(solar: U16, solar': U16, load: U16, load': U16, diff: U16)
    requires solar <= solar' && load' <= load
    ensures Rank(PvVerdict(solar, load, diff)) <= Rank(PvVerdict(solar', load', diff))
  {
  }

  /** What switchToGrid leaves behind: relay_state 0, the pin LOW. */
  function ToGrid(o: Outputs): Outputs {
    o.(relayState := 0, pinHigh := false)
  }

  /** What switchToBattery leaves behind: relay_state 1, the pin HIGH. */
  function ToBattery(o: Outputs): Outputs {
    o.(relayState := 1, pinHigh := true)
  }

  /** setRelay_ByBatVoltage: below bat_min_v switch to the grid, above
      bat_max_v to the battery, recording the trigger in base_state;
      otherwise return 2. */
  function ByVoltage(s: Settings, o: Outputs, v: U32): Decision {
    if v < s.batMinV then Decision(ToGrid(o).(baseState := 0), 0)
    else if v > s.batMaxV then Decision(ToBattery(o).(baseState := 1), 1)
    else Decision(o, 2)
  }

  /** setRelay_PrioritizeSolar: the voltage thresholds as in ByVoltage;
      inside the band the solar verdict, stored in pv_exceeds_load: above
      the load switch to the battery, short of the load go back to what the
      last voltage trigger chose, within the differential change nothing
      and return 2. */
  function PrioritizeSolar(s: Settings, o: Outputs, solar: U16, load: U16, v: U32): Decision {
    if v < s.batMinV then Decision(ToGrid(o).(baseState := 0), 0)
    else if v > s.batMaxV then Decision(ToBattery(o).(baseState := 1), 1)
    else
      var pv := PvVerdict(solar, load, s.wattsDiff);
      var o' := o.(pvExceedsLoad := pv);
      if pv == 1 then Decision(ToBattery(o'), 1)
      else if pv == 0 then
        if o.baseState == 1 then Decision(ToBattery(o'), 1) else Decision(ToGrid(o'), 0)
      else Decision(o', 2)
  }

  /** setRelay_ByBatVoltage returns 0 exactly below bat_min_v and 1 exactly
      above bat_max_v (and not below bat_min_v); then the relay, its pin and
      base_state all follow the return value; otherwise it returns 2 and
      changes nothing. pv_exceeds_load is never touched. */
  lemma ByVoltageFacts(s: Settings, o: Outputs, v: U32)
    ensures var d := ByVoltage(s, o, v);
            && (d.ret == 0 <==> v < s.batMinV)
            && (d.ret == 1 <==> s.batMinV <= v && s.batMaxV < v)
            && (d.ret == 2 <==> s.batMinV <= v <= s.batMaxV)
            && (d.ret != 2 ==> d.out.relayState == d.ret && d.out.baseState == d.ret
                               && d.out.pinHigh == (d.ret == 1))
            && (d.ret == 2 ==> d.out == o)
            && d.out.pvExceedsLoad == o.pvExceedsLoad
  {
  }

  /** The thresholds themselves lie in the band. */
  lemma BoundariesInBand(s: Settings, o: Outputs)
    requires s.batMinV <= s.batMaxV
    ensures ByVoltage(s, o, s.batMinV).ret == 2 && ByVoltage(s, o, s.batMaxV).ret == 2
  {
  }

  /** Outside the band the voltage thresholds take precedence: the solar
      decision does what setRelay_ByBatVoltage does, base_state included. */
  lemma ThresholdsTakePrecedence(s: Settings, o: Outputs, solar: U16, load: U16, v: U32)
    requires v < s.batMinV || s.batMaxV < v
    ensures PrioritizeSolar(s, o, solar, load, v) == ByVoltage(s, o, v)
  {
  }

  /** Inside the band base_state is kept and pv_exceeds_load is the solar
      verdict; the relay goes to the battery when the solar power is above
      the load, or short of it after a battery trigger; to the grid when it
      is short of it otherwise; and within the differential the relay and
      its pin stay as they were and 2 is returned. */
  lemma PrioritizeSolarInBand(s: Settings, o: Outputs, solar: U16, load: U16, v: U32)
    requires s.batMinV <= v <= s.batMaxV
    ensures var d := PrioritizeSolar(s, o, solar, load, v);
            var pv := PvVerdict(solar, load, s.wattsDiff);
            && d.out.baseState == o.baseState && d.out.pvExceedsLoad == pv
            && (d.ret == 1 <==> pv == 1 || (pv == 0 && o.baseState == 1))
            && (d.ret == 0 <==> pv == 0 && o.baseState != 1)
            && (d.ret == 2 <==> pv == 2)
            && (d.ret == 2 ==> d.out.relayState == o.relayState && d.out.pinHigh == o.pinHigh)
  {
  }

  /** Whenever the solar decision returns 0 or 1, the relay state and the
      pin agree with the return value. */
  lemma ReturnIsRelayState(s: Settings, o: Outputs, solar: U16, load: U16, v: U32)
    ensures var d := PrioritizeSolar(s, o, solar, load, v);
            && d.ret <= 2
            && (d.ret <= 1 ==> d.out.relayState == d.ret && d.out.pinHigh == (d.ret == 1))
  {
  }

  /** Both decisions keep relay_state and base_state in {0, 1} and
      pv_exceeds_load in {0, 1, 2}. */
  lemma DecisionsStayBinary(s: Settings, o: Outputs, solar: U16, load: U16, v: U32)
    requires Binary(o)
    ensures Binary(ByVoltage(s, o, v).out)
    ensures Binary(PrioritizeSolar(s, o, solar, load, v).out)
  {
  }

  /** The hysteresis: after a voltage trigger, a later reading inside the
      band with the solar power short of the load goes back to what that
      trigger chose, the battery above bat_max_v and the grid below
      bat_min_v. */
  lemma FallsBackToLastTrigger(s: Settings, o: Outputs, trigger: U32, solar: U16, load: U16, v: U32)
    requires trigger < s.batMinV || s.batMaxV < trigger
    requires s.batMinV <= v <= s.batMaxV && PvVerdict(solar, load, s.wattsDiff) == 0
    ensures var o' := ByVoltage(s, o, trigger).out;
            PrioritizeSolar(s, o', solar, load, v).ret == if trigger < s.batMinV then 0 else 1
  {
    ByVoltageFacts(s, o, trigger);
    PrioritizeSolarInBand(s, ByVoltage(s, o, trigger).out, solar, load, v);
  }

  /** A bool stored into a uint8_t. */
  function AsByte(b: bool): (r: Byte)
    ensures r <= 1 && (r == 1 <==> b)
  {
    if b then 1 else 0
  }

  // ---------------------------------------------------------------------
  // The relay object

  class Relay {
    const relayPin: Byte
    var relayState: Byte        // the current actual relay state
    var baseState: Byte         // the last voltage hi/lo trigger
    var pvExceedsLoad: Byte
    var batMinV: U32
    var batMaxV: U32
    var wattsDiff: U16
    ghost var pinHigh: bool     // the level digitalWrite last gave relay_pin

    function Config(): Settings
      reads this
    {
      Settings(batMinV, batMaxV, wattsDiff)
    }

    ghost function Shown(): Outputs
      reads this
    {
      Outputs(relayState, baseState, pvExceedsLoad, pinHigh)
    }

    ghost predicate Valid()
      reads this
    {
      Binary(Shown())
    }

    /** The constructor, with the settings given taking the place of the
        defaults (see "Findings" for the guards as written). The pin is
        driven LOW; the state fields, which the source leaves as they were
        (0 for a relay of static storage duration), start at 0. */
    constructor (relayPin: Byte, batteryMinV: U32 := NotSetV, batteryMaxV: U32 := NotSetV,
                 wattsDifferential: U16 := NotSetW)
      ensures this.relayPin == relayPin && Valid()
      ensures Config() == SettingsIntended(batteryMinV, batteryMaxV, wattsDifferential)
      ensures Shown() == Outputs(0, 0, 0, false)
    {
      this.relayPin := relayPin;
      relayState, baseState, pvExceedsLoad := 0, 0, 0;
      pinHigh := false;
      batMinV := if batteryMinV == NotSetV then DefaultMinV else batteryMinV;
      batMaxV := if batteryMaxV == NotSetV then DefaultMaxV else batteryMaxV;
      wattsDiff := if wattsDifferential == NotSetW then DefaultWattsDiff else wattsDifferential;
    }

    /** The constructor as written: the members start at the header's
        defaults, and then the guards of SettingsAsWritten decide. */
    constructor AsWritten(relayPin: Byte, batteryMinV: U32 := NotSetV, batteryMaxV: U32 := NotSetV,
                          wattsDifferential: U16 := NotSetW)
      ensures this.relayPin == relayPin && Valid()
      ensures Config() == SettingsAsWritten(batteryMinV, batteryMaxV, wattsDifferential)
      ensures Shown() == Outputs(0, 0, 0, false)
    {
      this.relayPin := relayPin;
      relayState, baseState, pvExceedsLoad := 0, 0, 0;
      batMinV, batMaxV, wattsDiff := DefaultMinV, DefaultMaxV, DefaultWattsDiff;
      pinHigh := false;
      new;
      if batteryMinV > ToU32(-1) {
        batMinV := batteryMinV;
      }
      if batteryMaxV > ToU32(-1) {
        batMaxV := batteryMaxV;
      }
      if wattsDiff > -1 {
        wattsDiff := wattsDifferential;
      }
    }

    /** setRelay: drive the pin HIGH for 1 and LOW for 0, leave it for any
        other value, and return the value; relay_state is not updated. */
    method SetRelay(state: Byte) returns (r: Byte)
      modifies this`pinHigh
      ensures r == state
      ensures pinHigh == if state == 1 then true else if state == 0 then false else old(pinHigh)
    {
      if state == 1 {
        pinHigh := true;
      } else if state == 0 {
        pinHigh := false;
      }
      r := state;
    }

    /** switchToGrid: pin LOW, relay_state 0, returned as a bool. */
    method SwitchToGrid() returns (r: bool)
      modifies this`relayState, this`pinHigh
      ensures relayState == 0 && !pinHigh && !r
    {
      pinHigh := false;
      relayState := 0;
      r := relayState != 0;
    }

    /** switchToBattery: pin HIGH, relay_state 1, returned as a bool. */
    method SwitchToBattery() returns (r: bool)
      modifies this`relayState, this`pinHigh
      ensures relayState == 1 && pinHigh && r
    {
      pinHigh := true;
      relayState := 1;
      r := relayState != 0;
    }

    /** pvExceedsLoad: the verdict, also stored in pv_exceeds_load. */
    method PvExceedsLoad(solar: U16, load: U16, diff: U16) returns (r: Byte)
      modifies this`pvExceedsLoad
      ensures r == PvVerdict(solar, load, diff) && pvExceedsLoad == r
    {
      if solar >= load + diff {
        pvExceedsLoad := 1;
        return 1;
      } else if solar <= load - diff {
        pvExceedsLoad := 0;
        return 0;
      } else {
        pvExceedsLoad := 2;
        return 2;
      }
    }

    method SetRelayByBatVoltage(v: U32) returns (r: Byte)
      requires Valid()
      modifies this`relayState, this`baseState, this`pinHigh
      ensures Valid()
      ensures Decision(Shown(), r) == ByVoltage(Config(), old(Shown()), v)
    {
      if v < batMinV {
        var b := SwitchToGrid();
        baseState := AsByte(b);
      } else if v > batMaxV {
        var b := SwitchToBattery();
        baseState := AsByte(b);
      } else {
        return 2;
      }
      r := baseState;
    }

    method SetRelayPrioritizeSolar(solar: U16, load: U16, v: U32) returns (r: Byte)
      requires Valid()
      modifies this`relayState, this`baseState, this`pvExceedsLoad, this`pinHigh
      ensures Valid()
      ensures Decision(Shown(), r) == PrioritizeSolar(Config(), old(Shown()), solar, load, v)
    {
      if v < batMinV {
        var b := SwitchToGrid();
        baseState := AsByte(b);
        return baseState;
      } else if v > batMaxV {
        var b := SwitchToBattery();
        baseState := AsByte(b);
        return baseState;
      } else {
        var pv := PvExceedsLoad(solar, load, wattsDiff);
        if pv == 1 {
          var b := SwitchToBattery();
          return AsByte(b);
        } else if pv == 0 {
          var b;
          if baseState == 1 {
            b := SwitchToBattery();
          } else {
            b := SwitchToGrid();
          }
          return AsByte(b);
        }
        return pv;
      }
    }
  }
}
