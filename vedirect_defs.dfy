// The tunable constants, the field enumeration and the label table of the
// VE.Direct reader (its header).
module VEDirectDefs {
  import opened CString

  const LineSize: nat := 30          // VED_LINE_SIZE: capacity of the line buffer
  const MaxLabelSize: nat := 6       // VED_MAX_LABEL_SIZE: longest label plus its NUL
  const MaxReadLoops: nat := 60000   // VED_MAX_READ_LOOPS: empty or '\r' reads allowed per line
  const MaxReadLines: nat := 50      // VED_MAX_READ_LINES: non-matching lines allowed per read
  const BaudRate: nat := 19200       // VED_BAUD_RATE

  /** VE_DIRECT_DATA: the fields a read can ask for; Dump is the diagnostic mode. */
  datatype Field = Dump | Soc | BatVoltage | BatPower | PvPower | BatCurrent | Alarm

  const LastLabel: nat := 7          // VE_LAST_LABEL: the number of rows of the label table

  /** The enum value of a field: its row in the label table. */
  function Index(f: Field): (i: nat)
    ensures i < LastLabel
    ensures (i == 0) == (f == Dump)
  {
    match f
    case Dump => 0
    case Soc => 1
    case BatVoltage => 2
    case BatPower => 3
    case PvPower => 4
    case BatCurrent => 5
    case Alarm => 6
  }

  /** The field an enum value in range names. */
  function FieldAt(i: nat): (f: Field)
    requires i < LastLabel
    ensures Index(f) == i
  {
    [Dump, Soc, BatVoltage, BatPower, PvPower, BatCurrent, Alarm][i]
  }

  /** Enum values and fields are in one-to-one correspondence. */
  lemma IndexIsOneToOne(f: Field, g: Field)
    ensures FieldAt(Index(f)) == f
    ensures Index(f) == Index(g) ==> f == g
  {
  }

  /** ved_labels[]: one row per enum value, in enum order. */
  const Labels: seq<string> := ["Dump", "SOC", "V", "P", "PPV", "I", "Alarm"]

  /** The bytes of ved_labels[target], the label a read for target looks for. */
  function Label(target: nat): seq<int>
    requires target < LastLabel
  {
    Codes(Labels[target])
  }

  /** The label of a field. */
  function LabelOf(f: Field): seq<int> {
    Label(Index(f))
  }

  /** The table has one row per enum value; every label is non-empty, holds
      neither TAB nor NUL, and fits VED_MAX_LABEL_SIZE with its NUL. */
  lemma LabelFacts(target: nat)
    requires target < LastLabel
    ensures |Labels| == LastLabel
    ensures var l := Label(target);
            && l != [] && Tab !in l && Nul !in l
            && |l| + 1 <= MaxLabelSize
  {
    var s := Labels[target];
    CodesFacts(s);
    assert forall i :: 0 <= i < |s| ==> s[i] != '\t' && s[i] != '\0';
  }

  /** The table maps each real field to its VE.Direct label. */
  lemma FieldLabels()
    ensures LabelOf(Soc) == Codes("SOC")
    ensures LabelOf(BatVoltage) == Codes("V")
    ensures LabelOf(BatPower) == Codes("P")
    ensures LabelOf(PvPower) == Codes("PPV")
    ensures LabelOf(BatCurrent) == Codes("I")
    ensures LabelOf(Alarm) == Codes("Alarm")
  {
  }

  /** No two rows of the table hold the same label, so a line's label
      names at most one target. */
  lemma LabelsDistinct(i: nat, j: nat)
    requires i < LastLabel && j < LastLabel && i != j
    ensures Label(i) != Label(j)
  {
    var a, b := Label(i), Label(j);
    LabelFacts(i);
    LabelFacts(j);
    if |a| == |b| {
      assert a[0] != b[0];
    }
  }

  /** VE_DUMP is enum value 0 and its row, "Dump", is not the label of any
      real field. */
  lemma DumpIsSentinel(f: Field)
    requires f != Dump
    ensures Index(Dump) == 0 && Label(0) == Codes("Dump")
    ensures LabelOf(f) != Label(0)
  {
    LabelsDistinct(Index(f), 0);
  }

  /** The budgets fit the counters read() keeps them in: uint16_t loops and
      uint8_t lines. */
  lemma BudgetsFitCounters()
    ensures 0 < MaxReadLoops < 0x1_0000
    ensures 0 < MaxReadLines < 0x100
    ensures LineSize < 0x100
  {
  }
}
