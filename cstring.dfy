// The C library behaviour the VE.Direct reader relies on, stated on byte
// sequences: NUL-terminated strings, strtok with the delimiter "\t", and
// sscanf with the conversion "%ld". Bytes are the (signed) char values the
// reader stores, as ints.
module CString {
  import opened Ints

  datatype Option<+T> = None | Some(value: T)

  const Nul: int := 0
  const Tab: int := 9
  const Lf: int := 10
  const Cr: int := 13
  const Space: int := 32
  const Plus: int := 43
  const Minus: int := 45
  const Zero: int := 48

  /** The character codes of a string literal. */
  function Codes(s: string): seq<int> {
    if s == "" then [] else [s[0] as int] + Codes(s[1..])
  }

  /** Codes keeps the length and maps each character to its code. */
  lemma {:induction false} CodesFacts(s: string)
    ensures |Codes(s)| == |s|
    ensures forall i :: 0 <= i < |s| ==> Codes(s)[i] == s[i] as int
  {
    if s != "" {
      CodesFacts(s[1..]);
    }
  }

  // ---------------------------------------------------------------------
  // NUL-terminated strings

  /** The C string a buffer holds: its bytes before the first NUL. */
  function CStr(buf: seq<int>): seq<int> {
    if buf == [] || buf[0] == Nul then [] else [buf[0]] + CStr(buf[1..])
  }

  /** strcmp(a, b) == 0 for the C strings a and b: they agree character by
      character up to the end of both. */
  predicate SameStr(a: seq<int>, b: seq<int>)
    decreases |a|
  {
    if |a| == 0 then |b| == 0 else |b| != 0 && a[0] == b[0] && SameStr(a[1..], b[1..])
  }

  /** strcmp reports equality exactly for equal strings. */
  lemma {:induction false} SameStrIsEqual(a: seq<int>, b: seq<int>)
    ensures SameStr(a, b) <==> a == b
    decreases |a|
  {
    if |a| != 0 && |b| != 0 {
      SameStrIsEqual(a[1..], b[1..]);
      assert a == [a[0]] + a[1..] && b == [b[0]] + b[1..];
    }
  }

  /** Bytes without a NUL are their own C string. */
  lemma {:induction false} NulFreeIsCStr(s: seq<int>)
    requires Nul !in s
    ensures CStr(s) == s
    decreases |s|
  {
    if s != [] {
      assert s[0] != Nul && s == [s[0]] + s[1..];
      assert forall i :: 0 <= i < |s[1..]| ==> s[1..][i] == s[i + 1];
      NulFreeIsCStr(s[1..]);
    }
  }

  /** The C string a buffer holds is a prefix of it without NUL, followed in
      the buffer by the NUL that ends it, if any. */
  lemma {:induction false} CStrFacts(buf: seq<int>)
    ensures var s := CStr(buf);
            && s <= buf && Nul !in s
            && (|s| < |buf| ==> buf[|s|] == Nul)
  {
    if buf != [] && buf[0] != Nul {
      CStrFacts(buf[1..]);
    }
  }

  /** Writing a NUL after the bytes s makes the buffer hold the C string
      of s (all of s when it holds no NUL), whatever stale bytes follow the
      terminator. */
  lemma {:induction false} CStrTerminated(s: seq<int>, stale: seq<int>)
    ensures CStr(s + [Nul] + stale) == CStr(s)
    ensures Nul !in s ==> CStr(s) == s
  {
    if s != [] && s[0] != Nul {
      assert (s + [Nul] + stale)[1..] == s[1..] + [Nul] + stale;
      CStrTerminated(s[1..], stale);
    }
  }

  // ---------------------------------------------------------------------
  // strtok(…, "\t")

  /** The number of TABs s starts with. */
  function LeadingTabs(s: seq<int>): (k: nat)
    ensures k <= |s|
  {
    if s == [] || s[0] != Tab then 0 else 1 + LeadingTabs(s[1..])
  }

  /** The length of the run of non-TAB bytes s starts with. */
  function RunLength(s: seq<int>): (n: nat)
    ensures n <= |s|
  {
    if s == [] || s[0] == Tab then 0 else 1 + RunLength(s[1..])
  }

  /** LeadingTabs counts exactly the TABs s starts with. */
  lemma {:induction false} LeadingTabsFacts(s: seq<int>)
    ensures var k := LeadingTabs(s);
            && (forall i :: 0 <= i < k ==> s[i] == Tab)
            && (k < |s| ==> s[k] != Tab)
  {
    if s != [] && s[0] == Tab {
      LeadingTabsFacts(s[1..]);
    }
  }

  /** RunLength measures exactly the run of non-TAB bytes s starts with. */
  lemma {:induction false} RunLengthFacts(s: seq<int>)
    ensures var n := RunLength(s);
            && Tab !in s[..n]
            && (n < |s| ==> s[n] == Tab)
  {
    if s != [] && s[0] != Tab {
      RunLengthFacts(s[1..]);
      var n := RunLength(s);
      assert s[..n] == [s[0]] + s[1..][..n - 1];
    }
  }

  /** A token strtok returns, and the part of the string it resumes from. */
  datatype Token = Token(text: seq<int>, rest: seq<int>)

  /** One call of strtok(…, "\t") on the string that remains to be scanned:
      None (a NULL pointer) when nothing but TABs remains; otherwise the first
      maximal run of non-TAB bytes, and what follows the TAB that ends it
      (strtok overwrites that TAB with NUL and resumes after it). */
  function NextToken(s: seq<int>): Option<Token>
  {
    var k := LeadingTabs(s);
    if k == |s| then None else Some(TokenAt(s[k..]))
  }

  /** The token a string starts with (the string does not start with TAB):
      its run of non-TAB bytes, and what follows the TAB that ends it. */
  function TokenAt(r: seq<int>): Token {
    var n := RunLength(r);
    if n < |r| then Token(r[..n], r[n + 1..]) else Token(r, [])
  }

  /** strtok gives NULL exactly when nothing but TABs remains. */
  lemma NextTokenNull(s: seq<int>)
    ensures NextToken(s).None? <==> forall i :: 0 <= i < |s| ==> s[i] == Tab
  {
    LeadingTabsFacts(s);
  }

  /** When strtok gives a token, it is a non-empty run without TAB, and the
      string is the skipped TABs, the token, and (when the token did not end
      the string) the TAB after it and the rest. */
  lemma NextTokenSplits(s: seq<int>)
    requires NextToken(s).Some?
    ensures var t := NextToken(s).value;
            var k := LeadingTabs(s);
            && t.text != [] && Tab !in t.text
            && (|| s == s[..k] + (t.text + ([Tab] + t.rest))
                || (s == s[..k] + t.text && t.rest == []))
  {
    var k := LeadingTabs(s);
    LeadingTabsFacts(s);
    var r := s[k..];
    assert s == s[..k] + r;
    TokenAtSplits(r);
  }

  /** A token ends at the first TAB, or with the string. */
  lemma TokenAtSplits(r: seq<int>)
    requires r != [] && r[0] != Tab
    ensures var t := TokenAt(r);
            && t.text != [] && Tab !in t.text
            && (|| r == t.text + ([Tab] + t.rest)
                || (r == t.text && t.rest == []))
  {
    RunLengthFacts(r);
    var n := RunLength(r);
    if n < |r| {
      TokenBeforeTab(r, n);
    } else {
      assert r[..n] == r;
    }
  }

  /** A token that ends at a TAB: r is the token, the TAB and the rest. */
  lemma TokenBeforeTab(r: seq<int>, n: nat)
    requires n < |r| && n == RunLength(r) && r[n] == Tab
    ensures TokenAt(r) == Token(r[..n], r[n + 1..])
    ensures r == r[..n] + ([Tab] + r[n + 1..])
  {
    SplitAround(r, n);
  }

  /** A sequence is what comes before index n, the element at n, and
      what follows it. */
  lemma SplitAround(r: seq<int>, n: nat)
    requires n < |r|
    ensures r == r[..n] + ([r[n]] + r[n + 1..])
  {
  }

  lemma {:induction false} RunLengthOf(run: seq<int>, tail: seq<int>)
    requires Tab !in run
    requires tail == [] || tail[0] == Tab
    ensures RunLength(run + tail) == |run|
  {
    if run != [] {
      assert (run + tail)[1..] == run[1..] + tail;
      RunLengthOf(run[1..], tail);
    }
  }

  /** A line holding LABEL TAB VALUE, with no other TAB, splits into exactly
      these two tokens. */
  lemma LabelValueSplit(key: seq<int>, value: seq<int>)
    requires key != [] && value != []
    requires Tab !in key && Tab !in value
    ensures NextToken(key + [Tab] + value) == Some(Token(key, value))
    ensures NextToken(value) == Some(Token(value, []))
  {
    var s := key + [Tab] + value;
    assert s[0] == key[0];
    assert LeadingTabs(s) == 0;
    RunLengthOf(key, [Tab] + value);
    assert s == key + ([Tab] + value);
    assert s[0..][..|key|] == key;
    assert s[|key| + 1..] == value;
    assert value[0] != Tab;
    assert LeadingTabs(value) == 0;
    RunLengthOf(value, []);
    assert value + [] == value;
    assert value[0..][..|value|] == value;
  }

  // ---------------------------------------------------------------------
  // sscanf(…, "%ld", &x)

  /** isspace in the C locale: space, \t, \n, \v, \f and \r. */
  predicate IsSpace(c: int) {
    c == Space || Tab <= c <= Cr
  }

  predicate IsDigit(c: int) {
    Zero <= c < Zero + 10
  }

  /** The number of white-space bytes s starts with. */
  function LeadingSpaces(s: seq<int>): (k: nat)
    ensures k <= |s|
  {
    if s == [] || !IsSpace(s[0]) then 0 else 1 + LeadingSpaces(s[1..])
  }

  /** The number of decimal digits s starts with. */
  function DigitRun(s: seq<int>): (n: nat)
    ensures n <= |s|
  {
    if s == [] || !IsDigit(s[0]) then 0 else 1 + DigitRun(s[1..])
  }

  /** The number a sequence of decimal digits denotes. */
  function DigitsValue(ds: seq<int>): int {
    if ds == [] then 0 else DigitsValue(ds[..|ds| - 1]) * 10 + (ds[|ds| - 1] - Zero)
  }

  /** A magnitude with a sign applied. */
  function Signed(negative: bool, magnitude: int): int {
    if negative then -magnitude else magnitude
  }

  /** sscanf(s, "%ld", &x): Some(the value stored into x), or None when the
      conversion fails and x keeps its previous value. It skips white
      space, takes an optional sign and the longest run of decimal digits
      (at least one). A value outside the range of a 32-bit long is
      undefined in C; the model truncates it to 32 bits. */
  function ScanLong(s: seq<int>): Option<I32> {
    var t := s[LeadingSpaces(s)..];
    var negative := t != [] && t[0] == Minus;
    var u := if t != [] && (t[0] == Plus || t[0] == Minus) then t[1..] else t;
    var n := DigitRun(u);
    if n == 0 then None
    else
      Some(ToI32(Signed(negative, DigitsValue(u[..n]))))
  }

  /** The conversion fails exactly when, after white space and an optional
      sign, no digit follows. */
  lemma ScanLongFails(s: seq<int>)
    ensures ScanLong(s).None? <==>
              var t := s[LeadingSpaces(s)..];
              var u := if t != [] && (t[0] == Plus || t[0] == Minus) then t[1..] else t;
              u == [] || !IsDigit(u[0])
  {
  }

  /** The decimal digits of m, most significant first (an independent
      encoder, used to state what ScanLong decodes). */
  function Digits(m: nat): (ds: seq<int>)
    ensures ds != []
    ensures forall i :: 0 <= i < |ds| ==> IsDigit(ds[i])
  {
    if m < 10 then [Zero + m] else Digits(m / 10) + [Zero + m % 10]
  }

  /** The decimal representation of n, as printf("%ld") writes it. */
  function Decimal(n: int): (s: seq<int>)
    ensures s != []
  {
    if n < 0 then [Minus] + Digits(-n) else Digits(n)
  }

  lemma {:induction false} DigitsValueOfDigits(m: nat)
    ensures DigitsValue(Digits(m)) == m
  {
    if m >= 10 {
      DigitsValueOfDigits(m / 10);
      var ds := Digits(m);
      assert ds[..|ds| - 1] == Digits(m / 10);
    }
  }

  lemma {:induction false} DigitRunOfDigits(ds: seq<int>, tail: seq<int>)
    requires forall i :: 0 <= i < |ds| ==> IsDigit(ds[i])
    requires tail == [] || !IsDigit(tail[0])
    ensures DigitRun(ds + tail) == |ds|
    ensures (ds + tail)[..|ds|] == ds
  {
    if ds != [] {
      assert (ds + tail)[1..] == ds[1..] + tail;
      DigitRunOfDigits(ds[1..], tail);
    }
  }

  /** sscanf("%ld") on an optional minus sign, a run of digits and a tail
      that does not start with a digit: the digits' value, negated after
      the sign, truncated to 32 bits. */
  lemma ScanLongOfDigits(sign: seq<int>, ds: seq<int>, tail: seq<int>)
    requires sign == [] || sign == [Minus]
    requires ds != [] && forall i :: 0 <= i < |ds| ==> IsDigit(ds[i])
    requires tail == [] || !IsDigit(tail[0])
    ensures ScanLong(sign + (ds + tail)) == Some(ToI32(Signed(sign != [], DigitsValue(ds))))
  {
    var s := sign + (ds + tail);
    assert !IsSpace(s[0]);
    assert LeadingSpaces(s) == 0;
    assert s[0..] == s;
    DigitRunOfDigits(ds, tail);
    var t := s[LeadingSpaces(s)..];
    var u := if t != [] && (t[0] == Plus || t[0] == Minus) then t[1..] else t;
    if sign == [] {
      assert t == ds + tail;
      assert t[0] != Plus && t[0] != Minus;
    } else {
      assert t[1..] == ds + tail;
    }
    assert u == ds + tail;
    assert DigitRun(u) == |ds| && u[..|ds|] == ds;
    assert (t != [] && t[0] == Minus) == (sign != []);
    assert ScanLong(s) == Some(ToI32(Signed(sign != [], DigitsValue(u[..|ds|]))));
  }

  /** Round trip: sscanf("%ld") reads back any 32-bit value printed in
      decimal, and stops at the first byte that is not a digit. */
  lemma ScanLongDecimal(n: I32, tail: seq<int>)
    requires tail == [] || !IsDigit(tail[0])
    ensures ScanLong(Decimal(n) + tail) == Some(n)
  {
    if n < 0 {
      ScanLongNegative(n, tail);
    } else {
      ScanLongNonNegative(n, tail);
    }
  }

  lemma ScanLongNegative(n: I32, tail: seq<int>)
    requires n < 0 && (tail == [] || !IsDigit(tail[0]))
    ensures ScanLong(Decimal(n) + tail) == Some(n)
  {
    var m: nat := -(n as int);
    assert Decimal(n) + tail == [Minus] + (Digits(m) + tail);
    ScanLongOfDigits([Minus], Digits(m), tail);
    DigitsValueOfDigits(m);
  }

  lemma ScanLongNonNegative(n: I32, tail: seq<int>)
    requires n >= 0 && (tail == [] || !IsDigit(tail[0]))
    ensures ScanLong(Decimal(n) + tail) == Some(n)
  {
    assert Decimal(n) + tail == [] + (Digits(n) + tail);
    ScanLongOfDigits([], Digits(n), tail);
    DigitsValueOfDigits(n);
  }
}
