/** The pieces of Go's standard library that the status-bar code leans on for
    its arithmetic and text handling: 64-bit `int` arithmetic, truncating
    division, `unicode.IsSpace`, `strings.Fields`, `strings.TrimSpace`,
    `strconv.Atoi` and `strconv.Itoa`. */
module GoLib {

  // ---------------------------------------------------------------------
  // 64-bit integers
  // ---------------------------------------------------------------------

  const MinInt64: int := -0x8000_0000_0000_0000
  const MaxInt64: int := 0x7FFF_FFFF_FFFF_FFFF
  const TwoTo64: int := 0x1_0000_0000_0000_0000

  predicate IsInt64(x: int) {
    MinInt64 <= x <= MaxInt64
  }

  /** Two's-complement wrap-around of Go's 64-bit `int`: the unique int64
      congruent to `x` modulo 2^64. */
  function Wrap64(x: int): (r: int)
    ensures IsInt64(r)
    ensures (r - x) % TwoTo64 == 0
    ensures IsInt64(x) ==> r == x
  {
    var m := (x - MinInt64) % TwoTo64;
    assert x - MinInt64 == TwoTo64 * ((x - MinInt64) / TwoTo64) + m;
    m + MinInt64
  }

  function Abs(x: int): nat {
    if x < 0 then -x else x
  }

  /** Go's integer quotient `n / d`, truncated toward zero. */
  function Quo(n: int, d: int): int
    requires d != 0
  {
    var a := Abs(n) / Abs(d);
    if (n < 0) == (d < 0) then a else -a
  }

  /** The Go specification defines the quotient by `n == q*d + r` with
      `|r| < |d|` and `r` carrying the sign of `n`; `Quo` meets it. */
  lemma QuoRemainder(n: int, d: int)
    requires d != 0
    ensures Abs(n - Quo(n, d) * d) < Abs(d)
    ensures n - Quo(n, d) * d == 0 || ((n - Quo(n, d) * d > 0) <==> (n > 0))
  {
    var r := Abs(n) % Abs(d);
    QuoProduct(n, d);
    if n < 0 {
      assert n - Quo(n, d) * d == -r;
    } else {
      assert n - Quo(n, d) * d == r;
      assert n == 0 ==> r == 0;
    }
  }

  /** The product of the quotient and the divisor: `n` without its
      remainder. */
  lemma QuoProduct(n: int, d: int)
    requires d != 0
    ensures Quo(n, d) * d == if n < 0 then -(Abs(n) - Abs(n) % Abs(d)) else Abs(n) - Abs(n) % Abs(d)
  {
    var nn: int, dd: int := Abs(n), Abs(d);
    var a := nn / dd;
    var p := a * dd;
    assert nn - nn % dd == p;
    var q := Quo(n, d);
    if d > 0 {
      if n < 0 {
        assert q == -a;
        NegTimes(a, d);
      }
    } else if n < 0 {
      assert q == a && d == -dd;
      TimesNeg(a, dd);
    } else {
      assert q == -a && d == -dd;
      NegTimesNeg(a, dd);
    }
  }

  lemma NegTimes(a: int, b: int)
    ensures (-a) * b == -(a * b)
  {
  }

  lemma TimesNeg(a: int, b: int)
    ensures a * (-b) == -(a * b)
  {
  }

  lemma NegTimesNeg(a: int, b: int)
    ensures (-a) * (-b) == a * b
  {
  }

  /** For a non-negative dividend and a positive divisor Go's quotient is
      Dafny's. */
  lemma QuoNonNegative(n: int, d: int)
    requires n >= 0 && d > 0
    ensures Quo(n, d) == n / d
  {
  }

  // ---------------------------------------------------------------------
  // White space, strings.Fields and strings.TrimSpace
  // ---------------------------------------------------------------------

  /** `unicode.IsSpace`: the Latin-1 spaces and the other characters with
      Unicode's White_Space property. */
  predicate IsSpace(c: char) {
    c == ' ' || c == '\t' || c == '\n' || c == '\r' || c == '\U{000B}' || c == '\U{000C}'
    || c == '\U{0085}' || c == '\U{00A0}' || c == '\U{1680}'
    || ('\U{2000}' <= c <= '\U{200A}')
    || c == '\U{2028}' || c == '\U{2029}' || c == '\U{202F}' || c == '\U{205F}' || c == '\U{3000}'
  }

  /** A field as `strings.Fields` returns it: non-empty, without white space. */
  predicate IsWord(w: string) {
    |w| > 0 && forall i :: 0 <= i < |w| ==> !IsSpace(w[i])
  }

  predicate AllSpace(s: string) {
    forall i :: 0 <= i < |s| ==> IsSpace(s[i])
  }

  /** Number of leading white-space characters. */
  function SpaceRun(s: string): (k: nat)
    ensures k <= |s|
    ensures forall i :: 0 <= i < k ==> IsSpace(s[i])
    ensures k < |s| ==> !IsSpace(s[k])
  {
    if s == [] || !IsSpace(s[0]) then 0 else 1 + SpaceRun(s[1..])
  }

  /** Number of leading characters that are not white space. */
  function WordRun(s: string): (k: nat)
    ensures k <= |s|
    ensures forall i :: 0 <= i < k ==> !IsSpace(s[i])
    ensures k < |s| ==> IsSpace(s[k])
  {
    if s == [] || IsSpace(s[0]) then 0 else 1 + WordRun(s[1..])
  }

  /** `strings.Fields`: the maximal runs of non-space characters, in order. */
  function Fields(s: string): seq<string>
    decreases |s|
  {
    var k := SpaceRun(s);
    if k == |s| then []
    else
      var t := s[k..];
      var w := WordRun(t);
      [t[..w]] + Fields(t[w..])
  }

  /** Every field is a word. */
  lemma {:induction false} FieldsAreWords(s: string)
    ensures forall i :: 0 <= i < |Fields(s)| ==> IsWord(Fields(s)[i])
    decreases |s|
  {
    var k := SpaceRun(s);
    if k < |s| {
      var t := s[k..];
      var w := WordRun(t);
      FieldsAreWords(t[w..]);
    }
  }

  /** The words joined by single blanks: the canonical text `Fields` reads. */
  function JoinSpace(ws: seq<string>): string {
    if ws == [] then ""
    else if |ws| == 1 then ws[0]
    else ws[0] + " " + JoinSpace(ws[1..])
  }

  lemma {:induction false} SpaceRunPrefix(pad: string, rest: string)
    requires AllSpace(pad)
    requires rest == [] || !IsSpace(rest[0])
    ensures SpaceRun(pad + rest) == |pad|
    decreases |pad|
  {
    if pad == [] {
      assert pad + rest == rest;
    } else {
      assert (pad + rest)[1..] == pad[1..] + rest;
      SpaceRunPrefix(pad[1..], rest);
    }
  }

  lemma {:induction false} WordRunPrefix(w: string, rest: string)
    requires forall i :: 0 <= i < |w| ==> !IsSpace(w[i])
    requires rest == [] || IsSpace(rest[0])
    ensures WordRun(w + rest) == |w|
    decreases |w|
  {
    if w == [] {
      assert w + rest == rest;
    } else {
      assert (w + rest)[1..] == w[1..] + rest;
      WordRunPrefix(w[1..], rest);
    }
  }

  /** One step of `Fields`: padding, then a word ended by a space or the end
      of the text. */
  lemma FieldsCons(pad: string, w: string, rest: string)
    requires AllSpace(pad) && IsWord(w)
    requires rest == [] || IsSpace(rest[0])
    ensures Fields(pad + w + rest) == [w] + Fields(rest)
  {
    var s := pad + w + rest;
    assert s == pad + (w + rest);
    SpaceRunPrefix(pad, w + rest);
    assert s[|pad|..] == w + rest;
    WordRunPrefix(w, rest);
    assert (w + rest)[..|w|] == w;
    assert (w + rest)[|w|..] == rest;
  }

  /** Leading white space does not change the fields. */
  lemma FieldsDropPad(pad: string, rest: string)
    requires AllSpace(pad)
    requires rest == [] || !IsSpace(rest[0])
    ensures Fields(pad + rest) == Fields(rest)
  {
    SpaceRunPrefix(pad, rest);
    assert (pad + rest)[|pad|..] == rest;
    SpaceRunPrefix("", rest);
    assert "" + rest == rest;
    assert rest[0..] == rest;
  }

  lemma JoinSpaceHead(ws: seq<string>)
    requires |ws| > 0 && IsWord(ws[0])
    ensures |JoinSpace(ws)| > 0 && JoinSpace(ws)[0] == ws[0][0]
  {
  }

  lemma HeadTail(ws: seq<string>)
    requires ws != []
    ensures ws == [ws[0]] + ws[1..]
  {
  }

  /** `Fields` splits the blank-joined text back into the words it was built
      from. */
  lemma {:induction false} FieldsJoinSpace(ws: seq<string>)
    requires forall i :: 0 <= i < |ws| ==> IsWord(ws[i])
    ensures Fields(JoinSpace(ws)) == ws
    decreases |ws|
  {
    if ws == [] {
    } else if |ws| == 1 {
      FieldsCons("", ws[0], "");
      assert "" + ws[0] + "" == ws[0];
    } else {
      var head := ws[0];
      var tail := ws[1..];
      forall i | 0 <= i < |tail|
        ensures IsWord(tail[i])
      {
        assert tail[i] == ws[i + 1];
      }
      var rest := JoinSpace(tail);
      var pad := " ";
      assert JoinSpace(ws) == "" + head + (pad + rest);
      FieldsCons("", head, pad + rest);
      JoinSpaceHead(tail);
      FieldsDropPad(pad, rest);
      FieldsJoinSpace(tail);
      assert Fields(JoinSpace(ws)) == [head] + tail;
      HeadTail(ws);
    }
  }

  /** Number of trailing white-space characters. */
  function TrailSpaceRun(s: string): (k: nat)
    ensures k <= |s|
    ensures forall i :: |s| - k <= i < |s| ==> IsSpace(s[i])
    ensures k < |s| ==> !IsSpace(s[|s| - k - 1])
  {
    if s == [] || !IsSpace(s[|s| - 1]) then 0 else 1 + TrailSpaceRun(s[..|s| - 1])
  }

  /** `strings.TrimSpace`: `s` without its leading and trailing white space. */
  function TrimSpace(s: string): (r: string)
    ensures r == [] || (!IsSpace(r[0]) && !IsSpace(r[|r| - 1]))
    ensures |r| <= |s|
  {
    var t := s[SpaceRun(s)..];
    t[..|t| - TrailSpaceRun(t)]
  }

  lemma {:induction false} TrailSpaceRunSuffix(body: string, pad: string)
    requires AllSpace(pad)
    requires body == [] || !IsSpace(body[|body| - 1])
    ensures TrailSpaceRun(body + pad) == |pad|
    decreases |pad|
  {
    if pad == [] {
      assert body + pad == body;
    } else {
      assert (body + pad)[..|body + pad| - 1] == body + pad[..|pad| - 1];
      TrailSpaceRunSuffix(body, pad[..|pad| - 1]);
    }
  }

  /** `TrimSpace` strips exactly the padding around a text that neither starts
      nor ends with white space. */
  lemma TrimSpacePadded(pad1: string, body: string, pad2: string)
    requires AllSpace(pad1) && AllSpace(pad2)
    requires body == [] || (!IsSpace(body[0]) && !IsSpace(body[|body| - 1]))
    ensures TrimSpace(pad1 + body + pad2) == body
  {
    var s := pad1 + body + pad2;
    if body == [] {
      assert s == pad1 + pad2;
      assert AllSpace(s);
      assert SpaceRun(s) == |s|;
    } else {
      SpaceRunPrefix(pad1, body + pad2);
      assert s == pad1 + (body + pad2);
      assert s[|pad1|..] == body + pad2;
      TrailSpaceRunSuffix(body, pad2);
    }
  }

  // ---------------------------------------------------------------------
  // strconv.Atoi and strconv.Itoa
  // ---------------------------------------------------------------------

  predicate IsDigit(c: char) {
    '0' <= c <= '9'
  }

  predicate AllDigits(s: string) {
    forall i :: 0 <= i < |s| ==> IsDigit(s[i])
  }

  function DigitValue(c: char): nat
    requires IsDigit(c)
  {
    (c as int) - ('0' as int)
  }

  function DigitChar(d: nat): (c: char)
    requires d < 10
    ensures IsDigit(c) && DigitValue(c) == d
  {
    (('0' as int) + d) as char
  }

  /** The value of a string of decimal digits, read most significant first. */
  function DigitsValue(ds: string): nat
    requires AllDigits(ds)
  {
    if ds == [] then 0
    else DigitsValue(ds[..|ds| - 1]) * 10 + DigitValue(ds[|ds| - 1])
  }

  /** The decimal digits of a natural number, without leading zeros. */
  function Decimal(n: nat): (ds: string)
    ensures |ds| > 0 && AllDigits(ds)
  {
    if n < 10 then [DigitChar(n)] else Decimal(n / 10) + [DigitChar(n % 10)]
  }

  /** An optional sign followed by at least one decimal digit. */
  predicate SignedDigits(s: string) {
    (|s| > 0 && AllDigits(s))
    || (|s| > 1 && (s[0] == '+' || s[0] == '-') && AllDigits(s[1..]))
  }

  /** The result of `strconv.Atoi`: the value it returns and whether its
      error was nil. */
  datatype Parsed = Parsed(value: int, ok: bool)

  /** How many decimal digits `s` starts with. */
  function DigitRun(s: string): (k: nat)
    ensures k <= |s|
    ensures k < |s| ==> !IsDigit(s[k])
  {
    if s == [] || !IsDigit(s[0]) then 0 else 1 + DigitRun(s[1..])
  }

  lemma {:induction false} DigitRunDigits(s: string)
    ensures AllDigits(s[..DigitRun(s)])
  {
    if s != [] && IsDigit(s[0]) {
      DigitRunDigits(s[1..]);
      assert s[..DigitRun(s)] == [s[0]] + s[1..][..DigitRun(s[1..])];
    }
  }

  const MaxUint64: int := TwoTo64 - 1

  /** `strconv.Atoi`: an optional sign followed by at least one decimal digit.
      The digits after the sign are read left to right into an unsigned
      64-bit accumulator: once the digits read so far exceed its range the
      result is a range error, clamped to the bound on the side of the sign;
      otherwise the first character that is not a digit, or a text with no
      digits, is a syntax error with value 0. A complete number outside the
      64-bit signed range is a range error clamped the same way. The digits
      read so far only grow, so they exceed the unsigned range before the
      first non-digit exactly when the whole leading run of digits does. */
  function Atoi(s: string): (p: Parsed)
    ensures p.ok ==> IsInt64(p.value)
    ensures IsInt64(p.value)
    ensures !p.ok ==> p.value in {0, MinInt64, MaxInt64}
    ensures p.ok ==> (AllDigits(s) && |s| > 0 && p.value == DigitsValue(s))
                     || (|s| > 1 && s[0] == '+' && AllDigits(s[1..]) && p.value == DigitsValue(s[1..]))
                     || (|s| > 1 && s[0] == '-' && AllDigits(s[1..]) && p.value == -(DigitsValue(s[1..]) as int))
  {
    if s == [] then Parsed(0, false)
    else
      var neg := s[0] == '-';
      var body := if s[0] == '-' || s[0] == '+' then s[1..] else s;
      var k := DigitRun(body);
      DigitRunDigits(body);
      var lead: int := DigitsValue(body[..k]);
      if lead > MaxUint64 then
        if neg then Parsed(MinInt64, false) else Parsed(MaxInt64, false)
      else if body == [] || k < |body| then Parsed(0, false)
      else
        assert body[..k] == body;
        var v := if neg then -lead else lead;
        if v > MaxInt64 then Parsed(MaxInt64, false)
        else if v < MinInt64 then Parsed(MinInt64, false)
        else Parsed(v, true)
  }

  /** `strconv.Itoa` (and `fmt.Sprint` of an int): the decimal rendering,
      with a leading '-' for negative numbers. */
  function Itoa(n: int): (s: string)
    ensures |s| > 0
  {
    if n < 0 then "-" + Decimal(-n) else Decimal(n)
  }

  lemma {:induction false} DecimalValue(n: nat)
    ensures DigitsValue(Decimal(n)) == n
  {
    if n >= 10 {
      var ds := Decimal(n);
      assert ds[..|ds| - 1] == Decimal(n / 10);
      DecimalValue(n / 10);
    }
  }

  /** Only an optionally signed run of digits parses without error. */
  lemma AtoiNotNumber(s: string)
    requires !SignedDigits(s)
    ensures !Atoi(s).ok && Atoi(s).value in {0, MinInt64, MaxInt64}
  {
  }

  /** `strconv.Atoi` reads back every 64-bit integer `strconv.Itoa` writes. */
  lemma AtoiItoa(n: int)
    requires IsInt64(n)
    ensures Atoi(Itoa(n)) == Parsed(n, true)
  {
    var s := Itoa(n);
    if n < 0 {
      DecimalValue(-n);
      assert s[1..] == Decimal(-n);
      DigitRunAll(s[1..]);
      assert s[1..][..|s| - 1] == s[1..];
    } else {
      DecimalValue(n);
      DigitRunAll(s);
      assert IsDigit(s[0]) && s[..|s|] == s;
    }
  }

  function Pow10(k: nat): nat {
    if k == 0 then 1 else 10 * Pow10(k - 1)
  }

  lemma {:induction false} DecimalLength(n: nat, k: nat)
    requires k >= 1 && n < Pow10(k)
    ensures |Decimal(n)| <= k
  {
    if n >= 10 {
      assert Pow10(1) == 10;
      DecimalLength(n / 10, k - 1);
    }
  }

  /** A 64-bit integer takes at most 20 characters (19 digits and a sign). */
  lemma ItoaLength(n: int)
    requires IsInt64(n)
    ensures |Itoa(n)| <= 20
  {
    assert Pow10(5) == 100000;
    assert Pow10(10) == 100000 * Pow10(5);
    assert Pow10(19) == 10_000_000_000_000_000_000;
    if n < 0 {
      DecimalLength(-n, 19);
    } else {
      DecimalLength(n, 19);
    }
  }

  /** The run of digits ends at the first non-digit at the latest. */
  lemma {:induction false} DigitRunStops(s: string, i: nat)
    requires i < |s| && !IsDigit(s[i])
    ensures DigitRun(s) <= i
  {
    if i > 0 && IsDigit(s[0]) {
      DigitRunStops(s[1..], i - 1);
    }
  }

  /** A text of digits is one run of digits. */
  lemma {:induction false} DigitRunAll(s: string)
    requires AllDigits(s)
    ensures DigitRun(s) == |s|
  {
    if s != [] {
      DigitRunAll(s[1..]);
    }
  }

  /** `k` digits never make a number of `k + 1` digits or more. */
  lemma {:induction false} DigitsValueBound(ds: string)
    requires AllDigits(ds)
    ensures DigitsValue(ds) < Pow10(|ds|)
  {
    if ds != [] {
      DigitsValueBound(ds[..|ds| - 1]);
    }
  }

  lemma {:induction false} Pow10Monotone(j: nat, k: nat)
    requires j <= k
    ensures Pow10(j) <= Pow10(k)
  {
    if j < k {
      Pow10Monotone(j, k - 1);
    }
  }

  /** The syntax errors of `strconv.Atoi`: the empty text, a lone sign, and a
      text with a non-digit among the first 19 characters after its optional
      sign (too few digits precede it to leave the unsigned range) all give
      the value 0 and an error. */
  lemma AtoiSyntax(s: string, i: nat)
    requires s != [] ==>
      var body := if s[0] == '-' || s[0] == '+' then s[1..] else s;
      body == [] || (i < |body| && i < 19 && !IsDigit(body[i]))
    ensures Atoi(s) == Parsed(0, false)
  {
    if s != [] {
      var body := if s[0] == '-' || s[0] == '+' then s[1..] else s;
      var k := DigitRun(body);
      if body != [] {
        DigitRunStops(body, i);
      }
      DigitRunDigits(body);
      DigitsValueBound(body[..k]);
      Pow10Monotone(k, 18);
      assert Pow10(18) == 1_000_000_000_000_000_000 by {
        assert Pow10(6) == 1_000_000;
        assert Pow10(12) == 1_000_000 * Pow10(6);
      }
    }
  }

  // ---------------------------------------------------------------------
  // Library types the applets hold
  // ---------------------------------------------------------------------

  /** The flags defined on a `flag.FlagSet`, in the order `VisitAll` visits
      them (lexicographic by name). */
  datatype FlagSet = FlagSet(names: seq<string>)

  /** What a `bufio.Scanner` over a file yields: its lines, in order, and
      whether scanning ends in an error (`Err() != nil`) instead of at the
      end of the file. */
  datatype ScanInput = ScanInput(lines: seq<string>, err: bool)

  /** How a Go call ends: it returns a value, or it panics (a nil pointer
      dereference, an index out of range). */
  datatype Exit<+T> = Returned(value: T) | Panicked
}
