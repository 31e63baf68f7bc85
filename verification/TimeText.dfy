/** Times as text: the two formats in which times are written and the two parsers that read them. */
module TimeText {
  import opened Basics

  // ------------------------------------------------------------------ decimal numbers

  predicate IsDigit(c: char)
  {
    '0' <= c <= '9'
  }

  ghost predicate AllDigits(s: string)
  {
    forall i :: 0 <= i < |s| ==> IsDigit(s[i])
  }

  function DigitOf(c: char): (d: nat)
    requires IsDigit(c)
    ensures d < 10
  {
    (c - '0') as nat
  }

  function CharOf(d: nat): (c: char)
    requires d < 10
    ensures IsDigit(c) && DigitOf(c) == d
  {
    '0' + d as char
  }

  /** The decimal digits of n, without leading zeros. */
  function Dec(n: nat): (s: string)
    ensures AllDigits(s) && s != ""
  {
    if n < 10 then [CharOf(n)] else Dec(n / 10) + [CharOf(n % 10)]
  }

  /** The number that a sequence of digits denotes. */
  function Value(s: string): (n: nat)
    requires AllDigits(s)
  {
    if s == "" then 0 else Value(s[..|s| - 1]) * 10 + DigitOf(s[|s| - 1])
  }

  lemma {:induction false} ValueOfDec(n: nat)
    ensures Value(Dec(n)) == n
  {
    if n < 10 {
      assert [CharOf(n)][..0] == "";
    } else {
      ValueOfDec(n / 10);
      assert Dec(n)[..|Dec(n)| - 1] == Dec(n / 10);
    }
  }

  /** The powers of ten bound the number of digits. */
  function Pow10(k: nat): (p: nat)
    ensures p > 0
  {
    if k == 0 then 1 else 10 * Pow10(k - 1)
  }

  lemma {:induction false} DecLength(n: nat, k: nat)
    requires n < Pow10(k) && k > 0
    ensures |Dec(n)| <= k
  {
    if n >= 10 {
      assert k > 1;
      DecLength(n / 10, k - 1);
    }
  }

  function Zeros(k: nat): (s: string)
    ensures |s| == k && forall i :: 0 <= i < k ==> s[i] == '0'
  {
    seq(k, i => '0')
  }

  /** The digits of n, with zeros in front up to a width. */
  function Padded(n: nat, width: nat): (s: string)
    ensures AllDigits(s) && s != ""
  {
    var d := Dec(n);
    if |d| < width then Zeros(width - |d|) + d else d
  }

  lemma {:induction false} ZerosInFront(k: nat, s: string)
    requires AllDigits(s)
    ensures AllDigits(Zeros(k) + s) && Value(Zeros(k) + s) == Value(s)
  {
    var t := Zeros(k) + s;
    if s == "" {
      assert t == Zeros(k);
      ValueOfZeros(k);
    } else {
      assert t[..|t| - 1] == Zeros(k) + s[..|s| - 1];
      ZerosInFront(k, s[..|s| - 1]);
    }
  }

  lemma {:induction false} ValueOfZeros(k: nat)
    ensures Value(Zeros(k)) == 0
  {
    if k > 0 {
      assert Zeros(k)[..k - 1] == Zeros(k - 1);
      ValueOfZeros(k - 1);
    }
  }

  lemma {:induction false} ValueOfPadded(n: nat, width: nat)
    ensures Value(Padded(n, width)) == n
  {
    ValueOfDec(n);
    if |Dec(n)| < width {
      ZerosInFront(width - |Dec(n)|, Dec(n));
    }
  }

  /** What reading an unsigned 64-bit number accepts: digits, with at most one plus sign in front. */
  function ParseU64(s: string): (r: Option<nat>)
  {
    var digits := if s != "" && s[0] == '+' then s[1..] else s;
    if digits == "" || exists i :: 0 <= i < |digits| && !IsDigit(digits[i]) then None
    else if Value(digits) > U64_MAX then None
    else Some(Value(digits))
  }

  lemma {:induction false} ParsePadded(n: nat, width: nat)
    requires n <= U64_MAX
    ensures ParseU64(Padded(n, width)) == Some(n) && ParseU64(Dec(n)) == Some(n)
  {
    ValueOfPadded(n, width);
    ValueOfDec(n);
    assert IsDigit(Padded(n, width)[0]) && IsDigit(Dec(n)[0]);
  }

  // ------------------------------------------------------------------ splitting

  /** The pieces of s between the separators c; there is always at least one. */
  function Split(s: string, c: char): (r: seq<string>)
    ensures r != []
  {
    if s == "" then [""]
    else
      var rest := Split(s[1..], c);
      if s[0] == c then [""] + rest else [[s[0]] + rest[0]] + rest[1..]
  }

  lemma {:induction false} SplitFirst(a: string, b: string, c: char)
    requires c !in a
    ensures Split(a + [c] + b, c) == [a] + Split(b, c)
  {
    var s := a + [c] + b;
    if a == "" {
      assert s[1..] == b;
    } else {
      assert s[1..] == a[1..] + [c] + b;
      SplitFirst(a[1..], b, c);
      var rest := Split(s[1..], c);
      assert rest[0] == a[1..] && rest[1..] == Split(b, c);
      assert [s[0]] + a[1..] == a;
    }
  }

  lemma {:induction false} SplitNone(a: string, c: char)
    requires c !in a
    ensures Split(a, c) == [a]
  {
    if a != "" {
      SplitNone(a[1..], c);
      assert [a[0]] + a[1..] == a;
    }
  }

  /** s up to the first c, and what follows it. */
  function SplitOnce(s: string, c: char): (r: Option<(string, string)>)
  {
    if s == "" then None
    else if s[0] == c then Some(("", s[1..]))
    else match SplitOnce(s[1..], c)
      case None => None
      case Some(p) => Some(([s[0]] + p.0, p.1))
  }

  lemma {:induction false} SplitOnceAt(a: string, b: string, c: char)
    requires c !in a
    ensures SplitOnce(a + [c] + b, c) == Some((a, b))
  {
    var s := a + [c] + b;
    if a == "" {
      assert s[1..] == b;
    } else {
      assert s[1..] == a[1..] + [c] + b;
      SplitOnceAt(a[1..], b, c);
      assert [s[0]] + a[1..] == a;
    }
  }

  lemma {:induction false} SplitOnceNone(a: string, c: char)
    requires c !in a
    ensures SplitOnce(a, c) == None
  {
    if a != "" {
      SplitOnceNone(a[1..], c);
    }
  }

  lemma {:induction false} NotADigit(s: string, c: char)
    requires AllDigits(s) && !IsDigit(c)
    ensures c !in s
  {
  }

  // ------------------------------------------------------------------ fractions

  function TrimZeros(s: string): (r: string)
    ensures |r| <= |s|
  {
    if s != "" && s[|s| - 1] == '0' then TrimZeros(s[..|s| - 1]) else s
  }

  function PadRight(s: string, width: nat): (r: string)
    decreases width - |s|
  {
    if |s| < width then PadRight(s + "0", width) else s
  }

  /** Trimming stops within the fraction if it has a digit other than zero. */
  lemma {:induction false} TrimWithin(head: string, s: string)
    requires exists i :: 0 <= i < |s| && s[i] != '0'
    ensures TrimZeros(head + s) == head + TrimZeros(s) && TrimZeros(s) != ""
  {
    var t := head + s;
    var i :| 0 <= i < |s| && s[i] != '0';
    if s[|s| - 1] == '0' {
      var u := s[..|s| - 1];
      assert t[..|t| - 1] == head + u;
      assert u[i] != '0';
      TrimWithin(head, u);
    }
  }

  /** Padding with zeros undoes the trimming of zeros. */
  lemma {:induction false} PadUndoesTrim(s: string)
    ensures PadRight(TrimZeros(s), |s|) == s
  {
    if s != "" && s[|s| - 1] == '0' {
      var u := s[..|s| - 1];
      PadUndoesTrim(u);
      PadFurther(TrimZeros(u), |u|);
      assert u + "0" == s;
    }
  }

  lemma {:induction false} PadFurther(s: string, width: nat)
    requires |s| <= width
    ensures |PadRight(s, width)| == width && PadRight(s, width + 1) == PadRight(s, width) + "0"
    decreases width - |s|
  {
    if |s| < width {
      PadFurther(s + "0", width);
    } else {
      assert PadRight(s + "0", width + 1) == s + "0";
    }
  }

  /** The digits of a fraction as a number of nanoseconds; more than nine are an error or are cut off. */
  function NanosOf(s: string, truncate: bool): (r: Option<nat>)
  {
    if s == "" || (!truncate && |s| > 9) || (exists i :: 0 <= i < |s| && !IsDigit(s[i])) then None
    else ParseU64(PadRight(if |s| > 9 then s[..9] else s, 9))
  }

  method NormalizeNanos(input: string, truncate: bool) returns (r: Option<nat>)
    ensures r == NanosOf(input, truncate)
  {
    if input == "" || (!truncate && |input| > 9) || (exists i :: 0 <= i < |input| && !IsDigit(input[i])) {
      return None;
    }
    var nanos := if |input| > 9 then input[..9] else input;
    ghost var goal := PadRight(nanos, 9);
    while |nanos| < 9
      invariant PadRight(nanos, 9) == goal
      decreases 9 - |nanos|
    {
      nanos := nanos + "0";
    }
    r := ParseU64(nanos);
  }

  lemma {:induction false} TrimKeepsDigits(s: string)
    requires AllDigits(s)
    ensures AllDigits(TrimZeros(s))
  {
    if s != "" && s[|s| - 1] == '0' {
      TrimKeepsDigits(s[..|s| - 1]);
    }
  }

  /** Nine digits of nanoseconds, trimmed, are read back as the same number. */
  lemma {:induction false} FractionRoundTrip(nanos: nat, truncate: bool)
    requires 0 < nanos < NANOS
    ensures |Padded(nanos, 9)| == 9 && (exists i :: 0 <= i < 9 && Padded(nanos, 9)[i] != '0')
    ensures NanosOf(TrimZeros(Padded(nanos, 9)), truncate) == Some(nanos)
  {
    var s := Padded(nanos, 9);
    NineDigits(nanos);
    SomeDigit(s, nanos);
    TrimWithin("", s);
    assert "" + s == s;
    TrimKeepsDigits(s);
    PadUndoesTrim(s);
    ParsePadded(nanos, 9);
  }

  lemma {:induction false} NineDigits(nanos: nat)
    requires nanos < NANOS
    ensures |Padded(nanos, 9)| == 9
  {
    assert Pow10(1) == 10 && Pow10(2) == 100 && Pow10(3) == 1000 && Pow10(4) == 10000;
    assert Pow10(5) == 100000 && Pow10(6) == 1000000 && Pow10(7) == 10000000;
    assert Pow10(8) == 100000000 && Pow10(9) == 1000000000;
    DecLength(nanos, 9);
  }

  lemma {:induction false} SomeDigit(s: string, n: nat)
    requires AllDigits(s) && n > 0 && Padded(n, 9) == s
    ensures exists i :: 0 <= i < |s| && s[i] != '0'
  {
    ValueOfPadded(n, 9);
    if forall i :: 0 <= i < |s| ==> s[i] == '0' {
      assert s == Zeros(|s|);
      ValueOfZeros(|s|);
      assert false;
    }
  }

  // ------------------------------------------------------------------ seconds with a fraction

  function TotalNanos(seconds: nat, nanos: nat): (r: Option<nat>)
  {
    if seconds * NANOS + nanos <= U64_MAX then Some(seconds * NANOS + nanos) else None
  }

  function FormatDecimalSeconds(t: nat): (s: string)
  {
    var seconds, nanos := t / NANOS, t % NANOS;
    if nanos == 0 then Dec(seconds) else TrimZeros(Dec(seconds) + "." + Padded(nanos, 9))
  }

  /** A number of seconds with an optional fraction. */
  function ParseSeconds(s: string, truncate: bool): (r: Option<(nat, nat)>)
  {
    match SplitOnce(s, '.')
    case None => (match ParseU64(s) case None => None case Some(n) => Some((n, 0)))
    case Some(p) =>
      match (ParseU64(p.0), NanosOf(p.1, truncate))
      case (Some(n), Some(f)) => Some((n, f))
      case _ => None
  }

  function ParseDecimalSeconds(s: string): (r: Option<nat>)
  {
    match ParseSeconds(s, true)
    case None => None
    case Some(p) => TotalNanos(p.0, p.1)
  }

  /** Seconds written with at least width digits, and their fraction, are read back. */
  lemma {:induction false} SecondsRoundTrip(digits: string, seconds: nat, nanos: nat, truncate: bool)
    requires AllDigits(digits) && ParseU64(digits) == Some(seconds) && nanos < NANOS
    ensures nanos == 0 ==> ParseSeconds(digits, truncate) == Some((seconds, 0))
    ensures nanos > 0 ==>
              && ParseSeconds(digits + "." + TrimZeros(Padded(nanos, 9)), truncate) == Some((seconds, nanos))
              && TrimZeros(digits + "." + Padded(nanos, 9)) == digits + "." + TrimZeros(Padded(nanos, 9))
  {
    NotADigit(digits, '.');
    if nanos == 0 {
      SplitOnceNone(digits, '.');
    } else {
      FractionRoundTrip(nanos, truncate);
      TrimWithin(digits + ".", Padded(nanos, 9));
      SplitOnceAt(digits, TrimZeros(Padded(nanos, 9)), '.');
    }
  }

  /** Reading undoes writing, for every time. */
  lemma {:induction false} DecimalRoundTrip(t: nat)
    requires t <= U64_MAX
    ensures ParseDecimalSeconds(FormatDecimalSeconds(t)) == Some(t)
  {
    hide TotalNanos, TrimZeros, Padded, ParseU64, ParseSeconds, Dec;
    PartsFit(t);
    var seconds, nanos := t / NANOS, t % NANOS;
    ParsePadded(seconds, 0);
    SecondsRoundTrip(Dec(seconds), seconds, nanos, true);
  }

  // ------------------------------------------------------------------ hours, minutes and seconds

  function FormatHms(t: nat): (s: string)
  {
    var total, nanos := t / NANOS, t % NANOS;
    var head := Padded(total / 3600, 2) + ":" + Padded(total % 3600 / 60, 2) + ":" + Padded(total % 60, 2);
    if nanos == 0 then head else TrimZeros(head + "." + Padded(nanos, 9))
  }

  /** Whole seconds; each step may overflow on its own. */
  function TotalSeconds(h: nat, m: nat, s: nat): (r: Option<nat>)
  {
    if h * 60 > U64_MAX || h * 60 + m > U64_MAX then None
    else if (h * 60 + m) * 60 > U64_MAX || (h * 60 + m) * 60 + s > U64_MAX then None
    else Some((h * 60 + m) * 60 + s)
  }

  function Parse(input: string): (r: Option<nat>)
  {
    var parts := Split(input, ':');
    if |parts| != 3 then None
    else
      match (ParseU64(parts[0]), ParseU64(parts[1]), ParseSeconds(parts[2], false))
      case (Some(h), Some(m), Some(p)) =>
        (match TotalSeconds(h, m, p.0)
         case None => None
         case Some(total) => TotalNanos(total, p.1))
      case _ => None
  }

  lemma {:induction false} SplitHms(h: string, m: string, s: string)
    requires ':' !in h && ':' !in m && ':' !in s
    ensures Split(h + ":" + m + ":" + s, ':') == [h, m, s]
  {
    assert h + ":" + m + ":" + s == h + ":" + (m + ":" + s);
    SplitFirst(h, m + ":" + s, ':');
    SplitFirst(m, s, ':');
    SplitNone(s, ':');
    assert [h] + ([m] + [s]) == [h, m, s];
  }

  lemma {:induction false} HmsParts(total: nat)
    ensures (total / 3600 * 60 + total % 3600 / 60) * 60 + total % 60 == total
    ensures total / 3600 <= total && total % 3600 / 60 < 60 && total % 60 < 60
  {
    var h, r := total / 3600, total % 3600;
    var m, s := r / 60, r % 60;
    assert total == 3600 * h + r && r == 60 * m + s;
    assert total == 60 * (60 * h + m) + s;
    Remainder(total, 60 * h + m, s);
  }

  lemma {:induction false} Remainder(n: nat, q: nat, r: nat)
    requires r < 60 && n == 60 * q + r
    ensures n % 60 == r
  {
  }

  /** The parts of a time that fits into 64 bits add up to it without overflow. */
  lemma {:induction false} PartsFit(t: nat)
    requires t <= U64_MAX
    ensures t / NANOS <= U64_MAX && t % NANOS < NANOS
    ensures TotalNanos(t / NANOS, t % NANOS) == Some(t)
  {
    assert t / NANOS * NANOS + t % NANOS == t;
  }

  /** Reading undoes writing, for every time; in particular reading never overflows. */
  lemma {:induction false} HmsRoundTrip(t: nat)
    requires t <= U64_MAX
    ensures Parse(FormatHms(t)) == Some(t)
  {
    hide TotalNanos, TotalSeconds, TrimZeros, Padded, ParseU64, ParseSeconds, Parse;
    PartsFit(t);
    var total, nanos := t / NANOS, t % NANOS;
    var h, m, s := total / 3600, total % 3600 / 60, total % 60;
    HmsParts(total);
    ParsePadded(h, 2);
    ParsePadded(m, 2);
    ParsePadded(s, 2);
    TotalFits(h, m, s, total);
    HmsText(h, m, s, total, nanos, t);
  }

  lemma {:induction false} TotalFits(h: nat, m: nat, s: nat, total: nat)
    requires (h * 60 + m) * 60 + s == total <= U64_MAX
    ensures TotalSeconds(h, m, s) == Some(total)
  {
  }

  lemma {:induction false} HmsText(h: nat, m: nat, s: nat, total: nat, nanos: nat, t: nat)
    requires TotalSeconds(h, m, s) == Some(total) && TotalNanos(total, nanos) == Some(t) && nanos < NANOS
    requires ParseU64(Padded(h, 2)) == Some(h) && ParseU64(Padded(m, 2)) == Some(m) && ParseU64(Padded(s, 2)) == Some(s)
    ensures var head := Padded(h, 2) + ":" + Padded(m, 2) + ":" + Padded(s, 2);
            Parse(if nanos == 0 then head else TrimZeros(head + "." + Padded(nanos, 9))) == Some(t)
  {
    hide TotalNanos, TotalSeconds, Padded, ParseU64, ParseSeconds, Split, TrimZeros;
    var hh, mm, ss := Padded(h, 2), Padded(m, 2), Padded(s, 2);
    var head := hh + ":" + mm + ":" + ss;
    SecondsRoundTrip(ss, s, nanos, false);
    NotADigit(hh, ':');
    NotADigit(mm, ':');
    NotADigit(ss, ':');
    if nanos == 0 {
      SplitHms(hh, mm, ss);
    } else {
      FractionRoundTrip(nanos, false);
      var frac := TrimZeros(Padded(nanos, 9));
      TrimWithin(head + ".", Padded(nanos, 9));
      TrimKeepsDigits(Padded(nanos, 9));
      NotADigit(frac, ':');
      SplitHms(hh, mm, ss + "." + frac);
      assert head + "." + frac == hh + ":" + mm + ":" + (ss + "." + frac);
    }
  }

  /** Hence no two times are written alike. */
  lemma {:induction false} FormatsAreInjective(t: nat, u: nat)
    requires t <= U64_MAX && u <= U64_MAX
    ensures FormatHms(t) == FormatHms(u) ==> t == u
    ensures FormatDecimalSeconds(t) == FormatDecimalSeconds(u) ==> t == u
  {
    hide FormatHms, FormatDecimalSeconds, Parse, ParseDecimalSeconds;
    HmsRoundTrip(t);
    HmsRoundTrip(u);
    DecimalRoundTrip(t);
    DecimalRoundTrip(u);
  }

  // ------------------------------------------------------------------ what the texts look like

  /** The first digit of a number is not zero, unless it is the only one. */
  ghost predicate NoLeadingZero(s: string)
  {
    |s| == 1 || (s != "" && s[0] != '0')
  }

  lemma {:induction false} DecHasNoLeadingZero(n: nat)
    ensures NoLeadingZero(Dec(n)) && (n > 0 ==> Dec(n)[0] != '0') && (n < 10 <==> |Dec(n)| == 1) && (n < 100 <==> |Dec(n)| <= 2)
  {
    if n >= 10 {
      DecHasNoLeadingZero(n / 10);
      assert Dec(n)[0] == Dec(n / 10)[0];
    } else {
      assert DigitOf(CharOf(n)) == n;
    }
  }

  /** Two digits, or more without a leading zero. */
  lemma {:induction false} TwoDigits(n: nat)
    ensures var s := Padded(n, 2);
            AllDigits(s) && Value(s) == n && |s| >= 2 && (|s| == 2 <==> n < 100) && (|s| > 2 ==> s[0] != '0')
  {
    ValueOfPadded(n, 2);
    DecHasNoLeadingZero(n);
  }

  /** Trimming drops zeros at the end, and all of them. */
  lemma {:induction false} TrimIs(s: string)
    requires AllDigits(s)
    ensures var r := TrimZeros(s);
            && AllDigits(r) && |r| <= |s| && (r != "" ==> r[|r| - 1] != '0')
            && Value(s) == Value(r) * Pow10(|s| - |r|)
  {
    if s != "" && s[|s| - 1] == '0' {
      var u := s[..|s| - 1];
      TrimIs(u);
      assert DigitOf('0') == 0;
      var r := TrimZeros(u);
      assert Value(s) == Value(u) * 10;
      TenTimes(Value(r), |u| - |r|);
    }
  }

  lemma {:induction false} TenTimes(v: nat, k: nat)
    ensures v * Pow10(k) * 10 == v * Pow10(k + 1)
  {
    assert Pow10(k + 1) == 10 * Pow10(k);
    assert v * (10 * Pow10(k)) == v * Pow10(k) * 10;
  }

  /** The fraction of a second: up to nine digits, the last of them not zero. */
  ghost predicate IsFraction(f: string, nanos: nat)
  {
    AllDigits(f) && 0 < |f| <= 9 && f[|f| - 1] != '0' && Value(f) * Pow10(9 - |f|) == nanos
  }

  lemma {:induction false} FractionIs(nanos: nat)
    requires 0 < nanos < NANOS
    ensures IsFraction(TrimZeros(Padded(nanos, 9)), nanos)
  {
    hide Padded, TrimZeros, NanosOf;
    NineDigits(nanos);
    FractionRoundTrip(nanos, false);
    ValueOfPadded(nanos, 9);
    TrimWithin("", Padded(nanos, 9));
    TrimIs(Padded(nanos, 9));
  }

  /** A time of whole nanoseconds: seconds, and after a point the fraction, if there is one. */
  ghost predicate WithFraction(s: string, head: string, nanos: nat)
  {
    if nanos == 0 then s == head else exists f :: IsFraction(f, nanos) && s == head + "." + f
  }

  /** Hours of two digits or more, minutes and seconds of exactly two. */
  ghost predicate IsHms(h: string, m: string, s: string, total: nat)
  {
    && AllDigits(h) && AllDigits(m) && AllDigits(s)
    && |h| >= 2 && (|h| > 2 ==> h[0] != '0') && |m| == 2 && |s| == 2 && Value(m) < 60 && Value(s) < 60
    && 3600 * Value(h) + 60 * Value(m) + Value(s) == total
  }

  /** The text of a time is hh:mm:ss with a trimmed fraction. */
  lemma {:induction false} HmsTextIs(t: nat) returns (h: string, m: string, s: string)
    ensures IsHms(h, m, s, t / NANOS) && WithFraction(FormatHms(t), h + ":" + m + ":" + s, t % NANOS)
  {
    hide Padded, TrimZeros, IsFraction;
    var total, nanos := t / NANOS, t % NANOS;
    h, m, s := Padded(total / 3600, 2), Padded(total % 3600 / 60, 2), Padded(total % 60, 2);
    HmsParts(total);
    TwoDigits(total / 3600);
    TwoDigits(total % 3600 / 60);
    TwoDigits(total % 60);
    if nanos > 0 {
      FractionTrimmed(h + ":" + m + ":" + s, nanos);
    }
  }

  /** The text of a time in seconds is a number without leading zeros with a trimmed fraction. */
  lemma {:induction false} DecimalTextIs(t: nat) returns (head: string)
    ensures AllDigits(head) && NoLeadingZero(head) && Value(head) == t / NANOS && WithFraction(FormatDecimalSeconds(t), head, t % NANOS)
  {
    hide Padded, TrimZeros, IsFraction, Dec;
    head := Dec(t / NANOS);
    ValueOfDec(t / NANOS);
    DecHasNoLeadingZero(t / NANOS);
    if t % NANOS > 0 {
      FractionTrimmed(head, t % NANOS);
    }
  }

  lemma {:induction false} FractionTrimmed(head: string, nanos: nat)
    requires 0 < nanos < NANOS
    ensures WithFraction(TrimZeros(head + "." + Padded(nanos, 9)), head, nanos)
  {
    hide Padded, TrimZeros, IsFraction, NanosOf;
    FractionRoundTrip(nanos, false);
    FractionIs(nanos);
    TrimWithin(head + ".", Padded(nanos, 9));
    assert head + "." + TrimZeros(Padded(nanos, 9)) == TrimZeros(head + "." + Padded(nanos, 9));
  }

  // ------------------------------------------------------------------ what the parsers make of digits

  /** A number of nanoseconds, if it fits into 64 bits. */
  function Fitting(nanos: nat): (r: Option<nat>)
  {
    if nanos <= U64_MAX then Some(nanos) else None
  }

  lemma {:induction false} DigitsParse(s: string)
    requires AllDigits(s) && s != ""
    ensures ParseU64(s) == Fitting(Value(s))
  {
    assert IsDigit(s[0]);
  }

  lemma {:induction false} PaddedValue(f: string, width: nat)
    requires AllDigits(f) && |f| <= width
    ensures AllDigits(PadRight(f, width)) && |PadRight(f, width)| == width
    ensures Value(PadRight(f, width)) == Value(f) * Pow10(width - |f|)
    decreases width - |f|
  {
    if |f| < width {
      var g := f + "0";
      assert g[..|f|] == f && DigitOf('0') == 0;
      assert Value(g) == Value(f) * 10;
      PaddedValue(g, width);
      TenTimes2(Value(f), width - |g|);
    }
  }

  lemma {:induction false} TenTimes2(v: nat, k: nat)
    ensures v * 10 * Pow10(k) == v * Pow10(k + 1)
  {
    assert Pow10(k + 1) == 10 * Pow10(k);
    assert v * (10 * Pow10(k)) == v * 10 * Pow10(k);
  }

  lemma {:induction false} BelowPower(s: string)
    requires AllDigits(s)
    ensures Value(s) < Pow10(|s|)
  {
    if s != "" {
      BelowPower(s[..|s| - 1]);
    }
  }

  lemma {:induction false} FractionParses(f: string)
    requires AllDigits(f) && 0 < |f| <= 9
    ensures NanosOf(f, false) == NanosOf(f, true) == Some(Value(f) * Pow10(9 - |f|)) && Value(f) * Pow10(9 - |f|) < NANOS
  {
    PaddedValue(f, 9);
    BelowPower(PadRight(f, 9));
    NineDigits(0);
    NinePowers();
    DigitsParse(PadRight(f, 9));
  }

  lemma {:induction false} NinePowers()
    ensures Pow10(9) == NANOS
  {
    assert Pow10(1) == 10 && Pow10(2) == 100 && Pow10(3) == 1000 && Pow10(4) == 10000;
    assert Pow10(5) == 100000 && Pow10(6) == 1000000 && Pow10(7) == 10000000;
    assert Pow10(8) == 100000000 && Pow10(9) == 1000000000;
  }

  /** Any digits are read as hours, minutes and seconds, whatever their values, if the sum fits; without a fraction. */
  lemma {:induction false} ParsesHms(h: string, m: string, s: string)
    requires AllDigits(h) && AllDigits(m) && AllDigits(s) && h != "" && m != "" && s != ""
    ensures Parse(h + ":" + m + ":" + s) == Fitting((3600 * Value(h) + 60 * Value(m) + Value(s)) * NANOS)
  {
    hide ParseU64, Split, Value;
    NotADigit(h, ':');
    NotADigit(m, ':');
    NotADigit(s, ':');
    NotADigit(s, '.');
    SplitHms(h, m, s);
    SplitOnceNone(s, '.');
    DigitsParse(h);
    DigitsParse(m);
    DigitsParse(s);
    SumFits(Value(h), Value(m), Value(s), 0);
  }

  /** With a fraction of one to nine digits. */
  lemma {:induction false} ParsesFraction(h: string, m: string, s: string, f: string)
    requires AllDigits(h) && AllDigits(m) && AllDigits(s) && h != "" && m != "" && s != "" && AllDigits(f) && 0 < |f| <= 9
    ensures Parse(h + ":" + m + ":" + s + "." + f) ==
            Fitting((3600 * Value(h) + 60 * Value(m) + Value(s)) * NANOS + Value(f) * Pow10(9 - |f|))
  {
    hide ParseU64, Split, Value, NanosOf, Pow10;
    NotADigit(h, ':');
    NotADigit(m, ':');
    NotADigit(s, ':');
    NotADigit(s, '.');
    NotADigit(f, ':');
    SplitHms(h, m, s + "." + f);
    assert h + ":" + m + ":" + s + "." + f == h + ":" + m + ":" + (s + "." + f);
    SplitOnceAt(s, f, '.');
    DigitsParse(h);
    DigitsParse(m);
    DigitsParse(s);
    FractionParses(f);
    SumFits(Value(h), Value(m), Value(s), Value(f) * Pow10(9 - |f|));
  }

  /** Seconds with a fraction, of which nine digits count. */
  lemma {:induction false} ParsesDecimal(s: string, f: string)
    requires AllDigits(s) && s != "" && AllDigits(f) && 0 < |f| <= 9
    ensures ParseDecimalSeconds(s) == Fitting(Value(s) * NANOS)
    ensures ParseDecimalSeconds(s + "." + f) == Fitting(Value(s) * NANOS + Value(f) * Pow10(9 - |f|))
  {
    hide ParseU64, Value, NanosOf, Pow10;
    NotADigit(s, '.');
    SplitOnceNone(s, '.');
    SplitOnceAt(s, f, '.');
    DigitsParse(s);
    FractionParses(f);
  }

  /** Of more than nine digits the format in seconds takes the first nine, and the other one takes none. */
  lemma {:induction false} LongFractions(h: string, m: string, s: string, f: string)
    requires AllDigits(h) && AllDigits(m) && AllDigits(s) && s != "" && AllDigits(f) && |f| > 9
    ensures ParseDecimalSeconds(s + "." + f) == Fitting(Value(s) * NANOS + Value(f[..9]))
    ensures Parse(h + ":" + m + ":" + s + "." + f) == None
  {
    hide ParseU64, Split, Value, Pow10;
    NotADigit(h, ':');
    NotADigit(m, ':');
    NotADigit(s, ':');
    NotADigit(s, '.');
    NotADigit(f, ':');
    SplitHms(h, m, s + "." + f);
    assert h + ":" + m + ":" + s + "." + f == h + ":" + m + ":" + (s + "." + f);
    SplitOnceAt(s, f, '.');
    DigitsParse(s);
    CutOff(f);
  }

  lemma {:induction false} CutOff(f: string)
    requires AllDigits(f) && |f| > 9
    ensures NanosOf(f, false) == None && NanosOf(f, true) == Some(Value(f[..9])) && Value(f[..9]) < NANOS
  {
    FractionParses(f[..9]);
    assert Pow10(0) == 1;
    assert NanosOf(f, true) == NanosOf(f[..9], true) by {
      assert f[..9][..9] == f[..9];
    }
  }

  /** The sum fits exactly if no step on the way overflows. */
  lemma {:induction false} SumFits(h: nat, m: nat, s: nat, nanos: nat)
    requires nanos < NANOS
    ensures var total := 3600 * h + 60 * m + s;
            (if h <= U64_MAX && m <= U64_MAX && s <= U64_MAX && TotalSeconds(h, m, s).Some? then TotalNanos(TotalSeconds(h, m, s).value, nanos)
             else None) == Fitting(total * NANOS + nanos)
  {
    assert (h * 60 + m) * 60 + s == 3600 * h + 60 * m + s;
  }
}
