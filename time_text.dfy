/**
 * The "MM:SS" wall clock both timer readouts show: the wave timer's seconds
 * cast to an `i32`, split into minutes and seconds with Rust's integer
 * division, each field formatted right-aligned to width two with a fill
 * character, joined by ':'. The HUD fills with '0', the wave readout with
 * ' '. Also the reverse reading of such a string, to state what it encodes.
 */
module TimeText {
  import opened Ecs

  const I32Min: int := -0x8000_0000
  const I32Max: int := 0x7fff_ffff

  /** `f32 as i32`: truncation toward zero, saturating at the bounds of `i32`. */
  function TruncateToI32(t: real): (r: int)
    ensures I32Min <= r <= I32Max
    ensures 0.0 <= t < (I32Max + 1) as real ==> 0 <= r && r as real <= t < (r + 1) as real
    ensures t < 0.0 ==> r <= 0
  {
    if t >= (I32Max + 1) as real then I32Max
    else if t <= I32Min as real then I32Min
    else if t >= 0.0 then t.Floor
    else -((-t).Floor)
  }

  /** The seconds shown never run backwards while the timer does not. */
  lemma TruncateMonotone(t: real, t': real)
    requires t <= t'
    ensures TruncateToI32(t) <= TruncateToI32(t')
  {
    if 0.0 <= t && t' < (I32Max + 1) as real {
      assert t.Floor as real <= t <= t' < (t'.Floor + 1) as real;
    } else if t' < 0.0 && I32Min as real < t {
      assert (-t').Floor as real <= -t' <= -t < ((-t).Floor + 1) as real;
    }
  }

  /** Rust's `/` on `i32` for a positive divisor: the quotient truncated toward zero. */
  function Quot(a: int, b: int): int
    requires b > 0
  {
    if a >= 0 then a / b else -((-a) / b)
  }

  /** Rust's `%` on `i32` for a positive divisor: the remainder takes the sign of `a`. */
  function Rem(a: int, b: int): int
    requires b > 0
  {
    a - b * Quot(a, b)
  }

  /**
   * The minutes and seconds fields: `minutes * 60 + seconds` is the time,
   * and seconds lie in 0..59 for a time that is not negative (in -59..0 for
   * a negative one).
   */
  lemma SplitMinutes(secs: int)
    ensures Quot(secs, 60) * 60 + Rem(secs, 60) == secs
    ensures secs >= 0 ==> 0 <= Rem(secs, 60) <= 59 && Quot(secs, 60) == secs / 60 && Rem(secs, 60) == secs % 60
    ensures secs < 0 ==> -59 <= Rem(secs, 60) <= 0
  {
  }

  predicate IsDigit(c: char) {
    '0' <= c <= '9'
  }

  predicate AllDigits(s: string) {
    forall i | 0 <= i < |s| :: IsDigit(s[i])
  }

  function DigitChar(d: nat): (c: char)
    requires d < 10
    ensures IsDigit(c)
  {
    ('0' as int + d) as char
  }

  /** The decimal digits of `n`, most significant first, with no leading zero. */
  function Digits(n: nat): (r: string)
    ensures |r| >= 1 && AllDigits(r)
    ensures n < 10 ==> |r| == 1
    ensures 10 <= n < 100 ==> |r| == 2
  {
    if n < 10 then [DigitChar(n)] else Digits(n / 10) + [DigitChar(n % 10)]
  }

  /** `Display` of an integer: a minus sign for a negative one, then its digits. */
  function Decimal(x: int): string {
    if x < 0 then "-" + Digits(-x) else Digits(x)
  }

  /** `s` right-aligned in `width` columns, the rest filled with `fill`. */
  function PadLeft(s: string, width: nat, fill: char): (r: string)
    ensures |r| == if |s| < width then width else |s|
    ensures r[|r| - |s|..] == s
    ensures forall i | 0 <= i < |r| - |s| :: r[i] == fill
  {
    if |s| >= width then s else seq(width - |s|, _ => fill) + s
  }

  /** One field of the clock: `{x:fill>2}`. */
  function Field(x: int, fill: char): string {
    PadLeft(Decimal(x), 2, fill)
  }

  /** `format!("{minutes:fill>2}:{seconds:fill>2}")` of a whole number of seconds. */
  function Clock(secs: int, fill: char): string {
    Field(Quot(secs, 60), fill) + ":" + Field(Rem(secs, 60), fill)
  }

  // ---------------------------------------------------------------------
  // Reading a clock back

  /** The number a string of digits spells; leading zeros count for nothing. */
  function ValueOf(s: string): nat
    requires AllDigits(s)
  {
    if s == [] then 0 else ValueOf(s[..|s| - 1]) * 10 + (s[|s| - 1] as int - '0' as int)
  }

  function SkipSpaces(s: string): string {
    if s != [] && s[0] == ' ' then SkipSpaces(s[1..]) else s
  }

  /** A field: leading spaces, then at least one digit. */
  function ParseField(s: string): Option<nat> {
    var d := SkipSpaces(s);
    if d != [] && AllDigits(d) then Some(ValueOf(d)) else None
  }

  /** The position of the first ':' of `s`. */
  function ColonAt(s: string): (r: Option<nat>)
    ensures r.Some? ==> r.value < |s| && s[r.value] == ':' && ':' !in s[..r.value]
    ensures r.None? ==> ':' !in s
  {
    if s == [] then None
    else if s[0] == ':' then Some(0)
    else
      match ColonAt(s[1..])
      case None => None
      case Some(k) => assert s[..k + 1] == [s[0]] + s[1..][..k]; Some(k + 1)
  }

  /** The minutes and seconds a clock string shows. */
  function ParseClock(s: string): Option<(nat, nat)> {
    match ColonAt(s)
    case None => None
    case Some(k) =>
      match (ParseField(s[..k]), ParseField(s[k + 1..]))
      case (Some(m), Some(sec)) => Some((m, sec))
      case _ => None
  }

  lemma {:induction false} ValueOfDigits(n: nat)
    ensures ValueOf(Digits(n)) == n
    decreases n
  {
    if n >= 10 {
      ValueOfDigits(n / 10);
      var d := Digits(n);
      assert d[..|d| - 1] == Digits(n / 10);
    }
  }

  lemma {:induction false} ValueOfZeros(z: string)
    requires forall i | 0 <= i < |z| :: z[i] == '0'
    ensures AllDigits(z) && ValueOf(z) == 0
  {
    if z != [] {
      ValueOfZeros(z[..|z| - 1]);
    }
  }

  /** Leading zeros do not change the number a string of digits spells. */
  lemma {:induction false} LeadingZeros(z: string, s: string)
    requires forall i | 0 <= i < |z| :: z[i] == '0'
    requires AllDigits(s)
    ensures AllDigits(z + s) && ValueOf(z + s) == ValueOf(s)
  {
    if s == [] {
      assert z + s == z;
      ValueOfZeros(z);
    } else {
      var s' := s[..|s| - 1];
      LeadingZeros(z, s');
      assert (z + s)[..|z + s| - 1] == z + s';
    }
  }

  lemma {:induction false} SkipLeadingSpaces(p: string, d: string)
    requires forall i | 0 <= i < |p| :: p[i] == ' '
    requires d != [] && d[0] != ' '
    ensures SkipSpaces(p + d) == d
  {
    if p != [] {
      assert (p + d)[1..] == p[1..] + d;
      SkipLeadingSpaces(p[1..], d);
    } else {
      assert p + d == d;
    }
  }

  /** A field of a time that is not negative: fill characters, then the digits of the number. */
  lemma FieldLayout(x: nat, fill: char)
    ensures var f := Field(x, fill); var d := Digits(x);
      && |d| <= |f| && f == f[..|f| - |d|] + d
      && (forall i | 0 <= i < |f| - |d| :: f[i] == fill)
      && (x < 100 ==> |f| == 2)
  {
    var d := Digits(x);
    assert Decimal(x) == d;
    var f := PadLeft(d, 2, fill);
    assert f[|f| - |d|..] == d;
  }

  /** Fill characters followed by digits parse as the number the digits spell. */
  lemma PaddedDigitsParse(p: string, d: string, fill: char)
    requires fill == '0' || fill == ' '
    requires forall i | 0 <= i < |p| :: p[i] == fill
    requires d != [] && AllDigits(d)
    ensures ParseField(p + d) == Some(ValueOf(d))
    ensures ':' !in p + d
  {
    if fill == ' ' {
      SkipLeadingSpaces(p, d);
    } else {
      LeadingZeros(p, d);
      assert (p + d)[0] != ' ' by {
        if p == [] { assert (p + d)[0] == d[0]; }
      }
    }
    forall i | 0 <= i < |p + d| ensures (p + d)[i] != ':' {
      if i >= |p| {
        assert (p + d)[i] == d[i - |p|];
      }
    }
  }

  /** A field of a time that is not negative reads back as its number. */
  lemma FieldReadsBack(x: nat, fill: char)
    requires fill == '0' || fill == ' '
    ensures ParseField(Field(x, fill)) == Some(x)
    ensures ':' !in Field(x, fill)
  {
    var d := Digits(x);
    var f := Field(x, fill);
    FieldLayout(x, fill);
    var p := f[..|f| - |d|];
    assert forall i | 0 <= i < |p| :: p[i] == fill;
    PaddedDigitsParse(p, d, fill);
    ValueOfDigits(x);
  }

  /** Two fields joined by ':' parse as the pair of their numbers. */
  lemma JoinedFieldsParse(m: string, s: string, a: nat, b: nat)
    requires ParseField(m) == Some(a) && ':' !in m
    requires ParseField(s) == Some(b)
    ensures ParseClock(m + ":" + s) == Some((a, b))
  {
    var c := m + ":" + s;
    assert c[..|m|] == m && c[|m|] == ':';
    assert ColonAt(c) == Some(|m|);
    assert c[|m| + 1..] == s;
  }

  /**
   * A clock of a time that is not negative reads back as its minutes and
   * seconds, and therefore as the time itself.
   */
  lemma ClockReadsBack(secs: nat, fill: char)
    requires fill == '0' || fill == ' '
    ensures ParseClock(Clock(secs, fill)) == Some((secs / 60, secs % 60))
    ensures (secs / 60) * 60 + secs % 60 == secs
  {
    SplitMinutes(secs);
    FieldReadsBack(secs / 60, fill);
    FieldReadsBack(secs % 60, fill);
    JoinedFieldsParse(Field(secs / 60, fill), Field(secs % 60, fill), secs / 60, secs % 60);
  }

  /** Every character of a field of a time that is not negative is the fill or a digit. */
  lemma FieldChars(x: nat, fill: char)
    ensures forall i | 0 <= i < |Field(x, fill)| :: Field(x, fill)[i] == fill || IsDigit(Field(x, fill)[i])
  {
    var f, d := Field(x, fill), Digits(x);
    FieldLayout(x, fill);
    forall i | |f| - |d| <= i < |f| ensures IsDigit(f[i]) {
      assert f[i] == d[i - (|f| - |d|)];
    }
  }

  /** Two two-character fields joined by ':'. */
  lemma JoinedShape(m: string, s: string, fill: char)
    requires |m| == 2 && forall i | 0 <= i < |m| :: m[i] == fill || IsDigit(m[i])
    requires |s| == 2 && forall i | 0 <= i < |s| :: s[i] == fill || IsDigit(s[i])
    ensures var c := m + ":" + s;
      && |c| == 5 && c[2] == ':'
      && forall i | 0 <= i < 5 && i != 2 :: c[i] == fill || IsDigit(c[i])
  {
    var c := m + ":" + s;
    assert c[3] == s[0] && c[4] == s[1];
  }

  /**
   * Under a hundred minutes the clock is five characters: two for the
   * minutes, the ':' at index 2, two for the seconds, each of them the fill
   * or a digit.
   */
  lemma ClockShape(secs: nat, fill: char)
    requires secs < 6000
    ensures var c := Clock(secs, fill);
      && |c| == 5 && c[2] == ':'
      && forall i | 0 <= i < 5 && i != 2 :: c[i] == fill || IsDigit(c[i])
  {
    SplitMinutes(secs);
    assert secs / 60 < 100;
    FieldLayout(secs / 60, fill);
    FieldLayout(secs % 60, fill);
    FieldChars(secs / 60, fill);
    FieldChars(secs % 60, fill);
    JoinedShape(Field(secs / 60, fill), Field(secs % 60, fill), fill);
  }
}
