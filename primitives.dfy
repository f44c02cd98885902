/** Guids, 32-bit integers and DateTime ticks, as the core uses them. */
module Primitives {

  /** A System.Guid, read as the 128-bit number its canonical text spells. */
  type Guid = g: nat | g < 0x1_0000_0000_0000_0000_0000_0000_0000_0000

  /** Guid.Empty. */
  const EmptyGuid: Guid := 0

  /** A C# `int`. */
  type Int32 = x: int | -0x8000_0000 <= x < 0x8000_0000

  /** A DateTime, as its tick count (100 ns since 0001-01-01, UTC). */
  type Timestamp = nat

  const TicksPerDay: nat := 864_000_000_000

  /** `DateTime.Date`: midnight at the start of the day holding `t`. */
  function StartOfDay(t: Timestamp): (d: Timestamp)
    ensures d <= t < d + TicksPerDay
    ensures d % TicksPerDay == 0
  {
    (t / TicksPerDay) * TicksPerDay
  }

  /** `DateTime.AddDays(1)`. */
  function NextDay(t: Timestamp): Timestamp {
    t + TicksPerDay
  }

  /** `a.Date == b.Date`. */
  predicate SameDate(a: Timestamp, b: Timestamp) {
    StartOfDay(a) == StartOfDay(b)
  }

  /** Taking the date of a date changes nothing. */
  lemma {:induction false} StartOfDayIdempotent(t: Timestamp)
    ensures StartOfDay(StartOfDay(t)) == StartOfDay(t)
  {
    var k := t / TicksPerDay;
    assert StartOfDay(t) / TicksPerDay == k by {
      assert StartOfDay(t) == k * TicksPerDay;
    }
  }

  /** The half-open window `[date.Date, date.Date.AddDays(1))` holds exactly the
      instants that fall on the same calendar day as `date`. */
  lemma {:induction false} DayWindow(t: Timestamp, date: Timestamp)
    ensures StartOfDay(date) <= t < NextDay(StartOfDay(date)) <==> SameDate(t, date)
  {
    var s, s' := StartOfDay(date), StartOfDay(t);
    if s <= t < NextDay(s) {
      var k, k' := s / TicksPerDay, s' / TicksPerDay;
      assert s == k * TicksPerDay;
      assert s' == k' * TicksPerDay;
      assert -(TicksPerDay as int) < (k - k') * TicksPerDay < TicksPerDay;
      assert k == k';
    }
  }

  function HexChar(d: nat): char
    requires d < 16
  {
    "0123456789abcdef"[d]
  }

  /** The low `n` hexadecimal digits of `g`, most significant first. */
  function HexDigits(g: nat, n: nat): (s: string)
    ensures |s| == n
  {
    if n == 0 then "" else HexDigits(g / 16, n - 1) + [HexChar(g % 16)]
  }

  /** `Guid.ToString()`: 32 lower-case hex digits grouped 8-4-4-4-12. */
  function GuidText(g: Guid): (s: string)
    ensures |s| == 36
  {
    var h := HexDigits(g, 32);
    h[..8] + "-" + h[8..12] + "-" + h[12..16] + "-" + h[16..20] + "-" + h[20..]
  }

  function Pow16(n: nat): (p: nat)
    ensures p > 0
  {
    if n == 0 then 1 else 16 * Pow16(n - 1)
  }

  lemma {:induction false} Pow16Add(a: nat, b: nat)
    ensures Pow16(a + b) == Pow16(a) * Pow16(b)
  {
    if a != 0 {
      Pow16Add(a - 1, b);
    }
  }

  /** Every Guid has at most 32 hexadecimal digits. */
  lemma GuidBound()
    ensures Pow16(32) == 0x1_0000_0000_0000_0000_0000_0000_0000_0000
  {
    Pow16Add(1, 1);
    Pow16Add(2, 2);
    Pow16Add(4, 4);
    Pow16Add(8, 8);
    Pow16Add(16, 16);
  }

  lemma HexCharInjective(d: nat, e: nat)
    requires d < 16 && e < 16 && HexChar(d) == HexChar(e)
    ensures d == e
  {
  }

  /** Splitting off the last digit: the low `n + 1` digits of `g` are the low
      `n` digits of `g / 16` followed by `g % 16`. */
  lemma ModSplit(g: nat, p: nat)
    requires p > 0
    ensures g % (16 * p) == 16 * ((g / 16) % p) + g % 16
  {
    var q, r := g / 16, g % 16;
    var a, b := q / p, q % p;
    assert q == p * a + b;
    assert 16 * q == (16 * p) * a + 16 * b;
    assert 16 * b + r < 16 * p by {
      assert b <= p - 1;
      assert 16 * b <= 16 * p - 16;
    }
    ModUnique(g, 16 * p, a, 16 * b + r);
  }

  /** Division with remainder has one answer. */
  lemma ModUnique(g: nat, m: nat, a: nat, x: nat)
    requires m > 0 && g == m * a + x && x < m
    ensures g % m == x
  {
    var a2, x2 := g / m, g % m;
    assert g == m * a2 + x2;
    MulUnique(m, a, x, a2, x2);
  }

  lemma MulUnique(m: nat, a: nat, x: nat, a2: nat, x2: nat)
    requires m > 0 && m * a + x == m * a2 + x2 && x < m && x2 < m
    ensures x == x2
  {
    if a < a2 {
      MulMonotonic(m, a + 1, a2);
    } else if a2 < a {
      MulMonotonic(m, a2 + 1, a);
    }
  }

  lemma MulMonotonic(m: nat, i: nat, j: nat)
    requires i <= j
    ensures m * i <= m * j
  {
  }

  /** Equal digit strings come from numbers with equal low digits. */
  lemma {:induction false} HexDigitsDetermineLowDigits(g: nat, h: nat, n: nat)
    requires HexDigits(g, n) == HexDigits(h, n)
    ensures g % Pow16(n) == h % Pow16(n)
  {
    if n != 0 {
      var s := HexDigits(g, n);
      assert s[..n - 1] == HexDigits(g / 16, n - 1) && s[..n - 1] == HexDigits(h / 16, n - 1);
      HexDigitsDetermineLowDigits(g / 16, h / 16, n - 1);
      HexCharInjective(g % 16, h % 16);
      ModSplit(g, Pow16(n - 1));
      ModSplit(h, Pow16(n - 1));
    }
  }

  /** The digits are the text with its four dashes taken out. */
  lemma DigitsOfText(g: Guid)
    ensures var s := GuidText(g); HexDigits(g, 32) == s[..8] + s[9..13] + s[14..18] + s[19..23] + s[24..]
  {
    var h, s := HexDigits(g, 32), GuidText(g);
    assert s[..8] == h[..8] && s[9..13] == h[8..12] && s[14..18] == h[12..16] && s[19..23] == h[16..20] && s[24..] == h[20..];
    assert h == h[..8] + h[8..12] + h[12..16] + h[16..20] + h[20..];
  }

  /** Distinct Guids have distinct texts, so a message naming a Guid names
      exactly one transaction or account. */
  lemma {:induction false} GuidTextInjective(g: Guid, h: Guid)
    requires GuidText(g) == GuidText(h)
    ensures g == h
  {
    var a, b := HexDigits(g, 32), HexDigits(h, 32);
    DigitsOfText(g);
    DigitsOfText(h);
    HexDigitsDetermineLowDigits(g, h, 32);
    GuidBound();
    ModUnique(g, Pow16(32), 0, g);
    ModUnique(h, Pow16(32), 0, h);
  }
}
