/** The textual forms that reach hashes, storage keys and cursors: fixed-width digits, UUIDs,
    zero-padded counters and RFC 3339 timestamps. */
module Texts {
  import opened Common

  // ---------------------------------------------------------------- digits

  type Base = b: int | b == 10 || b == 16 witness 10

  function Digit(d: nat): (c: char)
    requires d < 16
    ensures IsHex(c)
    ensures d < 10 ==> IsDecimal(c)
  {
    if d < 10 then '0' + d as char else 'a' + (d - 10) as char
  }

  predicate IsDecimal(c: char) { '0' <= c <= '9' }

  predicate IsHex(c: char) { '0' <= c <= '9' || 'a' <= c <= 'f' }

  function DigitOf(c: char): nat
    requires IsHex(c)
  {
    if c <= '9' then (c - '0') as nat else (c - 'a') as nat + 10
  }

  function Pow(b: Base, w: nat): (p: nat)
    ensures p > 0
  {
    if w == 0 then 1 else if b == 10 then 10 * Pow(b, w - 1) else 16 * Pow(b, w - 1)
  }

  predicate AllHex(s: string) { forall i | 0 <= i < |s| :: IsHex(s[i]) }

  /** The low `w` digits of n, most significant first. */
  function Fixed(n: nat, w: nat, b: Base): (s: string)
    ensures |s| == w && AllHex(s)
    ensures b == 10 ==> forall i | 0 <= i < |s| :: IsDecimal(s[i])
    decreases w
  {
    if w == 0 then "" else Fixed(n / b, w - 1, b) + [Digit(n % b)]
  }

  /** The number a digit string denotes. */
  function Value(s: string, b: Base): nat
    requires AllHex(s)
  {
    if s == "" then 0 else b * Value(s[..|s| - 1], b) + DigitOf(s[|s| - 1])
  }

  lemma {:induction false} FixedValue(n: nat, w: nat, b: Base)
    requires n < Pow(b, w)
    ensures Value(Fixed(n, w, b), b) == n
    decreases w
  {
    if w > 0 {
      var s := Fixed(n, w, b);
      assert s[..|s| - 1] == Fixed(n / b, w - 1, b);
      if b == 10 {
        FixedValue(n / 10, w - 1, b);
      } else {
        FixedValue(n / 16, w - 1, b);
      }
    }
  }

  lemma FixedInjective(n: nat, m: nat, w: nat, b: Base)
    requires n < Pow(b, w) && m < Pow(b, w) && Fixed(n, w, b) == Fixed(m, w, b)
    ensures n == m
  {
    FixedValue(n, w, b);
    FixedValue(m, w, b);
  }

  // ---------------------------------------------------------------- separators

  predicate Free(s: string, sep: char) { forall i | 0 <= i < |s| :: s[i] != sep }

  /** A field that avoids the separator can be read back from the front of the joined text. */
  lemma SplitFirst(a: string, x: string, b: string, y: string, sep: char)
    requires Free(a, sep) && Free(b, sep)
    requires a + [sep] + x == b + [sep] + y
    ensures a == b && x == y
  {
    var s, t := a + [sep] + x, b + [sep] + y;
    assert s[|a|] == sep && t[|b|] == sep;
    assert |a| >= |b|;
    assert |b| >= |a|;
    assert s[..|a|] == a && t[..|b|] == b;
    assert s[|a| + 1..] == x && t[|b| + 1..] == y;
  }

  /** Fields joined by a separator. */
  function Join(fields: seq<string>, sep: char): string
    requires fields != []
  {
    if |fields| == 1 then fields[0] else fields[0] + [sep] + Join(fields[1..], sep)
  }

  /** Every field but the last comes in front of the rest, with the separator between. */
  lemma JoinFrom(fields: seq<string>, sep: char, i: nat)
    requires i < |fields|
    ensures Join(fields[i..], sep) == if i == |fields| - 1 then fields[i] else fields[i] + [sep] + Join(fields[i + 1..], sep)
  {
    assert fields[i..][0] == fields[i] && fields[i..][1..] == fields[i + 1..];
  }

  /** Unique parsing: only the last field may contain the separator. */
  lemma {:induction false} JoinInjective(fs: seq<string>, gs: seq<string>, sep: char)
    requires |fs| == |gs| > 0 && Join(fs, sep) == Join(gs, sep)
    requires forall i | 0 <= i < |fs| - 1 :: Free(fs[i], sep) && Free(gs[i], sep)
    ensures fs == gs
  {
    if |fs| > 1 {
      JoinHead(fs, gs, sep);
      JoinInjective(fs[1..], gs[1..], sep);
      assert fs == [fs[0]] + fs[1..] && gs == [gs[0]] + gs[1..];
    } else {
      assert fs == [fs[0]] && gs == [gs[0]];
    }
  }

  /** The first field of a joined text, when it avoids the separator. */
  lemma JoinHead(fs: seq<string>, gs: seq<string>, sep: char)
    requires |fs| > 1 && |gs| > 1 && Join(fs, sep) == Join(gs, sep)
    requires Free(fs[0], sep) && Free(gs[0], sep)
    ensures fs[0] == gs[0] && Join(fs[1..], sep) == Join(gs[1..], sep)
  {
    SplitFirst(fs[0], Join(fs[1..], sep), gs[0], Join(gs[1..], sep), sep);
  }

  function Occurrences(s: string, c: char): nat {
    if s == "" then 0 else (if s[0] == c then 1 else 0) + Occurrences(s[1..], c)
  }

  lemma {:induction false} FreeIffNone(s: string, c: char)
    ensures Occurrences(s, c) == 0 <==> Free(s, c)
  {
    if s != "" {
      FreeIffNone(s[1..], c);
    }
  }

  /** A field can be read back from the front if it is known how many separators it contains. */
  lemma {:induction false} SplitCounted(a: string, x: string, b: string, y: string, sep: char)
    requires Occurrences(a, sep) == Occurrences(b, sep) && a + [sep] + x == b + [sep] + y
    ensures a == b && x == y
    decreases |a|
  {
    var s, t := a + [sep] + x, b + [sep] + y;
    if a == "" || b == "" {
      FreeIffNone(a, sep);
      FreeIffNone(b, sep);
      SplitFirst(a, x, b, y, sep);
    } else {
      assert s[1..] == a[1..] + [sep] + x && t[1..] == b[1..] + [sep] + y && a[0] == s[0] == t[0] == b[0];
      SplitCounted(a[1..], x, b[1..], y, sep);
      assert a == [a[0]] + a[1..] && b == [b[0]] + b[1..];
    }
  }

  lemma JoinCounted(fs: seq<string>, gs: seq<string>, sep: char)
    requires |fs| > 1 && |gs| > 1 && Join(fs, sep) == Join(gs, sep)
    requires Occurrences(fs[0], sep) == Occurrences(gs[0], sep)
    ensures fs[0] == gs[0] && Join(fs[1..], sep) == Join(gs[1..], sep)
  {
    SplitCounted(fs[0], Join(fs[1..], sep), gs[0], Join(gs[1..], sep), sep);
  }

  /** A shared first field, whatever it contains, can be cancelled. */
  lemma JoinCancel(fs: seq<string>, gs: seq<string>, sep: char)
    requires |fs| > 1 && |gs| > 1 && Join(fs, sep) == Join(gs, sep) && fs[0] == gs[0]
    ensures Join(fs[1..], sep) == Join(gs[1..], sep)
  {
    var a := fs[0] + [sep];
    var x, y := Join(fs[1..], sep), Join(gs[1..], sep);
    assert (a + x)[|a|..] == x && (a + y)[|a|..] == y;
  }

  // ---------------------------------------------------------------- UUIDs

  /** A UUID as the number its 16 bytes spell, so that byte-wise order is numeric order. */
  type UUID = n: nat | n < 0x1_0000_0000_0000_0000_0000_0000_0000_0000 witness 0

  const NIL: UUID := 0

  function Dashed(h: string): (s: string)
    requires |h| == 32 && AllHex(h)
    ensures |s| == 36
    ensures forall i | 0 <= i < 36 :: IsHex(s[i]) || s[i] == '-'
  {
    h[..8] + "-" + h[8..12] + "-" + h[12..16] + "-" + h[16..20] + "-" + h[20..]
  }

  lemma DashedInjective(h: string, k: string)
    requires |h| == 32 && AllHex(h) && |k| == 32 && AllHex(k) && Dashed(h) == Dashed(k)
    ensures h == k
  {
    var s, t := Dashed(h), Dashed(k);
    assert s[..8] == h[..8] && t[..8] == k[..8];
    assert s[9..13] == h[8..12] && t[9..13] == k[8..12];
    assert s[14..18] == h[12..16] && t[14..18] == k[12..16];
    assert s[19..23] == h[16..20] && t[19..23] == k[16..20];
    assert s[24..] == h[20..] && t[24..] == k[20..];
    assert h == h[..8] + h[8..12] + h[12..16] + h[16..20] + h[20..];
    assert k == k[..8] + k[8..12] + k[12..16] + k[16..20] + k[20..];
  }

  /** The canonical 8-4-4-4-12 text. */
  function UuidText(u: UUID): (s: string)
    ensures |s| == 36
    ensures Free(s, '|') && Free(s, '/')
  {
    Dashed(Fixed(u, 32, 16))
  }

  lemma HexSpan()
    ensures Pow(16, 32) == 0x1_0000_0000_0000_0000_0000_0000_0000_0000
  {
    assert Pow(16, 8) == 0x1_0000_0000 by {
      assert Pow(16, 4) == 0x1_0000 by { assert Pow(16, 2) == 0x100; }
      assert Pow(16, 6) == 0x100_0000;
    }
    PowAdd(8, 8);
    PowAdd(16, 16);
  }

  lemma {:induction false} PowAdd(m: nat, n: nat)
    ensures Pow(16, m + n) == Pow(16, m) * Pow(16, n)
  {
    if n > 0 {
      PowAdd(m, n - 1);
      assert Pow(16, m + n) == 16 * Pow(16, m + (n - 1));
    }
  }

  lemma UuidTextInjective(u: UUID, v: UUID)
    ensures UuidText(u) == UuidText(v) ==> u == v
  {
    if UuidText(u) == UuidText(v) {
      HexSpan();
      DashedInjective(Fixed(u, 32, 16), Fixed(v, 32, 16));
      FixedInjective(u, v, 32, 16);
    }
  }

  // ---------------------------------------------------------------- plain and padded decimals

  /** Decimal text without leading zeros, as `%d` prints it. */
  function Decimal(n: nat): (s: string)
    ensures |s| > 0
    ensures forall i | 0 <= i < |s| :: IsDecimal(s[i])
  {
    if n < 10 then [Digit(n)] else Decimal(n / 10) + [Digit(n % 10)]
  }

  lemma {:induction false} DecimalValue(n: nat)
    ensures Value(Decimal(n), 10) == n
  {
    var s := Decimal(n);
    if n < 10 {
      assert s[..|s| - 1] == "";
    } else {
      assert s[..|s| - 1] == Decimal(n / 10);
      DecimalValue(n / 10);
    }
  }

  function Zeros(k: nat): (s: string)
    ensures |s| == k && forall i | 0 <= i < k :: s[i] == '0'
  {
    seq(k, _ => '0')
  }

  lemma {:induction false} LeadingZeros(k: nat, s: string)
    requires AllHex(s)
    ensures AllHex(Zeros(k) + s) && Value(Zeros(k) + s, 10) == Value(s, 10)
    decreases |s| + k
  {
    var t := Zeros(k) + s;
    if s == "" {
      if k > 0 {
        assert t[..|t| - 1] == Zeros(k - 1) + "";
        LeadingZeros(k - 1, "");
      } else {
        assert t == s;
      }
    } else {
      assert t[..|t| - 1] == Zeros(k) + s[..|s| - 1];
      LeadingZeros(k, s[..|s| - 1]);
    }
  }

  // ---------------------------------------------------------------- timestamps

  const SECOND := 1_000_000_000
  const MICROSECOND := 1_000

  /** A UTC instant of the years 0 to 9999 as its position in nanoseconds on a calendar grid with 12
      months a year and 32 day slots a month, so that time order is numeric order. */
  type Timestamp = n: nat | n < 331_776_000_000_000_000_000 witness 0

  /** The instant as a column with microsecond resolution keeps it. */
  function WholeMicros(t: Timestamp): Timestamp { t - t % MICROSECOND }

  function TrimZeros(s: string): (t: string)
    ensures t <= s
    ensures forall i | |t| <= i < |s| :: s[i] == '0'
  {
    if s != "" && s[|s| - 1] == '0' then TrimZeros(s[..|s| - 1]) else s
  }

  /** Fractional seconds with trailing zeros dropped; nothing at all for a whole second. */
  function Fraction(nano: nat): (s: string)
    ensures Free(s, '|')
  {
    if nano == 0 then "" else "." + TrimZeros(Fixed(nano, 9, 10))
  }

  function Two(n: nat): (s: string)
    ensures |s| == 2 && Free(s, '|')
  {
    Fixed(n, 2, 10)
  }

  /** Date and time of day down to the second. */
  function ClockText(second: nat): (s: string)
    ensures |s| == 19 && Free(s, '|')
  {
    var minute := second / 60;
    var hour := minute / 60;
    var day := hour / 24;
    var month := day / 32;
    Fixed(month / 12, 4, 10) + "-" + Two(month % 12 + 1) + "-" + Two(day % 32) + "T" +
    Two(hour % 24) + ":" + Two(minute % 60) + ":" + Two(second % 60)
  }

  /** RFC 3339 with nanoseconds, in UTC. */
  function TimeText(t: Timestamp): (s: string)
    ensures Free(s, '|')
  {
    ClockText(t / SECOND) + Fraction(t % SECOND) + "Z"
  }

  lemma SameTrim(s: string, t: string)
    requires |s| == |t| && TrimZeros(s) == TrimZeros(t)
    ensures s == t
  {
    var r := TrimZeros(s);
    forall i | 0 <= i < |s| ensures s[i] == t[i] {
      if i < |r| {
        assert s[..|r|] == r && t[..|r|] == r;
        assert s[i] == r[i] && t[i] == r[i];
      }
    }
  }

  lemma SmallPowers()
    ensures Pow(10, 2) == 100 && Pow(10, 4) == 10_000 && Pow(10, 9) == SECOND
  {
    assert Pow(10, 6) == 1_000_000;
    assert Pow(10, 8) == 100_000_000;
  }

  lemma FractionInjective(a: nat, b: nat)
    requires a < SECOND && b < SECOND && Fraction(a) == Fraction(b)
    ensures a == b
  {
    SmallPowers();
    if a != 0 && b != 0 {
      var s, t := Fixed(a, 9, 10), Fixed(b, 9, 10);
      assert Fraction(a)[1..] == TrimZeros(s) && Fraction(b)[1..] == TrimZeros(t);
      SameTrim(s, t);
      FixedInjective(a, b, 9, 10);
    }
  }

  lemma TwoInjective(a: nat, b: nat)
    requires a < 100 && b < 100 && Two(a) == Two(b)
    ensures a == b
  {
    SmallPowers();
    FixedInjective(a, b, 2, 10);
  }

  /** The six fields stand at fixed places of the clock text. */
  lemma ClockFields(second: nat)
    ensures var s := ClockText(second);
            var minute := second / 60; var hour := minute / 60; var day := hour / 24; var month := day / 32;
            && s[..4] == Fixed(month / 12, 4, 10) && s[5..7] == Two(month % 12 + 1)
            && s[8..10] == Two(day % 32) && s[11..13] == Two(hour % 24)
            && s[14..16] == Two(minute % 60) && s[17..19] == Two(second % 60)
  {
  }

  lemma ClockTextInjective(a: nat, b: nat)
    requires a < 331_776_000_000 && b < 331_776_000_000
    requires ClockText(a) == ClockText(b)
    ensures a == b
  {
    ClockFields(a);
    ClockFields(b);
    var s, t := ClockText(a), ClockText(b);
    var ma, mb := a / 60, b / 60;
    var ha, hb := ma / 60, mb / 60;
    var da, db := ha / 24, hb / 24;
    var na, nb := da / 32, db / 32;
    SmallPowers();
    FixedInjective(na / 12, nb / 12, 4, 10);
    TwoInjective(na % 12 + 1, nb % 12 + 1);
    TwoInjective(da % 32, db % 32);
    TwoInjective(ha % 24, hb % 24);
    TwoInjective(ma % 60, mb % 60);
    TwoInjective(a % 60, b % 60);
  }

  lemma {:induction false} TrimmedEnd(s: string)
    ensures var t := TrimZeros(s); t != "" ==> t[|t| - 1] != '0'
  {
    if s != "" && s[|s| - 1] == '0' {
      TrimmedEnd(s[..|s| - 1]);
    }
  }

  /** The layout of RFC 3339: year-month-dayThour:minute:second, then, unless the second is whole, a point and digits that
      do not end in zero, then Z. */
  lemma TimeLayout(t: Timestamp)
    ensures var s := TimeText(t);
            && |s| >= 20 && s[4] == s[7] == '-' && s[10] == 'T' && s[13] == s[16] == ':' && s[|s| - 1] == 'Z'
            && (t % 1_000_000_000 == 0 <==> |s| == 20)
            && (|s| > 20 ==> |s| > 21 && s[19] == '.' && IsDecimal(s[|s| - 2]) && s[|s| - 2] != '0')
  {
    FractionLayout(t % SECOND);
    var c, f := ClockText(t / SECOND), Fraction(t % SECOND);
    assert TimeText(t)[..19] == c;
    ClockSeparators(t / SECOND);
    assert TimeText(t) == c + (f + "Z");
  }

  lemma ClockSeparators(second: nat)
    ensures var s := ClockText(second); s[4] == s[7] == '-' && s[10] == 'T' && s[13] == s[16] == ':'
  {
  }

  lemma FractionLayout(nano: nat)
    requires nano < SECOND
    ensures var f := Fraction(nano);
            && (nano == 0 <==> f == "")
            && (f != "" ==> |f| > 1 && f[0] == '.' && IsDecimal(f[|f| - 1]) && f[|f| - 1] != '0')
  {
    if nano != 0 {
      var digits := Fixed(nano, 9, 10);
      TrimmedEnd(digits);
      SmallPowers();
      FixedValue(nano, 9, 10);
      if TrimZeros(digits) == "" {
        ZerosValue(digits);
      }
    }
  }

  lemma {:induction false} ZerosValue(s: string)
    requires forall i | 0 <= i < |s| :: s[i] == '0'
    ensures Value(s, 10) == 0
  {
    if s != "" {
      ZerosValue(s[..|s| - 1]);
    }
  }

  /** Distinct instants have distinct texts, although trailing zeros are dropped. */
  lemma TimeTextInjective(a: Timestamp, b: Timestamp)
    ensures TimeText(a) == TimeText(b) ==> a == b
  {
    if TimeText(a) == TimeText(b) {
      var s, t := TimeText(a), TimeText(b);
      assert s[..19] == ClockText(a / SECOND) && t[..19] == ClockText(b / SECOND);
      ClockTextInjective(a / SECOND, b / SECOND);
      assert s[19..|s| - 1] == Fraction(a % SECOND) && t[19..|t| - 1] == Fraction(b % SECOND);
      FractionInjective(a % SECOND, b % SECOND);
    }
  }

  // ---------------------------------------------------------------- renderings as values

  /** A choice of texts for ids and instants. */
  datatype Rendering = Rendering(id: UUID -> string, time: Timestamp -> string)

  /** Distinct values have distinct texts, and no text contains a field or path separator. */
  ghost predicate Faithful(r: Rendering) {
    && (forall u, v :: r.id(u) == r.id(v) ==> u == v)
    && (forall a, b :: r.time(a) == r.time(b) ==> a == b)
    && (forall u :: Free(r.id(u), '|') && Free(r.id(u), '/'))
    && (forall a :: Free(r.time(a), '|'))
  }

  /** The texts the program uses. */
  const STANDARD := Rendering((u: UUID) => UuidText(u), (t: Timestamp) => TimeText(t))

  lemma StandardIsFaithful()
    ensures Faithful(STANDARD)
  {
    forall u, v ensures STANDARD.id(u) == STANDARD.id(v) ==> u == v {
      UuidTextInjective(u, v);
    }
    forall a, b ensures STANDARD.time(a) == STANDARD.time(b) ==> a == b {
      TimeTextInjective(a, b);
    }
  }
}
