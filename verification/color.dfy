/**
 * The HSV to RGBA colour helper `hsva` of src/lib/utils.ts.
 *
 * Arithmetic is over exact reals. The hue is reduced modulo 360, split into
 * one of six 60-degree sectors and a fraction within that sector, and the
 * red, green and blue channels are read from three fixed six-entry tables.
 *
 * `HsvaAsWritten` follows the code literally, including JavaScript's `%`,
 * whose result keeps the sign of the dividend: a negative hue that is not a
 * whole multiple of 360 gives a negative sector and table reads that yield
 * `undefined` (`NegativeHueUndefined`). `Hsva` reduces
 * the hue with a floored remainder, so every hue lands in [0, 360); the two
 * agree on every non-negative hue (`HsvaAgreesOnNonNegativeHue`).
 */
module Color {
  import opened Wrappers

  /** A JavaScript array read: a number, or `undefined` outside the array. */
  datatype Entry = Num(value: real) | Undefined

  /** Lemma: multiplying by a positive `d` keeps an order. */
  lemma ScaleWeak(d: real, lo: real, hi: real)
    requires d > 0.0 && lo <= hi
    ensures d * lo <= d * hi
  {
  }

  /** Lemma: multiplying by a positive `d` keeps a strict order. */
  lemma ScaleStrict(d: real, lo: real, hi: real)
    requires d > 0.0 && lo < hi
    ensures d * lo < d * hi
  {
  }

  /** Lemma: the multiple of `d` below `x` given by the floored quotient. */
  lemma FloorQuotientLower(x: real, d: real)
    requires d > 0.0
    ensures d * ((x / d).Floor as real) <= x
  {
    var y := x / d;
    var q := y.Floor as real;
    assert d * y == x;
    ScaleWeak(d, q, y);
  }

  /** Lemma: `x` is less than one `d` above that multiple. */
  lemma FloorQuotientUpper(x: real, d: real)
    requires d > 0.0
    ensures x < d * ((x / d).Floor as real) + d
  {
    var y := x / d;
    var q := y.Floor as real;
    assert d * y == x;
    assert q <= y < q + 1.0;
    ScaleStrict(d, y, q + 1.0);
    assert d * (q + 1.0) == d * q + d;
    assert x < d * q + d;
    assert q == (x / d).Floor as real;
  }

  /** The floored remainder: `x` reduced into [0, d). */
  function FloorRem(x: real, d: real): (r: real)
    requires d > 0.0
    ensures 0.0 <= r < d
    ensures x - r == d * ((x / d).Floor as real)
  {
    FloorQuotientLower(x, d);
    FloorQuotientUpper(x, d);
    x - d * ((x / d).Floor as real)
  }

  /** The quotient `x / d` rounded toward zero. */
  function TruncQuotient(x: real, d: real): int
    requires d > 0.0
  {
    if x >= 0.0 then (x / d).Floor else -((-x / d).Floor)
  }

  /**
   * JavaScript's `x % d` for a positive divisor: `x` less the multiple of
   * `d` given by the quotient rounded toward zero, so the remainder carries
   * the sign of `x`.
   */
  function JsRem(x: real, d: real): (r: real)
    requires d > 0.0
    ensures x - r == d * (TruncQuotient(x, d) as real)
    ensures x >= 0.0 ==> 0.0 <= r < d && r == FloorRem(x, d)
    ensures x < 0.0 ==> -d < r <= 0.0
  {
    if x >= 0.0 then FloorRem(x, d) else -FloorRem(-x, d)
  }

  /** The red, green and blue tables, indexed by the hue sector. */
  function RedTable(v: real, n: real, m: real, k: real): seq<real> { [v, n, m, m, k, v] }
  function GreenTable(v: real, n: real, m: real, k: real): seq<real> { [k, v, v, n, m, m] }
  function BlueTable(v: real, n: real, m: real, k: real): seq<real> { [m, m, k, v, v, n] }

  /** Reading `t[i]` in JavaScript. */
  function Lookup(t: seq<real>, i: int): Entry
  {
    if 0 <= i < |t| then Num(t[i]) else Undefined
  }

  /** True when `hsva` rejects its arguments and returns `null`. */
  predicate OutOfRange(s: real, v: real, a: real)
  {
    s > 1.0 || v > 1.0 || a > 1.0
  }

  /** The sector `Math.floor(th / 60)` of a reduced hue `th`. */
  function HueSector(th: real): (i: int)
    ensures 0.0 <= th < 360.0 ==> 0 <= i <= 5
    ensures th < 0.0 ==> i < 0
    ensures 60.0 * i as real <= th < 60.0 * i as real + 60.0
  {
    (th / 60.0).Floor
  }

  /** The position `th / 60 - i` of a hue within its sector. */
  function HueFraction(th: real): (f: real)
    ensures 0.0 <= f < 1.0
    ensures th == 60.0 * (HueSector(th) as real + f)
  {
    th / 60.0 - HueSector(th) as real
  }

  /**
   * `v * (1 - s * t)`: the value `v` lowered by the saturation `s` to depth
   * `t`; the `m`, `n` and `k` of `hsva` are the depths 1, `f` and `1 - f`.
   */
  function Tone(v: real, s: real, t: real): real
  {
    v * (1.0 - s * t)
  }

  /** Lemma: for `s` and `t` in [0, 1] and `v >= 0`, a tone lies between `v * (1 - s)` and `v`. */
  lemma ToneRange(v: real, s: real, t: real)
    requires 0.0 <= s <= 1.0 && 0.0 <= v && 0.0 <= t <= 1.0
    ensures 0.0 <= v * (1.0 - s) == Tone(v, s, 1.0) <= Tone(v, s, t) <= Tone(v, s, 0.0) == v
  {
    ScaleNonNegative(s, t, 1.0);
    ScaleNonNegative(s, 0.0, t);
    assert s * 1.0 == s && s * 0.0 == 0.0;
    assert 0.0 <= s * t <= s;
    ScaleNonNegative(v, 1.0 - s, 1.0 - s * t);
    ScaleNonNegative(v, 1.0 - s * t, 1.0);
    ScaleNonNegative(v, 0.0, 1.0 - s);
  }

  /**
   * The colour `hsva` builds once the hue is reduced to `th`: grey when the
   * saturation is zero, otherwise `r[i]`, `g[i]`, `b[i]` for the sector `i`.
   */
  function SectorColor(th: real, s: real, v: real, a: real): (c: seq<Entry>)
    ensures |c| == 4 && c[3] == Num(a)
    ensures s == 0.0 ==> c == [Num(v), Num(v), Num(v), Num(a)]
    ensures 0.0 <= th < 360.0 ==> forall j :: 0 <= j < 4 ==> c[j].Num?
    ensures th < 0.0 && s != 0.0 ==> c[..3] == [Undefined, Undefined, Undefined]
  {
    var i := HueSector(th);
    var f := HueFraction(th);
    var m := Tone(v, s, 1.0);
    var n := Tone(v, s, f);
    var k := Tone(v, s, 1.0 - f);
    if !(s > 0.0) && !(s < 0.0) then
      [Num(v), Num(v), Num(v), Num(a)]
    else
      [Lookup(RedTable(v, n, m, k), i), Lookup(GreenTable(v, n, m, k), i),
       Lookup(BlueTable(v, n, m, k), i), Num(a)]
  }

  /**
   * `hsva(h, s, v, a)` as written: the hue is reduced with JavaScript's
   * sign-keeping `%`, so only a non-negative hue is sure to give numbers.
   */
  function HsvaAsWritten(h: real, s: real, v: real, a: real): (r: Option<seq<Entry>>)
    ensures r.None? <==> OutOfRange(s, v, a)
    ensures r.Some? ==> |r.value| == 4 && r.value[3] == Num(a)
    ensures r.Some? && s == 0.0 ==> r.value == [Num(v), Num(v), Num(v), Num(a)]
    ensures r.Some? && h >= 0.0 ==> forall j :: 0 <= j < 4 ==> r.value[j].Num?
  {
    if OutOfRange(s, v, a) then None else Some(SectorColor(JsRem(h, 360.0), s, v, a))
  }

  /** The numbers of a sequence of entries that holds no `undefined`. */
  function Numbers(e: seq<Entry>): seq<real>
    requires |e| == 4 && forall j :: 0 <= j < 4 ==> e[j].Num?
  {
    [e[0].value, e[1].value, e[2].value, e[3].value]
  }

  /**
   * `hsva(h, s, v, a)` with the hue reduced into [0, 360) for every real
   * hue, so that every table read is in range.
   */
  function Hsva(h: real, s: real, v: real, a: real): (r: Option<seq<real>>)
    ensures r.None? <==> OutOfRange(s, v, a)
    ensures r.Some? ==> |r.value| == 4 && r.value[3] == a
    ensures r.Some? && s == 0.0 ==> r.value == [v, v, v, a]
  {
    if OutOfRange(s, v, a) then None else Some(Numbers(SectorColor(FloorRem(h, 360.0), s, v, a)))
  }

  /** The numbers of `c` as JavaScript entries. */
  function DefinedOption(r: Option<seq<real>>): Option<seq<Entry>>
  {
    match r
    case None => None
    case Some(c) => Some(seq(|c|, j requires 0 <= j < |c| => Num(c[j])))
  }

  /** On a non-negative hue the code as written and `Hsva` give the same colour. */
  lemma HsvaAgreesOnNonNegativeHue(h: real, s: real, v: real, a: real)
    requires h >= 0.0
    ensures HsvaAsWritten(h, s, v, a) == DefinedOption(Hsva(h, s, v, a))
  {
    if !OutOfRange(s, v, a) {
      var e := SectorColor(FloorRem(h, 360.0), s, v, a);
      var c := Numbers(e);
      assert JsRem(h, 360.0) == FloorRem(h, 360.0);
      assert e == seq(|c|, j requires 0 <= j < |c| => Num(c[j]));
    }
  }

  /** A negative hue makes the code as written read outside its tables. */
  lemma NegativeHueReadsOutsideTables()
    ensures HsvaAsWritten(-30.0, 1.0, 1.0, 1.0) == Some([Undefined, Undefined, Undefined, Num(1.0)])
    ensures Hsva(-30.0, 1.0, 1.0, 1.0) == Some([1.0, 0.0, 0.5, 1.0])
  {
    assert (30.0 / 360.0).Floor == 0;
    assert JsRem(-30.0, 360.0) == -30.0;
    var e := SectorColor(-30.0, 1.0, 1.0, 1.0);
    assert e == e[..3] + [e[3]];
    assert (-30.0 / 360.0).Floor == -1;
    assert FloorRem(-30.0, 360.0) == 330.0;
    assert HueSector(330.0) == 5 && HueFraction(330.0) == 0.5;
    var c := SectorColor(330.0, 1.0, 1.0, 1.0);
    assert c == [Num(1.0), Num(0.0), Num(0.5), Num(1.0)];
    assert Numbers(c) == [1.0, 0.0, 0.5, 1.0];
  }

  /**
   * Lemma: every negative hue that is not a whole multiple of 360 makes the
   * code as written read all three tables out of range.
   */
  lemma NegativeHueUndefined(h: real, s: real, v: real, a: real)
    requires !OutOfRange(s, v, a) && s != 0.0 && h < 0.0 && JsRem(h, 360.0) != 0.0
    ensures HsvaAsWritten(h, s, v, a).value[..3] == [Undefined, Undefined, Undefined]
  {
    assert JsRem(h, 360.0) < 0.0;
  }

  /** Lemma: a negative whole number of turns reads the tables like hue 0. */
  lemma NegativeWholeTurns(q: nat, s: real, v: real, a: real)
    ensures HsvaAsWritten(-360.0 * q as real, s, v, a) == HsvaAsWritten(0.0, s, v, a)
  {
    if q > 0 {
      FloorRemShift(0.0, 360.0, q);
      assert 0.0 + q as real * 360.0 == 360.0 * q as real;
      assert JsRem(-360.0 * q as real, 360.0) == 0.0 == JsRem(0.0, 360.0);
    }
  }

  /** Lemma: the floored remainder is unchanged by adding whole multiples of `d`. */
  lemma FloorRemShift(x: real, d: real, q: int)
    requires d > 0.0
    ensures FloorRem(x + q as real * d, d) == FloorRem(x, d)
  {
    var p := (x / d).Floor;
    assert (x + q as real * d) / d == x / d + q as real;
    assert ((x + q as real * d) / d).Floor == p + q;
  }

  /** Lemma: the hue is periodic with period 360. */
  lemma HsvaPeriodic(h: real, s: real, v: real, a: real)
    ensures Hsva(h + 360.0, s, v, a) == Hsva(h, s, v, a)
  {
    FloorRemShift(h, 360.0, 1);
  }

  function Min(x: real, y: real): real { if x <= y then x else y }

  /** `x` clamped into [0, 1]. */
  function Clamp01(x: real): real { if x < 0.0 then 0.0 else if x > 1.0 then 1.0 else x }

  /** The closed-form channel at position `k` of the six-unit hue circle. */
  function ChannelAt(k: real, s: real, v: real): real
  {
    Tone(v, s, Clamp01(Min(k, 4.0 - k)))
  }

  /** `x mod 6` for `x` in [0, 12). */
  function Wrap6(x: real): real
  {
    if x < 6.0 then x else x - 6.0
  }

  /**
   * The closed-form HSV to RGB channel of a hue `th` in [0, 360]:
   * `v * (1 - s * clamp(min(k, 4 - k)))` with `k = (offset + th / 60) mod 6`;
   * red, green and blue use the offsets 5, 3 and 1. It reads no table and
   * needs no sector.
   */
  function HueChannel(offset: real, th: real, s: real, v: real): real
  {
    ChannelAt(Wrap6(offset + th / 60.0), s, v)
  }

  /** The closed-form colour of a hue `th` in [0, 360]. */
  function HueColor(th: real, s: real, v: real, a: real): seq<real>
  {
    [HueChannel(5.0, th, s, v), HueChannel(3.0, th, s, v), HueChannel(1.0, th, s, v), a]
  }

  /** The closed-form colour of any hue, reduced into [0, 360) first. */
  function ChannelColor(h: real, s: real, v: real, a: real): seq<real>
  {
    HueColor(FloorRem(h, 360.0), s, v, a)
  }

  /** Lemma: on [0, 360] the closed form needs no reduction: 360 and 0 give one colour. */
  lemma HueColorUnreduced(h: real, s: real, v: real, a: real)
    requires 0.0 <= h <= 360.0
    ensures ChannelColor(h, s, v, a) == HueColor(h, s, v, a)
  {
    if h == 360.0 {
      assert FloorRem(h, 360.0) == 0.0;
    } else {
      assert FloorRem(h, 360.0) == h;
    }
  }

  /** Lemma: the channel position `k` in terms of the hue's sector and fraction. */
  lemma ChannelPosition(offset: int, th: real)
    requires 0 <= offset <= 5 && 0.0 <= th < 360.0
    ensures Wrap6(offset as real + th / 60.0) == ((offset + HueSector(th)) % 6) as real + HueFraction(th)
  {
    var i, f := HueSector(th), HueFraction(th);
    assert th / 60.0 == i as real + f;
    if offset + i >= 6 {
      assert (offset + i) % 6 == offset + i - 6;
    }
  }

  /**
   * Lemma: along one sector `j` of the hue circle the closed-form channel is
   * `n`, `m`, `m`, `k`, `v`, `v` in turn.
   */
  lemma ChannelAtSector(j: int, f: real, s: real, v: real)
    requires 0 <= j <= 5 && 0.0 <= f < 1.0
    ensures var m, n, k := Tone(v, s, 1.0), Tone(v, s, f), Tone(v, s, 1.0 - f);
      ChannelAt(j as real + f, s, v) == [n, m, m, k, v, v][j]
  {
    var x := j as real + f;
    if j == 0 {
      assert Clamp01(Min(x, 4.0 - x)) == f;
    } else if j == 1 || j == 2 {
      assert Clamp01(Min(x, 4.0 - x)) == 1.0;
    } else if j == 3 {
      assert Clamp01(Min(x, 4.0 - x)) == 1.0 - f;
    } else {
      assert Clamp01(Min(x, 4.0 - x)) == 0.0;
      assert Tone(v, s, 0.0) == v;
    }
  }

  /** Lemma: each table entry is the closed-form channel for its sector. */
  lemma TablesMatchChannels(i: int, f: real, s: real, v: real)
    requires 0 <= i <= 5 && 0.0 <= f < 1.0
    ensures var m, n, k := Tone(v, s, 1.0), Tone(v, s, f), Tone(v, s, 1.0 - f);
      && RedTable(v, n, m, k)[i] == ChannelAt(((5 + i) % 6) as real + f, s, v)
      && GreenTable(v, n, m, k)[i] == ChannelAt(((3 + i) % 6) as real + f, s, v)
      && BlueTable(v, n, m, k)[i] == ChannelAt(((1 + i) % 6) as real + f, s, v)
  {
    var red, green, blue := (5 + i) % 6, (3 + i) % 6, (1 + i) % 6;
    assert red == (if i == 0 then 5 else i - 1);
    assert green == (if i <= 2 then i + 3 else i - 3);
    assert blue == (if i == 5 then 0 else i + 1);
    ChannelAtSector(red, f, s, v);
    ChannelAtSector(green, f, s, v);
    ChannelAtSector(blue, f, s, v);
  }

  /** Lemma: a chromatic colour of a reduced hue reads the three tables at its sector. */
  lemma SectorColorReadsTables(th: real, s: real, v: real, a: real)
    requires 0.0 <= th < 360.0 && s != 0.0
    ensures var i, f := HueSector(th), HueFraction(th);
      var m, n, k := Tone(v, s, 1.0), Tone(v, s, f), Tone(v, s, 1.0 - f);
      SectorColor(th, s, v, a)
        == [Num(RedTable(v, n, m, k)[i]), Num(GreenTable(v, n, m, k)[i]), Num(BlueTable(v, n, m, k)[i]), Num(a)]
  {
  }

  /** Lemma: a closed-form channel in terms of the hue's sector and fraction. */
  lemma ChannelInSector(offset: int, th: real, s: real, v: real)
    requires 0 <= offset <= 5 && 0.0 <= th < 360.0
    ensures HueChannel(offset as real, th, s, v)
      == ChannelAt(((offset + HueSector(th)) % 6) as real + HueFraction(th), s, v)
  {
    ChannelPosition(offset, th);
  }

  /** Lemma: with zero saturation every closed-form channel is the value. */
  lemma GreyChannels(k: real, v: real)
    ensures ChannelAt(k, 0.0, v) == v
  {
  }

  /** Lemma: the chromatic colour of a reduced hue in closed form. */
  lemma SectorColorMatchesChannels(th: real, s: real, v: real, a: real)
    requires 0.0 <= th < 360.0 && s != 0.0
    ensures var i, f := HueSector(th), HueFraction(th);
      Numbers(SectorColor(th, s, v, a)) == [ChannelAt(((5 + i) % 6) as real + f, s, v),
                                            ChannelAt(((3 + i) % 6) as real + f, s, v),
                                            ChannelAt(((1 + i) % 6) as real + f, s, v), a]
  {
    var i, f := HueSector(th), HueFraction(th);
    var m, n, k := Tone(v, s, 1.0), Tone(v, s, f), Tone(v, s, 1.0 - f);
    var red, green, blue := RedTable(v, n, m, k)[i], GreenTable(v, n, m, k)[i], BlueTable(v, n, m, k)[i];
    SectorColorReadsTables(th, s, v, a);
    TablesMatchChannels(i, f, s, v);
  }

  /**
   * Lemma: `Hsva` agrees with the closed-form channels on every hue, so
   * its six-entry tables are the piecewise form of one formula.
   */
  lemma HsvaMatchesChannelFormula(h: real, s: real, v: real, a: real)
    requires !OutOfRange(s, v, a)
    ensures Hsva(h, s, v, a) == Some(ChannelColor(h, s, v, a))
  {
    var th := FloorRem(h, 360.0);
    var i, f := HueSector(th), HueFraction(th);
    ChannelInSector(5, th, s, v);
    ChannelInSector(3, th, s, v);
    ChannelInSector(1, th, s, v);
    if s == 0.0 {
      GreyChannels(((5 + i) % 6) as real + f, v);
      GreyChannels(((3 + i) % 6) as real + f, v);
      GreyChannels(((1 + i) % 6) as real + f, v);
    } else {
      SectorColorMatchesChannels(th, s, v, a);
    }
  }

  function Max3(x: real, y: real, z: real): real
  {
    if x >= y && x >= z then x else if y >= z then y else z
  }

  function Min3(x: real, y: real, z: real): real
  {
    if x <= y && x <= z then x else if y <= z then y else z
  }

  /** Lemma: multiplying by a non-negative `v` keeps an order. */
  lemma ScaleNonNegative(v: real, lo: real, hi: real)
    requires v >= 0.0 && lo <= hi
    ensures v * lo <= v * hi
  {
  }

  /**
   * The defining property of HSV: for saturation and value in [0, 1] the
   * largest channel is the value and the smallest is `v * (1 - s)`, so
   * every channel lies in [0, 1].
   */
  lemma HsvaValueAndSaturation(h: real, s: real, v: real, a: real)
    requires 0.0 <= s <= 1.0 && 0.0 <= v <= 1.0 && a <= 1.0
    ensures Hsva(h, s, v, a).Some?
    ensures var c := Hsva(h, s, v, a).value;
      Max3(c[0], c[1], c[2]) == v && Min3(c[0], c[1], c[2]) == v * (1.0 - s)
    ensures var c := Hsva(h, s, v, a).value;
      forall j :: 0 <= j < 3 ==> 0.0 <= v * (1.0 - s) <= c[j] <= v <= 1.0
  {
    if s != 0.0 {
      var th := FloorRem(h, 360.0);
      var f := HueFraction(th);
      ToneRange(v, s, f);
      ToneRange(v, s, 1.0 - f);
      var e := SectorColor(th, s, v, a);
      var c := Hsva(h, s, v, a).value;
      assert e[0] == Num(c[0]) && e[1] == Num(c[1]) && e[2] == Num(c[2]);
    }
  }

  /** Lemma: pure red, green and blue sit at hues 0, 120 and 240. */
  lemma PrimaryHues()
    ensures Hsva(0.0, 1.0, 1.0, 1.0) == Some([1.0, 0.0, 0.0, 1.0])
    ensures Hsva(120.0, 1.0, 1.0, 1.0) == Some([0.0, 1.0, 0.0, 1.0])
    ensures Hsva(240.0, 1.0, 1.0, 1.0) == Some([0.0, 0.0, 1.0, 1.0])
  {
    assert FloorRem(0.0, 360.0) == 0.0;
    assert FloorRem(120.0, 360.0) == 120.0;
    assert FloorRem(240.0, 360.0) == 240.0;
    assert HueSector(0.0) == 0 && HueFraction(0.0) == 0.0;
    assert HueSector(120.0) == 2 && HueFraction(120.0) == 0.0;
    assert HueSector(240.0) == 4 && HueFraction(240.0) == 0.0;
    var red, green, blue := SectorColor(0.0, 1.0, 1.0, 1.0), SectorColor(120.0, 1.0, 1.0, 1.0), SectorColor(240.0, 1.0, 1.0, 1.0);
    assert red == [Num(1.0), Num(0.0), Num(0.0), Num(1.0)];
    assert green == [Num(0.0), Num(1.0), Num(0.0), Num(1.0)];
    assert blue == [Num(0.0), Num(0.0), Num(1.0), Num(1.0)];
    assert Numbers(red) == [1.0, 0.0, 0.0, 1.0];
    assert Numbers(green) == [0.0, 1.0, 0.0, 1.0];
    assert Numbers(blue) == [0.0, 0.0, 1.0, 1.0];
  }
}
