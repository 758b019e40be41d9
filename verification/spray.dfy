/** Prop spraying: each prop template expands into `spray_count` prop specs
    scattered around the template's position within `spray_radius`. The
    `random.uniform` draws are passed in, one (x, y) pair per generated prop. */
module Spray {

  // ---------------------------------------------------------------------
  // str(index)

  function DigitChar(d: nat): (c: char)
    requires d < 10
    ensures '0' <= c <= '9'
  {
    ('0' as int + d) as char
  }

  function DigitValue(c: char): (d: nat)
    requires '0' <= c <= '9'
    ensures d < 10 && DigitChar(d) == c
  {
    c as int - '0' as int
  }

  predicate AllDigits(s: string) {
    forall i :: 0 <= i < |s| ==> '0' <= s[i] <= '9'
  }

  /** `str(n)` for a natural number: its decimal digits, without leading zeros. */
  function DecimalString(n: nat): (s: string)
    ensures |s| >= 1 && AllDigits(s)
    ensures |s| > 1 ==> s[0] != '0'
    decreases n
  {
    if n < 10 then [DigitChar(n)] else DecimalString(n / 10) + [DigitChar(n % 10)]
  }

  /** The number a string of decimal digits denotes. */
  function DecimalValue(s: string): nat
    requires AllDigits(s)
    decreases |s|
  {
    if s == [] then 0 else DecimalValue(s[..|s| - 1]) * 10 + DigitValue(s[|s| - 1])
  }

  /** Reading back what `str` wrote gives the number again. */
  lemma {:induction false} DecimalRoundTrip(n: nat)
    ensures DecimalValue(DecimalString(n)) == n
    decreases n
  {
    var s := DecimalString(n);
    if n < 10 {
      assert s[..0] == [];
    } else {
      DecimalRoundTrip(n / 10);
      assert s[..|s| - 1] == DecimalString(n / 10);
      assert DigitValue(s[|s| - 1]) == n % 10;
    }
  }

  /** Different indices give different decimal strings. */
  lemma DecimalInjective(a: nat, b: nat)
    requires DecimalString(a) == DecimalString(b)
    ensures a == b
  {
    DecimalRoundTrip(a);
    DecimalRoundTrip(b);
  }

  // ---------------------------------------------------------------------
  // Templates and generated specs

  /** A PropTemplate row. */
  datatype PropTemplate = PropTemplate(
    name: string, imgFilename: string, flip: bool, resize: bool, w: int, h: int, color: string,
    x: real, y: real, sprayCount: int, sprayRadius: real)

  /** A generated PropSpec. */
  datatype PropSpec = PropSpec(
    name: string, instanceId: int, imgFilename: string, flip: bool, resize: bool, w: int, h: int, color: string,
    x: real, y: real)

  function Abs(r: real): real {
    if r < 0.0 then -r else r
  }

  /** `len(range(spray_count))`: a negative count generates nothing. */
  function Count(t: PropTemplate): nat {
    if t.sprayCount < 0 then 0 else t.sprayCount
  }

  /** A possible result of `random.uniform(a, b)`: between the bounds, both included. */
  predicate Uniform(v: real, a: real, b: real) {
    if a <= b then a <= v <= b else b <= v <= a
  }

  /** Both draws of one prop come from `random.uniform(0.0, 2 * spray_radius)`. */
  predicate DrawFor(t: PropTemplate, draw: (real, real)) {
    Uniform(draw.0, 0.0, 2.0 * t.sprayRadius) && Uniform(draw.1, 0.0, 2.0 * t.sprayRadius)
  }

  /** One draw pair for each prop a template generates. */
  predicate DrawsFor(t: PropTemplate, ds: seq<(real, real)>) {
    |ds| == Count(t) && forall i :: 0 <= i < |ds| ==> DrawFor(t, ds[i])
  }

  /** One sequence of draws per template. */
  predicate DrawsFit(ts: seq<PropTemplate>, dss: seq<seq<(real, real)>>) {
    |dss| == |ts| && forall k :: 0 <= k < |ts| ==> DrawsFor(ts[k], dss[k])
  }

  /** The prop spec generated from template `t` at `index` with the given draws. */
  function Sprayed(t: PropTemplate, index: nat, draw: (real, real)): (p: PropSpec)
    requires DrawFor(t, draw)
    ensures p.name == t.name + "-" + DecimalString(index)
    ensures p.instanceId == -1 && !p.flip && !p.resize
    ensures p.imgFilename == t.imgFilename && p.w == t.w && p.h == t.h && p.color == t.color
    ensures Abs(p.x - t.x) <= Abs(t.sprayRadius) && Abs(p.y - t.y) <= Abs(t.sprayRadius)
    ensures p.x - t.x == draw.0 - t.sprayRadius && p.y - t.y == draw.1 - t.sprayRadius
  {
    PropSpec(t.name + "-" + DecimalString(index), -1, t.imgFilename, false, false, t.w, t.h, t.color,
             t.x + (draw.0 - t.sprayRadius), t.y + (draw.1 - t.sprayRadius))
  }

  /** Two props of one template never share a name. */
  lemma SprayedNamesDistinct(t: PropTemplate, i: nat, j: nat, di: (real, real), dj: (real, real))
    requires DrawFor(t, di) && DrawFor(t, dj)
    requires i != j
    ensures Sprayed(t, i, di).name != Sprayed(t, j, dj).name
  {
    var prefix := t.name + "-";
    if Sprayed(t, i, di).name == Sprayed(t, j, dj).name {
      assert prefix + DecimalString(i) == prefix + DecimalString(j);
      assert DecimalString(i) == (prefix + DecimalString(i))[|prefix|..];
      assert DecimalString(j) == (prefix + DecimalString(j))[|prefix|..];
      DecimalInjective(i, j);
    }
  }

  /** The specs one template generates, in index order. */
  function SprayOne(t: PropTemplate, ds: seq<(real, real)>): (r: seq<PropSpec>)
    requires DrawsFor(t, ds)
    ensures |r| == Count(t)
    ensures forall i :: 0 <= i < |r| ==> r[i] == Sprayed(t, i, ds[i])
  {
    seq(|ds|, i requires 0 <= i < |ds| && DrawFor(t, ds[i]) => Sprayed(t, i, ds[i]))
  }

  /** The specs of all templates, template after template. */
  function SprayAll(ts: seq<PropTemplate>, dss: seq<seq<(real, real)>>): seq<PropSpec>
    requires DrawsFit(ts, dss)
    decreases |ts|
  {
    if ts == [] then []
    else SprayAll(ts[..|ts| - 1], dss[..|dss| - 1]) + SprayOne(ts[|ts| - 1], dss[|dss| - 1])
  }

  /** How many props the templates generate together. */
  function Total(ts: seq<PropTemplate>): nat
    decreases |ts|
  {
    if ts == [] then 0 else Total(ts[..|ts| - 1]) + Count(ts[|ts| - 1])
  }

  /** Spraying emits exactly `spray_count` specs per template: the spec at
      index i of template k sits right after those of the templates before k,
      and is the i-th spec generated from template k. */
  lemma {:induction false} SprayAllAt(ts: seq<PropTemplate>, dss: seq<seq<(real, real)>>, k: nat, i: nat)
    requires DrawsFit(ts, dss)
    requires k < |ts| && i < Count(ts[k])
    ensures |SprayAll(ts, dss)| == Total(ts)
    ensures Total(ts[..k]) + i < Total(ts)
    ensures SprayAll(ts, dss)[Total(ts[..k]) + i] == Sprayed(ts[k], i, dss[k][i])
    decreases |ts|
  {
    var n := |ts| - 1;
    var front, frontDraws := ts[..n], dss[..n];
    SprayAllLength(front, frontDraws);
    if k < n {
      assert front[..k] == ts[..k];
      assert front[k] == ts[k] && frontDraws[k] == dss[k];
      SprayAllAt(front, frontDraws, k, i);
    } else {
      assert ts[..k] == front;
    }
  }

  lemma {:induction false} SprayAllLength(ts: seq<PropTemplate>, dss: seq<seq<(real, real)>>)
    requires DrawsFit(ts, dss)
    ensures |SprayAll(ts, dss)| == Total(ts)
    decreases |ts|
  {
    if ts != [] {
      SprayAllLength(ts[..|ts| - 1], dss[..|dss| - 1]);
    }
  }

  /** The prop-spray loop: for each template, `spray_count` times, build a
      spec from the template, name it, offset it by two draws and append it. */
  method SprayProps(ts: seq<PropTemplate>, dss: seq<seq<(real, real)>>) returns (specs: seq<PropSpec>)
    requires DrawsFit(ts, dss)
    ensures specs == SprayAll(ts, dss)
    ensures |specs| == Total(ts)
  {
    specs := [];
    for k := 0 to |ts|
      invariant specs == SprayAll(ts[..k], dss[..k])
    {
      var t := ts[k];
      assert ts[..k + 1][..k] == ts[..k] && dss[..k + 1][..k] == dss[..k];
      for index := 0 to Count(t)
        invariant specs == SprayAll(ts[..k], dss[..k]) + SprayOne(t, dss[k])[..index]
      {
        var spec := PropSpec(t.name + DecimalString(index), -1, t.imgFilename, false, false, t.w, t.h, t.color, 0.0, 0.0);
        spec := spec.(name := t.name + "-" + DecimalString(index));
        var xOffset := dss[k][index].0 - t.sprayRadius;
        var yOffset := dss[k][index].1 - t.sprayRadius;
        spec := spec.(x := t.x + xOffset, y := t.y + yOffset);
        specs := specs + [spec];
        assert SprayOne(t, dss[k])[..index + 1] == SprayOne(t, dss[k])[..index] + [spec];
      }
    }
    assert ts[..|ts|] == ts && dss[..|dss|] == dss;
    SprayAllLength(ts, dss);
  }
}
