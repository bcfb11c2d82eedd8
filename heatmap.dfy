/*
 * The heat-map style generator of harp.gl's GeoJSON heat-map example
 * (generateHeatStyleSet in @here/harp-examples/src/datasource_geojson_heatmap.ts).
 *
 * Given a feature property name, a list of thresholds and a base colour, the
 * generator emits one style rule per threshold. Rule i applies to polygons whose
 * property lies in the half-open bucket (lower, thresholds[i]], where lower is 0
 * for the first rule and the previous threshold otherwise, and it paints them with
 * the base colour scaled by (i + 1) / 2 / length + 0.5.
 */
module GeoJsonHeatmapExample {

  /** The `when` condition of a generated rule, kept as structure rather than as the
      text it is rendered to:
      type == '<geometryType>' && properties.<property> > <min> && properties.<property> <= <max> */
  datatype When = When(geometryType: string, property: string, min: real, max: real)

  /** The `attr` block of a rule: only the fill colour, as "#" followed by hex digits. */
  datatype Attr = Attr(color: string)

  /** One entry of the generated StyleSet. */
  datatype Style = Style(description: string, when: When, renderOrder: int, technique: string, attr: Attr)

  /** A GeoJSON feature as a `when` condition sees it: its geometry type and its
      numeric properties. */
  datatype Feature = Feature(geometryType: string, properties: map<string, real>)

  /** The generator's settings object. The thresholds are the caller's own array,
      which the generator reads in place. */
  datatype HeatmapOptions = HeatmapOptions(thresholds: array<real>, color: string, property: string)

  /** The colour pipeline of the three.js library: parse the base colour, multiply every
      channel by the factor, and render the result as six hex digits. It is foreign
      code, so the generator receives it as a parameter and the model never looks
      inside it. */
  type Shade = (string, real) -> string

  const Description: string := "geoJson property-based style"
  const RenderOrder: int := 1000
  const Technique: string := "fill"
  const Polygon: string := "polygon"

  /** What a `when` condition means for a feature: the geometry type matches and the
      named property is present and lies in (min, max]. A feature that lacks the
      property fails both comparisons and so matches nothing. */
  predicate Holds(w: When, f: Feature) {
    f.geometryType == w.geometryType
    && w.property in f.properties
    && w.min < f.properties[w.property] <= w.max
  }

  /** The colour scale of rule i out of n: (i + 1) / 2 / n + 0.5, in exact arithmetic.
      It lies in (0.5, 1] and reaches 1 exactly at the last rule. */
  function ScaleFactor(i: nat, n: nat): (r: real)
    requires i < n
    ensures 0.5 < r <= 1.0
    ensures r == 1.0 <==> i == n - 1
  {
    var half := (i + 1) as real / 2.0;
    assert 0.0 < half <= n as real / 2.0;
    assert half / n as real <= 0.5 by {
      assert half / n as real * n as real == half;
    }
    assert half / n as real == 0.5 <==> i == n - 1 by {
      assert half / n as real * n as real == half;
    }
    half / n as real + 0.5
  }

  /** The lower bound of bucket i: 0 for the first bucket, the previous threshold after it. */
  function LowerBound(t: seq<real>, i: nat): real
    requires i < |t|
  {
    if i == 0 then 0.0 else t[i - 1]
  }

  /** Whether value v falls in bucket i, the half-open interval (LowerBound(t, i), t[i]]. */
  predicate InBucket(t: seq<real>, i: nat, v: real)
    requires i < |t|
  {
    LowerBound(t, i) < v <= t[i]
  }

  /** The rule generated for threshold i. */
  function RuleAt(property: string, t: seq<real>, color: string, shade: Shade, i: nat): Style
    requires i < |t|
  {
    Style(Description,
          When(Polygon, property, LowerBound(t, i), t[i]),
          RenderOrder,
          Technique,
          Attr("#" + shade(color, ScaleFactor(i, |t|))))
  }

  /** The whole style set: rule i for each threshold i, in threshold order. */
  function HeatStyleSet(property: string, t: seq<real>, color: string, shade: Shade): seq<Style>
  {
    seq(|t|, i requires 0 <= i < |t| => RuleAt(property, t, color, shade, i))
  }

  /** The generator. It reads the options and never writes them (it has no modifies
      clause), and builds the style set one push per threshold. */
  method GenerateHeatStyleSet(options: HeatmapOptions, shade: Shade) returns (styleSet: seq<Style>)
    ensures styleSet == HeatStyleSet(options.property, options.thresholds[..], options.color, shade)
  {
    styleSet := [];
    var length := options.thresholds.Length;
    for i := 0 to length
      invariant styleSet == HeatStyleSet(options.property, options.thresholds[..], options.color, shade)[..i]
    {
      var color := shade(options.color, (i + 1) as real / 2.0 / length as real + 0.5);
      var max := options.thresholds[i];
      var min := if i - 1 < 0 then 0.0 else options.thresholds[i - 1];
      var propertyName := options.property;
      var style := Style(Description,
                         When(Polygon, propertyName, min, max),
                         RenderOrder,
                         Technique,
                         Attr("#" + color));
      styleSet := styleSet + [style];
    }
  }

  // ---------------------------------------------------------------------------
  // Shape of the generated style set

  /** One rule per threshold; no thresholds, no rules. */
  lemma StyleSetLength(property: string, t: seq<real>, color: string, shade: Shade)
    ensures |HeatStyleSet(property, t, color, shade)| == |t|
    ensures t == [] <==> HeatStyleSet(property, t, color, shade) == []
  {
  }

  /** Rule i ends at threshold i; rule 0 starts at 0 and every later rule starts where
      the one before it ends. */
  lemma RuleBounds(property: string, t: seq<real>, color: string, shade: Shade)
    ensures var s := HeatStyleSet(property, t, color, shade);
      && (forall i :: 0 <= i < |s| ==> s[i].when.max == t[i])
      && (|s| > 0 ==> s[0].when.min == 0.0)
      && (forall i :: 0 < i < |s| ==> s[i].when.min == s[i - 1].when.max)
  {
  }

  /** Every rule carries the same description, render order, technique, geometry test
      and property name: two rules differ in their bounds and colour only. */
  lemma RulesShareFixedFields(property: string, t: seq<real>, color: string, shade: Shade, i: nat, j: nat)
    requires i < |t| && j < |t|
    ensures var s := HeatStyleSet(property, t, color, shade);
      && s[i].description == "geoJson property-based style"
      && s[i].renderOrder == 1000
      && s[i].technique == "fill"
      && s[i].when.geometryType == "polygon"
      && s[i].when.property == property
      && s[i] == s[j].(when := s[j].when.(min := s[i].when.min, max := s[i].when.max), attr := s[i].attr)
  {
  }

  /** Rule i's condition holds of a feature exactly when the feature is a polygon whose
      named property falls in bucket i. */
  lemma RuleCondition(property: string, t: seq<real>, color: string, shade: Shade, i: nat, f: Feature)
    requires i < |t|
    ensures Holds(HeatStyleSet(property, t, color, shade)[i].when, f)
        <==> f.geometryType == "polygon" && property in f.properties && InBucket(t, i, f.properties[property])
  {
  }

  // ---------------------------------------------------------------------------
  // Colour shades

  /** The scale factor rises strictly with the rule index. */
  lemma ScaleFactorIncreasing(i: nat, j: nat, n: nat)
    requires i < j < n
    ensures ScaleFactor(i, n) < ScaleFactor(j, n)
  {
    var a, b := (i + 1) as real / 2.0, (j + 1) as real / 2.0;
    assert a < b;
    assert a / n as real < b / n as real by {
      assert a / n as real * n as real == a;
      assert b / n as real * n as real == b;
    }
  }

  /** Rule i is painted with the base colour scaled by ScaleFactor(i, |t|). */
  lemma RuleColor(property: string, t: seq<real>, color: string, shade: Shade, i: nat)
    requires i < |t|
    ensures HeatStyleSet(property, t, color, shade)[i].attr.color == "#" + shade(color, ScaleFactor(i, |t|))
  {
  }

  /** The last rule is painted with the base colour itself, scaled by exactly 1. */
  lemma LastRuleColor(property: string, t: seq<real>, color: string, shade: Shade)
    requires |t| > 0
    ensures HeatStyleSet(property, t, color, shade)[|t| - 1].attr.color == "#" + shade(color, 1.0)
  {
  }

  // ---------------------------------------------------------------------------
  // Buckets: the rules are staggered over (0, last threshold]

  /** Thresholds that never decrease. */
  predicate NonDecreasing(t: seq<real>) {
    forall i, j :: 0 <= i < j < |t| ==> t[i] <= t[j]
  }

  /** Thresholds as the example intends them: ascending and starting at or above 0. */
  predicate Staggered(t: seq<real>) {
    NonDecreasing(t) && (|t| > 0 ==> 0.0 <= t[0])
  }

  /** Over non-decreasing thresholds no value lies in two buckets. */
  lemma BucketsDisjoint(t: seq<real>, i: nat, j: nat, v: real)
    requires NonDecreasing(t)
    requires i < |t| && j < |t| && i != j
    ensures !(InBucket(t, i, v) && InBucket(t, j, v))
  {
  }

  /** Every value in (0, last threshold] lies in some bucket, whatever the order of the
      thresholds; the bucket returned is the first threshold at or above the value. */
  lemma {:induction false} BucketCovers(t: seq<real>, v: real) returns (k: nat)
    requires |t| > 0 && 0.0 < v <= t[|t| - 1]
    ensures k < |t| && InBucket(t, k, v)
    ensures forall i :: 0 <= i < k ==> t[i] < v
  {
    if v <= t[0] {
      k := 0;
    } else {
      var rest := BucketCovers(t[1..], v);
      k := rest + 1;
      assert forall i :: 0 < i < k ==> t[i] == t[1..][i - 1];
    }
  }

  /** Over staggered thresholds a value at or below 0, or above the last threshold, lies
      in no bucket. */
  lemma NoBucketOutside(t: seq<real>, v: real, i: nat)
    requires Staggered(t)
    requires i < |t|
    requires v <= 0.0 || v > t[|t| - 1]
    ensures !InBucket(t, i, v)
  {
  }

  /** Over staggered thresholds, a polygon whose property lies in (0, last threshold]
      matches exactly one rule, and any other polygon matches none. */
  lemma ExactlyOneRuleMatches(property: string, t: seq<real>, color: string, shade: Shade, f: Feature)
    requires Staggered(t)
    requires f.geometryType == "polygon" && property in f.properties
    ensures var s := HeatStyleSet(property, t, color, shade);
      && ((exists i :: 0 <= i < |s| && Holds(s[i].when, f))
          <==> |t| > 0 && 0.0 < f.properties[property] <= t[|t| - 1])
      && (forall i, j :: 0 <= i < |s| && 0 <= j < |s| && Holds(s[i].when, f) && Holds(s[j].when, f) ==> i == j)
  {
    var s := HeatStyleSet(property, t, color, shade);
    var v := f.properties[property];
    forall i | 0 <= i < |s|
      ensures Holds(s[i].when, f) <==> InBucket(t, i, v)
    {
      RuleCondition(property, t, color, shade, i, f);
    }
    if |t| > 0 && 0.0 < v <= t[|t| - 1] {
      var k := BucketCovers(t, v);
      assert Holds(s[k].when, f);
    } else {
      forall i | 0 <= i < |s|
        ensures !Holds(s[i].when, f)
      {
        NoBucketOutside(t, v, i);
      }
    }
    forall i, j | 0 <= i < |s| && 0 <= j < |s| && Holds(s[i].when, f) && Holds(s[j].when, f)
      ensures i == j
    {
      if i != j {
        BucketsDisjoint(t, i, j, v);
      }
    }
  }

  // ---------------------------------------------------------------------------
  // The example's own call

  /** The thresholds the example passes for population density. */
  const DensityThresholds: seq<real> := [50.0, 100.0, 150.0, 200.0, 250.0, 300.0, 350.0, 400.0, 450.0]

  /** The example's density style set: nine rules, a region of density 120 is painted
      by the third rule alone, and a region of density 500 by none. */
  lemma DensityStyleSet(shade: Shade, f: Feature)
    requires f.geometryType == "polygon" && "density" in f.properties
    ensures var s := HeatStyleSet("density", DensityThresholds, "#ff6600", shade);
      && |s| == 9
      && s[0].when == When("polygon", "density", 0.0, 50.0)
      && s[8].when == When("polygon", "density", 400.0, 450.0)
      && (f.properties["density"] == 120.0 ==> forall i :: 0 <= i < |s| ==> (Holds(s[i].when, f) <==> i == 2))
      && (f.properties["density"] == 500.0 ==> forall i :: 0 <= i < |s| ==> !Holds(s[i].when, f))
  {
  }
}
