# Heat-map style generator of the harp.gl GeoJSON heat-map example

The GeoJSON heat-map example of harp.gl paints the regions of a GeoJSON map
(Italy, by population density) with colour shades. It has one piece of logic of
its own, `generateHeatStyleSet`. Given a feature property name, a list of
numeric thresholds and a base colour, it builds one style rule per threshold:

- rule `i` applies to polygons whose property lies in the half-open bucket
  `(min, max]`, where `max` is threshold `i` and `min` is 0 for the first rule
  and threshold `i - 1` after it;
- every rule has the description "geoJson property-based style", render order
  1000 and technique "fill";
- rule `i` is painted with the base colour scaled by `(i + 1) / 2 / length + 0.5`.

`heatmap.dfy` (module `GeoJsonHeatmapExample`) models this generator.

- The generator is a method with the source's loop. It pushes one rule per
  iteration and is proved equal to the declarative style set `HeatStyleSet`.
- The thresholds are the caller's array. The method has no `modifies` clause,
  so Dafny guarantees that it leaves them unchanged.
- The `when` condition is kept as a `When` datatype rather than a string.
  `Holds` gives its meaning for a feature.
- The three.js colour pipeline (parse, `multiplyScalar`, `getHexString`) is a
  function parameter `shade` that the model never looks inside.
- The scale factor is an exact `real`.

The generator does no input validation, and the model adds none. Empty
thresholds give an empty style set. Unordered thresholds and an empty property
name are used as given.

Only the first rule's condition excludes 0: its bucket is `(0, t0]`. Any other
rule's bucket starts at the previous threshold, whatever its sign. When the
thresholds never decrease and the first is at least 0 (`NoBucketOutside`),
0 and negative values match no rule.

The bucket lemmas assume only that the thresholds never decrease and that the
first one is at least 0.

## Model

| member | source | states |
|---|---|---|
| `GeoJsonHeatmapExample.GenerateHeatStyleSet` | @here/harp-examples/src/datasource_geojson_heatmap.ts:134-164 | the loop returns exactly the declarative style set: rule `i` for threshold `i`, in threshold order; the options, thresholds included, are only read |
| `GeoJsonHeatmapExample.ScaleFactor` | @here/harp-examples/src/datasource_geojson_heatmap.ts:143 | the factor `(i + 1) / 2 / length + 0.5` lies in (0.5, 1] and equals 1 exactly for the last rule |
| `GeoJsonHeatmapExample.ScaleFactorIncreasing` | @here/harp-examples/src/datasource_geojson_heatmap.ts:141-143 | the factor rises strictly with the rule index, so with `RuleColor` a later rule is shaded by a strictly larger factor than an earlier one |
| `GeoJsonHeatmapExample.RuleColor` | @here/harp-examples/src/datasource_geojson_heatmap.ts:142-157 | every rule's colour is "#" followed by the base colour shaded by that rule's own factor |
| `GeoJsonHeatmapExample.LastRuleColor` | @here/harp-examples/src/datasource_geojson_heatmap.ts:142-157 | for any non-empty threshold list, including a single threshold, the last rule's colour is the base colour shaded by factor 1 |
| `GeoJsonHeatmapExample.StyleSetLength` | @here/harp-examples/src/datasource_geojson_heatmap.ts:139-141 | one rule per threshold; the style set is empty exactly when the thresholds are |
| `GeoJsonHeatmapExample.RuleBounds` | @here/harp-examples/src/datasource_geojson_heatmap.ts:144-145 | rule `i` ends at threshold `i`; rule 0 starts at 0; every later rule starts where the previous one ends |
| `GeoJsonHeatmapExample.RulesShareFixedFields` | @here/harp-examples/src/datasource_geojson_heatmap.ts:147-155 | every rule has the fixed description, render order 1000, technique "fill", the polygon test and the caller's property name; two rules differ only in bounds and colour |
| `GeoJsonHeatmapExample.RuleCondition` | @here/harp-examples/src/datasource_geojson_heatmap.ts:150-153 | rule `i`'s condition holds of a feature if and only if it is a polygon whose property lies in `(min_i, threshold_i]` |
| `GeoJsonHeatmapExample.BucketsDisjoint` | @here/harp-examples/src/datasource_geojson_heatmap.ts:144-153 | over non-decreasing thresholds no value lies in two buckets |
| `GeoJsonHeatmapExample.BucketCovers` | @here/harp-examples/src/datasource_geojson_heatmap.ts:144-153 | every value in (0, last threshold] lies in a bucket, namely that of the first threshold at or above it |
| `GeoJsonHeatmapExample.NoBucketOutside` | @here/harp-examples/src/datasource_geojson_heatmap.ts:144-153 | over non-decreasing thresholds starting at or above 0, a value at or below 0 or above the last threshold lies in no bucket |
| `GeoJsonHeatmapExample.ExactlyOneRuleMatches` | @here/harp-examples/src/datasource_geojson_heatmap.ts:18-20 | the rules are staggered: a polygon matches some rule if and only if its value lies in (0, last threshold], and it never matches two rules |
| `GeoJsonHeatmapExample.DensityStyleSet` | @here/harp-examples/src/datasource_geojson_heatmap.ts:122-126 | the example's density set has nine rules from (0, 50] to (400, 450]; density 120 matches only the third rule; density 500 matches none |

## Left out

- The `<style>` block added to the page (lines 42-48): a user-interface side effect.
- `initializeBaseMap` (lines 82-119): canvas lookup, camera, copyright overlay, resize listener and a network tile source. All of it is engine configuration and I/O.
- `StaticGeoJsonDataSource` and `StaticDataProvider` (lines 53-77), and the top-level wiring (lines 166-179). They rest on library code (`TileKey.mortonCode`, `super.getTile`), asynchronous promises and a bundled JSON file.
- The three.js colour arithmetic: channel-wise floating-point multiplication, clamping and hex formatting. It is the opaque `shade` parameter, so the model does not say whether a larger factor gives a lighter colour.
- GenerateHeatStyleSet: the factor is computed in exact rational arithmetic, not in JavaScript doubles. Rounding is not modelled.
- The rendering of the thresholds to text inside the `when` string. The condition is kept as structure, so number formatting (exponent notation, for example) is not modelled.
- RuleCondition: the source inserts the property name into the condition text unescaped (`properties.<name>`). `Holds` reads the name as a plain identifier, as "density" is. An empty name, or one holding a space, a dot or an operator, yields text that is not this condition, and the model does not capture that.
- Evaluating a `when` expression belongs to the style engine. `Holds` gives the meaning the condition is written to have. A missing property matches nothing, and property values are assumed numeric.
- Threshold values that are not real numbers (NaN, infinities) are not modelled.
