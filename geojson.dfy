/** The GeoJSON-shaped values the core works on: coordinate arrays, geometries,
    features, feature collections and their `crs` tag. */
module GeoJson {
  import opened Wrappers

  /** A coordinate pair `[number, number]`. */
  datatype XY = XY(x: real, y: real)

  /** A GeoJSON `coordinates` value: a position (an array of numbers, the third
      one an elevation) or an array of such values. */
  datatype Coords = Position(v: seq<real>) | Nested(items: seq<Coords>)

  /** `geometry`: its `type` string and its `coordinates`, which may be absent. */
  datatype Geometry = Geometry(kind: string, coordinates: Option<Coords>)

  datatype Feature = Feature(kind: string, properties: map<string, string>, geometry: Option<Geometry>)

  /** The `crs` member: `{type, properties: {name}}`. */
  datatype CrsTag = CrsTag(kind: string, name: Option<string>)

  datatype FeatureCollection = FeatureCollection(kind: string, features: seq<Feature>, crs: Option<CrsTag>)

  /** What is left of a coordinate value when the numbers are forgotten: the
      length of every array at every level. */
  datatype Shape = Leaf(length: nat) | Branch(items: seq<Shape>)

  function ShapeOf(c: Coords): Shape
  {
    match c
    case Position(v) => Leaf(|v|)
    case Nested(items) => Branch(seq(|items|, i requires 0 <= i < |items| => ShapeOf(items[i])))
  }

  /** `c` nests arrays exactly `depth` levels above its positions: 0 for a
      Point, 1 for a LineString, 2 for a Polygon or MultiLineString, 3 for a
      MultiPolygon. */
  predicate WellNested(c: Coords, depth: nat)
  {
    match c
    case Position(_) => depth == 0
    case Nested(items) => depth > 0 && forall i :: 0 <= i < |items| ==> WellNested(items[i], depth - 1)
  }

  function Flatten<T>(ss: seq<seq<T>>): (r: seq<T>)
  {
    if ss == [] then [] else ss[0] + Flatten(ss[1..])
  }

  /** The positions of a coordinate value, left to right. */
  function Leaves(c: Coords): seq<seq<real>>
  {
    match c
    case Position(v) => [v]
    case Nested(items) => Flatten(seq(|items|, i requires 0 <= i < |items| => Leaves(items[i])))
  }
}
