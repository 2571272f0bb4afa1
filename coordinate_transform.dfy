/** The module-level state of `coordinateTransform.ts` (the `epsgCache`
    dictionary) and the operations that read and write it, each proved to do
    what the matching function of module Projection describes. */
module CoordinateTransform {
  import opened Wrappers
  import opened Text
  import opened GeoJson
  import opened Projection

  class Transformer {
    /** `epsgCache`: EPSG code to projection definition. */
    var epsgCache: map<string, string>

    constructor ()
      ensures epsgCache == map[]
    {
      epsgCache := map[];
    }

    /** `fetchEPSGDefinition`. */
    method FetchDefinition(code: string, net: Network) returns (def: Option<string>)
      modifies this
      ensures Resolution(def, epsgCache) == FetchStep(old(epsgCache), code, net)
    {
      match net(code)
      case None =>
        def := None;
      case Some(text) =>
        epsgCache := epsgCache[code := Trim(text)];
        def := Some(Trim(text));
    }

    /** `getProjectionDefinition`. */
    method ResolveDefinition(code: string, net: Network) returns (def: Option<string>)
      modifies this
      ensures Resolution(def, epsgCache) == ResolveStep(old(epsgCache), code, net)
      // the cache only grows, and a found definition is what it now holds
      ensures old(epsgCache).Keys <= epsgCache.Keys
      ensures def.Some? ==> code in epsgCache && epsgCache[code] == def.value
    {
      if code in epsgCache && epsgCache[code] != "" {
        def := Some(epsgCache[code]);
        return;
      }
      if code in CommonProjections && CommonProjections[code] != "" {
        epsgCache := epsgCache[code := CommonProjections[code]];
        def := Some(CommonProjections[code]);
        return;
      }
      def := FetchDefinition(code, net);
    }

    /** `transformCoordinate`: never fails; every failure ends in the fallback. */
    method TransformCoordinate(c: XY, from: string, to: string, o: Oracles) returns (r: XY)
      modifies this
      ensures r == TransformStep(old(epsgCache), c, from, to, o).xy
      ensures epsgCache == TransformCache(old(epsgCache), from, to, o.net)
    {
      var fromDef := ResolveDefinition(from, o.net);
      var toDef: Option<string>;
      if to == Wgs84Code {
        toDef := Some(Wgs84Definition);
      } else {
        toDef := ResolveDefinition(to, o.net);
      }
      if !Truthy(fromDef) {
        r := Fallback(c, o.secant);
        return;
      }
      if !Truthy(toDef) && to != Wgs84Code {
        r := Fallback(c, o.secant);
        return;
      }
      match o.project(fromDef.value, if Truthy(toDef) then toDef.value else Wgs84Definition, c)
      case None =>
        r := Fallback(c, o.secant);
      case Some(p) =>
        r := p;
    }

    /** `transformPoint` inside `transformGeometry`: a position with fewer
        than two numbers is kept as it is. */
    method TransformPoint(v: seq<real>, from: string, to: string, o: Oracles) returns (r: seq<real>)
      modifies this
      ensures r == TransformPosition(v, PointMap(old(epsgCache), from, to, o))
      ensures WarmedFrom(epsgCache, old(epsgCache), from, to, o.net)
    {
      if |v| < 2 {
        r := v;
      } else {
        r := TransformPair(v, from, to, o);
      }
    }

    /** A position with an x and a y: both come from one coordinate transform,
        any further numbers are copied. */
    method TransformPair(v: seq<real>, from: string, to: string, o: Oracles) returns (r: seq<real>)
      requires |v| >= 2
      modifies this
      ensures r == TransformPosition(v, PointMap(old(epsgCache), from, to, o))
      ensures epsgCache == TransformCache(old(epsgCache), from, to, o.net)
    {
      ghost var start := epsgCache;
      var p := TransformCoordinate(XY(v[0], v[1]), from, to, o);
      TransformPositionOfPair(v, start, from, to, o);
      r := [p.x, p.y] + v[2..];
    }

    /** The nested `map`s of `transformGeometry`, run one coordinate after the
        other: the result is the geometry map with the per-coordinate map of
        the starting cache. */
    method TransformNested(c: Coords, depth: nat, from: string, to: string, o: Oracles) returns (out: Coords)
      modifies this
      ensures out == MapAtDepth(c, depth, PointMap(old(epsgCache), from, to, o))
      ensures WarmedFrom(epsgCache, old(epsgCache), from, to, o.net)
      decreases c, 0
    {
      ghost var start := epsgCache;
      match c
      case Position(v) =>
        if depth == 0 {
          var w := TransformPoint(v, from, to, o);
          out := Position(w);
        } else {
          out := c;
        }
      case Nested(items) =>
        if depth == 0 {
          out := c;
          return;
        }
        var acc: seq<Coords> := [];
        var i := 0;
        while i < |items|
          invariant 0 <= i <= |items| && |acc| == i
          invariant forall k :: 0 <= k < i ==> acc[k] == MapAtDepth(items[k], depth - 1, PointMap(start, from, to, o))
          invariant WarmedFrom(epsgCache, start, from, to, o.net)
        {
          var item := TransformChild(items[i], depth - 1, start, from, to, o);
          acc := acc + [item];
          i := i + 1;
        }
        out := Nested(acc);
    }

    /** One element of a nested `map`, transformed part way through the
        geometry: it comes out as if the cache were still the starting one. */
    method TransformChild(c: Coords, depth: nat, ghost start: map<string, string>, from: string, to: string, o: Oracles)
      returns (out: Coords)
      requires WarmedFrom(epsgCache, start, from, to, o.net)
      modifies this
      ensures out == MapAtDepth(c, depth, PointMap(start, from, to, o))
      ensures WarmedFrom(epsgCache, start, from, to, o.net)
      decreases c, 1
    {
      ghost var before := epsgCache;
      WarmedStable(before, start, from, to, o);
      out := TransformNested(c, depth, from, to, o);
      MapAtDepthCongruent(c, depth, PointMap(before, from, to, o), PointMap(start, from, to, o));
      if epsgCache != before {
        assert epsgCache == TransformCache(before, from, to, o.net);
      }
    }

    /** `transformGeometry`: dispatch on the geometry type; other types are
        returned untouched and leave the cache as it is. */
    method TransformGeometry(c: Coords, kind: string, from: string, to: string, o: Oracles) returns (out: Coords)
      modifies this
      ensures out == TransformedGeometry(c, kind, PointMap(old(epsgCache), from, to, o))
      ensures WarmedFrom(epsgCache, old(epsgCache), from, to, o.net)
      ensures GeometryDepth(kind).None? ==> epsgCache == old(epsgCache)
    {
      match GeometryDepth(kind)
      case None =>
        out := c;
      case Some(d) =>
        out := TransformNested(c, d, from, to, o);
    }
  }
}
