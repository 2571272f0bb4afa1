/** The value-level specification of `coordinateTransform.ts`: the EPSG
    definition lookup (cache, static table, external lookup), the range-based
    fallback, the per-coordinate transform with its fallback, and the
    shape-preserving geometry map. The class in module CoordinateTransform
    executes these steps on a cache it owns. */
module Projection {
  import opened Wrappers
  import opened Text
  import opened GeoJson

  const Wgs84Code := "4326"
  const Wgs84Definition := "+proj=longlat +datum=WGS84 +no_defs"

  /** `commonProjections`: the static table of well-known definitions. */
  const CommonProjections: map<string, string> := map[
    "3857" := "+proj=merc +a=6378137 +b=6378137 +lat_ts=0.0 +lon_0=0.0 +x_0=0.0 +y_0=0 +k=1.0 +units=m +nadgrids=@null +wktext +no_defs",
    "4326" := Wgs84Definition,
    "26914" := "+proj=utm +zone=14 +datum=NAD83 +units=m +no_defs",
    "26915" := "+proj=utm +zone=15 +datum=NAD83 +units=m +no_defs",
    "26916" := "+proj=utm +zone=16 +datum=NAD83 +units=m +no_defs",
    "26917" := "+proj=utm +zone=17 +datum=NAD83 +units=m +no_defs",
    "32614" := "+proj=utm +zone=14 +datum=WGS84 +units=m +no_defs",
    "32615" := "+proj=utm +zone=15 +datum=WGS84 +units=m +no_defs",
    "32616" := "+proj=utm +zone=16 +datum=WGS84 +units=m +no_defs",
    "32617" := "+proj=utm +zone=17 +datum=WGS84 +units=m +no_defs",
    "6346" := "+proj=utm +zone=17 +ellps=GRS80 +towgs84=0,0,0,0,0,0,0 +units=m +no_defs"
  ]

  /** The external lookup service: the response text for a code, or None when
      the request fails or the status is not ok. */
  type Network = string -> Option<string>

  /** `proj4(from, to, coord)`: None when the library throws. */
  type Projector = (string, string, XY) -> Option<XY>

  /** Everything the core consults but does not compute itself. `secant(y)`
      stands for `1 / Math.cos(Math.PI * y / 20003931.46)`. */
  datatype Oracles = Oracles(net: Network, project: Projector, secant: real -> real)

  /** JavaScript truthiness of a `string | null`. */
  predicate Truthy(s: Option<string>)
  {
    s.Some? && s.value != ""
  }

  /** `epsgCache[code]`, None when the key is absent. */
  function Lookup(cache: map<string, string>, code: string): Option<string>
  {
    if code in cache then Some(cache[code]) else None
  }

  /** A lookup's answer and the cache it leaves behind. */
  datatype Resolution = Resolution(definition: Option<string>, cache: map<string, string>)

  /** `fetchEPSGDefinition`: on success the trimmed text is cached and
      returned; on failure nothing changes. */
  function FetchStep(cache: map<string, string>, code: string, net: Network): (r: Resolution)
    ensures r.definition.None? <==> net(code).None?
    ensures net(code).Some? ==> r.definition == Some(Trim(net(code).value))
    ensures r.definition.None? ==> r.cache == cache
    ensures r.definition.Some? ==> r.cache == cache[code := r.definition.value]
  {
    match net(code)
    case None => Resolution(None, cache)
    case Some(text) => Resolution(Some(Trim(text)), cache[code := Trim(text)])
  }

  /** What the lookup service answered is stored and returned trimmed: it has
      no white space left at either end. */
  lemma FetchTrimmed(cache: map<string, string>, code: string, net: Network)
    requires net(code).Some?
    ensures var d := FetchStep(cache, code, net).definition.value;
            Trim(d) == d && (d == [] || (!IsWhitespace(d[0]) && !IsWhitespace(d[|d| - 1])))
  {
    var d := Trim(net(code).value);
    assert FetchStep(cache, code, net).definition == Some(d);
    TrimIdempotent(net(code).value);
  }

  /** `getProjectionDefinition`: a truthy cache entry, else the static table
      (written into the cache), else the external lookup. */
  function ResolveStep(cache: map<string, string>, code: string, net: Network): (r: Resolution)
    // what is returned is what the cache now holds, unless nothing was found
    ensures r.definition.Some? ==> Lookup(r.cache, code) == r.definition
    ensures r.definition.None? ==> r.cache == cache
    // the three sources, in order: the cache, the static table, the lookup service
    ensures Truthy(Lookup(cache, code)) ==> r.definition == Lookup(cache, code)
    ensures !Truthy(Lookup(cache, code)) && code in CommonProjections ==> r.definition == Some(CommonProjections[code])
    ensures !Truthy(Lookup(cache, code)) && code !in CommonProjections ==> r == FetchStep(cache, code, net)
  {
    if Truthy(Lookup(cache, code)) then Resolution(Lookup(cache, code), cache)
    else if code in CommonProjections && CommonProjections[code] != "" then
      Resolution(Some(CommonProjections[code]), cache[code := CommonProjections[code]])
    else FetchStep(cache, code, net)
  }

  /** Entries are only added: only the entry for the looked-up code can
      change, no key is dropped, and a truthy entry is never overwritten. */
  lemma ResolveFrame(cache: map<string, string>, code: string, net: Network)
    ensures var r := ResolveStep(cache, code, net);
            && cache.Keys <= r.cache.Keys <= cache.Keys + {code}
            && (forall k :: k in cache && k != code ==> r.cache[k] == cache[k])
            && (Truthy(Lookup(cache, code)) ==> r == Resolution(Lookup(cache, code), cache))
  {
  }

  /** A lookup finds nothing exactly when the code has no truthy cache entry,
      is not in the static table and the external lookup fails. */
  lemma ResolveNotFound(cache: map<string, string>, code: string, net: Network)
    ensures ResolveStep(cache, code, net).definition.None? <==>
              !Truthy(Lookup(cache, code)) && code !in CommonProjections && net(code).None?
  {
  }

  /** Every definition in the static table is truthy, so a static hit always
      counts as found. */
  lemma CommonProjectionsTruthy(code: string)
    requires code in CommonProjections
    ensures CommonProjections[code] != ""
  {
  }

  /** A cache hit and a static-table hit never consult the external lookup: the
      answer and the new cache are the same whatever the network would say. */
  lemma ResolveHitIgnoresNetwork(cache: map<string, string>, code: string, net1: Network, net2: Network)
    requires Truthy(Lookup(cache, code)) || code in CommonProjections
    ensures ResolveStep(cache, code, net1) == ResolveStep(cache, code, net2)
  {
    if !Truthy(Lookup(cache, code)) {
      CommonProjectionsTruthy(code);
    }
  }

  /** After a lookup that found a non-empty definition, looking the same code
      up again returns the same definition, keeps the cache as it is and does
      not depend on the network. */
  lemma ResolveTwice(cache: map<string, string>, code: string, net1: Network, net2: Network)
    requires Truthy(ResolveStep(cache, code, net1).definition)
    ensures var first := ResolveStep(cache, code, net1);
            ResolveStep(first.cache, code, net2) == first
  {
  }

  /** The exception to ResolveTwice: a lookup service answer that trims to the
      empty string is cached, but an empty entry is not a cache hit, so the
      next lookup of that code asks the service again. */
  lemma EmptyFetchIsRefetched(cache: map<string, string>, code: string, net1: Network, net2: Network)
    requires !Truthy(Lookup(cache, code)) && code !in CommonProjections
    requires net1(code).Some? && Trim(net1(code).value) == ""
    ensures ResolveStep(cache, code, net1) == Resolution(Some(""), cache[code := ""])
    ensures ResolveStep(cache[code := ""], code, net2) == FetchStep(cache[code := ""], code, net2)
  {
  }

  /** A code is settled in a cache when looking it up changes nothing. */
  predicate Settled(cache: map<string, string>, code: string, net: Network)
  {
    ResolveStep(cache, code, net).cache == cache
  }

  /** One lookup settles its code, and a second lookup gives the same answer
      as the first (with the network unchanged). */
  lemma ResolveSettles(cache: map<string, string>, code: string, net: Network)
    ensures Settled(ResolveStep(cache, code, net).cache, code, net)
    ensures ResolveStep(ResolveStep(cache, code, net).cache, code, net).definition
            == ResolveStep(cache, code, net).definition
  {
    var first := ResolveStep(cache, code, net);
    if Truthy(Lookup(cache, code)) {
      assert first == Resolution(Lookup(cache, code), cache);
    } else if code in CommonProjections {
      var v := CommonProjections[code];
      assert first.cache == cache[code := v];
      assert Lookup(first.cache, code) == Some(v);
    } else if net(code).Some? {
      var v := Trim(net(code).value);
      assert first == Resolution(Some(v), cache[code := v]);
      assert first.cache[code := v] == first.cache;
    } else {
      assert first == Resolution(None, cache);
    }
  }

  /** A lookup depends on the cache only through the entry for its own code. */
  lemma ResolveLocal(c1: map<string, string>, c2: map<string, string>, code: string, net: Network)
    requires Lookup(c1, code) == Lookup(c2, code)
    ensures ResolveStep(c1, code, net).definition == ResolveStep(c2, code, net).definition
    ensures Settled(c1, code, net) <==> Settled(c2, code, net)
  {
    if !Truthy(Lookup(c1, code)) && code !in CommonProjections && net(code).Some? {
      var v := Trim(net(code).value);
      assert ResolveStep(c1, code, net).cache == c1[code := v];
      assert ResolveStep(c2, code, net).cache == c2[code := v];
      assert c1[code := v] == c1 <==> Lookup(c1, code) == Some(v);
      assert c2[code := v] == c2 <==> Lookup(c2, code) == Some(v);
    } else if !Truthy(Lookup(c1, code)) && code in CommonProjections {
      var v := CommonProjections[code];
      assert c1[code := v] == c1 <==> Lookup(c1, code) == Some(v);
      assert c2[code := v] == c2 <==> Lookup(c2, code) == Some(v);
    }
  }

  /** Looking up another code leaves a settled code settled, with the same
      answer. */
  lemma ResolveKeepsSettled(cache: map<string, string>, code: string, other: string, net: Network)
    requires Settled(cache, code, net)
    ensures Settled(ResolveStep(cache, other, net).cache, code, net)
    ensures ResolveStep(ResolveStep(cache, other, net).cache, code, net).definition
            == ResolveStep(cache, code, net).definition
  {
    var c1 := ResolveStep(cache, other, net).cache;
    if other != code {
      ResolveFrame(cache, other, net);
      assert Lookup(c1, code) == Lookup(cache, code);
      ResolveLocal(c1, cache, code, net);
    }
  }

  function Abs(x: real): (r: real)
    ensures r >= 0.0 && (r == x || r == -x)
  {
    if x < 0.0 then -x else x
  }

  /** Already a plausible longitude/latitude pair. */
  predicate IsGeographic(c: XY)
  {
    Abs(c.x) <= 180.0 && Abs(c.y) <= 90.0
  }

  /** The UTM zone the fallback guesses from an easting. */
  function UtmZone(x: real): int
  {
    ((x - 166021.44) / 1000000.0).Floor + 31
  }

  function CentralMeridian(zone: int): int
  {
    (zone - 1) * 6 - 180 + 3
  }

  /** The flat-earth UTM inverse of the fallback; the trigonometric factor is
      the oracle `secant`. */
  function UtmApproximation(c: XY, secant: real -> real): (r: XY)
    ensures r.y * 111320.0 == c.y
  {
    XY(CentralMeridian(UtmZone(c.x)) as real + (c.x - 500000.0) / 111320.0 * secant(c.y), c.y / 111320.0)
  }

  /** The regional linear approximation around easting 500000, northing 5000000. */
  function RegionalApproximation(c: XY): (r: XY)
    ensures 500000.0 + (r.x + 95.0) * 111320.0 == c.x
    ensures 5000000.0 + (r.y - 45.0) * 111320.0 == c.y
  {
    XY(-95.0 + (c.x - 500000.0) / 111320.0, 45.0 + (c.y - 5000000.0) / 111320.0)
  }

  /** `fallbackTransformation`: geographic input as is, then the UTM guess,
      then the regional guess, else the input as is. */
  function Fallback(c: XY, secant: real -> real): (r: XY)
    ensures IsGeographic(c) ==> r == c
  {
    if IsGeographic(c) then c
    else if c.x > 100000.0 && c.y > 1000000.0 then UtmApproximation(c, secant)
    else if c.x > 100000.0 && c.y > 100000.0 then RegionalApproximation(c)
    else c
  }

  /** The fallback returns its input unchanged exactly when neither guess
      applies; otherwise the UTM guess takes precedence over the regional one. */
  lemma FallbackCases(c: XY, secant: real -> real)
    ensures Fallback(c, secant) == c <==> !(c.x > 100000.0 && c.y > 100000.0)
    ensures c.x > 100000.0 && c.y > 1000000.0 ==> Fallback(c, secant) == UtmApproximation(c, secant)
    ensures c.x > 100000.0 && 100000.0 < c.y <= 1000000.0 ==> Fallback(c, secant) == RegionalApproximation(c)
  {
    if c.x > 100000.0 && c.y > 1000000.0 {
      assert UtmApproximation(c, secant).y != c.y;
    } else if c.x > 100000.0 && c.y > 100000.0 {
      assert RegionalApproximation(c).x != c.x;
    }
  }

  /** The regional guess always yields a latitude between 0 and 10 degrees. */
  lemma RegionalLatitudeBounds(c: XY, secant: real -> real)
    requires c.x > 100000.0 && 100000.0 < c.y <= 1000000.0
    ensures 0.0 < Fallback(c, secant).y < 10.0
  {
  }

  /** Every easting from 166021.44 up to (not including) 1166021.44 is guessed
      to lie in zone 31, whose central meridian is 3 degrees east. */
  lemma UtmGuessIsZone31(x: real)
    requires 166021.44 <= x < 1166021.44
    ensures UtmZone(x) == 31 && CentralMeridian(UtmZone(x)) == 3
  {
    assert 0.0 <= (x - 166021.44) / 1000000.0 < 1.0;
  }

  /** One call of `transformCoordinate`: the result and the cache afterwards. */
  datatype Outcome = Outcome(xy: XY, cache: map<string, string>)

  /** The definition `transformCoordinate` uses for its target: 4326 is
      answered without a lookup. */
  function TargetResolution(afterFrom: map<string, string>, to: string, net: Network): Resolution
  {
    if to == Wgs84Code then Resolution(Some(Wgs84Definition), afterFrom) else ResolveStep(afterFrom, to, net)
  }

  /** The cache effect of `transformCoordinate`: the source code is looked
      up, and the target code too unless it is 4326. */
  function TransformCache(cache: map<string, string>, from: string, to: string, net: Network): map<string, string>
  {
    TargetResolution(ResolveStep(cache, from, net).cache, to, net).cache
  }

  /** The body of the `try` once both lookups are done: fall back when a
      definition is missing or the projection library throws. */
  function ProjectOrFallback(fromDef: Option<string>, toDef: Option<string>, c: XY, to: string, o: Oracles): (r: XY)
    ensures !Truthy(fromDef) ==> r == Fallback(c, o.secant)
    ensures to != Wgs84Code && !Truthy(toDef) ==> r == Fallback(c, o.secant)
    // anything but the fallback is exactly what the projection library returned
    ensures r != Fallback(c, o.secant) ==>
              Truthy(fromDef) && (Truthy(toDef) || to == Wgs84Code)
              && o.project(fromDef.value, if Truthy(toDef) then toDef.value else Wgs84Definition, c) == Some(r)
    // with both definitions at hand, the library's answer, or the fallback when it throws
    ensures Truthy(fromDef) && (Truthy(toDef) || to == Wgs84Code) ==>
              r == match o.project(fromDef.value, if Truthy(toDef) then toDef.value else Wgs84Definition, c)
                   case None => Fallback(c, o.secant)
                   case Some(p) => p
  {
    if !Truthy(fromDef) then Fallback(c, o.secant)
    else if !Truthy(toDef) && to != Wgs84Code then Fallback(c, o.secant)
    else
      match o.project(fromDef.value, if Truthy(toDef) then toDef.value else Wgs84Definition, c)
      case None => Fallback(c, o.secant)
      case Some(p) => p
  }

  /** `transformCoordinate`: resolve both definitions, project, and fall back
      on every failure. */
  function TransformStep(cache: map<string, string>, c: XY, from: string, to: string, o: Oracles): Outcome
  {
    var f := ResolveStep(cache, from, o.net);
    var t := TargetResolution(f.cache, to, o.net);
    Outcome(ProjectOrFallback(f.definition, t.definition, c, to, o), t.cache)
  }

  /** The target 4326 is never looked up; a missing source or target
      definition gives exactly the fallback; anything but the fallback is
      what the projection library returned for the two definitions. */
  lemma TransformFallsBack(cache: map<string, string>, c: XY, from: string, to: string, o: Oracles)
    ensures to == Wgs84Code ==> TransformStep(cache, c, from, to, o).cache == ResolveStep(cache, from, o.net).cache
    ensures !Truthy(ResolveStep(cache, from, o.net).definition) ==>
              TransformStep(cache, c, from, to, o).xy == Fallback(c, o.secant)
    ensures to != Wgs84Code && !Truthy(ResolveStep(ResolveStep(cache, from, o.net).cache, to, o.net).definition) ==>
              TransformStep(cache, c, from, to, o).xy == Fallback(c, o.secant)
    ensures var fd := ResolveStep(cache, from, o.net).definition;
            var td := TargetResolution(ResolveStep(cache, from, o.net).cache, to, o.net).definition;
            var r := TransformStep(cache, c, from, to, o).xy;
            r != Fallback(c, o.secant) ==> Truthy(fd) && Truthy(td) && o.project(fd.value, td.value, c) == Some(r)
    ensures var fd := ResolveStep(cache, from, o.net).definition;
            var td := TargetResolution(ResolveStep(cache, from, o.net).cache, to, o.net).definition;
            var r := TransformStep(cache, c, from, to, o).xy;
            Truthy(fd) && Truthy(td) ==>
              r == match o.project(fd.value, td.value, c)
                   case None => Fallback(c, o.secant)
                   case Some(p) => p
  {
  }

  /** A coordinate transform only adds entries, for the source and target
      codes, and keeps every other entry as it was. */
  lemma TransformFrame(cache: map<string, string>, c: XY, from: string, to: string, o: Oracles)
    ensures var r := TransformStep(cache, c, from, to, o).cache;
            && cache.Keys <= r.Keys <= cache.Keys + {from, to}
            && forall k :: k in cache && k != from && k != to ==> r[k] == cache[k]
  {
    var f := ResolveStep(cache, from, o.net);
    ResolveFrame(cache, from, o.net);
    if to != Wgs84Code {
      ResolveFrame(f.cache, to, o.net);
    }
  }

  /** The per-coordinate map one geometry transform applies when it starts
      from `cache`. */
  function PointMap(cache: map<string, string>, from: string, to: string, o: Oracles): XY -> XY
  {
    c => TransformStep(cache, c, from, to, o).xy
  }

  /** After one transform both codes are settled and their lookups give the
      answers the first transform used. */
  lemma TransformSettlesLookups(cache: map<string, string>, from: string, to: string, net: Network)
    ensures var f := ResolveStep(cache, from, net);
            var t := TargetResolution(f.cache, to, net);
            var f2 := ResolveStep(t.cache, from, net);
            var t2 := TargetResolution(f2.cache, to, net);
            f2 == Resolution(f.definition, t.cache) && t2 == t
  {
    var f := ResolveStep(cache, from, net);
    ResolveSettles(cache, from, net);
    if to != Wgs84Code {
      ResolveKeepsSettled(f.cache, from, to, net);
      ResolveSettles(f.cache, to, net);
    }
  }

  /** Transforming once settles the cache: transforming again leaves the cache
      as it is and maps every coordinate as the first transform would have. */
  lemma TransformSettles(cache: map<string, string>, from: string, to: string, o: Oracles, c: XY)
    ensures var warm := TransformCache(cache, from, to, o.net);
            && TransformCache(warm, from, to, o.net) == warm
            && TransformStep(warm, c, from, to, o).xy == TransformStep(cache, c, from, to, o).xy
  {
    var f := ResolveStep(cache, from, o.net);
    var t := TargetResolution(f.cache, to, o.net);
    TransformSettlesLookups(cache, from, to, o.net);
    var f2 := ResolveStep(t.cache, from, o.net);
    var t2 := TargetResolution(f2.cache, to, o.net);
    assert TransformStep(cache, c, from, to, o) == Outcome(ProjectOrFallback(f.definition, t.definition, c, to, o), t.cache);
    assert TransformStep(t.cache, c, from, to, o) == Outcome(ProjectOrFallback(f2.definition, t2.definition, c, to, o), t2.cache);
  }

  /** The caches a geometry transform can pass through when it starts from
      `start`: the start itself, or the cache one coordinate transform leaves. */
  predicate WarmedFrom(cur: map<string, string>, start: map<string, string>, from: string, to: string, net: Network)
  {
    cur == start || cur == TransformCache(start, from, to, net)
  }

  /** A warmed cache differs from the start only in the entries for the
      source and target codes; no key is ever dropped. */
  lemma WarmedFrame(cur: map<string, string>, start: map<string, string>, from: string, to: string, net: Network)
    requires WarmedFrom(cur, start, from, to, net)
    ensures start.Keys <= cur.Keys <= start.Keys + {from, to}
    ensures forall k :: k in start && k != from && k != to ==> cur[k] == start[k]
  {
    if cur != start {
      ResolveFrame(start, from, net);
      if to != Wgs84Code {
        ResolveFrame(ResolveStep(start, from, net).cache, to, net);
      }
    }
  }

  /** Along a geometry transform every coordinate is mapped as it would be from
      the starting cache, and the cache stays among the two possible ones. */
  lemma WarmedStable(cur: map<string, string>, start: map<string, string>, from: string, to: string, o: Oracles)
    requires WarmedFrom(cur, start, from, to, o.net)
    ensures WarmedFrom(TransformCache(cur, from, to, o.net), start, from, to, o.net)
    ensures forall p :: TransformStep(cur, p, from, to, o).xy == TransformStep(start, p, from, to, o).xy
  {
    forall p ensures TransformStep(cur, p, from, to, o).xy == TransformStep(start, p, from, to, o).xy
                     && TransformCache(TransformCache(start, from, to, o.net), from, to, o.net)
                        == TransformCache(start, from, to, o.net)
    {
      TransformSettles(start, from, to, o, p);
    }
    TransformSettles(start, from, to, o, XY(0.0, 0.0));
  }

  /** `geometryType` to the number of array levels above the positions, for
      the five types the source transforms. */
  function GeometryDepth(kind: string): (r: Option<nat>)
    ensures r.Some? <==> kind in {"Point", "LineString", "MultiLineString", "Polygon", "MultiPolygon"}
  {
    if kind == "Point" then Some(0)
    else if kind == "LineString" then Some(1)
    else if kind == "MultiLineString" || kind == "Polygon" then Some(2)
    else if kind == "MultiPolygon" then Some(3)
    else None
  }

  /** `transformPoint`: a position with fewer than two numbers is kept; else
      x and y are transformed and every further number (elevation) is copied. */
  function TransformPosition(v: seq<real>, pt: XY -> XY): (r: seq<real>)
    ensures |r| == |v|
    ensures |v| < 2 ==> r == v
    ensures |v| >= 2 ==> r[0] == pt(XY(v[0], v[1])).x && r[1] == pt(XY(v[0], v[1])).y && r[2..] == v[2..]
  {
    if |v| < 2 then v else [pt(XY(v[0], v[1])).x, pt(XY(v[0], v[1])).y] + v[2..]
  }

  /** A position of at least two numbers under the per-coordinate map of a
      cache: x and y from one coordinate transform, the rest copied. */
  lemma TransformPositionOfPair(v: seq<real>, cache: map<string, string>, from: string, to: string, o: Oracles)
    requires |v| >= 2
    ensures var p := TransformStep(cache, XY(v[0], v[1]), from, to, o).xy;
            TransformPosition(v, PointMap(cache, from, to, o)) == [p.x, p.y] + v[2..]
  {
  }

  function TransformPositions(vs: seq<seq<real>>, pt: XY -> XY): (r: seq<seq<real>>)
  {
    seq(|vs|, k requires 0 <= k < |vs| => TransformPosition(vs[k], pt))
  }

  /** Maps every position found `depth` levels down; a value whose nesting
      does not match is returned unchanged. */
  function MapAtDepth(c: Coords, depth: nat, pt: XY -> XY): (r: Coords)
    ensures ShapeOf(r) == ShapeOf(c)
    decreases c
  {
    match c
    case Position(v) => if depth == 0 then Position(TransformPosition(v, pt)) else c
    case Nested(items) =>
      if depth == 0 then c
      else
        var out := seq(|items|, i requires 0 <= i < |items| => MapAtDepth(items[i], depth - 1, pt));
        assert forall i :: 0 <= i < |items| ==> ShapeOf(out[i]) == ShapeOf(items[i]);
        assert seq(|out|, i requires 0 <= i < |out| => ShapeOf(out[i]))
               == seq(|items|, i requires 0 <= i < |items| => ShapeOf(items[i]));
        Nested(out)
  }

  /** `transformGeometry` with the per-coordinate map `pt`. */
  function TransformedGeometry(c: Coords, kind: string, pt: XY -> XY): (r: Coords)
    ensures ShapeOf(r) == ShapeOf(c)
    ensures GeometryDepth(kind).None? ==> r == c
  {
    match GeometryDepth(kind)
    case None => c
    case Some(d) => MapAtDepth(c, d, pt)
  }

  lemma {:induction false} FlattenTransform(ss: seq<seq<seq<real>>>, pt: XY -> XY)
    ensures Flatten(seq(|ss|, i requires 0 <= i < |ss| => TransformPositions(ss[i], pt)))
            == TransformPositions(Flatten(ss), pt)
  {
    if ss != [] {
      var mapped := seq(|ss|, i requires 0 <= i < |ss| => TransformPositions(ss[i], pt));
      FlattenTransform(ss[1..], pt);
      assert mapped[1..] == seq(|ss[1..]|, i requires 0 <= i < |ss[1..]| => TransformPositions(ss[1..][i], pt));
      assert TransformPositions(ss[0] + Flatten(ss[1..]), pt)
             == TransformPositions(ss[0], pt) + TransformPositions(Flatten(ss[1..]), pt);
    }
  }

  /** On well-nested coordinates the positions of the result are the input's
      positions, in the same order, each passed through TransformPosition. */
  lemma {:induction false} MapAtDepthLeaves(c: Coords, depth: nat, pt: XY -> XY)
    requires WellNested(c, depth)
    ensures Leaves(MapAtDepth(c, depth, pt)) == TransformPositions(Leaves(c), pt)
    decreases c
  {
    match c
    case Position(v) =>
    case Nested(items) =>
      var out := seq(|items|, i requires 0 <= i < |items| => MapAtDepth(items[i], depth - 1, pt));
      var ls := seq(|items|, i requires 0 <= i < |items| => Leaves(items[i]));
      forall i | 0 <= i < |items|
        ensures Leaves(out[i]) == TransformPositions(ls[i], pt)
      {
        MapAtDepthLeaves(items[i], depth - 1, pt);
      }
      assert seq(|out|, i requires 0 <= i < |out| => Leaves(out[i]))
             == seq(|ls|, i requires 0 <= i < |ls| => TransformPositions(ls[i], pt));
      FlattenTransform(ls, pt);
  }

  /** For the five geometry types, and coordinates nested as the type says,
      only the positions change and each one goes through the per-coordinate
      map, keeping any elevation. */
  lemma TransformedGeometryLeaves(c: Coords, kind: string, pt: XY -> XY)
    requires GeometryDepth(kind).Some? && WellNested(c, GeometryDepth(kind).value)
    ensures Leaves(TransformedGeometry(c, kind, pt)) == TransformPositions(Leaves(c), pt)
  {
    MapAtDepthLeaves(c, GeometryDepth(kind).value, pt);
  }

  /** The geometry map depends on the per-coordinate map only through its
      values. */
  lemma {:induction false} MapAtDepthCongruent(c: Coords, depth: nat, f: XY -> XY, g: XY -> XY)
    requires forall p :: f(p) == g(p)
    ensures MapAtDepth(c, depth, f) == MapAtDepth(c, depth, g)
    decreases c
  {
    match c
    case Position(v) =>
    case Nested(items) =>
      if depth > 0 {
        forall i | 0 <= i < |items|
          ensures MapAtDepth(items[i], depth - 1, f) == MapAtDepth(items[i], depth - 1, g)
        {
          MapAtDepthCongruent(items[i], depth - 1, f, g);
        }
      }
  }

  lemma TransformedGeometryCongruent(c: Coords, kind: string, f: XY -> XY, g: XY -> XY)
    requires forall p :: f(p) == g(p)
    ensures TransformedGeometry(c, kind, f) == TransformedGeometry(c, kind, g)
  {
    if GeometryDepth(kind).Some? {
      MapAtDepthCongruent(c, GeometryDepth(kind).value, f, g);
    }
  }
}
