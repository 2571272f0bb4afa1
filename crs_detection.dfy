/** The two ways `coordinateTransform.ts` identifies a source CRS: reading the
    EPSG code out of a collection's `crs` tag, and guessing it from the first
    sample coordinate. */
module CrsDetection {
  import opened Wrappers
  import opened Text
  import opened GeoJson
  import opened Projection

  const DoubleColon := "EPSG::"
  const SingleColon := "EPSG:"
  const UrnPrefix := "urn:ogc:def:crs:EPSG::"

  /** `extractEPSGCode`: for a tag of type "name" with a non-empty name, the
      text after the first marker found, trying "EPSG::", then "EPSG:", then
      the URN prefix. */
  function ExtractEpsgCode(crs: Option<CrsTag>): (r: Option<string>)
    ensures r.Some? ==> crs.Some? && crs.value.kind == "name" && Truthy(crs.value.name)
    // a marker is always cut off, so the code is shorter than the name
    ensures r.Some? ==> |r.value| < |crs.value.name.value|
  {
    match crs
    case None => None
    case Some(tag) =>
      if tag.kind == "name" && Truthy(tag.name) then
        var name := tag.name.value;
        if Contains(name, DoubleColon) then Some(SplitSecond(name, DoubleColon))
        else if Contains(name, SingleColon) then Some(SplitSecond(name, SingleColon))
        else if Contains(name, UrnPrefix) then Some(SplitSecond(name, UrnPrefix))
        else None
      else None
  }

  /** A name containing a marker contains every piece of that marker. */
  lemma ContainsPartOfMarker(name: string, long: string, short: string, k: nat)
    requires k + |short| <= |long| && long[k..k + |short|] == short
    requires Contains(name, long)
    ensures Contains(name, short)
  {
    var i := IndexOf(name, long).value;
    assert OccursAt(name, long, i);
    forall j | 0 <= j < |short| ensures name[i + k..i + k + |short|][j] == short[j] {
      calc {
        name[i + k..i + k + |short|][j];
        name[i + k + j];
        name[i..i + |long|][k + j];
        long[k + j];
        long[k..k + |short|][j];
        short[j];
      }
    }
    assert name[i + k..i + k + |short|] == short;
    assert OccursAt(name, short, i + k);
  }

  /** Every name containing "EPSG::" contains "EPSG:". */
  lemma DoubleColonContainsSingle(name: string)
    requires Contains(name, DoubleColon)
    ensures Contains(name, SingleColon)
  {
    ContainsPartOfMarker(name, DoubleColon, SingleColon, 0);
  }

  /** The URN branch of `extractEPSGCode` is never taken: every name containing
      the URN prefix also contains "EPSG::", which is tested first. */
  lemma UrnBranchUnreachable(name: string)
    requires Contains(name, UrnPrefix)
    ensures Contains(name, DoubleColon)
  {
    ContainsPartOfMarker(name, UrnPrefix, DoubleColon, 16);
  }

  /** The tag yields no code exactly when it is absent, not of type "name",
      has an empty or missing name, or the name lacks "EPSG:". Otherwise the
      first applicable marker, "EPSG::" before "EPSG:", decides the split. */
  lemma ExtractCases(crs: Option<CrsTag>)
    ensures ExtractEpsgCode(crs).None? <==>
              || crs.None? || crs.value.kind != "name" || !Truthy(crs.value.name)
              || !Contains(crs.value.name.value, SingleColon)
    ensures ExtractEpsgCode(crs).Some? ==>
              var name := crs.value.name.value;
              ExtractEpsgCode(crs).value
              == if Contains(name, DoubleColon) then SplitSecond(name, DoubleColon) else SplitSecond(name, SingleColon)
  {
    if crs.Some? && crs.value.kind == "name" && Truthy(crs.value.name) {
      var name := crs.value.name.value;
      if Contains(name, DoubleColon) {
        DoubleColonContainsSingle(name);
      } else if Contains(name, UrnPrefix) {
        UrnBranchUnreachable(name);
      }
    }
  }

  /** None of the first `n` characters of `s` is 'E', so no marker can start
      there. */
  lemma NoMarkerBefore(s: string, n: nat, marker: string)
    requires n <= |s| && marker != [] && marker[0] == 'E'
    requires forall j :: 0 <= j < n ==> s[j] != 'E'
    ensures forall j :: 0 <= j < n ==> !OccursAt(s, marker, j)
  {
    forall j | 0 <= j < n ensures !OccursAt(s, marker, j) {
      if j + |marker| <= |s| {
        assert s[j..j + |marker|][0] == s[j];
      }
    }
  }

  /** A marker found at index `i` of `prefix + code` with `i <= |prefix|`
      splits off exactly `code` when `code` contains no further marker. */
  lemma SplitAfterPrefix(prefix: string, code: string, marker: string)
    requires marker != [] && |marker| <= |prefix| && prefix[|prefix| - |marker|..] == marker
    requires forall j :: 0 <= j < |prefix| - |marker| ==> !OccursAt(prefix + code, marker, j)
    requires !Contains(code, marker)
    ensures Contains(prefix + code, marker)
    ensures SplitSecond(prefix + code, marker) == code
  {
    var name := prefix + code;
    var i := |prefix| - |marker|;
    assert name[i..i + |marker|] == marker;
    assert OccursAt(name, marker, i);
    assert IndexOf(name, marker) == Some(i);
    assert name[i + |marker|..] == code;
  }

  /** `urn:ogc:def:crs:EPSG::<code>` yields `<code>`, and the unreachable URN
      branch would have produced the same code. */
  lemma ExtractFromUrn(code: string)
    requires !Contains(code, SingleColon)
    ensures ExtractEpsgCode(Some(CrsTag("name", Some(UrnPrefix + code)))) == Some(code)
    ensures Contains(UrnPrefix + code, UrnPrefix) && SplitSecond(UrnPrefix + code, UrnPrefix) == code
  {
    var name := UrnPrefix + code;
    assert !Contains(code, DoubleColon) by {
      if Contains(code, DoubleColon) { DoubleColonContainsSingle(code); }
    }
    assert !Contains(code, UrnPrefix) by {
      if Contains(code, UrnPrefix) { UrnBranchUnreachable(code); }
    }
    assert forall j :: 0 <= j < 16 ==> name[j] != 'E';
    NoMarkerBefore(name, 16, DoubleColon);
    SplitAfterPrefix(UrnPrefix, code, DoubleColon);
    SplitAfterPrefix(UrnPrefix, code, UrnPrefix);
  }

  /** `EPSG::<code>` yields `<code>`. */
  lemma ExtractFromDoubleColon(code: string)
    requires !Contains(code, DoubleColon)
    ensures ExtractEpsgCode(Some(CrsTag("name", Some(DoubleColon + code)))) == Some(code)
  {
    SplitAfterPrefix(DoubleColon, code, DoubleColon);
  }

  /** `EPSG:<code>` yields `<code>` when the code does not start with ':'
      (which would make the name an "EPSG::" name). */
  lemma ExtractFromSingleColon(code: string)
    requires !Contains(code, SingleColon)
    requires code == [] || code[0] != ':'
    ensures ExtractEpsgCode(Some(CrsTag("name", Some(SingleColon + code)))) == Some(code)
  {
    var name := SingleColon + code;
    assert !Contains(name, DoubleColon) by {
      forall j | 0 <= j <= |name| ensures !OccursAt(name, DoubleColon, j) {
        if j + 6 <= |name| {
          var w := name[j..j + 6];
          if j == 0 {
            assert name[5] == code[0];
            assert w[5] == name[5];
          } else if j < 5 {
            assert w[0] == name[j];
          } else {
            assert name[j..j + 5] == code[j - 5..j];
            assert !OccursAt(code, SingleColon, j - 5);
            assert w[..5] == name[j..j + 5];
            assert DoubleColon[..5] == SingleColon;
          }
        }
      }
    }
    SplitAfterPrefix(SingleColon, code, SingleColon);
  }

  /** Concrete inputs: the URN form for 6346 (the case checked in
      coordinateTransform.test.ts), the single-colon form, and no tag. */
  lemma ExtractExamples()
    ensures ExtractEpsgCode(Some(CrsTag("name", Some("urn:ogc:def:crs:EPSG::6346")))) == Some("6346")
    ensures ExtractEpsgCode(Some(CrsTag("name", Some("EPSG:4326")))) == Some("4326")
    ensures ExtractEpsgCode(None) == None
  {
    assert ExtractEpsgCode(Some(CrsTag("name", Some("urn:ogc:def:crs:EPSG::6346")))) == Some("6346") by {
      ShorterNotContained("6346", SingleColon);
      assert UrnPrefix + "6346" == "urn:ogc:def:crs:EPSG::6346";
      ExtractFromUrn("6346");
    }
    assert ExtractEpsgCode(Some(CrsTag("name", Some("EPSG:4326")))) == Some("4326") by {
      ShorterNotContained("4326", SingleColon);
      assert SingleColon + "4326" == "EPSG:4326";
      ExtractFromSingleColon("4326");
    }
  }

  /** The regional UTM envelope of the detector. */
  predicate InUtmEnvelope(x: real, y: real)
  {
    y >= 4000000.0 && y <= 6500000.0 && x >= 160000.0 && x <= 840000.0
  }

  /** The Web Mercator test of the detector. */
  predicate LooksWebMercator(x: real, y: real)
  {
    Abs(x) > 180.0 && Abs(x) <= 20037508.34 && Abs(y) <= 20037508.34
  }

  function WebMercatorOrUnknown(x: real, y: real): Option<string>
  {
    if LooksWebMercator(x, y) then Some("3857") else None
  }

  /** `detectCRSFromCoordinates`: classify the first sample coordinate. */
  function DetectCrs(coordinates: seq<seq<real>>): (r: Option<string>)
    ensures r.Some? ==> r.value in {"4326", "26915", "26916", "6346", "3857"}
    ensures r.Some? ==> |coordinates| > 0 && |coordinates[0]| >= 2
  {
    if |coordinates| == 0 then None
    else if |coordinates[0]| < 2 then None
    else
      var x := coordinates[0][0];
      var y := coordinates[0][1];
      if Abs(x) <= 180.0 && Abs(y) <= 90.0 then Some("4326")
      else if InUtmEnvelope(x, y) then
        if x >= 200000.0 && x < 450000.0 then Some("26915")
        else if x >= 300000.0 && x < 550000.0 then Some("26916")
        else if x >= 400000.0 && x <= 800000.0 then Some("6346")
        else WebMercatorOrUnknown(x, y)
      else WebMercatorOrUnknown(x, y)
  }

  /** The bands as they take effect, first match winning: zone 16 only from
      450000 and zone 17 only from 550000, since the earlier bands already
      cover the lower parts of the written ranges; envelope points outside the
      bands go on to the Web Mercator test. */
  lemma DetectClassification(coordinates: seq<seq<real>>)
    requires |coordinates| > 0 && |coordinates[0]| >= 2
    ensures var x := coordinates[0][0];
            var y := coordinates[0][1];
            var r := DetectCrs(coordinates);
            && (r == Some("4326") <==> IsGeographic(XY(x, y)))
            && (r == Some("26915") <==> InUtmEnvelope(x, y) && 200000.0 <= x < 450000.0)
            && (r == Some("26916") <==> InUtmEnvelope(x, y) && 450000.0 <= x < 550000.0)
            && (r == Some("6346") <==> InUtmEnvelope(x, y) && 550000.0 <= x <= 800000.0)
            && (r == Some("3857") <==>
                  !IsGeographic(XY(x, y)) && !(InUtmEnvelope(x, y) && 200000.0 <= x <= 800000.0)
                  && LooksWebMercator(x, y))
            && (r.None? <==>
                  !IsGeographic(XY(x, y)) && !(InUtmEnvelope(x, y) && 200000.0 <= x <= 800000.0)
                  && !LooksWebMercator(x, y))
  {
  }

  /** Only the first coordinate of the sample matters. */
  lemma DetectUsesFirstOnly(coordinates: seq<seq<real>>, more: seq<seq<real>>)
    requires |coordinates| > 0
    ensures DetectCrs(coordinates + more) == DetectCrs(coordinates[..1])
  {
    assert (coordinates + more)[0] == coordinates[..1][0];
  }

  /** Concrete inputs: the placeholder position of the upload (a geographic
      point), the UTM point of coordinateTransform.test.ts, a point outside
      every band, and the empty and one-number inputs. */
  lemma DetectExamples()
    ensures DetectCrs([[-98.5795, 39.8283]]) == Some("4326")
    ensures DetectCrs([[573729.31, 4957893.41]]) == Some("6346")
    ensures DetectCrs([[20050000.0, 5000000.0]]) == None
    ensures DetectCrs([]) == None && DetectCrs([[1.0]]) == None
  {
  }
}
