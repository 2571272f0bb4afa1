/** The mock back end: the project list kept in memory and in browser storage,
    project create/update/delete, and the upload of a geospatial file into a
    project as a new layer, with its coordinates converted to WGS84 on the
    way in. */
module MockApi {
  import opened Wrappers
  import opened Text
  import opened Lists
  import opened GeoJson
  import opened ProjectTypes
  import opened Projection
  import opened CrsDetection
  import opened CoordinateTransform

  const OwnerName := "mock_user"
  /** `urn:ogc:def:crs:EPSG::4326`. */
  const Wgs84Urn := UrnPrefix + Wgs84Code
  /** The `crs` member written after a conversion. */
  const Wgs84Tag := CrsTag("name", Some(Wgs84Urn))
  /** Where the placeholder feature of a non-GeoJSON file sits. */
  const PlaceholderPosition: seq<real> := [-98.5795, 39.8283]
  const ErrorPrefix := "Failed to process file: "
  const ReadFailureMessage := "Failed to read file"
  const ProjectNotFound := "Project not found"

  function HasId(id: string): Project -> bool
  {
    (p: Project) => p.id == id
  }

  // ---------------------------------------------------------------------
  // Projects

  /** The project `createMockProject` builds: the given fields, a
      `project_<millis>` id, the two timestamps read one after the other,
      the mock owner, and no layers or flight plans. */
  function NewProject(input: ProjectInput, millis: nat, created: string, updated: string): (r: Project)
    ensures ProjectInput(r.name, r.description, r.dateRange, r.boundingBox, r.settings) == input
    ensures r.owner == OwnerName && r.layers == [] && r.flightPlans == []
    ensures r.createdAt == created && r.updatedAt == updated
    ensures |r.id| > 8 && r.id[..8] == "project_" && r.id[8..] == DecimalString(millis)
    ensures forall k :: 8 <= k < |r.id| ==> '0' <= r.id[k] <= '9'
    ensures DigitsValue(r.id[8..]) == millis
  {
    Project("project_" + DecimalString(millis), input.name, input.description, created, updated, OwnerName,
            input.dateRange, input.boundingBox, [], [], input.settings)
  }

  /** `{ ...p, ...updates, updatedAt: now }`. */
  function UpdatedProject(p: Project, patch: ProjectPatch, now: string): Project
  {
    ApplyProjectPatch(p, patch).(updatedAt := now)
  }

  function Updater(patch: ProjectPatch, now: string): Project -> Project
  {
    (p: Project) => UpdatedProject(p, patch, now)
  }

  /** The update stamp always wins, even over an `updatedAt` in the update
      object; every other field comes from the update when it names it, and
      from the project otherwise. */
  lemma UpdatedProjectFields(p: Project, patch: ProjectPatch, now: string)
    ensures UpdatedProject(p, patch, now).updatedAt == now
    ensures UpdatedProject(p, patch, now).(updatedAt := p.updatedAt) == ApplyProjectPatch(p, patch).(updatedAt := p.updatedAt)
    ensures patch == ProjectPatch(None, None, None, None, None, None, None, None, None, None, None) ==>
              UpdatedProject(p, patch, now) == p.(updatedAt := now)
  {
  }

  function WithLayer(layer: Layer): Project -> Project
  {
    (p: Project) => p.(layers := p.layers + [layer])
  }

  /** Adding a layer to a project found by id touches that project only, and
      only by appending the layer. */
  lemma AddLayerTouchesTarget(ps: seq<Project>, id: string, layer: Layer)
    requires FirstIndex(ps, HasId(id)) >= 0
    ensures var i := FirstIndex(ps, HasId(id));
            var r := ReplaceFirst(ps, HasId(id), WithLayer(layer));
            && |r| == |ps| && r[i].id == id
            && r[i].layers == ps[i].layers + [layer]
            && r[i].(layers := ps[i].layers) == ps[i]
            && forall j :: 0 <= j < |ps| && j != i ==> r[j] == ps[j]
  {
  }

  // ---------------------------------------------------------------------
  // Uploads

  /** What reading and parsing the file gives: the `FileReader` can fail, and
      `JSON.parse` either yields a feature collection or throws with a
      message. */
  datatype FileContent = ReadFailure | Read(json: Result<FeatureCollection>)

  datatype UploadFile = UploadFile(name: string, content: FileContent)

  predicate IsGeoJsonName(name: string)
  {
    EndsWith(ToLower(name), ".geojson") || EndsWith(ToLower(name), ".json")
  }

  predicate IsCsvName(name: string)
  {
    EndsWith(ToLower(name), ".csv")
  }

  /** The extension tests see a name only through its lowered form, so two
      names that differ only in the case of ASCII letters are treated alike. */
  lemma NameTestIgnoresCase(name: string, other: string)
    requires |name| == |other|
    requires forall k :: 0 <= k < |name| ==> LowerChar(name[k]) == LowerChar(other[k])
    ensures IsGeoJsonName(name) <==> IsGeoJsonName(other)
    ensures IsCsvName(name) <==> IsCsvName(other)
  {
    assert ToLower(name) == ToLower(other);
  }

  /** Capitals in the extension do not matter: `A.GEOJSON` is a GeoJSON name. */
  lemma UpperCaseGeoJsonName()
    ensures IsGeoJsonName("A.GEOJSON")
  {
    var lower := ToLower("A.GEOJSON");
    assert lower[1..] == ".geojson" by {
      forall k | 1 <= k < 9 ensures lower[k] == ".geojson"[k - 1] {
      }
    }
  }

  /** The single-feature collection made up for a file that is not GeoJSON. */
  function Placeholder(title: string): FeatureCollection
  {
    FeatureCollection("FeatureCollection",
                      [Feature("Feature", map["name" := title],
                               Some(Geometry("Point", Some(Position(PlaceholderPosition)))))],
                      None)
  }

  /** The regular expression `/\.[^/.]+$/` matches at `k`: a dot followed, up
      to the end, by at least one character that is neither a dot nor a
      slash. */
  predicate ExtensionAt(s: string, k: nat)
  {
    k + 1 < |s| && s[k] == '.' && forall j :: k < j < |s| ==> s[j] != '.' && s[j] != '/'
  }

  /** Scans `s` backwards from `i`; everything from `i` on is known to hold
      neither a dot nor a slash. */
  function ExtensionFrom(s: string, i: nat): (r: Option<nat>)
    requires i <= |s|
    requires forall j :: i <= j < |s| ==> s[j] != '.' && s[j] != '/'
    ensures r.Some? ==> ExtensionAt(s, r.value)
    ensures r.None? ==> forall k :: 0 <= k < |s| ==> !ExtensionAt(s, k)
    decreases i
  {
    if i == 0 then None
    else if s[i - 1] == '.' then (if i < |s| then Some(i - 1) else None)
    else if s[i - 1] == '/' then None
    else ExtensionFrom(s, i - 1)
  }

  /** `name.replace(/\.[^/.]+$/, '')`: the final extension removed, if there
      is one. */
  function StripExtension(name: string): (r: string)
    ensures (forall k :: 0 <= k < |name| ==> !ExtensionAt(name, k)) ==> r == name
    ensures (exists k :: 0 <= k < |name| && ExtensionAt(name, k)) ==>
              exists k :: 0 <= k < |name| && ExtensionAt(name, k) && r == name[..k]
  {
    match ExtensionFrom(name, |name|)
    case None => name
    case Some(k) => name[..k]
  }

  /** A name has at most one place where the expression matches, so the
      result is determined by it. */
  lemma ExtensionUnique(s: string, k1: nat, k2: nat)
    requires ExtensionAt(s, k1) && ExtensionAt(s, k2)
    ensures k1 == k2
  {
  }

  lemma StripExtensionExamples()
    ensures StripExtension("roads.geojson") == "roads"
    ensures StripExtension("archive.tar.gz") == "archive.tar"
    ensures StripExtension("README") == "README"
    ensures StripExtension("v1.2/data") == "v1.2/data"
    ensures StripExtension("trailing.") == "trailing."
  {
    assert ExtensionAt("roads.geojson", 5);
    assert ExtensionAt("archive.tar.gz", 11);
    var path := "v1.2/data";
    assert ExtensionFrom(path, 5) == None;
    assert ExtensionFrom(path, 7) == None;
  }

  /** The new layer: the file name without its extension, a visible vector
      layer at full opacity, holding the processed data. */
  function NewLayer(fileName: string, millis: nat, data: FeatureCollection): (r: Layer)
    ensures r.kind == Vector && r.visible && r.opacity == 1.0 && r.data == data
    ensures r.name == StripExtension(fileName)
    ensures |r.name| <= |fileName| && r.name == fileName[..|r.name|]
    ensures |r.id| > 6 && r.id[..6] == "layer_" && r.id[6..] == DecimalString(millis)
    ensures DigitsValue(r.id[6..]) == millis
  {
    Layer("layer_" + DecimalString(millis), StripExtension(fileName), Vector, true, 1.0, data)
  }

  predicate HasCoordinates(f: Feature)
  {
    f.geometry.Some? && f.geometry.value.coordinates.Some?
  }

  /** A coordinate value read as `number[][]`: the positions directly inside
      it; an inner array in place of a position counts as a position without
      numbers. */
  function Rows(c: Coords): seq<seq<real>>
  {
    match c
    case Position(_) => []
    case Nested(items) => seq(|items|, i requires 0 <= i < |items| => if items[i].Position? then items[i].v else [])
  }

  /** The coordinates `detectCRSFromCoordinates` is given for the first
      feature: the first line of a MultiLineString (when it has points), a
      LineString itself, a Point as a one-element list, the outer ring of a
      Polygon, and nothing for any other type. */
  function SampleCoordinates(kind: string, c: Coords): seq<seq<real>>
  {
    if kind == "MultiLineString" && c.Nested? && |c.items| > 0 && c.items[0].Nested? && |c.items[0].items| > 0 then
      Rows(c.items[0])
    else if kind == "LineString" then Rows(c)
    else if kind == "Point" then [if c.Position? then c.v else []]
    else if kind == "Polygon" && c.Nested? && |c.items| > 0 then Rows(c.items[0])
    else []
  }

  /** A code worth converting from: present, non-empty and not 4326. */
  function Convertible(code: Option<string>): (r: Option<string>)
    ensures r.Some? <==> Truthy(code) && code.value != Wgs84Code
    ensures r.Some? ==> r == code
  {
    if Truthy(code) && code.value != Wgs84Code then code else None
  }

  /** The code the upload converts from: the code named by the `crs` member
      when there is one, otherwise the code detected from the first feature;
      nothing when that is missing, empty or already 4326. */
  function ConversionSource(fc: FeatureCollection): (r: Option<string>)
    ensures r.Some? ==> r.value != "" && r.value != Wgs84Code
    ensures fc.crs.Some? ==> r == Convertible(ExtractEpsgCode(fc.crs))
    ensures fc.crs.None? && |fc.features| > 0 && HasCoordinates(fc.features[0]) ==>
              var g := fc.features[0].geometry.value;
              r == Convertible(DetectCrs(SampleCoordinates(g.kind, g.coordinates.value)))
    ensures fc.crs.None? && !(|fc.features| > 0 && HasCoordinates(fc.features[0])) ==> r == None
  {
    if fc.crs.Some? then Convertible(ExtractEpsgCode(fc.crs))
    else if |fc.features| > 0 && HasCoordinates(fc.features[0]) then
      var g := fc.features[0].geometry.value;
      Convertible(DetectCrs(SampleCoordinates(g.kind, g.coordinates.value)))
    else None
  }

  function ConvertFeature(f: Feature, pt: XY -> XY): Feature
  {
    if HasCoordinates(f) then
      var g := f.geometry.value;
      f.(geometry := Some(g.(coordinates := Some(TransformedGeometry(g.coordinates.value, g.kind, pt)))))
    else f
  }

  function ConvertFeatures(fs: seq<Feature>, pt: XY -> XY): seq<Feature>
  {
    seq(|fs|, i requires 0 <= i < |fs| => ConvertFeature(fs[i], pt))
  }

  /** The parsed GeoJSON after the CRS step: converted to WGS84 and tagged as
      such when a source code was found, untouched otherwise. Every
      coordinate is converted with the cache as it was when the step began. */
  function Processed(fc: FeatureCollection, cache: map<string, string>, o: Oracles): FeatureCollection
  {
    match ConversionSource(fc)
    case None => fc
    case Some(code) =>
      fc.(features := ConvertFeatures(fc.features, PointMap(cache, code, Wgs84Code, o)), crs := Some(Wgs84Tag))
  }

  /** Feature count and order are kept; each feature keeps its type, its
      properties, its geometry type and the nesting of its coordinates, and
      a feature without geometry or coordinates is passed through as is. */
  lemma ProcessedKeepsFeatures(fc: FeatureCollection, cache: map<string, string>, o: Oracles)
    ensures var r := Processed(fc, cache, o);
            && r.kind == fc.kind
            && |r.features| == |fc.features|
            && forall i :: 0 <= i < |fc.features| ==>
                 && r.features[i].kind == fc.features[i].kind
                 && r.features[i].properties == fc.features[i].properties
                 && (!HasCoordinates(fc.features[i]) ==> r.features[i] == fc.features[i])
                 && (HasCoordinates(fc.features[i]) ==>
                       && HasCoordinates(r.features[i])
                       && r.features[i].geometry.value.kind == fc.features[i].geometry.value.kind
                       && ShapeOf(r.features[i].geometry.value.coordinates.value)
                          == ShapeOf(fc.features[i].geometry.value.coordinates.value))
    ensures var r := Processed(fc, cache, o);
            ConversionSource(fc).Some? ==>
              var pt := PointMap(cache, ConversionSource(fc).value, Wgs84Code, o);
              forall i :: 0 <= i < |fc.features| && HasCoordinates(fc.features[i]) ==>
                var g := fc.features[i].geometry.value;
                r.features[i].geometry.value.coordinates.value == TransformedGeometry(g.coordinates.value, g.kind, pt)
  {
  }

  /** The `crs` member is replaced by the WGS84 tag exactly when a conversion
      happens; otherwise nothing at all changes. */
  lemma ProcessedCrs(fc: FeatureCollection, cache: map<string, string>, o: Oracles)
    ensures ConversionSource(fc).None? ==> Processed(fc, cache, o) == fc
    ensures ConversionSource(fc).Some? ==> Processed(fc, cache, o).crs == Some(Wgs84Tag)
  {
  }

  /** With a `crs` member, the coordinates are never inspected to choose the
      source code; without one, only the first feature is. */
  lemma SourceChoice(fc: FeatureCollection, others: seq<Feature>)
    ensures fc.crs.Some? ==> ConversionSource(fc) == ConversionSource(fc.(features := others))
    ensures fc.crs.None? && |fc.features| > 0 ==>
              ConversionSource(fc) == ConversionSource(fc.(features := fc.features[..1] + others))
  {
  }

  /** The WGS84 tag names code 4326. */
  lemma Wgs84TagCode()
    ensures ExtractEpsgCode(Some(Wgs84Tag)) == Some(Wgs84Code)
  {
    ShorterNotContained(Wgs84Code, SingleColon);
    ExtractFromUrn(Wgs84Code);
  }

  /** Processing is idempotent: what one upload produced is left alone by a
      second one, whatever the cache and the oracles then are. */
  lemma ProcessedIdempotent(fc: FeatureCollection, c1: map<string, string>, o1: Oracles,
                            c2: map<string, string>, o2: Oracles)
    ensures Processed(Processed(fc, c1, o1), c2, o2) == Processed(fc, c1, o1)
  {
    if ConversionSource(fc).Some? {
      Wgs84TagCode();
    }
  }

  /** The placeholder of a non-GeoJSON file is one Point feature in the
      geographic range, so it would never be converted. */
  lemma PlaceholderIsGeographic(title: string)
    ensures |Placeholder(title).features| == 1
    ensures Placeholder(title).features[0].properties["name"] == title
    ensures ConversionSource(Placeholder(title)).None?
  {
    assert SampleCoordinates("Point", Position(PlaceholderPosition)) == [PlaceholderPosition];
    DetectExamples();
  }

  /** `Flatten` of one-element lists is the list of their elements. */
  lemma {:induction false} FlattenSingletons(rows: seq<seq<real>>, items: seq<seq<seq<real>>>)
    requires |items| == |rows| && forall i :: 0 <= i < |items| ==> items[i] == [rows[i]]
    ensures Flatten(items) == rows
  {
    if |items| > 0 {
      FlattenSingletons(rows[1..], items[1..]);
    }
  }

  /** On a well-formed line the rows read from it are its positions. */
  lemma RowsOfLine(c: Coords)
    requires WellNested(c, 1)
    ensures Rows(c) == Leaves(c)
  {
    var items := c.items;
    var ls := seq(|items|, i requires 0 <= i < |items| => Leaves(items[i]));
    FlattenSingletons(Rows(c), ls);
  }

  /** On well-formed coordinates the sample is the positions of: the Point,
      the LineString, the outer ring of a Polygon, or the first line of a
      MultiLineString; a MultiPolygon and an unknown type give no sample. */
  lemma SampleOfWellNested(kind: string, c: Coords)
    ensures kind == "Point" && WellNested(c, 0) ==> SampleCoordinates(kind, c) == Leaves(c)
    ensures kind == "LineString" && WellNested(c, 1) ==> SampleCoordinates(kind, c) == Leaves(c)
    ensures kind == "Polygon" && WellNested(c, 2) && |c.items| > 0 ==>
              SampleCoordinates(kind, c) == Leaves(c.items[0])
    ensures kind == "MultiLineString" && WellNested(c, 2) && |c.items| > 0 && c.items[0].Nested? && |c.items[0].items| > 0 ==>
              SampleCoordinates(kind, c) == Leaves(c.items[0])
    ensures kind == "MultiPolygon" || GeometryDepth(kind).None? ==> SampleCoordinates(kind, c) == []
  {
    if kind == "LineString" && WellNested(c, 1) {
      RowsOfLine(c);
    } else if (kind == "Polygon" || kind == "MultiLineString") && WellNested(c, 2) && |c.items| > 0 {
      RowsOfLine(c.items[0]);
    }
  }

  /** What the upload makes of the file before it looks at the projects: the
      read or parse failure, or the data for the layer. */
  function LoadedData(file: UploadFile, cache: map<string, string>, o: Oracles): Result<FeatureCollection>
  {
    match file.content
    case ReadFailure => Err(ReadFailureMessage)
    case Read(json) =>
      if IsGeoJsonName(file.name) then
        (match json
         case Err(m) => Err(m)
         case Ok(fc) => Ok(Processed(fc, cache, o)))
      else if IsCsvName(file.name) then Ok(Placeholder("CSV Data"))
      else Ok(Placeholder("Uploaded Data"))
  }

  /** Which file yields what: a read failure always fails, only a GeoJSON or
      JSON name is parsed (and only such a file can fail to parse), and any
      other file gets the placeholder whatever it holds. */
  lemma LoadedDataCases(file: UploadFile, cache: map<string, string>, o: Oracles)
    ensures LoadedData(file, cache, o).Err? <==>
              file.content.ReadFailure? || (IsGeoJsonName(file.name) && file.content.json.Err?)
    ensures file.content.Read? && !IsGeoJsonName(file.name) ==>
              LoadedData(file, cache, o) == Ok(Placeholder(if IsCsvName(file.name) then "CSV Data" else "Uploaded Data"))
    ensures file.content.Read? && IsGeoJsonName(file.name) && file.content.json.Ok? ==>
              LoadedData(file, cache, o) == Ok(Processed(file.content.json.value, cache, o))
  {
  }

  /** The explicit or detected conversion of one parsed file, run feature by
      feature on the shared transformer. */
  method ProcessCollection(fc: FeatureCollection, t: Transformer, o: Oracles) returns (out: FeatureCollection)
    modifies t
    ensures out == Processed(fc, old(t.epsgCache), o)
    ensures ConversionSource(fc).None? ==> t.epsgCache == old(t.epsgCache)
    ensures ConversionSource(fc).Some? ==>
              WarmedFrom(t.epsgCache, old(t.epsgCache), ConversionSource(fc).value, Wgs84Code, o.net)
  {
    var source := ConversionSource(fc);
    if source.None? {
      return fc;
    }
    var features := TransformFeatures(fc.features, source.value, t, o);
    out := fc.(features := features, crs := Some(Wgs84Tag));
  }

  /** The `Promise.all` over the features, run one feature after the other. */
  method TransformFeatures(features: seq<Feature>, code: string, t: Transformer, o: Oracles) returns (out: seq<Feature>)
    modifies t
    ensures out == ConvertFeatures(features, PointMap(old(t.epsgCache), code, Wgs84Code, o))
    ensures WarmedFrom(t.epsgCache, old(t.epsgCache), code, Wgs84Code, o.net)
  {
    ghost var start := t.epsgCache;
    out := [];
    var i := 0;
    while i < |features|
      invariant 0 <= i <= |features| && |out| == i
      invariant forall k :: 0 <= k < i ==> out[k] == ConvertFeature(features[k], PointMap(start, code, Wgs84Code, o))
      invariant WarmedFrom(t.epsgCache, start, code, Wgs84Code, o.net)
    {
      var f := TransformFeature(features[i], code, start, t, o);
      out := out + [f];
      i := i + 1;
    }
  }

  /** One feature of the `Promise.all`, converted part way through the
      collection: it comes out as if the cache were still the starting one. */
  method TransformFeature(f: Feature, code: string, ghost start: map<string, string>, t: Transformer, o: Oracles)
    returns (out: Feature)
    requires WarmedFrom(t.epsgCache, start, code, Wgs84Code, o.net)
    modifies t
    ensures out == ConvertFeature(f, PointMap(start, code, Wgs84Code, o))
    ensures WarmedFrom(t.epsgCache, start, code, Wgs84Code, o.net)
  {
    out := f;
    if HasCoordinates(f) {
      var g := f.geometry.value;
      ghost var before := t.epsgCache;
      WarmedStable(before, start, code, Wgs84Code, o);
      var c := t.TransformGeometry(g.coordinates.value, g.kind, code, Wgs84Code, o);
      TransformedGeometryCongruent(g.coordinates.value, g.kind, PointMap(before, code, Wgs84Code, o),
                                   PointMap(start, code, Wgs84Code, o));
      if t.epsgCache != before {
        assert t.epsgCache == TransformCache(before, code, Wgs84Code, o.net);
      }
      out := f.(geometry := Some(g.(coordinates := Some(c))));
    }
  }

  /** The code a file is converted from: only a GeoJSON or JSON name whose
      content was read and parsed can have one. */
  function FileConversionSource(file: UploadFile): (r: Option<string>)
    ensures r.Some? ==> file.content.Read? && IsGeoJsonName(file.name) && file.content.json.Ok?
    ensures file.content.Read? && IsGeoJsonName(file.name) && file.content.json.Ok? ==>
              r == ConversionSource(file.content.json.value)
  {
    if file.content.Read? && IsGeoJsonName(file.name) && file.content.json.Ok? then
      ConversionSource(file.content.json.value)
    else None
  }

  /** The first half of the upload: read the file, then parse and convert
      GeoJSON, or make up the placeholder for any other file. */
  method LoadData(file: UploadFile, t: Transformer, o: Oracles) returns (data: Result<FeatureCollection>)
    modifies t
    ensures data == LoadedData(file, old(t.epsgCache), o)
    ensures FileConversionSource(file).None? ==> t.epsgCache == old(t.epsgCache)
    ensures FileConversionSource(file).Some? ==>
              WarmedFrom(t.epsgCache, old(t.epsgCache), FileConversionSource(file).value, Wgs84Code, o.net)
  {
    if file.content.ReadFailure? {
      return Err(ReadFailureMessage);
    }
    var lower := ToLower(file.name);
    if EndsWith(lower, ".geojson") || EndsWith(lower, ".json") {
      match file.content.json
      case Err(m) =>
        data := Err(m);
      case Ok(fc) =>
        var processed := ProcessCollection(fc, t, o);
        data := Ok(processed);
    } else if EndsWith(lower, ".csv") {
      data := Ok(Placeholder("CSV Data"));
    } else {
      data := Ok(Placeholder("Uploaded Data"));
    }
  }

  // ---------------------------------------------------------------------
  // The store

  /** The module state of the mock back end: `mockProjects`, and what the
      browser storage holds under `bfgeo_projects` (absent, or the list it
      encodes). */
  class MockStore {
    var memory: seq<Project>
    var stored: Option<seq<Project>>

    /** A fresh page: nothing in memory, and whatever an earlier session
        left in storage. */
    constructor(persisted: Option<seq<Project>>)
      ensures memory == [] && stored == persisted
    {
      memory := [];
      stored := persisted;
    }

    /** What `getMockProjects` returns now. */
    function Projects(): seq<Project>
      reads this
    {
      if stored.Some? then stored.value else memory
    }

    /** Memory holds what storage holds, when storage holds anything. */
    predicate Synced()
      reads this
    {
      stored.Some? ==> stored.value == memory
    }

    /** `getMockProjects`: storage, when present, replaces memory. */
    method GetProjects() returns (ps: seq<Project>)
      modifies this
      ensures ps == old(Projects()) && memory == ps && stored == old(stored)
      ensures Synced() && Projects() == old(Projects())
    {
      if stored.Some? {
        memory := stored.value;
      }
      ps := memory;
    }

    /** `saveMockProjects`. */
    method SaveProjects(projects: seq<Project>)
      modifies this
      ensures memory == projects && stored == Some(projects)
      ensures Synced() && Projects() == projects
    {
      memory := projects;
      stored := Some(projects);
    }

    /** `createMockProject`: exactly one project is appended, at the end. */
    method CreateProject(input: ProjectInput, millis: nat, created: string, updated: string) returns (p: Project)
      modifies this
      ensures p == NewProject(input, millis, created, updated)
      ensures stored == Some(old(Projects()) + [p]) && memory == stored.value
    {
      p := NewProject(input, millis, created, updated);
      var projects := GetProjects();
      projects := projects + [p];
      SaveProjects(projects);
    }

    /** `updateMockProject`: nothing is saved when no project has the id;
        otherwise only the first project with it is replaced by the merge. */
    method UpdateProject(id: string, patch: ProjectPatch, now: string) returns (r: Option<Project>)
      modifies this
      ensures r.None? <==> forall j :: 0 <= j < |old(Projects())| ==> old(Projects())[j].id != id
      ensures r.None? ==> stored == old(stored) && memory == old(Projects())
      ensures r.Some? ==>
                && r.value == UpdatedProject(old(Projects())[FirstIndex(old(Projects()), HasId(id))], patch, now)
                && stored == Some(ReplaceFirst(old(Projects()), HasId(id), Updater(patch, now)))
                && memory == stored.value
    {
      var projects := GetProjects();
      var index := FirstIndex(projects, HasId(id));
      if index == -1 {
        return None;
      }
      var updated := UpdatedProject(projects[index], patch, now);
      projects := projects[index := updated];
      SaveProjects(projects);
      r := Some(updated);
    }

    /** `deleteMockProject`: false, with nothing saved, exactly when no
        project has the id; otherwise every project with it is dropped. */
    method DeleteProject(id: string) returns (deleted: bool)
      modifies this
      ensures deleted <==> exists j :: 0 <= j < |old(Projects())| && old(Projects())[j].id == id
      ensures !deleted ==> stored == old(stored) && memory == old(Projects())
      ensures deleted ==> stored == Some(RemoveWhere(old(Projects()), HasId(id))) && memory == stored.value
    {
      var projects := GetProjects();
      var filtered := RemoveWhere(projects, HasId(id));
      if |filtered| == |projects| {
        return false;
      }
      SaveProjects(filtered);
      deleted := true;
    }

    /** `uploadMockGeospatialData`: read and process the file, build the
        layer, and append it to the project with the given id. Every failure
        comes back as one error whose message starts with the prefix. */
    method UploadGeospatialData(projectId: string, file: UploadFile, millis: nat, t: Transformer, o: Oracles)
      returns (r: Result<Layer>)
      modifies this, t
      ensures var data := LoadedData(file, old(t.epsgCache), o);
              data.Err? ==> r == Err(ErrorPrefix + data.message) && memory == old(memory) && stored == old(stored)
      ensures var data := LoadedData(file, old(t.epsgCache), o);
              data.Ok? && FirstIndex(old(Projects()), HasId(projectId)) == -1 ==>
                r == Err(ErrorPrefix + ProjectNotFound) && memory == old(Projects()) && stored == old(stored)
      ensures var data := LoadedData(file, old(t.epsgCache), o);
              data.Ok? && FirstIndex(old(Projects()), HasId(projectId)) >= 0 ==>
                && r == Ok(NewLayer(file.name, millis, data.value))
                && stored == Some(ReplaceFirst(old(Projects()), HasId(projectId), WithLayer(r.value)))
                && memory == stored.value
      // the transformer's cache is touched only by a conversion
      ensures FileConversionSource(file).None? ==> t.epsgCache == old(t.epsgCache)
      ensures FileConversionSource(file).Some? ==>
                WarmedFrom(t.epsgCache, old(t.epsgCache), FileConversionSource(file).value, Wgs84Code, o.net)
    {
      var data := LoadData(file, t, o);
      if data.Err? {
        return Err(ErrorPrefix + data.message);
      }
      var layer := NewLayer(file.name, millis, data.value);
      var projects := GetProjects();
      var index := FirstIndex(projects, HasId(projectId));
      if index == -1 {
        return Err(ErrorPrefix + ProjectNotFound);
      }
      projects := projects[index := projects[index].(layers := projects[index].layers + [layer])];
      SaveProjects(projects);
      r := Ok(layer);
    }
  }
}
