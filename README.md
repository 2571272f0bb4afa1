# Coordinate reference system pipeline of the geospatial project front end

This project models, in Dafny, the part of the web front end that turns
uploaded GeoJSON into WGS84 longitude/latitude before it is put on a map.
The model covers:

* **The projection-definition resolver.** The module-level `epsgCache`
  dictionary is the map field of the class `CoordinateTransform.Transformer`.
  A lookup tries three things in order:
  1. a cache entry that is truthy;
  2. the static table of eleven EPSG definitions;
  3. the external lookup of `https://epsg.io/<code>.proj4`.

  The pure functions `Projection.FetchStep` and `Projection.ResolveStep` say
  what one lookup returns and how the cache changes.
* **`transformCoordinate` and `fallbackTransformation`.** Two oracles stand
  in for code the model cannot see. The `proj4` library is a function that
  either answers or throws. The external lookup is a function from code to
  optional text. Every failure ends in the range-based fallback.
* **`transformGeometry`.** It maps every position of a Point, LineString,
  MultiLineString, Polygon or MultiPolygon and keeps the nesting and any
  elevation. Other geometry types are passed through. The `Promise.all`
  fan-out runs one coordinate after another. The lookup service is one
  function, so every request for a code gets the same answer. Under that
  assumption `Projection.WarmedStable` proves that the order does not
  matter: every coordinate is mapped as it would be from the cache the
  geometry transform started with.
* **`extractEPSGCode` and `detectCRSFromCoordinates`** (module
  `CrsDetection`).
* **The mock back end** (module `MockApi`). Class `MockStore` holds the
  in-memory project list `mockProjects` and what browser storage holds
  under `bfgeo_projects`. On that store the model gives:
  * project create, update, delete, load and save;
  * `uploadMockGeospatialData`, which:
    1. reads the file;
    2. for a `.geojson` or `.json` name, parses it and converts it with the
       explicit or the detected CRS, then rewrites the `crs` member;
    3. for any other name, makes up a placeholder;
    4. builds the layer and appends it to the target project.
* **The three Redux slices** `map`, `ui` and `project`. Each is a class
  whose methods are the reducers and mutate the state in place. A snapshot
  datatype of each class states the whole new state.

Numbers are `real`s. The `Math.cos` factor of the UTM fallback is the
oracle `secant`, standing for `1 / Math.cos(Math.PI * y / 20003931.46)`.

In `extractEPSGCode` the `urn:ogc:def:crs:EPSG::` branch can never run.
Every URN name contains `EPSG::`, which is tested first
(`CrsDetection.UrnBranchUnreachable`). A URN name still gives the code
after the prefix (`CrsDetection.ExtractFromUrn`).

The easting bands of `detectCRSFromCoordinates` overlap as written and are
tested in order. The bands that take effect are therefore
[200000, 450000) for 26915, [450000, 550000) for 26916 and
[550000, 800000] for 6346 (`CrsDetection.DetectClassification`).

## Model

| member | source | states |
|---|---|---|
| Text.SplitSecond | frontend/src/utils/coordinateTransform.ts:168 | `name.split(sep)[1]`: the text right after the first separator, ending at the end of the name or at the next occurrence of the separator, with no occurrence starting inside it; it never contains the separator |
| Text.Trim | frontend/src/utils/coordinateTransform.ts:27-28 | `trim()` returns a middle slice, with only white space cut at both ends, and it neither starts nor ends with white space |
| Text.TrimIdempotent | frontend/src/utils/coordinateTransform.ts:27-28 | trimming twice is trimming once |
| Text.ToLower | frontend/src/utils/mockApi.ts:86 | `toLowerCase()` keeps the length and maps each character through LowerChar, which turns every ASCII capital into its own small letter and keeps every other character |
| Text.DecimalString | frontend/src/utils/mockApi.ts:25 | `${Date.now()}` is a non-empty run of digits, with no leading zero, whose decimal value is the number |
| Lists.FirstIndex | frontend/src/utils/mockApi.ts:42 | `findIndex` is -1 exactly when no element matches; otherwise the element at the index matches and none before it does |
| Lists.ReplaceFirst | frontend/src/utils/mockApi.ts:42-52 | writing back at the `findIndex` index rewrites the first match only, keeps the length, and changes nothing when there is no match |
| Lists.RemoveWhere | frontend/src/utils/mockApi.ts:60-62 | the `filter` result has no element with the id and keeps every other one; its length is unchanged exactly when nothing matched |
| Lists.RemoveWhereAppend | frontend/src/store/slices/mapSlice.ts:53 | filtering distributes over concatenation, so the survivors keep their relative order |
| Lists.RemoveWhereIdempotent | frontend/src/store/slices/mapSlice.ts:53 | filtering twice with the same predicate equals filtering once |
| Projection.FetchStep | frontend/src/utils/coordinateTransform.ts:22-34 | null exactly when the lookup service fails, with the cache unchanged; otherwise the trimmed response text, which is also stored under the code |
| Projection.FetchTrimmed | frontend/src/utils/coordinateTransform.ts:26-28 | the text cached and returned has no white space left at either end |
| Projection.ResolveStep | frontend/src/utils/coordinateTransform.ts:37-51 | a truthy cache entry is returned; otherwise a static-table definition is returned; otherwise the answer and cache are exactly those of the fetch. A found definition is what the cache now holds; when nothing is found the cache is unchanged |
| Projection.ResolveFrame | frontend/src/utils/coordinateTransform.ts:37-51 | keys are only added, and only the looked-up code; other entries keep their values; a truthy hit returns the cached value and changes nothing |
| Projection.ResolveNotFound | frontend/src/utils/coordinateTransform.ts:37-51 | null exactly when there is no truthy cache entry, the code is not in the static table and the fetch fails |
| Projection.CommonProjectionsTruthy | frontend/src/utils/coordinateTransform.ts:7-19 | every static-table definition is non-empty, so a table hit always counts as found |
| Projection.ResolveHitIgnoresNetwork | frontend/src/utils/coordinateTransform.ts:39-47 | a cache hit or a table hit never consults the external lookup |
| Projection.ResolveTwice | frontend/src/utils/coordinateTransform.ts:39-41 | after a lookup that found a non-empty definition, a second lookup returns the same value, with no fetch and no cache change |
| Projection.EmptyFetchIsRefetched | frontend/src/utils/coordinateTransform.ts:27-39 | a fetched text that trims to empty is cached and returned, but the empty entry is not a hit, so the next lookup fetches again |
| Projection.ResolveSettles | frontend/src/utils/coordinateTransform.ts:37-51 | after one lookup, a second lookup of the same code changes nothing and returns the same answer |
| Projection.ResolveLocal | frontend/src/utils/coordinateTransform.ts:37-51 | a lookup depends on the cache only through the entry for its own code |
| Projection.ResolveKeepsSettled | frontend/src/utils/coordinateTransform.ts:37-51 | looking up another code does not unsettle a settled one or change its answer |
| Projection.UtmApproximation | frontend/src/utils/coordinateTransform.ts:96-97 | the UTM guess's latitude is the northing divided by 111320 |
| Projection.RegionalApproximation | frontend/src/utils/coordinateTransform.ts:106-107 | the regional guess is the linear map around easting 500000 and northing 5000000 at 111320 m per degree, stated through its inverse |
| Projection.Fallback | frontend/src/utils/coordinateTransform.ts:81-116 | a coordinate already in geographic range is returned unchanged |
| Projection.FallbackCases | frontend/src/utils/coordinateTransform.ts:84-115 | unchanged exactly when not (x > 100000 and y > 100000); the UTM guess when y > 1000000; otherwise the regional guess |
| Projection.RegionalLatitudeBounds | frontend/src/utils/coordinateTransform.ts:104-111 | the regional guess always yields a latitude strictly between 0 and 10 degrees |
| Projection.UtmGuessIsZone31 | frontend/src/utils/coordinateTransform.ts:92-93 | every easting in [166021.44, 1166021.44) is guessed to be zone 31, central meridian 3 degrees east |
| Projection.ProjectOrFallback | frontend/src/utils/coordinateTransform.ts:63-76 | a missing source definition, or a missing target definition when the target is not 4326, gives exactly the fallback; with both definitions, the result is what `proj4` returned for them (the WGS84 definition standing in for a missing 4326 target), or the fallback when it throws |
| Projection.TransformStep | frontend/src/utils/coordinateTransform.ts:54-78 | `transformCoordinate` as a function of the cache; its contract is stated by TransformFallsBack, TransformFrame, TransformSettlesLookups and TransformSettles |
| Projection.TransformFrame | frontend/src/utils/coordinateTransform.ts:54-78 | a coordinate transform only adds cache entries, and only for the source and target codes; every other entry keeps its value |
| Projection.TransformFallsBack | frontend/src/utils/coordinateTransform.ts:59-77 | target 4326 never goes through the resolver; an unresolved source or target gives exactly the fallback; with both definitions resolved, the result is `proj4`'s answer for them, or the fallback when it throws |
| Projection.TransformSettlesLookups | frontend/src/utils/coordinateTransform.ts:60-61 | after one transform, both lookups of a second transform return the same definitions and leave the cache alone |
| Projection.TransformSettles | frontend/src/utils/coordinateTransform.ts:54-78 | once warmed, the cache stays fixed, and every coordinate maps as it did from the cold cache |
| Projection.WarmedStable | frontend/src/utils/coordinateTransform.ts:131-153 | during a geometry transform the cache is either the start or the warmed cache, and each coordinate maps as it would from the start |
| Projection.WarmedFrame | frontend/src/utils/coordinateTransform.ts:37-51 | a warmed cache keeps every key of the start and differs from it only in the entries for the source and target codes |
| Projection.GeometryDepth | frontend/src/utils/coordinateTransform.ts:131-157 | exactly the five geometry types are transformed |
| Projection.TransformPosition | frontend/src/utils/coordinateTransform.ts:125-129 | a position shorter than 2 is kept; otherwise x and y come from the coordinate transform and everything from index 2 on is copied |
| Projection.TransformPositionOfPair | frontend/src/utils/coordinateTransform.ts:126-128 | a position of two or more numbers is the transformed pair followed by the copied elevation |
| Projection.MapAtDepth | frontend/src/utils/coordinateTransform.ts:135-153 | the nested maps keep the length of every array at every level |
| Projection.TransformedGeometry | frontend/src/utils/coordinateTransform.ts:131-157 | the geometry transform preserves shape, and any other type returns the coordinates untouched |
| Projection.FlattenTransform | frontend/src/utils/coordinateTransform.ts:135-153 | mapping positions commutes with flattening the nesting |
| Projection.MapAtDepthLeaves | frontend/src/utils/coordinateTransform.ts:135-153 | on correctly nested coordinates, the positions of the result are the input positions, in order, each transformed |
| Projection.TransformedGeometryLeaves | frontend/src/utils/coordinateTransform.ts:119-157 | for the five types, only the positions change, each through the per-coordinate map |
| Projection.MapAtDepthCongruent | frontend/src/utils/coordinateTransform.ts:135-153 | the geometry map depends on the per-coordinate map only through its values |
| CrsDetection.ExtractEpsgCode | frontend/src/utils/coordinateTransform.ts:161-177 | a code comes only from a `name`-type tag with a non-empty name, and is shorter than the name |
| CrsDetection.DoubleColonContainsSingle | frontend/src/utils/coordinateTransform.ts:167-169 | a name containing `EPSG::` contains `EPSG:` |
| CrsDetection.UrnBranchUnreachable | frontend/src/utils/coordinateTransform.ts:167-173 | a name containing the URN prefix contains `EPSG::`, so the third branch never runs |
| CrsDetection.ExtractCases | frontend/src/utils/coordinateTransform.ts:161-177 | null exactly when the tag is missing, is not of type `name`, has no name, or the name lacks `EPSG:`; otherwise the second piece of the split by `EPSG::` if present, else by `EPSG:` |
| CrsDetection.ExtractFromUrn | frontend/src/utils/coordinateTransform.ts:171-172 | `urn:ogc:def:crs:EPSG::<code>` gives the code, the same as the unreachable URN split would |
| CrsDetection.ExtractFromDoubleColon | frontend/src/utils/coordinateTransform.ts:167-168 | `EPSG::<code>` gives the code |
| CrsDetection.ExtractFromSingleColon | frontend/src/utils/coordinateTransform.ts:169-170 | `EPSG:<code>` gives the code |
| CrsDetection.ExtractExamples | frontend/src/utils/__tests__/coordinateTransform.test.ts:4-12 | the URN for 6346 gives 6346 (the test's case); the single-colon `EPSG:4326` gives 4326 and no tag gives null |
| CrsDetection.DetectCrs | frontend/src/utils/coordinateTransform.ts:180-229 | the answer is one of 4326, 26915, 26916, 6346 and 3857, and only for a first coordinate of at least two numbers |
| CrsDetection.DetectClassification | frontend/src/utils/coordinateTransform.ts:188-228 | 4326 for a geographic pair; in the envelope, 26915 for x in [200000, 450000), 26916 for [450000, 550000), 6346 for [550000, 800000]; anything else gives 3857 in Web Mercator range and null otherwise |
| CrsDetection.DetectUsesFirstOnly | frontend/src/utils/coordinateTransform.ts:183-186 | only the first coordinate is looked at |
| CrsDetection.DetectExamples | frontend/src/utils/coordinateTransform.ts:180-229 | concrete answers: the upload's placeholder position gives 4326; the UTM point of the coordinate test gives 6346; [20050000, 5000000], the empty list and a one-number position give null |
| CoordinateTransform.Transformer.constructor | frontend/src/utils/coordinateTransform.ts:4 | the cache starts empty |
| CoordinateTransform.Transformer.FetchDefinition | frontend/src/utils/coordinateTransform.ts:22-34 | returns and stores what FetchStep says: the trimmed response text, or null with the cache unchanged |
| CoordinateTransform.Transformer.ResolveDefinition | frontend/src/utils/coordinateTransform.ts:37-51 | returns and stores what ResolveStep says: the cache hit, else the table entry, else the fetch. Keys only grow, and a found definition is cached |
| CoordinateTransform.Transformer.TransformCoordinate | frontend/src/utils/coordinateTransform.ts:54-78 | the result and the new cache are those of TransformStep from the old cache: the `proj4` answer for the resolved definitions, otherwise the fallback |
| CoordinateTransform.Transformer.TransformPoint | frontend/src/utils/coordinateTransform.ts:125-129 | the position transformed with the starting cache; the cache stays warmed from the start |
| CoordinateTransform.Transformer.TransformPair | frontend/src/utils/coordinateTransform.ts:126-128 | a position of two or more numbers: one coordinate transform, the elevation copied |
| CoordinateTransform.Transformer.TransformNested | frontend/src/utils/coordinateTransform.ts:135-153 | the nested sequential maps equal MapAtDepth with the per-coordinate map of the starting cache |
| CoordinateTransform.Transformer.TransformChild | frontend/src/utils/coordinateTransform.ts:136-152 | an array element mapped part way through a geometry comes out as if the cache were still the starting one, which it stays warmed from |
| CoordinateTransform.Transformer.TransformGeometry | frontend/src/utils/coordinateTransform.ts:119-158 | the result equals TransformedGeometry with the starting cache; unknown types leave the cache alone |
| ProjectTypes.LayerPatchLaws | frontend/src/store/slices/mapSlice.ts:49 | spreading an update object is idempotent; an empty update changes nothing; a named field wins |
| ProjectTypes.ApplyLayerPatch | frontend/src/store/slices/mapSlice.ts:49 | `{ ...layer, ...updates }`; its contract is stated by LayerPatchLaws |
| ProjectTypes.ApplyProjectPatch | frontend/src/utils/mockApi.ts:46-48 | `{ ...project, ...updates }`; its contract is stated by ProjectPatchIdempotent and UpdatedProjectFields |
| ProjectTypes.ProjectPatchIdempotent | frontend/src/utils/mockApi.ts:46-50 | spreading the same update twice equals spreading it once |
| MockApi.NewProject | frontend/src/utils/mockApi.ts:22-31 | the input fields are kept; the owner is `mock_user`; layers and flight plans are empty; the two timestamps are the two clock reads; the id is `project_` followed by the decimal digits of the clock value |
| MockApi.UpdatedProjectFields | frontend/src/utils/mockApi.ts:46-50 | `updatedAt` is always the new stamp, even over one in the update; every other field is the spread merge; an empty update changes only the stamp |
| MockApi.UpdatedProject | frontend/src/utils/mockApi.ts:46-50 | the updated project of `updateMockProject`; its contract is stated by UpdatedProjectFields and MockStore.UpdateProject |
| MockApi.AddLayerTouchesTarget | frontend/src/utils/mockApi.ts:225-231 | the layer is appended to the first project with the id, nothing else in it changes, and every other project is unchanged |
| MockApi.ExtensionFrom | frontend/src/utils/mockApi.ts:216 | the backward scan finds where `/\.[^/.]+$/` matches, or shows that it matches nowhere |
| MockApi.StripExtension | frontend/src/utils/mockApi.ts:216 | with no match the name is kept; otherwise it is cut at a match |
| MockApi.ExtensionUnique | frontend/src/utils/mockApi.ts:216 | the expression can match at one place at most |
| MockApi.StripExtensionExamples | frontend/src/utils/mockApi.ts:216 | `roads.geojson` becomes `roads`, `archive.tar.gz` becomes `archive.tar`; `README`, `v1.2/data` and `trailing.` are kept |
| MockApi.NewLayer | frontend/src/utils/mockApi.ts:214-221 | a visible vector layer at opacity 1 holding the data; its name is the file name with the extension stripped, a prefix of the file name; its id is `layer_` followed by the decimal digits of the clock value |
| MockApi.ConversionSource | frontend/src/utils/mockApi.ts:90-145 | never empty and never 4326. With a `crs` member it is the extracted code when that is usable. Without one, it is the code detected from the first feature's sample when usable. It is nothing when the first feature is missing or has no coordinates |
| MockApi.Convertible | frontend/src/utils/mockApi.ts:94 | a code is used exactly when it is truthy and not 4326 |
| MockApi.IsGeoJsonName | frontend/src/utils/mockApi.ts:86 | the case-insensitive `.geojson`/`.json` test; its contract is stated by NameTestIgnoresCase, UpperCaseGeoJsonName and LoadedDataCases |
| MockApi.NameTestIgnoresCase | frontend/src/utils/mockApi.ts:86 | the `.geojson`/`.json` and `.csv` tests give the same answer for two names that differ only in the case of ASCII letters |
| MockApi.UpperCaseGeoJsonName | frontend/src/utils/mockApi.ts:86 | a name with a capitalised extension, `A.GEOJSON`, is a GeoJSON name |
| MockApi.Processed | frontend/src/utils/mockApi.ts:90-184 | the collection after the CRS step; its contract is stated by ProcessedKeepsFeatures, ProcessedCrs, ProcessedIdempotent and ProcessCollection |
| MockApi.ProcessedKeepsFeatures | frontend/src/utils/mockApi.ts:98-111 | feature count and order are kept; type, properties, geometry type and coordinate shape are kept; features without geometry or coordinates pass through unchanged; when a source code is found, each feature's coordinates are TransformedGeometry of its own under the point map from the starting cache |
| MockApi.ProcessedCrs | frontend/src/utils/mockApi.ts:111-119 | with no source code the collection, `crs` included, is untouched; otherwise `crs` becomes the 4326 URN tag |
| MockApi.SourceChoice | frontend/src/utils/mockApi.ts:90-143 | with a `crs` member the features are never inspected; without one, only the first feature is |
| MockApi.Wgs84TagCode | frontend/src/utils/mockApi.ts:114-119 | the rewritten tag names code 4326 |
| MockApi.ProcessedIdempotent | frontend/src/utils/mockApi.ts:90-173 | processing an already processed collection changes nothing, whatever the cache and oracles |
| MockApi.PlaceholderIsGeographic | frontend/src/utils/mockApi.ts:185-211 | the placeholder is one feature, named as given, whose point would never be converted |
| MockApi.Placeholder | frontend/src/utils/mockApi.ts:185-211 | the made-up collection of a CSV or other file; its contract is stated by PlaceholderIsGeographic and LoadedDataCases |
| MockApi.RowsOfLine | frontend/src/utils/mockApi.ts:134-135 | read as `number[][]`, a well-formed line is its list of positions |
| MockApi.SampleOfWellNested | frontend/src/utils/mockApi.ts:129-140 | the sample is the Point, the LineString, a Polygon's outer ring, or a MultiLineString's first line; nothing for MultiPolygon or an unknown type |
| MockApi.SampleCoordinates | frontend/src/utils/mockApi.ts:129-140 | the `coordinatesArray` handed to detection; its contract is stated by SampleOfWellNested and RowsOfLine |
| MockApi.LoadedDataCases | frontend/src/utils/mockApi.ts:71-211 | an error exactly on a read failure, or on a parse failure of a GeoJSON/JSON name; other names get the CSV or generic placeholder; GeoJSON is processed |
| MockApi.LoadedData | frontend/src/utils/mockApi.ts:71-211 | the upload's data before the project lookup; its contract is stated by LoadedDataCases, LoadData and FileConversionSource |
| MockApi.FileConversionSource | frontend/src/utils/mockApi.ts:86-145 | only a read, parsed GeoJSON or JSON file can have a source code, and then it is the collection's ConversionSource |
| MockApi.LoadData | frontend/src/utils/mockApi.ts:71-211 | the imperative read, parse and convert step yields LoadedData with the starting cache; the cache is untouched unless a conversion runs, and then it stays warmed from the start |
| MockApi.ProcessCollection | frontend/src/utils/mockApi.ts:90-184 | the imperative CRS step yields Processed with the starting cache; the cache is untouched without a source code and warmed from the start with one |
| MockApi.TransformFeatures | frontend/src/utils/mockApi.ts:98-111 | the feature loop converts every feature as from the starting cache, which stays warmed |
| MockApi.TransformFeature | frontend/src/utils/mockApi.ts:98-111 | one feature converted part way through the collection comes out as if the cache were still the starting one |
| MockApi.MockStore.constructor | frontend/src/utils/mockApi.ts:7 | memory starts empty and storage holds what an earlier session left |
| MockApi.MockStore.GetProjects | frontend/src/utils/mockApi.ts:9-15 | storage, when present, replaces memory and is returned; storage is unchanged |
| MockApi.MockStore.SaveProjects | frontend/src/utils/mockApi.ts:17-20 | memory and storage both become the list |
| MockApi.MockStore.CreateProject | frontend/src/utils/mockApi.ts:22-38 | exactly one new project is appended at the end of the loaded list and saved |
| MockApi.MockStore.UpdateProject | frontend/src/utils/mockApi.ts:40-56 | null, with storage unchanged, exactly when no project has the id; otherwise only the first match is replaced by the merge, which is returned |
| MockApi.MockStore.DeleteProject | frontend/src/utils/mockApi.ts:58-66 | false, with storage unchanged, exactly when no project has the id; otherwise every project with it is removed and the rest saved |
| MockApi.MockStore.UploadGeospatialData | frontend/src/utils/mockApi.ts:68-238 | a read or parse failure gives the prefixed error with storage unchanged; an unknown project gives `Failed to process file: Project not found` with storage unchanged; otherwise the new layer is returned and appended to exactly that project. The transformer cache changes only by a conversion's lookups |
| MapSlice.MeasurementToggled | frontend/src/store/slices/mapSlice.ts:61-63 | toggling flips the measurement mode |
| MapSlice.MeasurementToggleInvolution | frontend/src/store/slices/mapSlice.ts:61-63 | toggling twice restores the state |
| MapSlice.RemoveLayerLaws | frontend/src/store/slices/mapSlice.ts:52-54 | after removal no layer has the id; every other layer is kept; removing again changes nothing |
| MapSlice.UpdateLayerLaws | frontend/src/store/slices/mapSlice.ts:46-51 | a no-op for an absent id; otherwise only the first layer with the id is merged; the length and the other layers are unchanged |
| MapSlice.MapState.constructor | frontend/src/store/slices/mapSlice.ts:20-31 | the initial state: US-centre viewport at zoom 4, no layers, no selection, no drawing, measurement off, street style |
| MapSlice.MapState.SetViewport | frontend/src/store/slices/mapSlice.ts:37-39 | only the viewport changes |
| MapSlice.MapState.SetLayers | frontend/src/store/slices/mapSlice.ts:40-42 | only the layers change |
| MapSlice.MapState.AddLayer | frontend/src/store/slices/mapSlice.ts:43-45 | the payload is appended and nothing else changes |
| MapSlice.MapState.UpdateLayer | frontend/src/store/slices/mapSlice.ts:46-51 | the layers become the first-match replacement and nothing else changes |
| MapSlice.MapState.RemoveLayer | frontend/src/store/slices/mapSlice.ts:52-54 | the layers become the filtered list and nothing else changes |
| MapSlice.MapState.SetSelectedLayerId | frontend/src/store/slices/mapSlice.ts:55-57 | only the selected layer id changes |
| MapSlice.MapState.SetDrawingMode | frontend/src/store/slices/mapSlice.ts:58-60 | only the drawing mode changes |
| MapSlice.MapState.ToggleMeasurementMode | frontend/src/store/slices/mapSlice.ts:61-63 | the state becomes MeasurementToggled of the old one |
| MapSlice.MapState.SetSelectedFeatures | frontend/src/store/slices/mapSlice.ts:64-66 | only the selected features change |
| MapSlice.MapState.SetMapStyle | frontend/src/store/slices/mapSlice.ts:67-69 | only the map style changes |
| UiSlice.SidebarToggled | frontend/src/store/slices/uiSlice.ts:35-37 | toggling flips the sidebar |
| UiSlice.Flipped | frontend/src/store/slices/uiSlice.ts:66 | the theme always changes |
| UiSlice.ThemeToggled | frontend/src/store/slices/uiSlice.ts:65-67 | toggling changes the theme |
| UiSlice.TogglesAreInvolutions | frontend/src/store/slices/uiSlice.ts:35-67 | each toggle applied twice restores the state, and neither breaks the dialog invariant |
| UiSlice.SeverityOrInfo | frontend/src/store/slices/uiSlice.ts:56 | the given severity, or `info` when absent |
| UiSlice.UiState.constructor | frontend/src/store/slices/uiSlice.ts:17-29 | the initial state holds the dialog invariant |
| UiSlice.UiState.ToggleSidebar | frontend/src/store/slices/uiSlice.ts:35-37 | only the sidebar flag flips; the invariant is kept |
| UiSlice.UiState.SetSidebarOpen | frontend/src/store/slices/uiSlice.ts:38-40 | only the sidebar flag changes; the invariant is kept |
| UiSlice.UiState.SetActivePanel | frontend/src/store/slices/uiSlice.ts:41-43 | only the active panel changes; the invariant is kept |
| UiSlice.UiState.OpenDialog | frontend/src/store/slices/uiSlice.ts:44-47 | open and type are set together, so the invariant holds afterwards |
| UiSlice.UiState.CloseDialog | frontend/src/store/slices/uiSlice.ts:48-51 | closed and null together, so the invariant holds afterwards |
| UiSlice.UiState.ShowSnackbar | frontend/src/store/slices/uiSlice.ts:52-58 | the snackbar opens with the message and the given severity or `info`; nothing else changes |
| UiSlice.UiState.HideSnackbar | frontend/src/store/slices/uiSlice.ts:59-61 | only the open flag is cleared; message and severity stay |
| UiSlice.UiState.SetLoading | frontend/src/store/slices/uiSlice.ts:62-64 | only the loading flag changes |
| UiSlice.UiState.ToggleTheme | frontend/src/store/slices/uiSlice.ts:65-67 | only the theme flips |
| ProjectSlice.SelectedIdOf | frontend/src/store/slices/projectSlice.ts:24 | an id is selected exactly when a project with a non-empty id is given, and it is that id |
| ProjectSlice.ProjectState.constructor | frontend/src/store/slices/projectSlice.ts:11-16 | no current project, no selection, not loading, no error |
| ProjectSlice.ProjectState.SetCurrentProject | frontend/src/store/slices/projectSlice.ts:22-25 | project and selected id are set together; nothing else changes |
| ProjectSlice.ProjectState.SetSelectedProjectId | frontend/src/store/slices/projectSlice.ts:26-28 | only the selected id changes; the current project stays |
| ProjectSlice.ProjectState.SetLoading | frontend/src/store/slices/projectSlice.ts:29-31 | only the loading flag changes |
| ProjectSlice.ProjectState.SetError | frontend/src/store/slices/projectSlice.ts:32-34 | only the error changes |
| ProjectSlice.ProjectState.ClearError | frontend/src/store/slices/projectSlice.ts:35-37 | only the error changes, to null |
| ProjectSlice.SelectionFollowsProject | frontend/src/store/slices/projectSlice.ts:22-28 | after `setCurrentProject` the selection names the project; a later `setSelectedProjectId` can make them disagree; an empty id or no project gives null |

## Left out

- The projection math of `proj4` is the oracle `project`. The transformed value of the 6346 example in the coordinate test therefore cannot be derived.
- The `fetch` to epsg.io is the oracle `net`. A non-OK response and a thrown fetch are the same `None`.
- The floating-point trigonometry of the UTM fallback is the oracle `secant`. JavaScript doubles, NaN and infinities are not modelled; numbers are exact reals.
- `Promise.all` concurrency is run sequentially. Concurrent first-time lookups of the same code, each writing the same key, are not modelled. `Projection.WarmedStable` shows that the per-coordinate results do not depend on the order.
- Logging (`console.log`, `console.warn`, `console.error`) is left out, including the warning about unrecognised large coordinates at frontend/src/utils/mockApi.ts:174-181, which only logs.
- The `fromEPSG` argument of `fallbackTransformation` is never read in its body, so `Projection.Fallback` does not take it.
- `FileReader`, `JSON.parse`, `localStorage` and `Date` are inputs. The upload gets the read and parse outcome as a `FileContent`. Storage holds the decoded project list, and a JSON round trip is taken to be exact. Timestamps and `Date.now()` values are parameters.
- The storage quota and storage exceptions are left out.
- MockApi.UploadGeospatialData: the parsed JSON is assumed to be a feature collection. A document with no `features` array makes the source throw a `TypeError` in the explicit-CRS branch, and the model does not cover that.
- MockApi.SampleCoordinates: an inner array where a position belongs is read as a position without numbers. The source coerces it through `Math.abs` instead, which gives the same null answer except for nested single-number arrays. A LineString whose `coordinates`, or a Polygon or MultiLineString whose first ring or line, is a flat number array makes the source throw inside detection (`const [x, y]` of a number), so the upload fails; the model gives it no sample and no conversion.
- Projection.MapAtDepth: coordinates whose nesting does not match the geometry type are returned unchanged. The source would map over whatever arrays it finds, or throw.
- Text.ToLower lowers ASCII letters only, not the full Unicode case mapping of `toLowerCase`.
- Projection.WarmedStable: assumes the lookup service answers every request for a code the same way. In the source each coordinate of a `Promise.all` starts its own lookup. On a cold cache those fetches can succeed or fail independently, giving a geometry that is partly projected and partly fallback. The model does not capture that.
- Projection.ResolveStep: a code naming an `Object.prototype` member (`EPSG:toString` gives `toString`) is truthy in the plain-object cache and table of the source, so it never reaches the fetch. The model has no prototype keys and sends such a code to the lookup service.
- ProjectTypes.ApplyProjectPatch: `updateMockProject` lets an explicitly `undefined` key overwrite a field. The model treats such a key as absent and keeps the old value.
- ProjectTypes.ApplyLayerPatch: a key that is explicitly `undefined` in an update object is treated as absent. Keys that are not fields of the record, including JavaScript prototype keys, are not represented.
- Feature properties are a map from string to string. Flight-plan routes, schedules, risks and alternatives are untyped in the source and are not represented.
- frontend/src/store/api/projectApi.ts is not part of this model, apart from the record types it declares. Neither are the React components, `store/index.ts` and `App.tsx`.
