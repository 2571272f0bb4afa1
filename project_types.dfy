/** The records the project store and the Redux slices hold: projects, their
    layers and flight plans, and the partial records used to update them. */
module ProjectTypes {
  import opened Wrappers
  import opened GeoJson

  datatype LayerType = Vector | Raster | Terrain

  datatype Layer = Layer(id: string, name: string, kind: LayerType, visible: bool, opacity: real,
                         data: FeatureCollection)

  /** `Partial<Layer>`: a field is `Some` when the update object has that key. */
  datatype LayerPatch = LayerPatch(id: Option<string>, name: Option<string>, kind: Option<LayerType>,
                                   visible: Option<bool>, opacity: Option<real>,
                                   data: Option<FeatureCollection>)

  /** A flight plan; its route, schedule, risks and alternatives are untyped
      in the source and are not represented. */
  datatype FlightPlan = FlightPlan(id: string, name: string, efficiency: real)

  datatype DateRange = DateRange(start: string, end: string)

  datatype Units = Metric | Imperial

  datatype Settings = Settings(mapCenter: (real, real), mapZoom: real, units: Units)

  datatype Project = Project(id: string, name: string, description: string,
                             createdAt: string, updatedAt: string, owner: string,
                             dateRange: DateRange, boundingBox: seq<real>,
                             layers: seq<Layer>, flightPlans: seq<FlightPlan>,
                             settings: Settings)

  /** What `createMockProject` is given: a project without its id, timestamps,
      owner, layers and flight plans. */
  datatype ProjectInput = ProjectInput(name: string, description: string, dateRange: DateRange,
                                       boundingBox: seq<real>, settings: Settings)

  /** `Partial<Project>`. */
  datatype ProjectPatch = ProjectPatch(id: Option<string>, name: Option<string>,
                                       description: Option<string>, createdAt: Option<string>,
                                       updatedAt: Option<string>, owner: Option<string>,
                                       dateRange: Option<DateRange>, boundingBox: Option<seq<real>>,
                                       layers: Option<seq<Layer>>, flightPlans: Option<seq<FlightPlan>>,
                                       settings: Option<Settings>)

  function Or<T>(o: Option<T>, d: T): T
  {
    if o.Some? then o.value else d
  }

  /** `{ ...l, ...patch }`. */
  function ApplyLayerPatch(l: Layer, patch: LayerPatch): Layer
  {
    Layer(Or(patch.id, l.id), Or(patch.name, l.name), Or(patch.kind, l.kind),
          Or(patch.visible, l.visible), Or(patch.opacity, l.opacity), Or(patch.data, l.data))
  }

  /** `{ ...p, ...patch }`. */
  function ApplyProjectPatch(p: Project, patch: ProjectPatch): Project
  {
    Project(Or(patch.id, p.id), Or(patch.name, p.name), Or(patch.description, p.description),
            Or(patch.createdAt, p.createdAt), Or(patch.updatedAt, p.updatedAt), Or(patch.owner, p.owner),
            Or(patch.dateRange, p.dateRange), Or(patch.boundingBox, p.boundingBox),
            Or(patch.layers, p.layers), Or(patch.flightPlans, p.flightPlans),
            Or(patch.settings, p.settings))
  }

  const EmptyLayerPatch := LayerPatch(None, None, None, None, None, None)

  /** Spreading an update object is idempotent, an empty update changes
      nothing, and the fields the update names are the ones the result has. */
  lemma LayerPatchLaws(l: Layer, patch: LayerPatch)
    ensures ApplyLayerPatch(ApplyLayerPatch(l, patch), patch) == ApplyLayerPatch(l, patch)
    ensures ApplyLayerPatch(l, EmptyLayerPatch) == l
    ensures patch.id.Some? ==> ApplyLayerPatch(l, patch).id == patch.id.value
    ensures patch.id.None? ==> ApplyLayerPatch(l, patch).id == l.id
  {
  }

  lemma ProjectPatchIdempotent(p: Project, patch: ProjectPatch)
    ensures ApplyProjectPatch(ApplyProjectPatch(p, patch), patch) == ApplyProjectPatch(p, patch)
  {
  }
}
