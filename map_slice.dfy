/** The `map` slice of the Redux store: the viewport, the layers shown on the
    map, the selection, the drawing and measurement modes and the base map
    style. Each reducer mutates the draft state in place. */
module MapSlice {
  import opened Wrappers
  import opened Lists
  import opened GeoJson
  import P = ProjectTypes

  datatype DrawingMode = NoDrawing | LineDrawing | PolygonDrawing | PointDrawing

  datatype MapStyle = Street | Satellite | TerrainStyle

  datatype Viewport = Viewport(center: (real, real), zoom: real, bounds: Option<((real, real), (real, real))>)

  /** The geographic centre of the United States, as `[lat, lng]`. */
  const InitialViewport := Viewport((39.8283, -98.5795), 4.0, None)

  /** The whole slice state as a value. */
  datatype MapSnapshot = MapSnapshot(viewport: Viewport, layers: seq<P.Layer>, selectedLayerId: Option<string>,
                                     drawingMode: DrawingMode, measurementMode: bool,
                                     selectedFeatures: seq<Feature>, mapStyle: MapStyle)

  const InitialMap := MapSnapshot(InitialViewport, [], None, NoDrawing, false, [], Street)

  function LayerHasId(id: string): P.Layer -> bool
  {
    (l: P.Layer) => l.id == id
  }

  function LayerPatcher(updates: P.LayerPatch): P.Layer -> P.Layer
  {
    (l: P.Layer) => P.ApplyLayerPatch(l, updates)
  }

  /** The state after `toggleMeasurementMode`. */
  function MeasurementToggled(s: MapSnapshot): (r: MapSnapshot)
    ensures r.measurementMode != s.measurementMode
  {
    s.(measurementMode := !s.measurementMode)
  }

  /** Toggling the measurement mode twice restores the state. */
  lemma MeasurementToggleInvolution(s: MapSnapshot)
    ensures MeasurementToggled(MeasurementToggled(s)) == s
  {
  }

  /** After `removeLayer`, no layer has the id, and removing it again changes
      nothing; the layers kept are the ones with other ids. */
  lemma RemoveLayerLaws(layers: seq<P.Layer>, id: string)
    ensures forall l :: l in RemoveWhere(layers, LayerHasId(id)) ==> l.id != id && l in layers
    ensures forall l :: l in layers && l.id != id ==> l in RemoveWhere(layers, LayerHasId(id))
    ensures RemoveWhere(RemoveWhere(layers, LayerHasId(id)), LayerHasId(id)) == RemoveWhere(layers, LayerHasId(id))
  {
    var r := RemoveWhere(layers, LayerHasId(id));
    forall l | l in r ensures l.id != id {
      var j :| 0 <= j < |r| && r[j] == l;
      assert !LayerHasId(id)(r[j]);
    }
    RemoveWhereIdempotent(layers, LayerHasId(id));
  }

  /** `updateLayer` on an id no layer has changes nothing; otherwise only the
      first layer with the id is merged with the updates. */
  lemma UpdateLayerLaws(layers: seq<P.Layer>, id: string, updates: P.LayerPatch)
    ensures (forall j :: 0 <= j < |layers| ==> layers[j].id != id) ==>
              ReplaceFirst(layers, LayerHasId(id), LayerPatcher(updates)) == layers
    ensures var i := FirstIndex(layers, LayerHasId(id));
            var r := ReplaceFirst(layers, LayerHasId(id), LayerPatcher(updates));
            && |r| == |layers|
            && (i >= 0 ==> layers[i].id == id && r[i] == P.ApplyLayerPatch(layers[i], updates))
            && forall j :: 0 <= j < |layers| && j != i ==> r[j] == layers[j]
  {
  }

  class MapState {
    var viewport: Viewport
    var layers: seq<P.Layer>
    var selectedLayerId: Option<string>
    var drawingMode: DrawingMode
    var measurementMode: bool
    var selectedFeatures: seq<Feature>
    var mapStyle: MapStyle

    function Snapshot(): MapSnapshot
      reads this
    {
      MapSnapshot(viewport, layers, selectedLayerId, drawingMode, measurementMode, selectedFeatures, mapStyle)
    }

    /** `initialState`. */
    constructor()
      ensures Snapshot() == InitialMap
    {
      viewport := InitialViewport;
      layers := [];
      selectedLayerId := None;
      drawingMode := NoDrawing;
      measurementMode := false;
      selectedFeatures := [];
      mapStyle := Street;
    }

    method SetViewport(v: Viewport)
      modifies this
      ensures Snapshot() == old(Snapshot()).(viewport := v)
    {
      viewport := v;
    }

    method SetLayers(ls: seq<P.Layer>)
      modifies this
      ensures Snapshot() == old(Snapshot()).(layers := ls)
    {
      layers := ls;
    }

    /** `addLayer`: the payload goes last, the layers before it are kept. */
    method AddLayer(l: P.Layer)
      modifies this
      ensures Snapshot() == old(Snapshot()).(layers := old(layers) + [l])
    {
      layers := layers + [l];
    }

    /** `updateLayer`: merge the updates into the first layer with the id. */
    method UpdateLayer(id: string, updates: P.LayerPatch)
      modifies this
      ensures Snapshot() == old(Snapshot()).(layers := ReplaceFirst(old(layers), LayerHasId(id), LayerPatcher(updates)))
    {
      var index := FirstIndex(layers, LayerHasId(id));
      if index != -1 {
        layers := layers[index := P.ApplyLayerPatch(layers[index], updates)];
      }
    }

    /** `removeLayer`: keep the layers whose id differs. */
    method RemoveLayer(id: string)
      modifies this
      ensures Snapshot() == old(Snapshot()).(layers := RemoveWhere(old(layers), LayerHasId(id)))
    {
      layers := RemoveWhere(layers, LayerHasId(id));
    }

    method SetSelectedLayerId(id: Option<string>)
      modifies this
      ensures Snapshot() == old(Snapshot()).(selectedLayerId := id)
    {
      selectedLayerId := id;
    }

    method SetDrawingMode(mode: DrawingMode)
      modifies this
      ensures Snapshot() == old(Snapshot()).(drawingMode := mode)
    {
      drawingMode := mode;
    }

    method ToggleMeasurementMode()
      modifies this
      ensures Snapshot() == MeasurementToggled(old(Snapshot()))
    {
      measurementMode := !measurementMode;
    }

    method SetSelectedFeatures(features: seq<Feature>)
      modifies this
      ensures Snapshot() == old(Snapshot()).(selectedFeatures := features)
    {
      selectedFeatures := features;
    }

    method SetMapStyle(style: MapStyle)
      modifies this
      ensures Snapshot() == old(Snapshot()).(mapStyle := style)
    {
      mapStyle := style;
    }
  }
}
