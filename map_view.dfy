/**
 * The map side of the page: the vector source that holds the drawn
 * location, the view that is asked to fit it, and the two closures of
 * `main` that act on them, `updateLocation` and `zoomIn`. Geometries are
 * kept symbolic: the circle polygon, the projection into display
 * coordinates and the tile layers are not modelled.
 */
module MapView {

  /** A position in degrees, longitude first, as the map library's `[lon, lat]` pairs. */
  datatype Coordinate = Coordinate(lon: real, lat: real)

  /** The two geometries the page draws. */
  datatype Geometry =
    | AccuracyRegion(center: Coordinate, radius: real)  // a circle of `radius` metres around `center`
    | Point(center: Coordinate)

  datatype Feature = Feature(geometry: Geometry)

  /** The extent a source reports: here, the features it covers. */
  datatype Extent = ExtentOf(features: seq<Feature>)

  /** One call of the view's `fit`: the extent and the two options the page passes. */
  datatype FitRequest = FitRequest(extent: Extent, maxZoom: int, duration: int)

  /** The options `zoomIn` passes to `fit`: zoom no further than level 18, animate for 500 ms. */
  const MaxFitZoom: int := 18
  const FitDurationMs: int := 500

  /** The layer's vector source: a list of features that is cleared and added to. */
  class VectorSource {
    var features: seq<Feature>

    constructor ()
      ensures features == []
    {
      features := [];
    }

    /** `isEmpty()`: whether the source holds no feature at all. */
    function IsEmpty(): (b: bool)
      reads this
      ensures b <==> |features| == 0
    {
      features == []
    }

    /** `getExtent()`: the extent covering exactly the features held, each as often as it is held. */
    function GetExtent(): (e: Extent)
      reads this
      ensures multiset(e.features) == multiset(features)
    {
      ExtentOf(features)
    }

    method Clear()
      modifies this
      ensures features == []
    {
      features := [];
    }

    method AddFeatures(fs: seq<Feature>)
      modifies this
      ensures features == old(features) + fs
    {
      features := features + fs;
    }
  }

  /** The map's view, reduced to the record of the `fit` calls made on it. */
  class View {
    var fits: seq<FitRequest>

    constructor ()
      ensures fits == []
    {
      fits := [];
    }

    method Fit(extent: Extent, maxZoom: int, duration: int)
      modifies this
      ensures fits == old(fits) + [FitRequest(extent, maxZoom, duration)]
    {
      fits := fits + [FitRequest(extent, maxZoom, duration)];
    }
  }

  /** One location on display: an accuracy region followed by a point, both at the same centre. */
  predicate DisplaysOneLocation(fs: seq<Feature>) {
    && |fs| == 2
    && fs[0].geometry.AccuracyRegion?
    && fs[1].geometry.Point?
    && fs[0].geometry.center == fs[1].geometry.center
  }

  /** What the source may hold between updates: nothing yet, or one location. */
  predicate ValidDisplay(fs: seq<Feature>) {
    fs == [] || DisplaysOneLocation(fs)
  }

  /**
   * The features `updateLocation(lat, lon, acc)` draws: the accuracy circle
   * of radius `acc`, then the marker, both centred at longitude `lon` and
   * latitude `lat` (the coordinate pair is longitude first).
   */
  function LocationFeatures(lat: real, lon: real, acc: real): (fs: seq<Feature>)
    ensures DisplaysOneLocation(fs)
    ensures fs[1].geometry.center.lon == lon && fs[1].geometry.center.lat == lat
    ensures fs[0].geometry.radius == acc
  {
    var coords := Coordinate(lon, lat);
    [Feature(AccuracyRegion(coords, acc)), Feature(Point(coords))]
  }

  /** Different locations are drawn differently: the display determines latitude, longitude and accuracy. */
  lemma LocationFeaturesInjective(lat: real, lon: real, acc: real, lat': real, lon': real, acc': real)
    requires LocationFeatures(lat, lon, acc) == LocationFeatures(lat', lon', acc')
    ensures lat == lat' && lon == lon' && acc == acc'
  {
    var fs := LocationFeatures(lat, lon, acc);
    assert fs[0].geometry == AccuracyRegion(Coordinate(lon, lat), acc);
  }

  /** Every valid display of one location is the one `LocationFeatures` draws for its centre and radius. */
  lemma DisplayIsLocationFeatures(fs: seq<Feature>)
    requires DisplaysOneLocation(fs)
    ensures fs == LocationFeatures(fs[1].geometry.center.lat, fs[1].geometry.center.lon, fs[0].geometry.radius)
  {
    var c := fs[1].geometry.center;
    assert fs[0] == Feature(AccuracyRegion(c, fs[0].geometry.radius));
    assert fs[1] == Feature(Point(c));
  }

  /** The map as `main` builds it: one vector source on a layer, and the view. */
  class MapSession {
    const source: VectorSource
    const view: View

    ghost predicate Valid()
      reads this, source
    {
      ValidDisplay(source.features)
    }

    constructor ()
      ensures fresh(source) && fresh(view)
      ensures source.features == [] && view.fits == []
      ensures Valid()
    {
      source := new VectorSource();
      view := new View();
    }

    /**
     * `updateLocation`: clear the source, then add the accuracy region and
     * the marker; the previous location is gone and the display stays valid.
     */
    method UpdateLocation(lat: real, lon: real, acc: real)
      modifies source
      ensures source.features == LocationFeatures(lat, lon, acc)
      ensures Valid()
    {
      source.Clear();
      source.AddFeatures(LocationFeatures(lat, lon, acc));
    }

    /**
     * `zoomIn`: when the source holds anything, ask the view exactly once to
     * fit its extent with zoom at most 18 over 500 ms; otherwise do nothing.
     */
    method ZoomIn()
      modifies view
      ensures source.features == [] ==> view.fits == old(view.fits)
      ensures source.features != [] ==>
        view.fits == old(view.fits) + [FitRequest(ExtentOf(source.features), MaxFitZoom, FitDurationMs)]
    {
      if !source.IsEmpty() {
        view.Fit(source.GetExtent(), MaxFitZoom, FitDurationMs);
      }
    }
  }
}
