/** MapHelper: which marker each overlay item gets, the item list of the
    "my location" overlay and of the track overlay, and the point list of
    the track's path. Drawables are the constants of Marker; an overlay is
    the sequence of its (position, marker) items. */
module MapMarkers {
  import opened TrackData

  /** The marker drawables (R.drawable.ic_my_location_*_24dp). */
  datatype Marker =
    | DotBlue       // dot_blue
    | DotRedGrey    // dot_red_grey
    | DotBlueGrey   // dot_blue_grey
    | DotRed        // dot_red
    | CrumbGrey     // crumb_grey
    | CrumbRed      // crumb_red
    | CrumbBlue     // crumb_blue

  predicate IsDot(m: Marker)
  {
    m.DotBlue? || m.DotRedGrey? || m.DotBlueGrey? || m.DotRed?
  }

  /** An osmdroid OverlayItem with its marker set; its title and snippet are
      display text and are not modelled. */
  datatype OverlayItem = OverlayItem(position: GeoPoint, marker: Marker)

  /** createOverlayItem followed by setMarker: an item at the fix's position. */
  function CreateOverlayItem(location: Location, marker: Marker): (item: OverlayItem)
    ensures item.position.latitude == location.latitude
    ensures item.position.longitude == location.longitude
    ensures item.marker == marker
  {
    OverlayItem(PositionOf(location), marker)
  }

  /** The marker of the "my location" overlay. */
  function MyLocationMarker(locationIsNew: bool, trackingActive: bool): (m: Marker)
    ensures m == DotBlue <==> locationIsNew && !trackingActive
    ensures m == DotRedGrey <==> !locationIsNew && trackingActive
    ensures m == DotBlueGrey <==> locationIsNew == trackingActive
  {
    if locationIsNew && !trackingActive then DotBlue
    else if !locationIsNew && trackingActive then DotRedGrey
    else DotBlueGrey
  }

  /** createMyLocationOverlay: a single item at the fix. */
  function MyLocationOverlay(currentBestLocation: Location, locationIsNew: bool, trackingActive: bool): (items: seq<OverlayItem>)
    ensures |items| == 1
    ensures items[0].position == PositionOf(currentBestLocation)
    ensures IsDot(items[0].marker) && items[0].marker == MyLocationMarker(locationIsNew, trackingActive)
  {
    [CreateOverlayItem(currentBestLocation, MyLocationMarker(locationIsNew, trackingActive))]
  }

  /** The marker of a way-point in the track overlay: every marker is
      characterised by exactly the inputs that select it. */
  function TrackMarker(trackingActive: bool, currentPosition: bool, stopOver: bool): (m: Marker)
    ensures IsDot(m) <==> trackingActive && currentPosition
    ensures m == DotRed <==> trackingActive && currentPosition && !stopOver
    ensures m == DotBlueGrey <==> trackingActive && currentPosition && stopOver
    ensures m == CrumbGrey <==> !currentPosition && stopOver
    ensures m == CrumbRed <==> trackingActive && !currentPosition && !stopOver
    ensures m == CrumbBlue <==> !trackingActive && (currentPosition || !stopOver)
    ensures m != DotBlue && m != DotRedGrey
  {
    if trackingActive && !currentPosition then
      (if stopOver then CrumbGrey else CrumbRed)
    else if trackingActive && currentPosition then
      (if stopOver then DotBlueGrey else DotRed)
    else if !trackingActive && !currentPosition then
      (if stopOver then CrumbGrey else CrumbBlue)
    else
      CrumbBlue
  }

  /** The items createTrackOverlay builds: way-point i at its position, with
      the marker for "current position" meaning i is the last index. */
  function TrackOverlay(wayPoints: seq<WayPoint>, trackingActive: bool): (items: seq<OverlayItem>)
    ensures |items| == |wayPoints|
  {
    seq(|wayPoints|, i requires 0 <= i < |wayPoints| =>
      CreateOverlayItem(wayPoints[i].location,
                        TrackMarker(trackingActive, i == |wayPoints| - 1, wayPoints[i].isStopOver)))
  }

  /** createTrackOverlay: one item added per way-point, in order. */
  method CreateTrackOverlay(track: Track, trackingActive: bool) returns (overlayItems: seq<OverlayItem>)
    ensures overlayItems == TrackOverlay(track.wayPoints, trackingActive)
  {
    var wayPoints := track.wayPoints;
    var trackSize := |wayPoints|;
    overlayItems := [];
    var i := 0;
    while i < |wayPoints|
      invariant 0 <= i <= trackSize
      invariant overlayItems == TrackOverlay(wayPoints, trackingActive)[..i]
    {
      var wayPoint := wayPoints[i];
      var currentPosition := i == trackSize - 1;
      var newMarker := TrackMarker(trackingActive, currentPosition, wayPoint.isStopOver);
      overlayItems := overlayItems + [CreateOverlayItem(wayPoint.location, newMarker)];
      i := i + 1;
    }
  }

  /** The path createOverlayPath draws: each way-point's position, in order. */
  function OverlayPath(wayPoints: seq<WayPoint>): (path: seq<GeoPoint>)
    ensures |path| == |wayPoints|
  {
    seq(|wayPoints|, i requires 0 <= i < |wayPoints| => PositionOf(wayPoints[i].location))
  }

  /** createOverlayPath: one polyline point added per way-point. */
  method CreateOverlayPath(track: Track) returns (path: seq<GeoPoint>)
    ensures path == OverlayPath(track.wayPoints)
  {
    path := [];
    var i := 0;
    while i < |track.wayPoints|
      invariant 0 <= i <= |track.wayPoints|
      invariant path == OverlayPath(track.wayPoints)[..i]
    {
      var location := track.wayPoints[i].location;
      var latitude := location.latitude;
      var longitude := location.longitude;
      path := path + [GeoPoint(latitude, longitude)];
      i := i + 1;
    }
  }

  // ---------------------------------------------------------------------
  // What the overlays show

  /** Item i of the track overlay sits at way-point i, and the path point i
      is the same position: the crumbs lie on the drawn path. */
  lemma OverlayFollowsPath(wayPoints: seq<WayPoint>, trackingActive: bool)
    ensures |TrackOverlay(wayPoints, trackingActive)| == |OverlayPath(wayPoints)| == |wayPoints|
    ensures forall i :: 0 <= i < |wayPoints| ==>
      && TrackOverlay(wayPoints, trackingActive)[i].position == OverlayPath(wayPoints)[i]
      && OverlayPath(wayPoints)[i] == GeoPoint(wayPoints[i].location.latitude, wayPoints[i].location.longitude)
  {
  }

  /** For a non-empty track, while tracking exactly the last item is a dot;
      otherwise none is. An empty track has no items at all. */
  lemma OnlyCurrentPositionIsDot(wayPoints: seq<WayPoint>, trackingActive: bool, i: int)
    requires 0 <= i < |wayPoints|
    ensures IsDot(TrackOverlay(wayPoints, trackingActive)[i].marker) <==> trackingActive && i == |wayPoints| - 1
  {
  }

  /** Stop-overs show as grey crumbs, except at the last point; no other
      point is grey. */
  lemma StopOversAreGrey(wayPoints: seq<WayPoint>, trackingActive: bool, i: int)
    requires 0 <= i < |wayPoints|
    ensures TrackOverlay(wayPoints, trackingActive)[i].marker == CrumbGrey
            <==> wayPoints[i].isStopOver && i < |wayPoints| - 1
  {
  }

  /** An empty track gives an empty overlay and an empty path. */
  lemma EmptyTrackOverlay(trackingActive: bool)
    ensures TrackOverlay([], trackingActive) == [] && OverlayPath([]) == []
  {
  }
}
