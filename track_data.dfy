/** Values shared by the exporter, the map helpers and the map fragment:
    Android's Location, Trackbook's WayPoint and Track, and osmdroid's GeoPoint.
    Doubles are modelled as reals; how they are printed is left to the caller. */
module TrackData {

  datatype Option<+T> = None | Some(value: T)

  /** Provider tags of android.location.LocationManager. */
  const GpsProvider: string := "gps"
  const NetworkProvider: string := "network"

  /** One fix as android.location.Location carries it: `time` is UTC epoch
      milliseconds, `elapsedRealtimeNanos` the monotonic boot clock. */
  datatype Location = Location(
    provider: string,
    latitude: real,
    longitude: real,
    altitude: real,
    accuracy: real,
    time: int,
    elapsedRealtimeNanos: int)

  /** A fix promoted into a track, with the recorder's stop-over flag. */
  datatype WayPoint = WayPoint(location: Location, isStopOver: bool)

  /** A recording: the way-points in recording order and the summary fields
      the exporter must not depend on (apart from the recording start). */
  datatype Track = Track(
    wayPoints: seq<WayPoint>,
    recordingStart: int,
    recordingStop: int,
    stepCount: int,
    trackName: string)

  /** osmdroid's GeoPoint: a latitude/longitude pair on the map. */
  datatype GeoPoint = GeoPoint(latitude: real, longitude: real)

  /** The map position of a fix (`new GeoPoint(lat, lon)`). */
  function PositionOf(l: Location): GeoPoint
  {
    GeoPoint(l.latitude, l.longitude)
  }

  /** A fresh `new Location(NETWORK_PROVIDER)` moved to the given position;
      every other field keeps Android's zero default. */
  function NetworkLocationAt(p: GeoPoint): (l: Location)
    ensures l.provider == NetworkProvider && PositionOf(l) == p
    ensures l.time == 0 && l.altitude == 0.0 && l.accuracy == 0.0
  {
    Location(NetworkProvider, p.latitude, p.longitude, 0.0, 0.0, 0, 0)
  }
}
