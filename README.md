# Trackbook: GPX export, map markers and the map fragment's tracking state

Trackbook is an Android app that records the way-points of a movement
(a *track*) and shows them on an osmdroid map. This project models three
parts of it in Dafny and proves what they promise:

- **GPX export** (`ExportHelper`). `createGpxString` and `addTrack` build,
  from a track, a document that declares GPX 1.1. Each `<trkpt>` carries
  `<time>` before `<ele>`. This is the source's order, and the model keeps
  it; the published GPX 1.1 schema lists `ele` before `time`. The document
  has a fixed header, one
  `<trk>` with the name "Trackbook Recording" and one `<trkseg>`, then one
  `<trkpt>` block per way-point holding its latitude, longitude, UTC time
  and altitude, and finally the closing tags. `createFile` names the export
  file after the recording start, as `yyyy-MM-dd-HH-mm-ss.gpx`.
  - `gpx_layout.dfy` describes the document over any set of tag strings (`Markup`).
    It also gives a reader for such documents and proves that the reader gives back
    the block texts.
  - `gpx_export.dfy` fills `Markup` with the app's own literals. It writes
    `addTrack`/`createGpxString` as the appending loops they are, and proves
    them equal to that document.
  - `civil_time.dfy` and `timestamp_format.dfy` model the two
    `SimpleDateFormat` patterns in the proleptic Gregorian calendar. The
    `yyyy-MM-dd'T'HH:mm:ss'Z'` pattern is in UTC, and `yyyy-MM-dd-HH-mm-ss`
    is in the device zone at a given offset. Both are proved to read back
    as the instant to the second.
- **Map markers** (`MapHelper`, in `map_markers.dfy`). This covers the drawable
  chosen for the "my location" overlay and for each way-point of a track
  overlay. It also covers the item list of both overlays, with each item's
  position, and the point list of the track's polyline.
- **The map fragment** (`MainActivityMapFragment`, in `map_fragment.dfy`).
  This is a class with the fragment's fields:
  - the tracker-service flag, the local-tracking flag, the location setting,
    visibility and the all-tracks flag;
  - the best fix;
  - the overlays it keeps, the track overlays on the map (oldest first),
    the tracks cache and the listener fields, with a ghost log of the
    listener registrations and removals.

  Its methods follow the lifecycle and the handlers one by one. The class
  invariant `Valid()` says three things: a fix is always held, local
  listeners run only while the setting is on, the fragment is visible and
  the tracker service is off, and a "my location" marker on the map shows
  the held fix. The lifecycle methods, the handlers and the callbacks keep
  this invariant: `OnResume`, `OnPause`, `SetTrackingState`,
  `HandleShowMyLocation`, `HandleToggleTracks`, `OnLocationChanged` and
  `OnSettingsChange`. The private helpers they call (such as
  `StartPreliminaryTracking` and `ToggleLocationOffBar`) can leave it
  broken on their own; their callers restore it.

Calls whose bodies are not part of this model become parameters:
- `Double.toString` becomes `doubleToString`. The only thing assumed about
  it (`PlainNumbers`) is that it never prints `"` or `<`.
- The device time-zone offset becomes `zoneOffsetMs`.
- `LocationHelper.isBetterLocation` and `isCurrent` become `LocationOracle`.
- `checkLocationSystemSetting`, `getProviders`/`getAllProviders`,
  `determineLastKnownLocation`, the tracker-service preference, the stored
  tracks and the current `mTrack` are passed in as values.
- `DEFAULT_LATITUDE`/`DEFAULT_LONGITUDE` become `defaultPosition`.

## Model

| member | source | states |
|---|---|---|
| GpxExport.AddTrack | app/src/main/java/org/y20k/trackbook/helpers/ExportHelper.java:226-275 | The text built by the append loop is the track section: the `<trk>`/name/`<trkseg>` opening, then one `<trkpt>` block per way-point in list order, then `</trkseg>` and `</trk>`. |
| GpxExport.CreateGpxString | app/src/main/java/org/y20k/trackbook/helpers/ExportHelper.java:206-222 | The result is the header, then the track section, then `</gpx>`, i.e. the GPX document of the track's way-points. |
| GpxExport.GpxReadsBack | app/src/main/java/org/y20k/trackbook/helpers/ExportHelper.java:206-275 | Reading the generated document gives back exactly the way-points' texts (lat, lon, time, ele), in order. The header, name and closing tags are as written. |
| GpxExport.GpxHasOneBlockPerWayPoint | app/src/main/java/org/y20k/trackbook/helpers/ExportHelper.java:243-266 | There are as many blocks as way-points. Block i holds way-point i's `Double.toString` latitude, longitude and altitude, and its UTC time text. |
| GpxExport.GpxTimesReadBack | app/src/main/java/org/y20k/trackbook/helpers/ExportHelper.java:228-229 | Each block's `<time>` parses in the `yyyy-MM-dd'T'HH:mm:ss'Z'` layout back to the way-point's own time, in UTC seconds. |
| GpxExport.EmptyTrackDocument | app/src/main/java/org/y20k/trackbook/helpers/ExportHelper.java:232-272 | A track without way-points gives header, opening, `</trkseg>`, `</trk>`, `</gpx>` with no block between, and reads back as no blocks. |
| GpxExport.GpxDependsOnlyOnWayPoints | app/src/main/java/org/y20k/trackbook/helpers/ExportHelper.java:206-275 | Tracks with equal way-point lists give equal documents: nothing else of the track and no clock enters the GPX text. |
| GpxExport.FileNameReadsBack | app/src/main/java/org/y20k/trackbook/helpers/ExportHelper.java:169-174 | The file name is 23 characters, ends in ".gpx", and its first 19 characters parse in `yyyy-MM-dd-HH-mm-ss` back to the local recording start, to the second. |
| GpxExport.CreateFile | app/src/main/java/org/y20k/trackbook/helpers/ExportHelper.java:169-174 | The file lies in the given folder, and its name is at least 23 characters ending in ".gpx"; its read-back is stated by FileNameReadsBack. |
| GpxExport.FileDependsOnlyOnStart | app/src/main/java/org/y20k/trackbook/helpers/ExportHelper.java:169-174 | Tracks with the same recording start get the same file, whatever their way-points. |
| GpxLayout.DocumentReadsBack | app/src/main/java/org/y20k/trackbook/helpers/ExportHelper.java:243-266 | For any tag set whose delimiters separate the fields, reading a document back gives the block texts it was built from, if no field contains its closing delimiter. |
| GpxLayout.DocumentFrame | app/src/main/java/org/y20k/trackbook/helpers/ExportHelper.java:210-219 | A document starts with the header and ends with the footer, and what lies between is the track section. |
| TimestampFormat.FormatUtc | app/src/main/java/org/y20k/trackbook/helpers/ExportHelper.java:228-229 | The UTC time text of an instant is at least 20 characters and ends in `Z`; its read-back is stated by FormatUtcReadsBack. |
| TimestampFormat.StampRoundTrip | app/src/main/java/org/y20k/trackbook/helpers/ExportHelper.java:170-173 | A date-time stamp (4-digit year, 2-digit fields) is 19 characters plus the layout's suffix, and parses back to the instant, to the second, for years 1 to 9999. |
| TimestampFormat.FormatUtcReadsBack | app/src/main/java/org/y20k/trackbook/helpers/ExportHelper.java:228-229 | For instants in years 1 to 9999, the UTC time text is 20 characters and parses back to the instant, to the second. |
| CivilTime.CivilFromDays | app/src/main/java/org/y20k/trackbook/helpers/ExportHelper.java:228-229 | The calendar date of a day count is a valid Gregorian date that counts back to the same number of days. |
| CivilTime.DateTimeOf | app/src/main/java/org/y20k/trackbook/helpers/ExportHelper.java:228-229 | Splitting epoch milliseconds gives a valid date and time of day whose epoch second is the milliseconds floored to seconds. |
| MapMarkers.CreateOverlayItem | app/src/main/java/org/y20k/trackbook/helpers/MapHelper.java:179-187 | The item sits at the fix's latitude and longitude and carries the given marker. |
| MapMarkers.MyLocationMarker | app/src/main/java/org/y20k/trackbook/helpers/MapHelper.java:59-65 | The marker is blue iff the fix is new and not tracking, red-grey iff it is old and tracking, and blue-grey iff both flags agree. |
| MapMarkers.MyLocationOverlay | app/src/main/java/org/y20k/trackbook/helpers/MapHelper.java:53-89 | There is exactly one item. It is at the fix and carries that dot marker. |
| MapMarkers.TrackMarker | app/src/main/java/org/y20k/trackbook/helpers/MapHelper.java:108-147 | There are four cases. A dot appears iff tracking and at the current position (red, or blue-grey at a stop-over). A grey crumb appears iff not current and a stop-over. A red crumb appears iff tracking, not current and not a stop-over. A blue crumb appears iff not tracking and current or not a stop-over. The my-location-only markers never appear. |
| MapMarkers.TrackOverlay | app/src/main/java/org/y20k/trackbook/helpers/MapHelper.java:93-175 | There is one item per way-point. |
| MapMarkers.CreateTrackOverlay | app/src/main/java/org/y20k/trackbook/helpers/MapHelper.java:93-155 | The loop adds item i at way-point i with the marker for "current position" meaning i is the last index. |
| MapMarkers.OverlayPath | app/src/main/java/org/y20k/trackbook/helpers/MapHelper.java:192-219 | There is one path point per way-point. |
| MapMarkers.CreateOverlayPath | app/src/main/java/org/y20k/trackbook/helpers/MapHelper.java:192-207 | The loop adds way-point i's latitude and longitude as point i. |
| MapMarkers.OverlayFollowsPath | app/src/main/java/org/y20k/trackbook/helpers/MapHelper.java:101-207 | Overlay item i and path point i are both way-point i's position, and the two lists are as long as the track. |
| MapMarkers.OnlyCurrentPositionIsDot | app/src/main/java/org/y20k/trackbook/helpers/MapHelper.java:101-147 | Item i is a dot iff tracking is active and i is the last index: for a non-empty track, while tracking exactly the last item is a dot, otherwise none. An empty track has no items. |
| MapMarkers.StopOversAreGrey | app/src/main/java/org/y20k/trackbook/helpers/MapHelper.java:101-147 | Item i is a grey crumb iff way-point i is a stop-over and not the last one. |
| MapMarkers.EmptyTrackOverlay | app/src/main/java/org/y20k/trackbook/helpers/MapHelper.java:101-207 | An empty track gives no overlay items and no path points. |
| MapFragment.InitialBestLocation | app/src/main/java/org/y20k/trackbook/MainActivityMapFragment.java:136-156 | The start fix is one of three. If a saved fix exists and is still current, it is that fix. Otherwise, if some provider is enabled and a last known fix exists, it is that fix. Otherwise (no provider enabled, or no last known fix) it is a network fix at the default position. |
| MapFragment.DrawnTrackOverlay | app/src/main/java/org/y20k/trackbook/MainActivityMapFragment.java:599-613 | An empty track is drawn as the "my location" marker (not new) at the held fix; a track with points as one item per way-point. |
| MapFragment.DrawnOverlays | app/src/main/java/org/y20k/trackbook/MainActivityMapFragment.java:615-628 | Drawing a list of tracks gives one overlay per track. |
| MapFragment.DrawnOverlaysSnoc | app/src/main/java/org/y20k/trackbook/MainActivityMapFragment.java:624-626 | Drawing one more track appends exactly its overlay after the overlays already drawn. |
| MapFragment.MapFragment.OnCreate | app/src/main/java/org/y20k/trackbook/MainActivityMapFragment.java:115-160 | The tracker flag comes from the preference, the best fix comes from the fallback chain and so is never missing, and the setting is read. The fragment is not tracking locally, not visible and shows no overlay. |
| MapFragment.MapFragment.OnResume | app/src/main/java/org/y20k/trackbook/MainActivityMapFragment.java:236-283 | The fragment becomes visible with the all-tracks flag reset. The tracker flag and setting are re-read. Local tracking runs iff the service is off, the setting is on and GPS or network is among the providers. In that case a listener is created per available provider and one registration is logged; otherwise the listener fields and the log are unchanged. |
| MapFragment.MapFragment.OnPause | app/src/main/java/org/y20k/trackbook/MainActivityMapFragment.java:287-298 | The fragment is invisible and local tracking is off. One removal of both listeners is logged iff local tracking was on. The listener fields and everything else are unchanged. |
| MapFragment.MapFragment.ToggleLocationOffBar | app/src/main/java/org/y20k/trackbook/MainActivityMapFragment.java:648-669 | The setting is re-read, and the result reports whether it is off. |
| MapFragment.MapFragment.StartPreliminaryTracking | app/src/main/java/org/y20k/trackbook/MainActivityMapFragment.java:529-545 | If the setting is off or local tracking already runs, nothing changes. Otherwise a listener is created per available provider, local tracking runs iff GPS or network is available, and both listener fields are registered. |
| MapFragment.MapFragment.StopPreliminaryTracking | app/src/main/java/org/y20k/trackbook/MainActivityMapFragment.java:549-556 | Local tracking is off afterwards. Listeners are removed only if it was on, so a second stop changes nothing. |
| MapFragment.MapFragment.UpdateMyLocationMarker | app/src/main/java/org/y20k/trackbook/MainActivityMapFragment.java:588-595 | While the service is off, the map shows a marker at the held fix (new iff `isCurrent`, not tracking). While it is on, no marker is shown. |
| MapFragment.MapFragment.DrawTrackOverlay | app/src/main/java/org/y20k/trackbook/MainActivityMapFragment.java:599-613 | The track overlay becomes the drawn overlay of the track under the service flag. It is added on top of the overlays already on the map; none is removed. Nothing else changes. |
| MapFragment.MapFragment.SwitchPreliminaryTracking | app/src/main/java/org/y20k/trackbook/MainActivityMapFragment.java:382-389 | The service flag is set. If it is on, local tracking stops, the listener fields are unchanged and a removal is logged iff local tracking was on. If it is off and local tracking was off with the fragment visible and the setting on, listeners are created per available provider and one registration is logged. Otherwise nothing changes. The listener invariant is kept. |
| MapFragment.MapFragment.SetTrackingState | app/src/main/java/org/y20k/trackbook/MainActivityMapFragment.java:382-399 | The service flag is set, and the listeners are switched as above. The current track (if any) is redrawn and added on top of the map's track overlays. The marker is shown iff the service is off; while the service runs the marker overlay is kept as it was. |
| MapFragment.MapFragment.GetCurrentBestLocation | app/src/main/java/org/y20k/trackbook/MainActivityMapFragment.java:403-409 | The held fix while the setting is on, and no fix while it is off. |
| MapFragment.MapFragment.HandleShowMyLocation | app/src/main/java/org/y20k/trackbook/MainActivityMapFragment.java:413-456 | With the setting off, local tracking stops (a removal is logged iff it was on), the fix and marker are unchanged and the result is false. Otherwise the result is true and the listeners are untouched. The held fix becomes the recording's last way-point while the service runs with a non-empty track, and the marker is refreshed: shown iff the service is off, with the marker overlay kept as it was while the service runs. |
| MapFragment.MapFragment.DisplayAllTracks | app/src/main/java/org/y20k/trackbook/MainActivityMapFragment.java:615-628 | The cache is loaded only when empty. Every cached track is drawn in order: the map's track overlays are the old ones followed by one drawn overlay per cached track, so overlays accumulate. The overlay reference ends on the last one drawn. |
| MapFragment.MapFragment.ClearAllTracks | app/src/main/java/org/y20k/trackbook/MainActivityMapFragment.java:497-510 | The map is emptied (no "my location" marker). The overlay is a single non-new dot at the held fix under the service flag, and it is the only track overlay on the map. |
| MapFragment.MapFragment.HandleToggleTracks | app/src/main/java/org/y20k/trackbook/MainActivityMapFragment.java:458-472 | The all-tracks flag is negated and the result is always true. When shown, the cache is loaded if empty, one overlay per cached track is added on top of the map's track overlays, the overlay reference ends on the last one and the marker is left as it was. When hidden, the map holds only the non-new dot at the held fix, no marker, and the cache is kept. |
| MapFragment.MapFragment.OnLocationChanged | app/src/main/java/org/y20k/trackbook/MainActivityMapFragment.java:562-570 | The new fix replaces the held one iff none is held or `isBetterLocation(new, held)`, and then the marker is refreshed. Only the fix and the marker change. Otherwise nothing changes. |
| MapFragment.MapFragment.OnSettingsChange | app/src/main/java/org/y20k/trackbook/MainActivityMapFragment.java:726-744 | The setting is re-read. If it is off, local tracking stops and a removal is logged iff it was on. If it is on and local tracking was off with the service off and the fragment visible, listeners are created per available provider and one registration is logged. Otherwise the listener fields and the log are unchanged. |

## Left out

- JSON export (`exportToJSON`, `createJsonString`, `getJSONFileIntent`, ExportHelper.java:81-144) is not modelled. That includes its two differently built file names at lines 83 and 120. Gson serialisation is not part of this model.
- Writing files, creating folders, the download folder, cache clearing and sharing intents (ExportHelper.java:54-78, 148-165, 177-202) are I/O and are not modelled. A file is a folder and a name.
- `createOverlayPath`'s random colour (MapHelper.java:210-216) is not modelled: it comes from `Random`. Overlay item titles, snippets and tap listeners are display text and are not modelled either.
- `Double.toString` is the parameter `doubleToString`; its digits are not modelled.
- The time-zone database is not modelled: the device zone is a fixed offset `zoneOffsetMs` at the recording start.
- `SimpleDateFormat` uses the Julian calendar before 1582. The model uses the proleptic Gregorian calendar throughout.
- GpxExport.GpxTimesReadBack: requires the way-point's time to fall in years 1 to 9999. Outside that range the year no longer has four digits and the text is not read back.
- GpxExport.FileNameReadsBack: requires the local recording start to fall in years 1 to 9999, for the same reason.
- TimestampFormat.FormatUtcReadsBack: requires the instant to fall in years 1 to 9999, for the same reason.
- TimestampFormat.StampRoundTrip: requires a year from 1 to 9999, for the same reason.
- Doubles are modelled as mathematical reals. NaN, the two infinities and negative zero have no counterpart, so the model says nothing about fixes or altitudes holding them. For example, `Double.toString(-0.0)` is "-0.0", while the model has a single zero.
- LocationHelper (`isBetterLocation`, `isCurrent`, `determineLastKnownLocation`, `checkLocationSystemSetting`, listener registration) is not part of this model. Its results are parameters and `LocationOracle`. `isCurrent` is a fixed function, so its dependence on the clock is not modelled. The "new" flag of the marker that `Valid()` ties to the held fix is therefore the flag as of the last redraw; in the app a marker drawn as new stays blue after its fix goes stale. `isCurrent(null)` on a missing saved fix is taken as false.
- MapFragment.MapFragment.HandleShowMyLocation: the fallback to `determineLastKnownLocation` when no fix is held is unreachable in the model, because `Valid()` keeps a fix from `OnCreate` on.
- `onCreateView` is not modelled. With a saved state, MainActivityMapFragment.java:206 always replaces the fix `onCreate` chose with the saved parcel. A stale saved fix that `onCreate` rejected at line 139 thus comes back, and a missing parcel leaves the fix null; the model keeps `onCreate`'s choice.
- MapFragment.MapFragment.ToggleLocationOffBar: the snackbar is not modelled. In `onChange`, the setting is read twice, and the model gives both reads the same value.
- The map widget is modelled only in part. The model keeps the track overlays on the map in drawing order, and whether the "my location" marker is on the map. It does not keep the order between that marker and the track overlays. Centring, zoom, the compass and toasts are left out.
- Loading the temp-file track in `onResume`, the track-updated broadcast receiver, saving and clearing the recording, dialogs and `mFirstStart` (AsyncTask and UI work) are not modelled. The current `mTrack` is a parameter where the methods read it.
- `loadAllTracks` reads track files (I/O); the stored tracks are a parameter.
- A null track is not modelled. A track file that fails to load (MainActivityMapFragment.java:640) puts null in the cache, and `drawTrackOverlay` draws null like an empty track (line 602). `DrawTrackOverlay` and `DrawnTrackOverlay` take a track that exists, so the model covers only the empty-track case.
- The `TrackbookKeys` constants are not part of this model. `FILE_TYPE_GPX_EXTENSION` is taken as ".gpx". `DEFAULT_LATITUDE`/`DEFAULT_LONGITUDE` are the `defaultPosition` parameter.
- `createOverlayItem` with a missing location (a null pointer in Java) is not modelled: every fix the model passes exists.
