/** MainActivityMapFragment's state: whether the fragment runs its own
    ("preliminary") GPS and network listeners, the best fix it holds, and
    the two overlays it keeps references to. Android and LocationHelper
    calls whose bodies are not part of this model arrive as parameters (the
    location setting, the provider lists, the tracker-service preference,
    the last known fix, stored tracks) or as the LocationOracle judgements;
    registering and removing listeners is recorded as ghost events. */
module MapFragment {
  import opened TrackData
  import opened MapMarkers

  /** LocationHelper.isBetterLocation and LocationHelper.isCurrent. */
  datatype LocationOracle = LocationOracle(
    isBetterLocation: (Location, Location) -> bool,
    isCurrent: Location -> bool)

  /** What onCreate reads from a saved instance state: the parcelled fix,
      which may be missing. */
  datatype SavedInstance = SavedInstance(currentLocation: Option<Location>)

  /** LocationHelper.registerLocationListeners / removeLocationListeners,
      with which of the two listener fields hold a listener at the call. */
  datatype ListenerCall = Register(gps: bool, network: bool) | Remove(gps: bool, network: bool)

  /** onCreate's first case: a saved state holds a fix that is still current. */
  predicate SavedIsCurrent(oracle: LocationOracle, saved: Option<SavedInstance>)
  {
    saved.Some? && saved.value.currentLocation.Some? && oracle.isCurrent(saved.value.currentLocation.value)
  }

  /** The best fix onCreate settles on: the saved fix if it is still
      current, else the last known fix if some provider is enabled and one
      is found, else a network fix at the default position. */
  function InitialBestLocation(oracle: LocationOracle, saved: Option<SavedInstance>, enabledProviders: seq<string>,
                               lastKnown: Option<Location>, defaultPosition: GeoPoint): (l: Location)
    ensures l == NetworkLocationAt(defaultPosition)
            || (saved.Some? && saved.value.currentLocation == Some(l) && oracle.isCurrent(l))
            || (|enabledProviders| > 0 && lastKnown == Some(l))
    ensures SavedIsCurrent(oracle, saved) ==> l == saved.value.currentLocation.value
    ensures !SavedIsCurrent(oracle, saved) && |enabledProviders| > 0 && lastKnown.Some? ==> l == lastKnown.value
    ensures !SavedIsCurrent(oracle, saved) && (|enabledProviders| == 0 || lastKnown.None?) ==>
            l == NetworkLocationAt(defaultPosition) && l.provider == NetworkProvider && PositionOf(l) == defaultPosition
  {
    if SavedIsCurrent(oracle, saved) then
      saved.value.currentLocation.value
    else if |enabledProviders| > 0 && lastKnown.Some? then
      lastKnown.value
    else
      NetworkLocationAt(defaultPosition)
  }

  /** Whether startPreliminaryTracking, once past its guard, has a listener
      to run: the providers include GPS or network. */
  predicate HasLocalProvider(allProviders: seq<string>)
  {
    GpsProvider in allProviders || NetworkProvider in allProviders
  }

  /** The overlay drawTrackOverlay draws for a track: the "my location"
      marker at the best fix while the track is empty, else the track. */
  function DrawnTrackOverlay(track: Track, currentBestLocation: Location, trackingActive: bool): (items: seq<OverlayItem>)
    ensures |track.wayPoints| == 0 ==> items == MyLocationOverlay(currentBestLocation, false, trackingActive)
    ensures |track.wayPoints| > 0 ==> items == TrackOverlay(track.wayPoints, trackingActive)
    ensures |track.wayPoints| > 0 ==> |items| == |track.wayPoints|
  {
    if |track.wayPoints| == 0 then MyLocationOverlay(currentBestLocation, false, trackingActive)
    else TrackOverlay(track.wayPoints, trackingActive)
  }

  /** The overlays drawTrackOverlay adds to the map for a list of tracks,
      one per track, in list order. */
  function DrawnOverlays(tracks: seq<Track>, currentBestLocation: Location, trackingActive: bool): (overlays: seq<seq<OverlayItem>>)
    ensures |overlays| == |tracks|
  {
    seq(|tracks|, i requires 0 <= i < |tracks| => DrawnTrackOverlay(tracks[i], currentBestLocation, trackingActive))
  }

  /** Drawing one more track adds its overlay after those already drawn. */
  lemma DrawnOverlaysSnoc(drawnBefore: seq<seq<OverlayItem>>, tracks: seq<Track>, i: int,
                          currentBestLocation: Location, trackingActive: bool)
    requires 0 <= i < |tracks|
    ensures drawnBefore + DrawnOverlays(tracks[..i + 1], currentBestLocation, trackingActive)
            == drawnBefore + DrawnOverlays(tracks[..i], currentBestLocation, trackingActive)
               + [DrawnTrackOverlay(tracks[i], currentBestLocation, trackingActive)]
  {
    var a := DrawnOverlays(tracks[..i + 1], currentBestLocation, trackingActive);
    var b := DrawnOverlays(tracks[..i], currentBestLocation, trackingActive)
             + [DrawnTrackOverlay(tracks[i], currentBestLocation, trackingActive)];
    assert |a| == |b|;
    forall j | 0 <= j < |a|
      ensures a[j] == b[j]
    {
      assert tracks[..i + 1][j] == tracks[j];
      if j < i {
        assert tracks[..i][j] == tracks[j];
      }
    }
    assert a == b;
  }


  class MapFragment {
    const oracle: LocationOracle

    var trackerServiceRunning: bool
    var localTrackerRunning: bool
    var locationSystemSetting: bool
    var fragmentVisible: bool
    var tracksOverlayVisible: bool
    var currentBestLocation: Option<Location>

    /** mMyLocationOverlay's items, and whether the map shows it. */
    var myLocationOverlay: seq<OverlayItem>
    var myLocationOnMap: bool
    /** mTrackOverlay's items, and the track overlays on the map, oldest
        first (drawTrackOverlay adds one and removes none). */
    var trackOverlay: seq<OverlayItem>
    var trackOverlaysOnMap: seq<seq<OverlayItem>>
    /** tracksCache: the stored tracks once loaded. */
    var tracksCache: seq<Track>

    /** Whether mGPSListener / mNetworkListener have been created. */
    var gpsListener: bool
    var networkListener: bool
    ghost var listenerLog: seq<ListenerCall>

    /** The fragment always holds a fix; its own listeners run only while
        the location setting is on, the fragment is visible and the tracker
        service is not running; a "my location" marker on the map shows the
        held fix. */
    ghost predicate Valid()
      reads this
    {
      && currentBestLocation.Some?
      && TrackingAllowed()
      && MarkerShowsFix()
    }

    ghost predicate TrackingAllowed()
      reads this`localTrackerRunning, this`locationSystemSetting, this`fragmentVisible, this`trackerServiceRunning
    {
      localTrackerRunning ==> locationSystemSetting && fragmentVisible && !trackerServiceRunning
    }

    ghost predicate MarkerShowsFix()
      reads this`myLocationOnMap, this`myLocationOverlay, this`currentBestLocation
    {
      myLocationOnMap ==>
        && currentBestLocation.Some?
        && myLocationOverlay == MyLocationOverlay(currentBestLocation.value, oracle.isCurrent(currentBestLocation.value), false)
    }

    /** onCreate: tracker state from the preferences, the best fix by the
        fallback chain, and the location setting. */
    constructor OnCreate(oracle: LocationOracle, trackerServicePref: bool, saved: Option<SavedInstance>,
                         enabledProviders: seq<string>, lastKnown: Option<Location>,
                         locationSetting: bool, defaultPosition: GeoPoint)
      ensures Valid()
      ensures this.oracle == oracle
      ensures currentBestLocation == Some(InitialBestLocation(oracle, saved, enabledProviders, lastKnown, defaultPosition))
      ensures trackerServiceRunning == trackerServicePref && locationSystemSetting == locationSetting
      ensures !localTrackerRunning && !fragmentVisible && !tracksOverlayVisible
      ensures !myLocationOnMap && myLocationOverlay == [] && trackOverlay == [] && trackOverlaysOnMap == [] && tracksCache == []
      ensures !gpsListener && !networkListener && listenerLog == []
    {
      this.oracle := oracle;
      trackerServiceRunning := trackerServicePref;
      var best: Option<Location> := None;
      // CASE 1: the saved fix, if still current
      if saved.Some? {
        var savedLocation := saved.value.currentLocation;
        if savedLocation.Some? && oracle.isCurrent(savedLocation.value) {
          best := savedLocation;
        } else {
          best := None;
        }
      }
      // CASE 2: the last known fix
      if best.None? && |enabledProviders| > 0 {
        best := lastKnown;
      }
      // CASE 3: a network fix at the default position
      if best.None? {
        best := Some(NetworkLocationAt(defaultPosition));
      }
      currentBestLocation := best;
      locationSystemSetting := locationSetting;
      localTrackerRunning := false;
      fragmentVisible := false;
      tracksOverlayVisible := false;
      myLocationOverlay := [];
      myLocationOnMap := false;
      trackOverlay := [];
      trackOverlaysOnMap := [];
      tracksCache := [];
      gpsListener := false;
      networkListener := false;
      listenerLog := [];
    }

    /** onResume: visible, all-tracks overlay hidden, tracker state reloaded,
        location setting re-read, and local listeners started when the
        tracker service is not running. The Android lifecycle runs onResume
        only after onCreate or onPause, so the fragment is invisible and its
        own listeners are off when it starts; that is what keeps Valid() when
        the reloaded tracker state says the service now runs. */
    method OnResume(trackerServicePref: bool, locationSetting: bool, allProviders: seq<string>)
      requires Valid() && !fragmentVisible
      modifies this`fragmentVisible, this`tracksOverlayVisible, this`trackerServiceRunning, this`locationSystemSetting
      modifies this`localTrackerRunning, this`gpsListener, this`networkListener, this`listenerLog
      ensures Valid()
      ensures fragmentVisible && !tracksOverlayVisible
      ensures trackerServiceRunning == trackerServicePref && locationSystemSetting == locationSetting
      ensures localTrackerRunning <==> !trackerServicePref && locationSetting && HasLocalProvider(allProviders)
      ensures gpsListener == (old(gpsListener) || (!trackerServicePref && locationSetting && GpsProvider in allProviders))
      ensures networkListener == (old(networkListener) || (!trackerServicePref && locationSetting && NetworkProvider in allProviders))
      ensures listenerLog == if !trackerServicePref && locationSetting
                             then old(listenerLog) + [Register(gpsListener, networkListener)] else old(listenerLog)
    {
      fragmentVisible := true;
      tracksOverlayVisible := false;
      trackerServiceRunning := trackerServicePref;
      var locationOff := ToggleLocationOffBar(locationSetting);
      if !trackerServiceRunning && fragmentVisible {
        StartPreliminaryTracking(allProviders);
      }
    }

    /** onPause: invisible, local listeners stopped. */
    method OnPause()
      requires Valid()
      modifies this`fragmentVisible, this`localTrackerRunning, this`listenerLog
      ensures Valid()
      ensures !fragmentVisible && !localTrackerRunning
      ensures listenerLog == if old(localTrackerRunning)
                             then old(listenerLog) + [Remove(gpsListener, networkListener)] else old(listenerLog)
    {
      fragmentVisible := false;
      StopPreliminaryTracking();
    }

    /** toggleLocationOffBar: re-reads the location setting and reports
        whether it is off (the snackbar itself is not modelled). */
    method ToggleLocationOffBar(locationSetting: bool) returns (locationOff: bool)
      modifies this`locationSystemSetting
      ensures locationOff == !locationSetting && locationSystemSetting == locationSetting
    {
      locationSystemSetting := locationSetting;
      locationOff := !locationSystemSetting;
    }

    /** startPreliminaryTracking: only with the location setting on and no
        local tracking yet; then a listener per available provider (GPS,
        network), local tracking on iff there is one, and both listener
        fields handed to the registration call. */
    method StartPreliminaryTracking(allProviders: seq<string>)
      modifies this`localTrackerRunning, this`gpsListener, this`networkListener, this`listenerLog
      ensures !(old(locationSystemSetting) && !old(localTrackerRunning)) ==>
        && localTrackerRunning == old(localTrackerRunning) && listenerLog == old(listenerLog)
        && gpsListener == old(gpsListener) && networkListener == old(networkListener)
      ensures old(locationSystemSetting) && !old(localTrackerRunning) ==>
        && (localTrackerRunning <==> HasLocalProvider(allProviders))
        && gpsListener == (old(gpsListener) || GpsProvider in allProviders)
        && networkListener == (old(networkListener) || NetworkProvider in allProviders)
        && listenerLog == old(listenerLog) + [Register(gpsListener, networkListener)]
    {
      if locationSystemSetting && !localTrackerRunning {
        if GpsProvider in allProviders {
          gpsListener := true;
          localTrackerRunning := true;
        }
        if NetworkProvider in allProviders {
          networkListener := true;
          localTrackerRunning := true;
        }
        listenerLog := listenerLog + [Register(gpsListener, networkListener)];
      }
    }

    /** stopPreliminaryTracking: local tracking off; listeners are removed
        only if it was on, so a second stop changes nothing. */
    method StopPreliminaryTracking()
      modifies this`localTrackerRunning, this`listenerLog
      ensures !localTrackerRunning
      ensures !old(localTrackerRunning) ==> listenerLog == old(listenerLog)
      ensures old(localTrackerRunning) ==> listenerLog == old(listenerLog) + [Remove(gpsListener, networkListener)]
    {
      if localTrackerRunning {
        localTrackerRunning := false;
        listenerLog := listenerLog + [Remove(gpsListener, networkListener)];
      }
    }

    /** updateMyLocationMarker: while the tracker service is not running the
        map shows a fresh marker at the held fix; otherwise none. */
    method UpdateMyLocationMarker()
      requires currentBestLocation.Some?
      modifies this`myLocationOverlay, this`myLocationOnMap
      ensures myLocationOnMap == !trackerServiceRunning
      ensures myLocationOverlay == if trackerServiceRunning then old(myLocationOverlay)
        else MyLocationOverlay(currentBestLocation.value, oracle.isCurrent(currentBestLocation.value), false)
    {
      myLocationOnMap := false;
      if !trackerServiceRunning {
        myLocationOverlay := MyLocationOverlay(currentBestLocation.value, oracle.isCurrent(currentBestLocation.value), false);
        myLocationOnMap := true;
      }
    }

    /** drawTrackOverlay: the track's overlay becomes mTrackOverlay and is
        added on top of the overlays already on the map. */
    method DrawTrackOverlay(track: Track)
      requires currentBestLocation.Some?
      modifies this`trackOverlay, this`trackOverlaysOnMap
      ensures trackOverlay == DrawnTrackOverlay(track, currentBestLocation.value, trackerServiceRunning)
      ensures trackOverlaysOnMap == old(trackOverlaysOnMap) + [trackOverlay]
    {
      if |track.wayPoints| == 0 {
        trackOverlay := MyLocationOverlay(currentBestLocation.value, false, trackerServiceRunning);
      } else {
        trackOverlay := CreateTrackOverlay(track, trackerServiceRunning);
      }
      trackOverlaysOnMap := trackOverlaysOnMap + [trackOverlay];
    }

    /** The first half of setTrackingState: the new tracker state is
        stored; a running tracker service stops the local listeners, a
        stopped one starts them if they are not running and the fragment is
        visible. */
    method SwitchPreliminaryTracking(trackingState: bool, allProviders: seq<string>)
      requires TrackingAllowed()
      modifies this`trackerServiceRunning, this`localTrackerRunning, this`gpsListener, this`networkListener, this`listenerLog
      ensures TrackingAllowed()
      ensures trackerServiceRunning == trackingState
      ensures trackingState ==> !localTrackerRunning
      ensures trackingState ==> gpsListener == old(gpsListener) && networkListener == old(networkListener)
      ensures trackingState ==> listenerLog == if old(localTrackerRunning)
        then old(listenerLog) + [Remove(gpsListener, networkListener)] else old(listenerLog)
      ensures !trackingState ==>
        (localTrackerRunning <==> old(localTrackerRunning)
                                  || (fragmentVisible && locationSystemSetting && HasLocalProvider(allProviders)))
      ensures !trackingState ==>
        var started := !old(localTrackerRunning) && fragmentVisible && locationSystemSetting;
        && gpsListener == (old(gpsListener) || (started && GpsProvider in allProviders))
        && networkListener == (old(networkListener) || (started && NetworkProvider in allProviders))
        && listenerLog == if started then old(listenerLog) + [Register(gpsListener, networkListener)] else old(listenerLog)
    {
      trackerServiceRunning := trackingState;
      if trackerServiceRunning {
        StopPreliminaryTracking();
      } else if !localTrackerRunning && fragmentVisible {
        StartPreliminaryTracking(allProviders);
      }
    }

    /** setTrackingState: a running tracker service stops the local
        listeners; a stopped one starts them if they are not running and the
        fragment is visible. The current track (if any) is redrawn and the
        "my location" marker refreshed. */
    method SetTrackingState(trackingState: bool, track: Option<Track>, allProviders: seq<string>)
      requires Valid()
      modifies this`trackerServiceRunning, this`localTrackerRunning, this`gpsListener, this`networkListener, this`listenerLog
      modifies this`trackOverlay, this`trackOverlaysOnMap, this`myLocationOverlay, this`myLocationOnMap
      ensures Valid()
      ensures trackerServiceRunning == trackingState
      ensures trackingState ==> !localTrackerRunning
      ensures trackingState ==> gpsListener == old(gpsListener) && networkListener == old(networkListener)
      ensures trackingState ==> listenerLog == if old(localTrackerRunning)
        then old(listenerLog) + [Remove(gpsListener, networkListener)] else old(listenerLog)
      ensures !trackingState ==>
        (localTrackerRunning <==> old(localTrackerRunning)
                                  || (fragmentVisible && locationSystemSetting && HasLocalProvider(allProviders)))
      ensures !trackingState ==>
        var started := !old(localTrackerRunning) && fragmentVisible && locationSystemSetting;
        && gpsListener == (old(gpsListener) || (started && GpsProvider in allProviders))
        && networkListener == (old(networkListener) || (started && NetworkProvider in allProviders))
        && listenerLog == if started then old(listenerLog) + [Register(gpsListener, networkListener)] else old(listenerLog)
      ensures trackOverlay == if track.Some? then DrawnTrackOverlay(track.value, currentBestLocation.value, trackingState)
                              else old(trackOverlay)
      ensures trackOverlaysOnMap == if track.Some? then old(trackOverlaysOnMap) + [trackOverlay] else old(trackOverlaysOnMap)
      ensures myLocationOnMap == !trackingState
      ensures trackingState ==> myLocationOverlay == old(myLocationOverlay)
    {
      SwitchPreliminaryTracking(trackingState, allProviders);
      if track.Some? {
        DrawTrackOverlay(track.value);
      }
      UpdateMyLocationMarker();
    }

    /** getCurrentBestLocation: the held fix, or null while the location
        setting is off. */
    method GetCurrentBestLocation() returns (location: Option<Location>)
      ensures locationSystemSetting ==> location == currentBestLocation
      ensures !locationSystemSetting ==> location.None?
    {
      if locationSystemSetting {
        location := currentBestLocation;
      } else {
        location := None;
      }
    }

    /** handleShowMyLocation: with the setting off, stop the local listeners
        and report failure; otherwise take the recording's last way-point
        while the tracker service runs (and has a track with points), else
        keep the held fix, and show the marker. */
    method HandleShowMyLocation(locationSetting: bool, track: Option<Track>)
      returns (shown: bool)
      requires Valid()
      modifies this`locationSystemSetting, this`localTrackerRunning, this`listenerLog
      modifies this`currentBestLocation, this`myLocationOverlay, this`myLocationOnMap
      ensures Valid()
      ensures shown == locationSetting && locationSystemSetting == locationSetting
      ensures !locationSetting ==>
        && !localTrackerRunning && currentBestLocation == old(currentBestLocation)
        && myLocationOverlay == old(myLocationOverlay) && myLocationOnMap == old(myLocationOnMap)
        && listenerLog == if old(localTrackerRunning)
                          then old(listenerLog) + [Remove(gpsListener, networkListener)] else old(listenerLog)
      ensures locationSetting ==>
        && currentBestLocation == (if trackerServiceRunning && track.Some? && |track.value.wayPoints| > 0
                                   then Some(track.value.wayPoints[|track.value.wayPoints| - 1].location)
                                   else old(currentBestLocation))
        && myLocationOnMap == !trackerServiceRunning
        && localTrackerRunning == old(localTrackerRunning) && listenerLog == old(listenerLog)
      ensures locationSetting && trackerServiceRunning ==> myLocationOverlay == old(myLocationOverlay)
    {
      var locationOff := ToggleLocationOffBar(locationSetting);
      if locationOff {
        StopPreliminaryTracking();
        return false;
      }
      if trackerServiceRunning && track.Some? && |track.value.wayPoints| > 0 {
        currentBestLocation := Some(track.value.wayPoints[|track.value.wayPoints| - 1].location);
      } else if currentBestLocation.None? {
        // the last-known-fix fallback: no fix is ever missing after OnCreate
        assert false;
      }
      UpdateMyLocationMarker();
      return true;
    }

    /** displayAllTracks: loads the stored tracks once, then draws each in
        turn, so the map gains one overlay per cached track, in order, and
        the overlay reference ends on the last one drawn. */
    method DisplayAllTracks(storedTracks: seq<Track>)
      requires currentBestLocation.Some?
      modifies this`tracksCache, this`trackOverlay, this`trackOverlaysOnMap
      ensures tracksCache == if old(tracksCache) == [] then storedTracks else old(tracksCache)
      ensures trackOverlaysOnMap == old(trackOverlaysOnMap) + DrawnOverlays(tracksCache, currentBestLocation.value, trackerServiceRunning)
      ensures trackOverlay == if tracksCache == [] then old(trackOverlay)
        else DrawnTrackOverlay(tracksCache[|tracksCache| - 1], currentBestLocation.value, trackerServiceRunning)
    {
      if tracksCache == [] {
        tracksCache := storedTracks;
      }
      var tracks := tracksCache;
      var best := currentBestLocation.value;
      var trackingActive := trackerServiceRunning;
      ghost var drawnBefore := trackOverlaysOnMap;
      var i := 0;
      while i < |tracks|
        invariant 0 <= i <= |tracks|
        invariant tracksCache == tracks
        invariant i == 0 ==> trackOverlay == old(trackOverlay)
        invariant i > 0 ==> trackOverlay == DrawnTrackOverlay(tracks[i - 1], best, trackingActive)
        invariant trackOverlaysOnMap == drawnBefore + DrawnOverlays(tracks[..i], best, trackingActive)
      {
        DrawnOverlaysSnoc(drawnBefore, tracks, i, best, trackingActive);
        DrawTrackOverlay(tracks[i]);
        i := i + 1;
      }
      assert tracks[..i] == tracks;
    }

    /** clearAllTracks: the map is emptied and only a "my location" marker
        (not new, tracking as the service says) is drawn back. */
    method ClearAllTracks()
      requires currentBestLocation.Some?
      modifies this`myLocationOnMap, this`trackOverlay, this`trackOverlaysOnMap
      ensures !myLocationOnMap
      ensures trackOverlay == MyLocationOverlay(currentBestLocation.value, false, trackerServiceRunning)
      ensures trackOverlaysOnMap == [trackOverlay]
    {
      myLocationOnMap := false;
      trackOverlay := MyLocationOverlay(currentBestLocation.value, false, trackerServiceRunning);
      trackOverlaysOnMap := [trackOverlay];
    }

    /** handleToggleTracks: flips the all-tracks flag, shows or clears the
        stored tracks, and always reports the tap as handled. */
    method HandleToggleTracks(storedTracks: seq<Track>) returns (handled: bool)
      requires Valid()
      modifies this`tracksOverlayVisible, this`tracksCache, this`trackOverlay, this`trackOverlaysOnMap, this`myLocationOnMap
      ensures Valid()
      ensures handled
      ensures tracksOverlayVisible == !old(tracksOverlayVisible)
      ensures !tracksOverlayVisible ==>
        && !myLocationOnMap && tracksCache == old(tracksCache)
        && trackOverlay == MyLocationOverlay(currentBestLocation.value, false, trackerServiceRunning)
        && trackOverlaysOnMap == [trackOverlay]
      ensures tracksOverlayVisible ==>
        && tracksCache == (if old(tracksCache) == [] then storedTracks else old(tracksCache))
        && trackOverlaysOnMap == old(trackOverlaysOnMap) + DrawnOverlays(tracksCache, currentBestLocation.value, trackerServiceRunning)
        && trackOverlay == (if tracksCache == [] then old(trackOverlay)
                            else DrawnTrackOverlay(tracksCache[|tracksCache| - 1], currentBestLocation.value, trackerServiceRunning))
        && myLocationOnMap == old(myLocationOnMap)
    {
      tracksOverlayVisible := !tracksOverlayVisible;
      if tracksOverlayVisible {
        DisplayAllTracks(storedTracks);
      } else {
        ClearAllTracks();
      }
      return true;
    }

    /** The listener's onLocationChanged: a new fix replaces the held one
        iff none is held or the new one is better, and then the marker is
        refreshed; otherwise nothing changes. */
    method OnLocationChanged(location: Location)
      requires Valid()
      modifies this`currentBestLocation, this`myLocationOverlay, this`myLocationOnMap
      ensures Valid()
      ensures old(currentBestLocation).None? || oracle.isBetterLocation(location, old(currentBestLocation).value) ==>
        && currentBestLocation == Some(location) && myLocationOnMap == !trackerServiceRunning
        && myLocationOverlay == if trackerServiceRunning then old(myLocationOverlay)
                                else MyLocationOverlay(location, oracle.isCurrent(location), false)
      ensures !(old(currentBestLocation).None? || oracle.isBetterLocation(location, old(currentBestLocation).value)) ==>
        unchanged(this)
    {
      if currentBestLocation.None? || oracle.isBetterLocation(location, currentBestLocation.value) {
        currentBestLocation := Some(location);
        UpdateMyLocationMarker();
      }
    }

    /** SettingsContentObserver.onChange: re-reads the location setting;
        with it off the local listeners stop, with it on they start when the
        tracker service is not running and the fragment is visible. */
    method OnSettingsChange(locationSetting: bool, allProviders: seq<string>)
      requires Valid()
      modifies this`locationSystemSetting, this`localTrackerRunning, this`gpsListener, this`networkListener, this`listenerLog
      ensures Valid()
      ensures locationSystemSetting == locationSetting
      ensures !locationSetting ==>
        && !localTrackerRunning
        && gpsListener == old(gpsListener) && networkListener == old(networkListener)
        && listenerLog == if old(localTrackerRunning)
                          then old(listenerLog) + [Remove(gpsListener, networkListener)] else old(listenerLog)
      ensures locationSetting ==>
        (localTrackerRunning <==> old(localTrackerRunning)
                                  || (!trackerServiceRunning && fragmentVisible && HasLocalProvider(allProviders)))
      ensures locationSetting ==>
        var started := !old(localTrackerRunning) && !trackerServiceRunning && fragmentVisible;
        && gpsListener == (old(gpsListener) || (started && GpsProvider in allProviders))
        && networkListener == (old(networkListener) || (started && NetworkProvider in allProviders))
        && listenerLog == if started then old(listenerLog) + [Register(gpsListener, networkListener)] else old(listenerLog)
    {
      var previousLocationSystemSetting := locationSystemSetting;
      locationSystemSetting := locationSetting;
      if previousLocationSystemSetting != locationSystemSetting {
        var locationOff := ToggleLocationOffBar(locationSetting);
      }
      if !locationSystemSetting {
        StopPreliminaryTracking();
      } else if !trackerServiceRunning && fragmentVisible {
        StartPreliminaryTracking(allProviders);
      }
    }
  }
}
