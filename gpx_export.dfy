/** ExportHelper's GPX side: createGpxString and addTrack, which build the
    GPX 1.1 text of a track by appending to a string, and createFile, which
    names the export file after the recording start. Gpx holds the literals
    the source appends; GpxDocument is the specification of the text and
    ParseGpx reads it back. Java's Double.toString is not modelled: it is the
    parameter `doubleToString`. */
module GpxExport {
  import opened TrackData
  import opened CivilTime
  import opened TimestampFormat
  import opened GpxLayout

  /** The literals createGpxString and addTrack append. */
  const Gpx: Markup := Markup(
    header :=
      "<?xml version=\"1.0\" encoding=\"UTF-8\" standalone=\"no\" ?>\n" +
      "<gpx version=\"1.1\" creator=\"Transistor App (Android)\"\n" +
      "     xmlns:xsi=\"http://www.w3.org/2001/XMLSchema-instance\"\n" +
      "     xsi:schemaLocation=\"http://www.topografix.com/GPX/1/1 http://www.topografix.com/GPX/1/1/gpx.xsd\">\n",
    trackOpen := "\t<trk>\n",
    nameOpen := "\t\t<name>",
    name := "Trackbook Recording",
    nameClose := "</name>\n",
    segmentOpen := "\t\t<trkseg>\n",
    latOpen := "\t\t\t<trkpt lat=\"",
    lonOpen := "\" lon=\"",
    pointOpenEnd := "\">\n",
    timeOpen := "\t\t\t\t<time>",
    timeClose := "</time>\n",
    eleOpen := "\t\t\t\t<ele>",
    eleClose := "</ele>\n",
    pointClose := "\t\t\t</trkpt>\n",
    segmentClose := "\t\t</trkseg>\n",
    trackClose := "\t</trk>\n",
    footer := "</gpx>\n")

  /** What the document shows for a way-point: its own coordinates and
      altitude as Double.toString prints them, and its time in UTC. */
  function TextOf(doubleToString: real -> string, w: WayPoint): PointText
  {
    PointText(doubleToString(w.location.latitude), doubleToString(w.location.longitude),
              FormatUtc(w.location.time), doubleToString(w.location.altitude))
  }

  /** The texts of the way-points, in list order. */
  function TextsOf(doubleToString: real -> string, ws: seq<WayPoint>): (ts: seq<PointText>)
    ensures |ts| == |ws|
  {
    seq(|ws|, i requires 0 <= i < |ws| => TextOf(doubleToString, ws[i]))
  }

  /** The document createGpxString returns for a track. */
  function GpxDocument(doubleToString: real -> string, track: Track): string
  {
    Document(Gpx, TextsOf(doubleToString, track.wayPoints))
  }

  /** The reader of GPX documents in this layout. */
  function ParseGpx(doc: string): Option<seq<PointText>>
  {
    ParseDocument(Gpx, doc)
  }

  /** addTrack: the track element, one block appended per way-point. */
  method AddTrack(doubleToString: real -> string, track: Track) returns (gpxTrack: string)
    ensures gpxTrack == Section(Gpx, TextsOf(doubleToString, track.wayPoints))
  {
    var ws := track.wayPoints;
    gpxTrack := "";
    gpxTrack := gpxTrack + "\t<trk>\n";
    gpxTrack := gpxTrack + "\t\t<name>";
    gpxTrack := gpxTrack + "Trackbook Recording";
    gpxTrack := gpxTrack + "</name>\n";
    gpxTrack := gpxTrack + "\t\t<trkseg>\n";
    assert gpxTrack == Opening(Gpx);
    var i := 0;
    while i < |ws|
      invariant 0 <= i <= |ws|
      invariant gpxTrack == Opening(Gpx) + Blocks(Gpx, TextsOf(doubleToString, ws[..i]))
    {
      var location := ws[i].location;
      ghost var before := gpxTrack;
      gpxTrack := gpxTrack + "\t\t\t<trkpt lat=\"";
      gpxTrack := gpxTrack + doubleToString(location.latitude);
      gpxTrack := gpxTrack + "\" lon=\"";
      gpxTrack := gpxTrack + doubleToString(location.longitude);
      gpxTrack := gpxTrack + "\">\n";
      gpxTrack := gpxTrack + "\t\t\t\t<time>";
      gpxTrack := gpxTrack + FormatUtc(location.time);
      gpxTrack := gpxTrack + "</time>\n";
      gpxTrack := gpxTrack + "\t\t\t\t<ele>";
      gpxTrack := gpxTrack + doubleToString(location.altitude);
      gpxTrack := gpxTrack + "</ele>\n";
      gpxTrack := gpxTrack + "\t\t\t</trkpt>\n";
      AddOneBlock(doubleToString, ws, i, before);
      i := i + 1;
    }
    assert ws[..i] == ws;
    gpxTrack := gpxTrack + "\t\t</trkseg>\n";
    gpxTrack := gpxTrack + "\t</trk>\n";
  }

  /** One iteration of addTrack's loop extends the blocks by way-point i. */
  lemma AddOneBlock(doubleToString: real -> string, ws: seq<WayPoint>, i: int, before: string)
    requires 0 <= i < |ws|
    requires before == Opening(Gpx) + Blocks(Gpx, TextsOf(doubleToString, ws[..i]))
    ensures var l := ws[i].location;
      before + Gpx.latOpen + doubleToString(l.latitude) + Gpx.lonOpen + doubleToString(l.longitude) +
      Gpx.pointOpenEnd + Gpx.timeOpen + FormatUtc(l.time) + Gpx.timeClose +
      Gpx.eleOpen + doubleToString(l.altitude) + Gpx.eleClose + Gpx.pointClose
      == Opening(Gpx) + Blocks(Gpx, TextsOf(doubleToString, ws[..i + 1]))
  {
    var t := TextOf(doubleToString, ws[i]);
    var ts := TextsOf(doubleToString, ws[..i]);
    AppendsMakeBlock(Gpx, before, t);
    TextsOfSnoc(doubleToString, ws, i);
    BlocksAppend(Gpx, ts, t);
    Assoc(Opening(Gpx), Blocks(Gpx, ts), Block(Gpx, t));
  }

  lemma TextsOfSnoc(doubleToString: real -> string, ws: seq<WayPoint>, i: int)
    requires 0 <= i < |ws|
    ensures TextsOf(doubleToString, ws[..i + 1]) == TextsOf(doubleToString, ws[..i]) + [TextOf(doubleToString, ws[i])]
  {
    var a := TextsOf(doubleToString, ws[..i + 1]);
    var b := TextsOf(doubleToString, ws[..i]) + [TextOf(doubleToString, ws[i])];
    assert |a| == |b|;
    forall j | 0 <= j < |a|
      ensures a[j] == b[j]
    {
      assert ws[..i + 1][j] == ws[j];
      assert a[j] == TextOf(doubleToString, ws[j]);
      if j < i {
        assert ws[..i][j] == ws[j];
      }
    }
  }

  /** createGpxString: header, track element, closing tag. */
  method CreateGpxString(doubleToString: real -> string, track: Track) returns (gpxString: string)
    ensures gpxString == GpxDocument(doubleToString, track)
  {
    gpxString := "<?xml version=\"1.0\" encoding=\"UTF-8\" standalone=\"no\" ?>\n" +
      "<gpx version=\"1.1\" creator=\"Transistor App (Android)\"\n" +
      "     xmlns:xsi=\"http://www.w3.org/2001/XMLSchema-instance\"\n" +
      "     xsi:schemaLocation=\"http://www.topografix.com/GPX/1/1 http://www.topografix.com/GPX/1/1/gpx.xsd\">\n";
    var trackElement := AddTrack(doubleToString, track);
    gpxString := gpxString + trackElement;
    gpxString := gpxString + "</gpx>\n";
  }

  // ---------------------------------------------------------------------
  // What a document holds

  /** Java's Double.toString never prints a quote or an angle bracket. */
  ghost predicate PlainNumbers(doubleToString: real -> string)
  {
    forall x: real :: '"' !in doubleToString(x) && '<' !in doubleToString(x)
  }

  lemma GpxIsReadable()
    ensures Readable(Gpx)
  {
    assert Gpx.latOpen[2] != Gpx.segmentClose[2];
  }

  lemma TextIsPlain(doubleToString: real -> string, w: WayPoint)
    requires PlainNumbers(doubleToString)
    ensures Plain(TextOf(doubleToString, w))
  {
    FormatUtcHasNoMarkup(w.location.time);
  }

  /** Reading a generated document gives back, block by block and in list
      order, exactly the texts of the track's way-points. */
  lemma GpxReadsBack(doubleToString: real -> string, track: Track)
    requires PlainNumbers(doubleToString)
    ensures ParseGpx(GpxDocument(doubleToString, track)) == Some(TextsOf(doubleToString, track.wayPoints))
  {
    var ws := track.wayPoints;
    var ts := TextsOf(doubleToString, ws);
    forall i | 0 <= i < |ts|
      ensures Plain(ts[i])
    {
      TextIsPlain(doubleToString, ws[i]);
    }
    GpxIsReadable();
    DocumentReadsBack(Gpx, ts);
  }

  /** One <trkpt> block per way-point, in list order, each holding that
      way-point's own latitude, longitude, UTC time and altitude. */
  lemma GpxHasOneBlockPerWayPoint(doubleToString: real -> string, track: Track)
    requires PlainNumbers(doubleToString)
    ensures ParseGpx(GpxDocument(doubleToString, track)).Some?
    ensures var blocks := ParseGpx(GpxDocument(doubleToString, track)).value;
      && |blocks| == |track.wayPoints|
      && forall i :: 0 <= i < |blocks| ==>
           var l := track.wayPoints[i].location;
           && blocks[i].lat == doubleToString(l.latitude)
           && blocks[i].lon == doubleToString(l.longitude)
           && blocks[i].time == FormatUtc(l.time)
           && blocks[i].ele == doubleToString(l.altitude)
  {
    GpxReadsBack(doubleToString, track);
  }

  /** Each <time> value reads back as its way-point's own timestamp, to the
      second, in UTC (for years 1 to 9999). */
  lemma GpxTimesReadBack(doubleToString: real -> string, track: Track, i: int)
    requires PlainNumbers(doubleToString)
    requires 0 <= i < |track.wayPoints|
    requires 1 <= DateTimeOf(track.wayPoints[i].location.time).date.year <= 9999
    ensures var blocks := ParseGpx(GpxDocument(doubleToString, track));
      && blocks.Some? && i < |blocks.value|
      && ParseStamp(blocks.value[i].time, IsoUtcLayout) == Some(track.wayPoints[i].location.time / MillisPerSecond)
  {
    GpxReadsBack(doubleToString, track);
    FormatUtcReadsBack(track.wayPoints[i].location.time);
  }

  /** A track without way-points gives a document without blocks: the
      segment closes right after it opens. */
  lemma EmptyTrackDocument(doubleToString: real -> string, track: Track)
    requires track.wayPoints == []
    ensures GpxDocument(doubleToString, track) ==
      Gpx.header + Opening(Gpx) + Gpx.segmentClose + Gpx.trackClose + Gpx.footer
    ensures ParseGpx(GpxDocument(doubleToString, track)) == Some([])
  {
    assert TextsOf(doubleToString, track.wayPoints) == [];
    GpxIsReadable();
    DocumentReadsBack(Gpx, []);
  }

  /** The document depends on the way-points only: no export clock, and no
      other field of the track (name, start, stop, steps) enters it. */
  lemma GpxDependsOnlyOnWayPoints(doubleToString: real -> string, t1: Track, t2: Track)
    requires t1.wayPoints == t2.wayPoints
    ensures GpxDocument(doubleToString, t1) == GpxDocument(doubleToString, t2)
  {
  }

  // ---------------------------------------------------------------------
  // Export file

  /** FILE_TYPE_GPX_EXTENSION */
  const GpxExtension: string := ".gpx"

  /** A java.io.File made of a folder and a name inside it. */
  datatype ExportFile = ExportFile(folder: string, name: string)

  /** The name createFile gives: the instant `start`, formatted
      `yyyy-MM-dd-HH-mm-ss` on a clock `zoneOffsetMs` ahead of UTC, plus the
      GPX extension. */
  function FileName(start: int, zoneOffsetMs: int): string
  {
    Stamp(DateTimeOf(start + zoneOffsetMs), FileNameLayout) + GpxExtension
  }

  /** createFile: the file in `folder` named after the recording start, in
      the device's time zone (whose offset at that instant is `zoneOffsetMs`). */
  function CreateFile(track: Track, folder: string, zoneOffsetMs: int): (file: ExportFile)
    ensures file.folder == folder
    ensures |file.name| >= 23 && file.name[|file.name| - 4..] == GpxExtension
  {
    ExportFile(folder, FileName(track.recordingStart, zoneOffsetMs))
  }

  /** A 19-character stamp followed by the extension. */
  lemma StampThenExtension(stamp: string, seconds: int)
    requires |stamp| == 19 && ParseStamp(stamp, FileNameLayout) == Some(seconds)
    ensures var name := stamp + GpxExtension;
      && |name| == 23
      && name[19..] == GpxExtension
      && ParseStamp(name[..19], FileNameLayout) == Some(seconds)
  {
    var name := stamp + GpxExtension;
    assert name[..19] == stamp;
    assert name[19..] == GpxExtension;
  }

  /** The file name is 19 characters of local start time plus ".gpx", and
      those 19 characters read back as the local start, to the second. */
  lemma FileNameReadsBack(start: int, zoneOffsetMs: int)
    requires 1 <= DateTimeOf(start + zoneOffsetMs).date.year <= 9999
    ensures |FileName(start, zoneOffsetMs)| == 23
    ensures FileName(start, zoneOffsetMs)[19..] == GpxExtension
    ensures ParseStamp(FileName(start, zoneOffsetMs)[..19], FileNameLayout) == Some((start + zoneOffsetMs) / MillisPerSecond)
  {
    var local := start + zoneOffsetMs;
    StampRoundTrip(local, FileNameLayout);
    StampThenExtension(Stamp(DateTimeOf(local), FileNameLayout), local / MillisPerSecond);
  }

  /** Two tracks with the same recording start get the same file, whatever
      their way-points or other fields. */
  lemma FileDependsOnlyOnStart(t1: Track, t2: Track, folder: string, zoneOffsetMs: int)
    requires t1.recordingStart == t2.recordingStart
    ensures CreateFile(t1, folder, zoneOffsetMs) == CreateFile(t2, folder, zoneOffsetMs)
  {
  }
}
