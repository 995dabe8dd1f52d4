/** The shape of the GPX text ExportHelper writes, independent of the exact
    literals: a header, one <trk> with a name and one <trkseg>, a <trkpt>
    block per point, and the closing tags. The literal pieces are the fields
    of a Markup value (GpxExport fills them in); a point's four values are a
    PointText. ParseDocument reads such a text back, so that what a document
    holds can be stated as "reading it back gives the points". */
module GpxLayout {
  import opened TrackData

  /** The fixed strings of a document, one per literal the exporter appends. */
  datatype Markup = Markup(
    header: string,
    trackOpen: string,
    nameOpen: string,
    name: string,
    nameClose: string,
    segmentOpen: string,
    latOpen: string,
    lonOpen: string,
    pointOpenEnd: string,
    timeOpen: string,
    timeClose: string,
    eleOpen: string,
    eleClose: string,
    pointClose: string,
    segmentClose: string,
    trackClose: string,
    footer: string)

  /** The texts of one <trkpt> block: latitude, longitude, time, altitude. */
  datatype PointText = PointText(lat: string, lon: string, time: string, ele: string)

  /** One <trkpt> block: the twelve appends of one loop iteration. */
  function Block(m: Markup, t: PointText): string
  {
    m.latOpen + t.lat + m.lonOpen + t.lon + m.pointOpenEnd +
    m.timeOpen + t.time + m.timeClose +
    m.eleOpen + t.ele + m.eleClose +
    m.pointClose
  }

  /** The blocks of the points, in order. */
  function Blocks(m: Markup, ts: seq<PointText>): string
  {
    if ts == [] then [] else Block(m, ts[0]) + Blocks(m, ts[1..])
  }

  /** Everything the track element holds before its first block. */
  function Opening(m: Markup): string
  {
    m.trackOpen + m.nameOpen + m.name + m.nameClose + m.segmentOpen
  }

  /** The <trk> element. */
  function Section(m: Markup, ts: seq<PointText>): string
  {
    Opening(m) + Blocks(m, ts) + m.segmentClose + m.trackClose
  }

  /** The whole document. */
  function Document(m: Markup, ts: seq<PointText>): string
  {
    m.header + Section(m, ts) + m.footer
  }

  lemma {:induction false} BlocksAppend(m: Markup, ts: seq<PointText>, t: PointText)
    ensures Blocks(m, ts + [t]) == Blocks(m, ts) + Block(m, t)
  {
    if ts == [] {
      assert ts + [t] == [t];
      assert [t][1..] == [];
    } else {
      assert (ts + [t])[0] == ts[0];
      assert (ts + [t])[1..] == ts[1..] + [t];
      BlocksAppend(m, ts[1..], t);
    }
  }

  /** Appending the twelve pieces one by one adds exactly one block. */
  lemma AppendsMakeBlock(m: Markup, before: string, t: PointText)
    ensures before + m.latOpen + t.lat + m.lonOpen + t.lon + m.pointOpenEnd +
            m.timeOpen + t.time + m.timeClose + m.eleOpen + t.ele + m.eleClose + m.pointClose
            == before + Block(m, t)
  {
  }

  // ---------------------------------------------------------------------
  // Reading a document back

  function StripPrefix(s: string, p: string): (r: Option<string>)
    ensures r.Some? ==> p + r.value == s
  {
    if p <= s then Some(s[|p|..]) else None
  }

  /** Splits `s` before the first `c` (or at its end). */
  function TakeUntil(s: string, c: char): (r: (string, string))
    ensures r.0 + r.1 == s && c !in r.0
    ensures r.1 == [] || r.1[0] == c
  {
    if s == [] || s[0] == c then ([], s)
    else
      var (a, b) := TakeUntil(s[1..], c);
      ([s[0]] + a, b)
  }

  /** Strips `open`, then reads up to the next `stop`. */
  function ReadField(s: string, open: string, stop: char): (r: Option<(string, string)>)
    ensures r.Some? ==> open + r.value.0 + r.value.1 == s
  {
    match StripPrefix(s, open)
    case None => None
    case Some(s1) =>
      var (a, b) := TakeUntil(s1, stop);
      assert open + a + b == open + (a + b);
      Some((a, b))
  }

  /** Reads one <trkpt> block; returns its texts and what follows it. */
  function ParsePoint(m: Markup, s: string): (r: Option<(PointText, string)>)
    ensures r.Some? ==> |r.value.1| <= |s| - |m.latOpen|
  {
    match ReadField(s, m.latOpen, '"')
    case None => None
    case Some((lat, s1)) =>
      match ReadField(s1, m.lonOpen, '"')
      case None => None
      case Some((lon, s2)) =>
        match ReadField(s2, m.pointOpenEnd + m.timeOpen, '<')
        case None => None
        case Some((time, s3)) =>
          match ReadField(s3, m.timeClose + m.eleOpen, '<')
          case None => None
          case Some((ele, s4)) =>
            match StripPrefix(s4, m.eleClose + m.pointClose)
            case None => None
            case Some(s5) => Some((PointText(lat, lon, time, ele), s5))
  }

  /** Reads blocks up to the closing </trkseg>. */
  function ParsePoints(m: Markup, s: string): Option<(seq<PointText>, string)>
    decreases |s|
  {
    if m.segmentClose <= s then Some(([], s))
    else if m.latOpen == [] then None
    else match ParsePoint(m, s)
      case None => None
      case Some((p, rest)) =>
        match ParsePoints(m, rest)
        case None => None
        case Some((ps, tail)) => Some(([p] + ps, tail))
  }

  /** Reads a whole document: the fixed text up to the first block, the
      blocks, and exactly the fixed closing text. */
  function ParseDocument(m: Markup, doc: string): Option<seq<PointText>>
  {
    match StripPrefix(doc, m.header + Opening(m))
    case None => None
    case Some(body) =>
      match ParsePoints(m, body)
      case Some((ps, tail)) =>
        if tail == m.segmentClose + m.trackClose + m.footer then Some(ps) else None
      case None => None
  }

  /** A point's values never contain the character that ends them. */
  predicate Plain(t: PointText)
  {
    '"' !in t.lat && '"' !in t.lon && '<' !in t.time && '<' !in t.ele
  }

  /** Two strings that differ at some position shared by both. */
  predicate Diverge(a: string, b: string)
  {
    exists j :: 0 <= j < |a| && j < |b| && a[j] != b[j]
  }

  /** What the reader needs of the literals: each value is followed by the
      character that ends it, and a block never starts like </trkseg>. */
  predicate Readable(m: Markup)
  {
    && m.lonOpen != [] && m.lonOpen[0] == '"'
    && m.pointOpenEnd != [] && m.pointOpenEnd[0] == '"'
    && m.timeClose != [] && m.timeClose[0] == '<'
    && m.eleClose != [] && m.eleClose[0] == '<'
    && Diverge(m.latOpen, m.segmentClose)
  }

  lemma {:induction false} TakeUntilPrefix(a: string, c: char, s: string)
    requires c !in a && s != [] && s[0] == c
    ensures TakeUntil(a + s, c) == (a, s)
  {
    if a != [] {
      assert (a + s)[1..] == a[1..] + s;
      TakeUntilPrefix(a[1..], c, s);
      assert [a[0]] + a[1..] == a;
    } else {
      assert a + s == s;
    }
  }

  lemma StripPrefixOf(p: string, s: string)
    ensures StripPrefix(p + s, p) == Some(s)
  {
    assert p <= p + s;
    assert (p + s)[|p|..] == s;
  }

  lemma ReadFieldOf(open: string, text: string, stop: char, rest: string)
    requires stop !in text && rest != [] && rest[0] == stop
    ensures ReadField(open + (text + rest), open, stop) == Some((text, rest))
  {
    StripPrefixOf(open, text + rest);
    TakeUntilPrefix(text, stop, rest);
  }

  /** A block followed by `rest`, written with the grouping the reader uses. */
  function BlockThen(m: Markup, t: PointText, rest: string): string
  {
    m.latOpen + (t.lat + (m.lonOpen + (t.lon + ((m.pointOpenEnd + m.timeOpen) +
    (t.time + ((m.timeClose + m.eleOpen) + (t.ele + ((m.eleClose + m.pointClose) + rest))))))))
  }

  lemma Assoc(a: string, b: string, c: string)
    ensures a + b + c == a + (b + c)
  {
  }

  lemma BlockThenIsBlock(m: Markup, t: PointText, rest: string)
    ensures Block(m, t) + rest == BlockThen(m, t, rest)
  {
    var close := m.eleClose + m.pointClose;
    var s4 := close + rest;
    var s3 := (m.timeClose + m.eleOpen) + (t.ele + s4);
    var s2 := (m.pointOpenEnd + m.timeOpen) + (t.time + s3);
    var s1 := m.lonOpen + (t.lon + s2);
    var head := m.latOpen + t.lat + m.lonOpen + t.lon + m.pointOpenEnd + m.timeOpen + t.time + m.timeClose + m.eleOpen + t.ele;
    assert Block(m, t) + rest == head + s4 by {
      Assoc(head + m.eleClose, m.pointClose, rest);
      Assoc(head, m.eleClose, m.pointClose + rest);
      Assoc(m.eleClose, m.pointClose, rest);
    }
    var head2 := m.latOpen + t.lat + m.lonOpen + t.lon + m.pointOpenEnd + m.timeOpen + t.time;
    assert head + s4 == head2 + s3 by {
      Assoc(head2 + m.timeClose + m.eleOpen, t.ele, s4);
      Assoc(head2 + m.timeClose, m.eleOpen, t.ele + s4);
      Assoc(head2, m.timeClose, m.eleOpen + (t.ele + s4));
      Assoc(m.timeClose, m.eleOpen, t.ele + s4);
    }
    var head3 := m.latOpen + t.lat + m.lonOpen + t.lon;
    assert head2 + s3 == head3 + s2 by {
      Assoc(head3 + m.pointOpenEnd + m.timeOpen, t.time, s3);
      Assoc(head3 + m.pointOpenEnd, m.timeOpen, t.time + s3);
      Assoc(head3, m.pointOpenEnd, m.timeOpen + (t.time + s3));
      Assoc(m.pointOpenEnd, m.timeOpen, t.time + s3);
    }
    assert head3 + s2 == m.latOpen + (t.lat + s1) by {
      Assoc(m.latOpen + t.lat + m.lonOpen, t.lon, s2);
      Assoc(m.latOpen + t.lat, m.lonOpen, t.lon + s2);
      Assoc(m.latOpen, t.lat, m.lonOpen + (t.lon + s2));
    }
  }

  lemma ParseBlockThen(m: Markup, t: PointText, rest: string)
    requires Readable(m) && Plain(t)
    ensures ParsePoint(m, BlockThen(m, t, rest)) == Some((t, rest))
  {
    var s4 := (m.eleClose + m.pointClose) + rest;
    var s3 := (m.timeClose + m.eleOpen) + (t.ele + s4);
    var s2 := (m.pointOpenEnd + m.timeOpen) + (t.time + s3);
    var s1 := m.lonOpen + (t.lon + s2);
    ReadFieldOf(m.latOpen, t.lat, '"', s1);
    ReadFieldOf(m.lonOpen, t.lon, '"', s2);
    ReadFieldOf(m.pointOpenEnd + m.timeOpen, t.time, '<', s3);
    ReadFieldOf(m.timeClose + m.eleOpen, t.ele, '<', s4);
    StripPrefixOf(m.eleClose + m.pointClose, rest);
  }

  /** A block whose values hold no delimiter reads back as those values. */
  lemma ParseBlock(m: Markup, t: PointText, rest: string)
    requires Readable(m) && Plain(t)
    ensures ParsePoint(m, Block(m, t) + rest) == Some((t, rest))
  {
    BlockThenIsBlock(m, t, rest);
    ParseBlockThen(m, t, rest);
  }

  /** No block starts like the closing </trkseg>. */
  lemma BlockIsNotClose(m: Markup, t: PointText, rest: string)
    requires Diverge(m.latOpen, m.segmentClose)
    ensures !(m.segmentClose <= Block(m, t) + rest) && m.latOpen != []
  {
    var j :| 0 <= j < |m.latOpen| && j < |m.segmentClose| && m.latOpen[j] != m.segmentClose[j];
    var s := Block(m, t) + rest;
    assert s == m.latOpen + (t.lat + m.lonOpen + t.lon + m.pointOpenEnd + m.timeOpen + t.time + m.timeClose +
                             m.eleOpen + t.ele + m.eleClose + m.pointClose + rest);
    assert s[j] == m.latOpen[j];
  }

  /** Reading past one block. */
  lemma ParsePointsStep(m: Markup, t: PointText, rest: string, ps: seq<PointText>, tail: string)
    requires Readable(m) && Plain(t)
    requires ParsePoints(m, rest) == Some((ps, tail))
    ensures ParsePoints(m, Block(m, t) + rest) == Some(([t] + ps, tail))
  {
    BlockIsNotClose(m, t, rest);
    ParseBlock(m, t, rest);
  }

  /** Reading past the first of a list of blocks. */
  lemma ParsePointsCons(m: Markup, t: PointText, later: seq<PointText>, tail: string)
    requires Readable(m) && Plain(t)
    requires ParsePoints(m, Blocks(m, later) + tail) == Some((later, tail))
    ensures ParsePoints(m, Blocks(m, [t] + later) + tail) == Some(([t] + later, tail))
  {
    ParsePointsStep(m, t, Blocks(m, later) + tail, later, tail);
    assert ([t] + later)[1..] == later;
    assert Blocks(m, [t] + later) == Block(m, t) + Blocks(m, later);
    Assoc(Block(m, t), Blocks(m, later), tail);
  }

  lemma {:induction false} ParsePointsOf(m: Markup, ts: seq<PointText>, tail: string)
    requires Readable(m) && m.segmentClose <= tail
    requires forall i :: 0 <= i < |ts| ==> Plain(ts[i])
    ensures ParsePoints(m, Blocks(m, ts) + tail) == Some((ts, tail))
  {
    if ts == [] {
      assert Blocks(m, ts) + tail == tail;
    } else {
      var t, later := ts[0], ts[1..];
      forall i | 0 <= i < |later|
        ensures Plain(later[i])
      {
        assert later[i] == ts[i + 1];
      }
      ParsePointsOf(m, later, tail);
      ParsePointsCons(m, t, later, tail);
      assert [t] + later == ts;
    }
  }

  /** Reading a document gives back, in order, exactly its points. */
  lemma DocumentReadsBack(m: Markup, ts: seq<PointText>)
    requires Readable(m)
    requires forall i :: 0 <= i < |ts| ==> Plain(ts[i])
    ensures ParseDocument(m, Document(m, ts)) == Some(ts)
  {
    var prelude := m.header + Opening(m);
    var tail := m.segmentClose + m.trackClose + m.footer;
    var body := Blocks(m, ts) + tail;
    assert Document(m, ts) == prelude + body;
    StripPrefixOf(prelude, body);
    ParsePointsOf(m, ts, tail);
  }

  /** The document opens with the header and ends with the footer, and the
      track element sits between them. */
  lemma DocumentFrame(m: Markup, ts: seq<PointText>)
    ensures var doc := Document(m, ts);
      && m.header <= doc
      && |doc| == |m.header| + |Section(m, ts)| + |m.footer|
      && doc[|doc| - |m.footer|..] == m.footer
      && doc[|m.header|..|doc| - |m.footer|] == Section(m, ts)
  {
    var doc := Document(m, ts);
    var section := Section(m, ts);
    assert doc[..|m.header|] == m.header;
    assert doc[|m.header|..|doc| - |m.footer|] == section;
  }
}
