/**
 * The map as the script reads it, and the export request it builds for one
 * layer: the fixed export parameters, their query string and the export URL
 * `layer.url + "/export?" + query` with the first "//export" collapsed.
 */
module Export {
  import opened Wrappers
  import opened Text
  import opened Query

  /**
   * The map extent.  The coordinates are JavaScript numbers; their string forms
   * are taken as given.  `wkid` is `None` when the spatial reference has none.
   */
  datatype Extent = Extent(xmin: string, ymin: string, xmax: string, ymax: string, wkid: Option<nat>)

  /** A layer as `map.getLayer` returns it; `url` is "" when the layer has no (truthy) url. */
  datatype Layer = Layer(url: string, visibleAtMapScale: bool)

  /**
   * The map: its layer ids in order, the basemap layer ids, the layers
   * `getLayer` can find, its pixel size and its extent.
   */
  datatype MapView = MapView(
    layerIds: seq<string>,
    basemapLayerIds: seq<string>,
    layers: map<string, Layer>,
    width: nat,
    height: nat,
    extent: Extent)

  /** `String(map.extent.spatialReference.wkid)`. */
  function WkidText(wkid: Option<nat>): string
  {
    match wkid
    case Some(n) => Decimal(n)
    case None => "undefined"
  }

  /** `[map.width, map.height].join(",")`. */
  function SizeText(m: MapView): string
  {
    Join([Decimal(m.width), Decimal(m.height)], ",")
  }

  /** `[xmin, ymin, xmax, ymax].join(",")`. */
  function BboxText(e: Extent): string
  {
    Join([e.xmin, e.ymin, e.xmax, e.ymax], ",")
  }

  /** The export parameter object, in its key order. */
  function ExportParams(m: MapView): seq<Pair>
  {
    [ Pair("f", "image"),
      Pair("size", SizeText(m)),
      Pair("bbox", BboxText(m.extent)),
      Pair("bboxSR", WkidText(m.extent.wkid)),
      Pair("format", "png"),
      Pair("transparent", "true") ]
  }

  /** `objToQuery(exportParams)`. */
  function ExportQuery(m: MapView): string
  {
    ObjToQuery(ExportParams(m))
  }

  /** `[layer.url, "/export?", query].join("")`. */
  function RawExportUrl(url: string, m: MapView): string
  {
    Join([url, "/export?", ExportQuery(m)], "")
  }

  /** `RawExportUrl(url, m).replace("//export", "/export")`. */
  function ExportUrl(url: string, m: MapView): string
  {
    ReplaceFirst(RawExportUrl(url, m), "//export", "/export")
  }

  // ---------------------------------------------------------------- the query

  /**
   * The query carries the six parameters f, size, bbox, bboxSR, format and
   * transparent, in that order; read back, their values are the map size and
   * extent corners joined by commas, the wkid, and the fixed words.
   */
  lemma ExportQueryPairs(m: MapView)
    ensures ParseQuery(ExportQuery(m)) == Some([
      Pair("f", "image"),
      Pair("size", Decimal(m.width) + "," + Decimal(m.height)),
      Pair("bbox", m.extent.xmin + "," + m.extent.ymin + "," + m.extent.xmax + "," + m.extent.ymax),
      Pair("bboxSR", WkidText(m.extent.wkid)),
      Pair("format", "png"),
      Pair("transparent", "true")])
  {
    var ps := ExportParams(m);
    assert forall i :: 0 <= i < |ps| ==> PlainName(ps[i].name);
    QueryRoundTrip(ps);
    JoinTwo(Decimal(m.width), Decimal(m.height), ",");
    BboxTextIs(m.extent);
  }

  /** The bbox value is the four corner coordinates separated by commas. */
  lemma BboxTextIs(e: Extent)
    ensures BboxText(e) == e.xmin + "," + e.ymin + "," + e.xmax + "," + e.ymax
  {
    var cs := [e.xmin, e.ymin, e.xmax, e.ymax];
    assert cs[1..] == [e.ymin, e.xmax, e.ymax];
    assert cs[1..][1..] == [e.xmax, e.ymax];
    JoinTwo(e.xmax, e.ymax, ",");
    var last := e.xmax + "," + e.ymax;
    assert Join(cs[1..], ",") == e.ymin + "," + last;
    assert BboxText(e) == e.xmin + "," + (e.ymin + "," + last);
  }

  /** Every comma of the bbox goes out escaped as %2C, like the size comma. */
  lemma BboxEncoding(e: Extent)
    ensures Encode(BboxText(e)) ==
      Encode(e.xmin) + "%2C" + Encode(e.ymin) + "%2C" + Encode(e.xmax) + "%2C" + Encode(e.ymax)
  {
    BboxTextIs(e);
    EncodeComma();
    var a := e.xmin + "," + e.ymin + "," + e.xmax + ",";
    var b := e.xmin + "," + e.ymin + ",";
    var c := e.xmin + ",";
    EncodeAppend(a, e.ymax);
    EncodeAppend(a[..|a| - 1], ",");
    assert a[..|a| - 1] == b + e.xmax;
    EncodeAppend(b, e.xmax);
    EncodeAppend(b[..|b| - 1], ",");
    assert b[..|b| - 1] == c + e.ymin;
    EncodeAppend(c, e.ymin);
    EncodeAppend(e.xmin, ",");
  }

  lemma EncodeDecimal(n: nat)
    ensures Encode(Decimal(n)) == Decimal(n)
  {
    EncodeUnreserved(Decimal(n));
  }

  lemma EncodeWord(s: string)
    requires s == "image" || s == "png" || s == "true" || s == "undefined"
    ensures Encode(s) == s
  {
    EncodeUnreserved(s);
  }

  lemma EncodeComma()
    ensures Encode(",") == "%2C"
  {
    assert Utf8(',') == [44 as byte];
    assert EscapeAll([44 as byte]) == Escape(44 as byte) + EscapeAll([]);
  }

  /** The size value is the two decimal numbers with the comma escaped as %2C. */
  lemma SizeEncoding(m: MapView)
    ensures Encode(SizeText(m)) == Decimal(m.width) + "%2C" + Decimal(m.height)
  {
    JoinTwo(Decimal(m.width), Decimal(m.height), ",");
    EncodeAppend(Decimal(m.width) + ",", Decimal(m.height));
    EncodeAppend(Decimal(m.width), ",");
    EncodeDecimal(m.width);
    EncodeDecimal(m.height);
    EncodeComma();
  }

  /** The six parts of the export query, as they go out. */
  function ExportParts(m: MapView): seq<string>
  {
    [ "f" + "=" + "image",
      "size" + "=" + (Decimal(m.width) + "%2C" + Decimal(m.height)),
      "bbox" + "=" + Encode(BboxText(m.extent)),
      "bboxSR" + "=" + WkidText(m.extent.wkid),
      "format" + "=" + "png",
      "transparent" + "=" + "true" ]
  }

  /** The wkid text needs no escaping. */
  lemma EncodeWkid(wkid: Option<nat>)
    ensures Encode(WkidText(wkid)) == WkidText(wkid)
  {
    match wkid {
      case Some(n) => EncodeDecimal(n);
      case None => EncodeWord("undefined");
    }
  }

  /** The three parameters with fixed values go out unescaped. */
  lemma FixedParts(m: MapView)
    ensures Parts(ExportParams(m))[0] == ExportParts(m)[0]
    ensures Parts(ExportParams(m))[4] == ExportParts(m)[4]
    ensures Parts(ExportParams(m))[5] == ExportParts(m)[5]
  {
    var ps := ExportParams(m);
    WordPartAt(ps, 0, "f", "image");
    WordPartAt(ps, 4, "format", "png");
    WordPartAt(ps, 5, "transparent", "true");
  }

  lemma WordPartAt(ps: seq<Pair>, k: nat, name: string, w: string)
    requires k < |ps| && ps[k] == Pair(name, w)
    requires w == "image" || w == "png" || w == "true"
    ensures Parts(ps)[k] == name + "=" + w
  {
    PartAt(ps, k);
    EncodeWord(w);
  }

  lemma SizePart(m: MapView)
    ensures Parts(ExportParams(m))[1] == ExportParts(m)[1]
  {
    PartAt(ExportParams(m), 1);
    SizeEncoding(m);
  }

  lemma BboxPart(m: MapView)
    ensures Parts(ExportParams(m))[2] == ExportParts(m)[2]
  {
    PartAt(ExportParams(m), 2);
  }

  lemma WkidPart(m: MapView)
    ensures Parts(ExportParams(m))[3] == ExportParts(m)[3]
  {
    PartAt(ExportParams(m), 3);
    EncodeWkid(m.extent.wkid);
  }

  /** The query string as it goes out: the six parts joined by '&', with the size and bbox commas escaped. */
  lemma ExportQueryText(m: MapView)
    ensures ExportQuery(m) == Join(ExportParts(m), "&")
  {
    PartsAgree(m);
    QueryOfParts(ExportParams(m), ExportParts(m));
  }

  lemma PartsAgree(m: MapView)
    ensures |ExportParams(m)| == |ExportParts(m)|
    ensures forall k :: 0 <= k < |ExportParams(m)| ==> Parts(ExportParams(m))[k] == ExportParts(m)[k]
  {
    forall k | 0 <= k < |ExportParams(m)|
      ensures Parts(ExportParams(m))[k] == ExportParts(m)[k]
    {
      if k == 1 {
        SizePart(m);
      } else if k == 2 {
        BboxPart(m);
      } else if k == 3 {
        WkidPart(m);
      } else {
        FixedParts(m);
      }
    }
  }

  lemma QueryOfParts(ps: seq<Pair>, parts: seq<string>)
    requires |ps| == |parts|
    requires forall k :: 0 <= k < |ps| ==> Parts(ps)[k] == parts[k]
    ensures ObjToQuery(ps) == Join(parts, "&")
  {
    assert Parts(ps) == parts;
  }


  /** The query holds no '/'. */
  lemma ExportQueryHasNoSlash(m: MapView)
    ensures '/' !in ExportQuery(m)
  {
    var ps := ExportParams(m);
    assert forall i :: 0 <= i < |ps| ==> '/' !in ps[i].name;
    QueryWithout(ps, '/');
  }

  // ---------------------------------------------------------------- the URL

  /** The pattern the script collapses. */
  const DoubleSlashExport: string := "//export"

  predicate Mentions(u: string, p: string)
  {
    exists i :: 0 <= i <= |u| && OccursAt(u, p, i)
  }

  lemma RawExportUrlIs(url: string, m: MapView)
    ensures RawExportUrl(url, m) == url + "/export?" + ExportQuery(m)
  {
    var parts := [url, "/export?", ExportQuery(m)];
    assert parts[1..] == ["/export?", ExportQuery(m)];
    JoinTwo("/export?", ExportQuery(m), "");
  }

  /**
   * In `u + "/export?" + q`, with no "//export" inside `u` and no '/' in `q`,
   * "//export" can only start at the last character of `u`.
   */
  lemma OnlyJoinOccurrence(u: string, q: string, j: nat)
    requires !Mentions(u, DoubleSlashExport)
    requires '/' !in q
    requires OccursAt(u + "/export?" + q, DoubleSlashExport, j)
    ensures j + 1 == |u|
  {
    var raw := u + "/export?" + q;
    var p := DoubleSlashExport;
    assert p == ['/', '/', 'e', 'x', 'p', 'o', 'r', 't'];
    assert raw[|u|] == '/';
    assert forall k :: |u| < k < |raw| ==> raw[k] != '/' by {
      forall k | |u| < k < |raw|
        ensures raw[k] != '/'
      {
        if k < |u| + 8 {
          assert raw[k] == "/export?"[k - |u|];
        } else {
          assert raw[k] == q[k - |u| - 8];
        }
      }
    }
    assert raw[j..j + 8] == p;
    assert forall k :: 0 <= k < 8 ==> raw[j + k] == p[k];
    assert raw[j] == '/' && raw[j + 1] == '/';
    assert j < |u|;
    OccursInPrefix(u, "/export?" + q, p, j);
    assert |u| < j + 8;
    var k := |u| - j;
    assert raw[j + k] == '/';
    assert p[k] == '/';
  }

  /** An occurrence in `u + tail` that ends inside `u` is an occurrence in `u`. */
  lemma OccursInPrefix(u: string, tail: string, p: string, j: nat)
    requires OccursAt(u + tail, p, j)
    ensures j + |p| <= |u| ==> OccursAt(u, p, j)
  {
    if j + |p| <= |u| {
      assert (u + tail)[j..j + |p|] == u[j..j + |p|];
    }
  }

  /** With no "//export" in `u` and no '/' in `q`, the replace only acts at the join. */
  lemma JoinReplace(u: string, q: string)
    requires !Mentions(u, DoubleSlashExport)
    requires '/' !in q
    ensures |u| > 0 && u[|u| - 1] == '/' ==>
      ReplaceFirst(u + "/export?" + q, DoubleSlashExport, "/export") == u[..|u| - 1] + "/export?" + q
    ensures (|u| == 0 || u[|u| - 1] != '/') ==>
      ReplaceFirst(u + "/export?" + q, DoubleSlashExport, "/export") == u + "/export?" + q
  {
    var raw := u + "/export?" + q;
    match FindFrom(raw, DoubleSlashExport, 0)
    case None =>
      if |u| > 0 && u[|u| - 1] == '/' {
        assert raw[|u| - 1..|u| + 7] == DoubleSlashExport;
        assert OccursAt(raw, DoubleSlashExport, |u| - 1);
      }
    case Some(j) =>
      assert raw[j..j + 8] == DoubleSlashExport;
      OnlyJoinOccurrence(u, q, j);
      assert raw[j] == u[|u| - 1];
      assert raw[..j] == u[..|u| - 1];
      assert raw[j + 8..] == "?" + q;
  }

  /** A url that does not end in '/' (and holds no "//export") is used as it is. */
  lemma ExportUrlPlain(url: string, m: MapView)
    requires !Mentions(url, DoubleSlashExport)
    requires |url| == 0 || url[|url| - 1] != '/'
    ensures ExportUrl(url, m) == url + "/export?" + ExportQuery(m)
  {
    RawExportUrlIs(url, m);
    ExportQueryHasNoSlash(m);
    JoinReplace(url, ExportQuery(m));
  }

  /** A url ending in '/' loses that slash: the "//export" at the join becomes "/export". */
  lemma ExportUrlTrailingSlash(url: string, m: MapView)
    requires !Mentions(url, DoubleSlashExport)
    requires |url| > 0 && url[|url| - 1] == '/'
    ensures ExportUrl(url, m) == url[..|url| - 1] + "/export?" + ExportQuery(m)
  {
    RawExportUrlIs(url, m);
    ExportQueryHasNoSlash(m);
    JoinReplace(url, ExportQuery(m));
  }

  /**
   * When the layer url itself holds "//export" (as in "https://export.host/..."),
   * its first occurrence is the one collapsed, and the join is left as it is.
   */
  lemma ExportUrlEarlierExport(url: string, m: MapView, i: nat)
    requires FindFrom(url, DoubleSlashExport, 0) == Some(i)
    ensures ExportUrl(url, m) == url[..i] + url[i + 1..] + "/export?" + ExportQuery(m)
  {
    RawExportUrlIs(url, m);
    EarlierReplace(url, "/export?", ExportQuery(m), i);
  }

  lemma EarlierReplace(u: string, sep: string, q: string, i: nat)
    requires FindFrom(u, DoubleSlashExport, 0) == Some(i)
    ensures ReplaceFirst(u + sep + q, DoubleSlashExport, "/export") == u[..i] + u[i + 1..] + sep + q
  {
    var tail := sep + q;
    assert u + sep + q == u + tail;
    FirstOccurrenceKept(u, tail, DoubleSlashExport, i);
    var raw := u + tail;
    assert raw[..i] == u[..i];
    assert raw[i + 8..] == u[i + 8..] + tail;
    assert u[i + 1..] == u[i + 1..i + 8] + u[i + 8..];
    assert u[i + 1..i + 8] == "/export";
    assert u[..i] + u[i + 1..] + tail == u[..i] + u[i + 1..] + sep + q;
  }
}
