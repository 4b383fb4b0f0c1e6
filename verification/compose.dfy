/**
 * `mapToCanvas` itself: the output canvas is cleared and resized, one export
 * request is issued per selected layer, and once the joined fetches settle the
 * images, then the overlays of the active renderer, are drawn, then the
 * context is saved.  Pixels are not modelled: the canvas keeps a log of the
 * drawing commands it receives.
 */
module Compose {
  import opened Wrappers
  import opened Export
  import opened Console
  import opened Selection

  /** What an image drawn onto the output canvas is. */
  datatype Source =
    | Remote(url: string)                                  // a loaded export image
    | GraphicsCanvas(index: nat)                           // the index-th canvas element under map.root
    | SvgRaster(markup: string, width: nat, height: nat)   // an offscreen canvas holding one rasterised SVG layer

  /** One call on the output canvas's 2D context. */
  datatype DrawCmd =
    | ClearRect(x: int, y: int, w: int, h: int)
    | DrawImage(src: Source, x: int, y: int, w: int, h: int)
    | Save

  /** The output canvas: its size and the drawing commands it has received. */
  class Canvas {
    var width: nat
    var height: nat
    var draws: seq<DrawCmd>

    constructor (width: nat, height: nat)
      ensures this.width == width && this.height == height && draws == []
    {
      this.width := width;
      this.height := height;
      draws := [];
    }

    method ClearRect(x: int, y: int, w: int, h: int)
      modifies this
      ensures draws == old(draws) + [DrawCmd.ClearRect(x, y, w, h)]
      ensures width == old(width) && height == old(height)
    {
      draws := draws + [DrawCmd.ClearRect(x, y, w, h)];
    }

    method DrawImage(src: Source, x: int, y: int, w: int, h: int)
      modifies this
      ensures draws == old(draws) + [DrawCmd.DrawImage(src, x, y, w, h)]
      ensures width == old(width) && height == old(height)
    {
      draws := draws + [DrawCmd.DrawImage(src, x, y, w, h)];
    }

    method Save()
      modifies this
      ensures draws == old(draws) + [DrawCmd.Save]
      ensures width == old(width) && height == old(height)
    {
      draws := draws + [DrawCmd.Save];
    }

    /** `canvas.width = w; canvas.height = h`. */
    method Resize(w: nat, h: nat)
      modifies this
      ensures width == w && height == h
      ensures draws == old(draws)
    {
      width := w;
      height := h;
    }
  }

  /** How the image load behind one request ends: loaded, failed, or never. */
  datatype Outcome = Loaded | Failed | Pending

  /** `dojoConfig.gfxRenderer`: "canvas", "svg", or anything else. */
  datatype Renderer = CanvasRenderer | SvgRenderer | OtherRenderer

  /**
   * What the script finds under `map.root`: the number of canvas elements, and
   * the children of the first svg element by name with their inner markup
   * (`None` when there is no svg element).
   */
  datatype Root = Root(canvasCount: nat, svgLayers: Option<map<string, string>>)

  /** The optional arguments of `mapToCanvas`; `None` is `undefined`. */
  datatype Options = Options(
    baseOnly: Option<bool>,
    customWidth: Option<nat>,
    customHeight: Option<nat>,
    graphicsLayers: Option<seq<string>>)

  function BaseOnly(opts: Options): bool
  {
    opts.baseOnly.GetOr(false)
  }

  function OutputWidth(m: MapView, opts: Options): nat
  {
    opts.customWidth.GetOr(m.width)
  }

  function OutputHeight(m: MapView, opts: Options): nat
  {
    opts.customHeight.GetOr(m.height)
  }

  // ---------------------------------------------------------------- the join

  /** Which handler of `all(requests).then(...)` runs, if any. */
  datatype Settlement = AllLoaded | SomeFailed | Unsettled

  /**
   * `dojo/promise/all` fails fast: one failed load rejects the join whatever
   * the others do; it resolves only when every load has succeeded, and
   * otherwise never settles.
   */
  function Settle(outcomes: seq<Outcome>): (s: Settlement)
    ensures s == AllLoaded <==> forall i :: 0 <= i < |outcomes| ==> outcomes[i] == Loaded
    ensures s == SomeFailed <==> exists i :: 0 <= i < |outcomes| && outcomes[i] == Failed
  {
    if |outcomes| == 0 then AllLoaded
    else
      var rest := Settle(outcomes[1..]);
      assert forall i :: 1 <= i < |outcomes| ==> outcomes[i] == outcomes[1..][i - 1];
      assert forall j :: 0 <= j < |outcomes| - 1 ==> outcomes[1..][j] == outcomes[j + 1];
      match outcomes[0]
      case Failed => SomeFailed
      case Pending => if rest == SomeFailed then SomeFailed else Unsettled
      case Loaded => rest
  }

  // ---------------------------------------------------------------- what is drawn

  /** The fetched images, in request order, each stretched over the output. */
  function ImageDraws(requests: seq<Request>, w: nat, h: nat): seq<DrawCmd>
  {
    seq(|requests|, i requires 0 <= i < |requests| => DrawImage(Remote(requests[i].url), 0, 0, w, h))
  }

  /** The canvas renderer's overlays: every canvas under `map.root`, in document order. */
  function CanvasOverlay(count: nat, w: nat, h: nat): seq<DrawCmd>
  {
    seq(count, i requires 0 <= i < count => DrawImage(GraphicsCanvas(i), 0, 0, w, h))
  }

  /** `svgs[name + '_layer'].innerHTML`, or `None` where the lookup throws. */
  function SvgFragment(svg: Option<map<string, string>>, name: string): Option<string>
  {
    match svg
    case None => None
    case Some(children) => if name + "_layer" in children then Some(children[name + "_layer"]) else None
  }

  /** The index of the first layer name whose fragment is missing, or the number of names. */
  function FirstMissing(names: seq<string>, svg: Option<map<string, string>>): (k: nat)
    ensures k <= |names|
    ensures forall j :: 0 <= j < k ==> SvgFragment(svg, names[j]).Some?
    ensures k < |names| ==> SvgFragment(svg, names[k]).None?
  {
    if |names| == 0 || SvgFragment(svg, names[0]).None? then 0
    else 1 + FirstMissing(names[1..], svg)
  }

  /** One SVG layer: wrapped in `<svg>`, rasterised at the map's size, drawn stretched over the output. */
  function SvgDraw(inner: string, m: MapView, w: nat, h: nat): DrawCmd
  {
    DrawImage(SvgRaster("<svg>" + inner + "</svg>", m.width, m.height), 0, 0, w, h)
  }

  /** The SVG renderer's overlays: the named layers in order, up to the first that throws. */
  function SvgOverlay(graphicsLayers: Option<seq<string>>, svg: Option<map<string, string>>,
                      m: MapView, w: nat, h: nat): seq<DrawCmd>
  {
    match graphicsLayers
    case None => []
    case Some(names) =>
      var k := FirstMissing(names, svg);
      seq(k, i requires 0 <= i < k => SvgDraw(SvgFragment(svg, names[i]).value, m, w, h))
  }

  /** Whether the `try` around the SVG layers catches an exception. */
  function SvgThrows(graphicsLayers: Option<seq<string>>, svg: Option<map<string, string>>): bool
  {
    match graphicsLayers
    case None => true
    case Some(names) => FirstMissing(names, svg) < |names|
  }

  function OverlayDraws(renderer: Renderer, root: Root, graphicsLayers: Option<seq<string>>,
                        m: MapView, w: nat, h: nat): seq<DrawCmd>
  {
    match renderer
    case CanvasRenderer => CanvasOverlay(root.canvasCount, w, h)
    case SvgRenderer => SvgOverlay(graphicsLayers, root.svgLayers, m, w, h)
    case OtherRenderer => []
  }

  /** The draws once the join settles: on success images, overlays and `save`; otherwise none. */
  function JoinedDraws(m: MapView, opts: Options, renderer: Renderer, root: Root,
                       requests: seq<Request>, outcomes: seq<Outcome>): seq<DrawCmd>
  {
    var w := OutputWidth(m, opts);
    var h := OutputHeight(m, opts);
    match Settle(outcomes)
    case AllLoaded => ImageDraws(requests, w, h) + OverlayDraws(renderer, root, opts.graphicsLayers, m, w, h) + [Save]
    case SomeFailed => []
    case Unsettled => []
  }

  /** The console output once the join settles. */
  function JoinedLog(opts: Options, renderer: Renderer, root: Root, outcomes: seq<Outcome>): seq<LogEntry>
  {
    match Settle(outcomes)
    case AllLoaded =>
      if renderer == SvgRenderer && SvgThrows(opts.graphicsLayers, root.svgLayers) then [ConsoleLogException] else []
    case SomeFailed => [ConsoleError, Alert(ThumbnailError)]
    case Unsettled => []
  }

  // ---------------------------------------------------------------- properties of the draw log

  /** One failed load: nothing is drawn, not even `save`, and the error is reported. */
  lemma FailFast(m: MapView, opts: Options, renderer: Renderer, root: Root,
                 requests: seq<Request>, outcomes: seq<Outcome>, i: nat)
    requires i < |outcomes| && outcomes[i] == Failed
    ensures JoinedDraws(m, opts, renderer, root, requests, outcomes) == []
    ensures JoinedLog(opts, renderer, root, outcomes) == [ConsoleError, Alert(ThumbnailError)]
  {
  }

  /** A load that never ends, with none failed: the handlers never run. */
  lemma NeverSettles(m: MapView, opts: Options, renderer: Renderer, root: Root,
                     requests: seq<Request>, outcomes: seq<Outcome>, i: nat)
    requires i < |outcomes| && outcomes[i] == Pending
    requires forall j :: 0 <= j < |outcomes| ==> outcomes[j] != Failed
    ensures JoinedDraws(m, opts, renderer, root, requests, outcomes) == []
    ensures JoinedLog(opts, renderer, root, outcomes) == []
  {
  }

  /**
   * Every load succeeds: one draw per request in request order, then the
   * overlays, then `save`.
   */
  lemma SuccessOrder(m: MapView, opts: Options, renderer: Renderer, root: Root,
                     requests: seq<Request>, outcomes: seq<Outcome>)
    requires forall j :: 0 <= j < |outcomes| ==> outcomes[j] == Loaded
    ensures var d := JoinedDraws(m, opts, renderer, root, requests, outcomes);
            var o := OverlayDraws(renderer, root, opts.graphicsLayers, m, OutputWidth(m, opts), OutputHeight(m, opts));
            && |d| == |requests| + |o| + 1
            && (forall i :: 0 <= i < |requests| ==>
                  d[i] == DrawImage(Remote(requests[i].url), 0, 0, OutputWidth(m, opts), OutputHeight(m, opts)))
            && (forall i :: 0 <= i < |o| ==> d[|requests| + i] == o[i])
            && d[|d| - 1] == Save
  {
  }

  /** The overlays a renderer contributes: every root canvas, the SVG layers up to the first missing one, or none. */
  lemma OverlayCount(renderer: Renderer, root: Root, graphicsLayers: Option<seq<string>>, m: MapView, w: nat, h: nat)
    ensures renderer == CanvasRenderer ==> |OverlayDraws(renderer, root, graphicsLayers, m, w, h)| == root.canvasCount
    ensures renderer == SvgRenderer && graphicsLayers.Some? ==>
      |OverlayDraws(renderer, root, graphicsLayers, m, w, h)| == FirstMissing(graphicsLayers.value, root.svgLayers)
    ensures renderer == SvgRenderer && graphicsLayers.None? ==> OverlayDraws(renderer, root, graphicsLayers, m, w, h) == []
    ensures renderer == OtherRenderer ==> OverlayDraws(renderer, root, graphicsLayers, m, w, h) == []
  {
  }

  /** Every command after the clear, but the final `save`, draws an image over the whole output. */
  lemma DrawsCoverOutput(m: MapView, opts: Options, renderer: Renderer, root: Root,
                         requests: seq<Request>, outcomes: seq<Outcome>)
    ensures var d := JoinedDraws(m, opts, renderer, root, requests, outcomes);
            forall k :: 0 <= k < |d| - 1 ==>
              d[k].DrawImage? && d[k].x == 0 && d[k].y == 0
              && d[k].w == OutputWidth(m, opts) && d[k].h == OutputHeight(m, opts)
  {
  }

  /**
   * The first graphics layer without a fragment ends the SVG loop: the layers
   * before it are drawn in order, the ones after it are not, whatever they hold,
   * and the exception is logged.
   */
  lemma SvgStopsAtFirstMissing(names: seq<string>, svg: Option<map<string, string>>,
                               m: MapView, w: nat, h: nat, k: nat)
    requires k < |names| && SvgFragment(svg, names[k]).None?
    requires forall j :: 0 <= j < k ==> SvgFragment(svg, names[j]).Some?
    ensures |SvgOverlay(Some(names), svg, m, w, h)| == k
    ensures forall j :: 0 <= j < k ==>
      SvgOverlay(Some(names), svg, m, w, h)[j] == SvgDraw(SvgFragment(svg, names[j]).value, m, w, h)
    ensures SvgThrows(Some(names), svg)
  {
  }

  /** Without a failure every named layer is drawn, in the order given. */
  lemma SvgAllDrawn(names: seq<string>, svg: Option<map<string, string>>, m: MapView, w: nat, h: nat)
    requires forall j :: 0 <= j < |names| ==> SvgFragment(svg, names[j]).Some?
    ensures |SvgOverlay(Some(names), svg, m, w, h)| == |names|
    ensures forall j :: 0 <= j < |names| ==>
      SvgOverlay(Some(names), svg, m, w, h)[j] == SvgDraw(SvgFragment(svg, names[j]).value, m, w, h)
    ensures !SvgThrows(Some(names), svg)
  {
  }

  /**
   * On success the images drawn first are, in layer order, the export URLs of
   * the considered layers that have a url and are visible at the map scale.
   */
  lemma DrawnImagesAreSelectedLayers(m: MapView, opts: Options, renderer: Renderer, root: Root,
                                     outcomes: seq<Outcome>)
    requires forall j :: 0 <= j < |outcomes| ==> outcomes[j] == Loaded
    ensures var reqs := Requests(m, BaseOnly(opts), m.layerIds);
            var d := JoinedDraws(m, opts, renderer, root, reqs, outcomes);
            && IsSubsequence(LayerIdsOf(reqs), m.layerIds)
            && forall i :: 0 <= i < |reqs| ==>
                 var id := reqs[i].layerId;
                 && id in m.layers
                 && (BaseOnly(opts) ==> id in m.basemapLayerIds)
                 && m.layers[id].url != "" && m.layers[id].visibleAtMapScale
                 && d[i] == DrawImage(Remote(ExportUrl(m.layers[id].url, m)), 0, 0, OutputWidth(m, opts), OutputHeight(m, opts))
  {
    var reqs := Requests(m, BaseOnly(opts), m.layerIds);
    RequestsInLayerOrder(m, BaseOnly(opts), m.layerIds);
    forall i | 0 <= i < |reqs|
      ensures reqs[i].layerId in m.layers
      ensures BaseOnly(opts) ==> reqs[i].layerId in m.basemapLayerIds
      ensures m.layers[reqs[i].layerId].url != "" && m.layers[reqs[i].layerId].visibleAtMapScale
      ensures reqs[i].url == ExportUrl(m.layers[reqs[i].layerId].url, m)
    {
      RequestIff(m, BaseOnly(opts), m.layerIds, reqs[i].layerId, reqs[i].url);
    }
  }

  // ---------------------------------------------------------------- the script

  /** `images.forEach(image => ctx.drawImage(image, 0, 0, w, h))`. */
  method DrawImages(canvas: Canvas, requests: seq<Request>, w: nat, h: nat)
    modifies canvas
    ensures canvas.draws == old(canvas.draws) + ImageDraws(requests, w, h)
    ensures canvas.width == old(canvas.width) && canvas.height == old(canvas.height)
  {
    for i := 0 to |requests|
      invariant canvas.draws == old(canvas.draws) + ImageDraws(requests[..i], w, h)
      invariant canvas.width == old(canvas.width) && canvas.height == old(canvas.height)
    {
      canvas.DrawImage(Remote(requests[i].url), 0, 0, w, h);
      assert ImageDraws(requests[..i + 1], w, h) == ImageDraws(requests[..i], w, h) + [DrawImage(Remote(requests[i].url), 0, 0, w, h)];
    }
    assert requests[..|requests|] == requests;
  }

  /** The canvas renderer's loop over `map.root.querySelectorAll("canvas")`. */
  method DrawGraphicsCanvases(canvas: Canvas, count: nat, w: nat, h: nat)
    modifies canvas
    ensures canvas.draws == old(canvas.draws) + CanvasOverlay(count, w, h)
    ensures canvas.width == old(canvas.width) && canvas.height == old(canvas.height)
  {
    if count > 0 {
      for i := 0 to count
        invariant canvas.draws == old(canvas.draws) + CanvasOverlay(i, w, h)
        invariant canvas.width == old(canvas.width) && canvas.height == old(canvas.height)
      {
        canvas.DrawImage(GraphicsCanvas(i), 0, 0, w, h);
        assert CanvasOverlay(i + 1, w, h) == CanvasOverlay(i, w, h) + [DrawImage(GraphicsCanvas(i), 0, 0, w, h)];
      }
    }
  }

  /**
   * The SVG renderer's `try { graphicsLayers.forEach(...) } catch`: the first
   * layer whose lookup throws ends the loop; what was drawn before stays.
   */
  method DrawSvgLayers(canvas: Canvas, m: MapView, graphicsLayers: Option<seq<string>>,
                       svg: Option<map<string, string>>, w: nat, h: nat) returns (caught: bool)
    modifies canvas
    ensures canvas.draws == old(canvas.draws) + SvgOverlay(graphicsLayers, svg, m, w, h)
    ensures caught == SvgThrows(graphicsLayers, svg)
    ensures canvas.width == old(canvas.width) && canvas.height == old(canvas.height)
  {
    if graphicsLayers.None? {
      return true;
    }
    var names := graphicsLayers.value;
    var i := 0;
    caught := false;
    while i < |names|
      invariant 0 <= i <= |names|
      invariant forall j :: 0 <= j < i ==> SvgFragment(svg, names[j]).Some?
      invariant canvas.draws == old(canvas.draws)
        + seq(i, j requires 0 <= j < i => SvgDraw(SvgFragment(svg, names[j]).value, m, w, h))
      invariant canvas.width == old(canvas.width) && canvas.height == old(canvas.height)
    {
      var fragment := SvgFragment(svg, names[i]);
      if fragment.None? {
        caught := true;
        break;
      }
      canvas.DrawImage(SvgRaster("<svg>" + fragment.value + "</svg>", m.width, m.height), 0, 0, w, h);
      i := i + 1;
    }
  }

  /**
   * The success callback: the loaded images in request order, the renderer's
   * overlays, then `save`; `caught` tells whether the SVG `try` caught an exception.
   */
  method OnLoaded(canvas: Canvas, m: MapView, requests: seq<Request>, renderer: Renderer, root: Root,
                  graphicsLayers: Option<seq<string>>, w: nat, h: nat)
    returns (caught: bool)
    modifies canvas
    ensures canvas.draws == old(canvas.draws) + ImageDraws(requests, w, h)
      + OverlayDraws(renderer, root, graphicsLayers, m, w, h) + [Save]
    ensures caught == (renderer == SvgRenderer && SvgThrows(graphicsLayers, root.svgLayers))
    ensures canvas.width == old(canvas.width) && canvas.height == old(canvas.height)
  {
    DrawImages(canvas, requests, w, h);
    caught := false;
    if renderer == CanvasRenderer {
      DrawGraphicsCanvases(canvas, root.canvasCount, w, h);
    } else if renderer == SvgRenderer {
      caught := DrawSvgLayers(canvas, m, graphicsLayers, root.svgLayers, w, h);
    }
    canvas.Save();
  }

  /**
   * `mapToCanvas(map, canvas, baseOnly, includeGraphics, customWidth,
   * customHeight, graphicsLayers)` with the renderer setting, what lies under
   * `map.root` and how each image load ends given as inputs.  Returns the
   * issued requests, the console output and which handler of the join ran.
   */
  method MapToCanvas(m: MapView, canvas: Canvas, opts: Options, renderer: Renderer, root: Root,
                     outcomes: seq<Outcome>)
    returns (requests: seq<Request>, log: seq<LogEntry>, settlement: Settlement)
    requires |outcomes| == |Requests(m, BaseOnly(opts), m.layerIds)|
    modifies canvas
    ensures requests == Requests(m, BaseOnly(opts), m.layerIds)
    ensures settlement == Settle(outcomes)
    ensures canvas.width == OutputWidth(m, opts) && canvas.height == OutputHeight(m, opts)
    ensures canvas.draws == old(canvas.draws) + [ClearRect(0, 0, old(canvas.width), old(canvas.height))]
      + JoinedDraws(m, opts, renderer, root, requests, outcomes)
    ensures log == SkipLog(m, BaseOnly(opts), m.layerIds) + JoinedLog(opts, renderer, root, outcomes)
  {
    var baseOnly := opts.baseOnly.GetOr(false);
    var w := opts.customWidth.GetOr(m.width);
    var h := opts.customHeight.GetOr(m.height);
    canvas.ClearRect(0, 0, canvas.width, canvas.height);
    canvas.Resize(w, h);
    requests, log := SelectLayers(m, baseOnly);
    settlement := Settle(outcomes);
    match settlement {
      case AllLoaded =>
        var caught := OnLoaded(canvas, m, requests, renderer, root, opts.graphicsLayers, w, h);
        if caught {
          log := log + [ConsoleLogException];
        }
      case SomeFailed =>
        log := log + [ConsoleError, Alert(ThumbnailError)];
      case Unsettled =>
    }
  }
}
