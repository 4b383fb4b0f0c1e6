/**
 * The loop over `map.layerIds` in `mapToCanvas`: which layers are looked up
 * (basemap layers only, or all of them), which of those get an export request
 * and which are reported with "No URL for layer: <id>".
 */
module Selection {
  import opened Wrappers
  import opened Export
  import opened Console

  /** `map.getLayer(id)`. */
  function GetLayer(m: MapView, id: string): Option<Layer>
  {
    if id in m.layers then Some(m.layers[id]) else None
  }

  /**
   * The layer the loop body works on: looked up when `baseOnly` is false, or
   * when it is true and the id is a basemap id; otherwise undefined.
   */
  function Lookup(m: MapView, baseOnly: bool, id: string): (r: Option<Layer>)
    ensures r.Some? <==> id in m.layers && (baseOnly ==> id in m.basemapLayerIds)
    ensures r.Some? ==> r.value == m.layers[id]
  {
    if baseOnly && id in m.basemapLayerIds then GetLayer(m, id)
    else if !baseOnly then GetLayer(m, id)
    else None
  }

  /** What the loop body does for one id. */
  datatype Decision = Ignored | NoUrl | Fetch(url: string)

  /** A layer is fetched when its url is truthy and it is visible at the map scale; otherwise it is reported. */
  function Decide(m: MapView, baseOnly: bool, id: string): Decision
  {
    match Lookup(m, baseOnly, id)
    case None => Ignored
    case Some(layer) =>
      if layer.url != "" && layer.visibleAtMapScale then Fetch(ExportUrl(layer.url, m)) else NoUrl
  }

  /** One issued export request: the layer it is for and the URL its image loads from. */
  datatype Request = Request(layerId: string, url: string)

  function StepRequests(m: MapView, baseOnly: bool, id: string): seq<Request>
  {
    match Decide(m, baseOnly, id)
    case Fetch(url) => [Request(id, url)]
    case _ => []
  }

  function StepLog(m: MapView, baseOnly: bool, id: string): seq<LogEntry>
  {
    if Decide(m, baseOnly, id) == NoUrl then [ConsoleLog(NoUrlMessage(id))] else []
  }

  /** The `requests` array after the loop has visited `ids`. */
  function Requests(m: MapView, baseOnly: bool, ids: seq<string>): seq<Request>
  {
    if |ids| == 0 then []
    else Requests(m, baseOnly, ids[..|ids| - 1]) + StepRequests(m, baseOnly, ids[|ids| - 1])
  }

  /** The console output of the loop after it has visited `ids`. */
  function SkipLog(m: MapView, baseOnly: bool, ids: seq<string>): seq<LogEntry>
  {
    if |ids| == 0 then []
    else SkipLog(m, baseOnly, ids[..|ids| - 1]) + StepLog(m, baseOnly, ids[|ids| - 1])
  }

  /** The `map.layerIds.forEach(...)` loop. */
  method SelectLayers(m: MapView, baseOnly: bool) returns (requests: seq<Request>, log: seq<LogEntry>)
    ensures requests == Requests(m, baseOnly, m.layerIds)
    ensures log == SkipLog(m, baseOnly, m.layerIds)
  {
    requests, log := [], [];
    for i := 0 to |m.layerIds|
      invariant requests == Requests(m, baseOnly, m.layerIds[..i])
      invariant log == SkipLog(m, baseOnly, m.layerIds[..i])
    {
      var layerId := m.layerIds[i];
      var layer: Option<Layer>;
      if baseOnly && layerId in m.basemapLayerIds {
        layer := GetLayer(m, layerId);
      } else if !baseOnly {
        layer := GetLayer(m, layerId);
      } else {
        layer := None;
      }
      StepOf(m, baseOnly, layerId, layer);
      if layer.Some? {
        if layer.value.url != "" && layer.value.visibleAtMapScale {
          requests := requests + [Request(layerId, ExportUrl(layer.value.url, m))];
        } else {
          log := log + [ConsoleLog(NoUrlMessage(layerId))];
        }
      }
      PrefixStep(m, baseOnly, m.layerIds, i);
    }
    assert m.layerIds[..|m.layerIds|] == m.layerIds;
  }

  /** One step, in terms of the layer the lookup gives. */
  lemma StepOf(m: MapView, baseOnly: bool, id: string, layer: Option<Layer>)
    requires layer == Lookup(m, baseOnly, id)
    ensures StepRequests(m, baseOnly, id) ==
      if layer.Some? && layer.value.url != "" && layer.value.visibleAtMapScale
      then [Request(id, ExportUrl(layer.value.url, m))] else []
    ensures StepLog(m, baseOnly, id) ==
      if layer.Some? && !(layer.value.url != "" && layer.value.visibleAtMapScale)
      then [ConsoleLog(NoUrlMessage(id))] else []
  {
  }

  /** Visiting one more id extends the requests and the log by that id's step. */
  lemma PrefixStep(m: MapView, baseOnly: bool, ids: seq<string>, i: nat)
    requires i < |ids|
    ensures Requests(m, baseOnly, ids[..i + 1]) == Requests(m, baseOnly, ids[..i]) + StepRequests(m, baseOnly, ids[i])
    ensures SkipLog(m, baseOnly, ids[..i + 1]) == SkipLog(m, baseOnly, ids[..i]) + StepLog(m, baseOnly, ids[i])
  {
    assert ids[..i + 1][..i] == ids[..i];
  }

  // ---------------------------------------------------------------- properties

  /**
   * A request is issued for exactly the considered layers (every layer, or the
   * basemap layers when `baseOnly`) that have a url and are visible at the map
   * scale, and it loads that layer's export URL.
   */
  lemma {:induction false} RequestIff(m: MapView, baseOnly: bool, ids: seq<string>, id: string, url: string)
    ensures Request(id, url) in Requests(m, baseOnly, ids) <==>
      id in ids && id in m.layers && (baseOnly ==> id in m.basemapLayerIds)
      && m.layers[id].url != "" && m.layers[id].visibleAtMapScale
      && url == ExportUrl(m.layers[id].url, m)
    decreases |ids|
  {
    if |ids| > 0 {
      var init := ids[..|ids| - 1];
      RequestIff(m, baseOnly, init, id, url);
      assert ids == init + [ids[|ids| - 1]];
    }
  }

  /** "No URL for layer: <id>" is logged for exactly the considered layers that are not fetched. */
  lemma {:induction false} NoUrlIff(m: MapView, baseOnly: bool, ids: seq<string>, id: string)
    ensures ConsoleLog(NoUrlMessage(id)) in SkipLog(m, baseOnly, ids) <==>
      id in ids && id in m.layers && (baseOnly ==> id in m.basemapLayerIds)
      && !(m.layers[id].url != "" && m.layers[id].visibleAtMapScale)
    decreases |ids|
  {
    if |ids| > 0 {
      var init := ids[..|ids| - 1];
      var last := ids[|ids| - 1];
      NoUrlIff(m, baseOnly, init, id);
      assert ids == init + [last];
      if ConsoleLog(NoUrlMessage(id)) in StepLog(m, baseOnly, last) {
        assert NoUrlMessage(id)[18..] == id;
        assert NoUrlMessage(last)[18..] == last;
      }
    }
  }

  /** The layer ids of a list of requests. */
  function LayerIdsOf(rs: seq<Request>): seq<string>
  {
    seq(|rs|, i requires 0 <= i < |rs| => rs[i].layerId)
  }

  /** `a` is `b` with some elements left out, the rest kept in order. */
  predicate IsSubsequence(a: seq<string>, b: seq<string>)
    decreases |b|
  {
    |a| == 0 ||
    (|b| > 0 &&
      (IsSubsequence(a, b[..|b| - 1]) ||
       (a[|a| - 1] == b[|b| - 1] && IsSubsequence(a[..|a| - 1], b[..|b| - 1]))))
  }

  /** One more visited id adds no request id, or that id at the end. */
  lemma LastStepIds(m: MapView, baseOnly: bool, ids: seq<string>)
    requires |ids| > 0
    ensures var before := LayerIdsOf(Requests(m, baseOnly, ids[..|ids| - 1]));
      var after := LayerIdsOf(Requests(m, baseOnly, ids));
      after == before || after == before + [ids[|ids| - 1]]
  {
    var rs := Requests(m, baseOnly, ids[..|ids| - 1]);
    var step := StepRequests(m, baseOnly, ids[|ids| - 1]);
    assert step == [] || (|step| == 1 && step[0].layerId == ids[|ids| - 1]);
    assert LayerIdsOf(rs + step) == LayerIdsOf(rs) + LayerIdsOf(step);
  }

  /** The requests follow `map.layerIds`: a subsequence of it, in the same order. */
  lemma {:induction false} RequestsInLayerOrder(m: MapView, baseOnly: bool, ids: seq<string>)
    ensures IsSubsequence(LayerIdsOf(Requests(m, baseOnly, ids)), ids)
    decreases |ids|
  {
    if |ids| > 0 {
      var init := ids[..|ids| - 1];
      var before := LayerIdsOf(Requests(m, baseOnly, init));
      var after := LayerIdsOf(Requests(m, baseOnly, ids));
      RequestsInLayerOrder(m, baseOnly, init);
      LastStepIds(m, baseOnly, ids);
      if after != before {
        assert after[..|after| - 1] == before;
      }
    }
  }

  /** No layer id gets more requests than it has entries in `ids`: at most one per distinct id. */
  lemma {:induction false} RequestsPerLayer(m: MapView, baseOnly: bool, ids: seq<string>)
    ensures multiset(LayerIdsOf(Requests(m, baseOnly, ids))) <= multiset(ids)
    decreases |ids|
  {
    if |ids| > 0 {
      var init := ids[..|ids| - 1];
      var last := ids[|ids| - 1];
      RequestsPerLayer(m, baseOnly, init);
      LastStepIds(m, baseOnly, ids);
      assert ids == init + [last];
      assert multiset(ids) == multiset(init) + multiset{last};
    }
  }
}
