# map-to-canvas, modelled in Dafny

`Script/map-to-canvas.js` exports one function, `mapToCanvas(map, canvas, baseOnly,
includeGraphics, customWidth, customHeight, graphicsLayers)`. It flattens an ArcGIS map
view into a single canvas, which can then serve as a thumbnail:

1. It clears the canvas and resizes it to the requested size. The size defaults to the map's size.
2. For every layer id of the map, in order, it decides whether the layer is looked up.
   With `baseOnly`, only basemap layers are looked up. A looked-up layer with a url that is
   visible at the map scale gets an export request
   `<layer url>/export?f=image&size=…&bbox=…&bboxSR=…&format=png&transparent=true`.
   The query string comes from `objToQuery`, which percent-encodes each value with
   `encodeURIComponent`. Any other looked-up layer is logged with "No URL for layer: <id>".
3. It loads every export image and joins the loads with `dojo/promise/all`. When all loads
   succeed, it draws the images in request order, then the overlays of the configured graphics
   renderer, then calls `save`. The canvas renderer's overlays are the canvases under the map
   root. The SVG renderer's overlays are the named SVG layers, each rasterised first. When a
   load fails, it logs the error and alerts the user instead.

The model has one module per concern:

- `Wrappers`: the Option type.
- `Text`: the string operations the script uses, which are Array `join`, String `replace` with a string pattern (first occurrence only, found by `FindFrom`) and the decimal rendering of integers. `Split` is the inverse of `Join`, used only to state what a joined string still carries.
- `Query`: `encodeURIComponent`, with `decodeURIComponent` as its proved inverse, and `objToQuery`.
- `Export`: the map view and the export parameters and URL.
- `Selection`: the layer loop, as a method proved against recursive specification functions.
- `Console`: the log entries.
- `Compose`: the output canvas, as a class that records its drawing commands; the join; the success callback and its overlay loops; and `mapToCanvas` as a method.

The image loads, the DOM and the renderer setting are inputs. How each load ends (loaded, failed or never) is given as a sequence with one entry per request.

## Where the code differs from its stated intent

The model follows the code in each case.

- The join is fail-fast. `dojo/promise/all` rejects as soon as one load fails, so nothing is drawn, not even `save` (`Compose.FailFast`). An all-settle join, which would draw the images that did load, is not what the code does.
- One `try` surrounds the whole SVG `forEach`. The first layer whose fragment is missing ends the loop, and later layers are not drawn (`Compose.SvgStopsAtFirstMissing`). A catch per layer, which would skip only the missing one, is not what the code does.
- The update note at line 4 of the script says `graphicsLayers` defaults to all graphics layers. The code has no default. Under the SVG renderer an omitted `graphicsLayers` makes `graphicsLayers.forEach` throw at line 141. The throw is caught and logged, and no overlay is drawn (`Compose.SvgThrows`; the third ensures of `Compose.OverlayCount`).
- The error handler returns normally, so the promise `mapToCanvas` returns is fulfilled after either handler. Callers cannot observe a failure. The model reports which handler ran (`Settlement`).
- `encodeURIComponent` escapes the comma in `size`, so the request carries `size=<w>%2C<h>`, not `size=<w>,<h>` (`Export.SizeEncoding`).
- The bbox commas are escaped the same way: `bbox=<xmin>%2C<ymin>%2C<xmax>%2C<ymax>` (`Export.BboxEncoding`).
- The comment at line 92 says the script eliminates double slashes before "export", but `replace` with a string pattern rewrites only the first occurrence. A url such as `https://export.host/MapServer/` loses the slash in `https://` and keeps `//export` at the join (`Export.ExportUrlEarlierExport`).
- The comment at line 113 says the message is for a layer without a URL. "No URL for layer" is also logged for a layer that has a url but is not visible at the map scale (`Selection.NoUrlIff`).

## Model

| member | source | states |
|---|---|---|
| `Query.Encode` | Script/map-to-canvas.js:19 | `encodeURIComponent(s)` holds only unreserved characters (letters, digits, `-_.!~*'()`) and `%` |
| `Query.EncodeChar` | Script/map-to-canvas.js:19 | one character of `encodeURIComponent`: itself when unreserved, else its escaped UTF-8 bytes; characterised by `ReadCharRoundTrip` and `Encode` |
| `Query.DecodeEncode` | Script/map-to-canvas.js:19 | `decodeURIComponent(encodeURIComponent(s)) == s` for every string: no value is lost or altered by the encoding |
| `Query.ReadCharRoundTrip` | Script/map-to-canvas.js:19 | an escaped character is the percent-escaped UTF-8 of that character and reads back as exactly it |
| `Query.Utf8Shape` | Script/map-to-canvas.js:19 | the UTF-8 bytes of a character have a lead byte announcing their count and continuation bytes, and carry the character's code point |
| `Query.ObjToQuery` | Script/map-to-canvas.js:15-23 | `objToQuery` returns "" exactly when there are no keys |
| `Query.Part` | Script/map-to-canvas.js:19 | `[propName, encodeURIComponent(value)].join("=")`; characterised by `PartRoundTrip`, and `PartText` gives its text |
| `Query.PartRoundTrip` | Script/map-to-canvas.js:19 | with a name free of `&` and `=`, a part parses back into its name and value |
| `Query.Parts` | Script/map-to-canvas.js:16-21 | the `output` array: one part per enumerated key, in order; characterised by `PartAt` and `QueryRoundTrip` |
| `Query.PartAt` | Script/map-to-canvas.js:16-21 | the `k`-th entry of `output` is the `k`-th key, `=` and its encoded value |
| `Query.QueryRoundTrip` | Script/map-to-canvas.js:15-23 | with names free of `&` and `=`, the query parses back into the same pairs in enumeration order: one `name=value` part per key, with every key kept |
| `Query.QueryAmpersands` | Script/map-to-canvas.js:15-23 | when no name holds `&` or `=`, a non-empty query holds exactly (number of keys − 1) `&` |
| `Query.QueryWithout` | Script/map-to-canvas.js:15-23 | a character that is not a separator, cannot come out of the encoder and is in no name is not in the query |
| `Text.SplitJoin` | Script/map-to-canvas.js:22 | splitting `parts.join(sep)` at `sep` gives the parts back when none holds `sep` |
| `Text.Join` | Script/map-to-canvas.js:19 | Array `join`, also used at :22, :82-83 and :91; characterised by `JoinTwo`, `SplitJoin` and `JoinSeparatorCount` |
| `Text.JoinSeparatorCount` | Script/map-to-canvas.js:22 | such a join holds one separator fewer than it has parts |
| `Text.FindFrom` | Script/map-to-canvas.js:93 | the index used by `replace` is the first occurrence of the pattern, with none before it; there is none when it finds none |
| `Text.FirstOccurrenceKept` | Script/map-to-canvas.js:91-93 | text appended after the layer url does not change the url's first occurrence of a pattern |
| `Text.ReplaceFirst` | Script/map-to-canvas.js:93 | `replace` with a string pattern: only the first occurrence; characterised by `ExportUrlPlain`, `ExportUrlTrailingSlash` and `ExportUrlEarlierExport` |
| `Text.Decimal` | Script/map-to-canvas.js:82-84 | a non-negative integer renders as decimal digits without a leading zero |
| `Text.DecimalRoundTrip` | Script/map-to-canvas.js:82-84 | those digits denote the number rendered |
| `Export.ExportQueryPairs` | Script/map-to-canvas.js:80-89 | the export query parses back to exactly `f=image`, `size=<w>,<h>`, `bbox=<xmin>,<ymin>,<xmax>,<ymax>`, `bboxSR=<wkid>`, `format=png` and `transparent=true`, in that order, with the commas restored by decoding |
| `Export.ExportParams` | Script/map-to-canvas.js:80-87 | the `exportParams` object in key order; characterised by `ExportQueryPairs` |
| `Export.SizeText` | Script/map-to-canvas.js:82 | `[map.width, map.height].join(",")`; characterised by `SizeEncoding` and `ExportQueryPairs` |
| `Export.BboxText` | Script/map-to-canvas.js:83 | the four extent corners joined by commas; characterised by `BboxTextIs` and `BboxEncoding` |
| `Export.BboxTextIs` | Script/map-to-canvas.js:83 | the bbox value is `xmin,ymin,xmax,ymax`, in that order |
| `Export.WkidText` | Script/map-to-canvas.js:84 | `String(wkid)`, which is `"undefined"` when the spatial reference has no wkid; characterised by `EncodeWkid` |
| `Export.EncodeWkid` | Script/map-to-canvas.js:84 | the bboxSR value, digits or `undefined`, goes out unescaped |
| `Export.ExportQuery` | Script/map-to-canvas.js:89 | `objToQuery(exportParams)`; characterised by `ExportQueryPairs`, `ExportQueryText` and `ExportQueryHasNoSlash` |
| `Export.ExportQueryText` | Script/map-to-canvas.js:80-89 | the query as sent: `f=image&size=<w>%2C<h>&bbox=<escaped bbox>&bboxSR=<wkid>&format=png&transparent=true` |
| `Export.SizeEncoding` | Script/map-to-canvas.js:82 | the size value is the map width and height in decimal, separated by an escaped comma |
| `Export.BboxEncoding` | Script/map-to-canvas.js:83 | the bbox value goes out as the four encoded coordinates with each comma escaped as `%2C` |
| `Export.ExportQueryHasNoSlash` | Script/map-to-canvas.js:80-89 | the export query contains no `/` |
| `Export.ExportUrlPlain` | Script/map-to-canvas.js:91-93 | a url that neither ends in `/` nor holds `//export` gives `url + "/export?" + query` unchanged |
| `Export.RawExportUrl` | Script/map-to-canvas.js:91 | `[layer.url, "/export?", query].join("")`; `RawExportUrlIs` gives it as `url + "/export?" + query` |
| `Export.RawExportUrlIs` | Script/map-to-canvas.js:91 | the joined URL is the layer url, `/export?` and the query, in that order |
| `Export.ExportUrl` | Script/map-to-canvas.js:91-93 | the export URL after the replace; characterised by `ExportUrlPlain`, `ExportUrlTrailingSlash` and `ExportUrlEarlierExport` |
| `Export.ExportUrlTrailingSlash` | Script/map-to-canvas.js:91-93 | a url that ends in `/` and holds no `//export` of its own loses that one slash: `url[..n-1] + "/export?" + query` |
| `Export.ExportUrlEarlierExport` | Script/map-to-canvas.js:91-93 | when the url itself holds `//export` (e.g. `https://export…`), only its first occurrence loses a slash and the join is left as it is |
| `Export.JoinReplace` | Script/map-to-canvas.js:91-93 | in `u + "/export?" + q`, with no `//export` in `u` and no `/` in `q`, the replace acts only at the join |
| `Export.OnlyJoinOccurrence` | Script/map-to-canvas.js:91-93 | under those conditions `//export` can only start at the last character of the url |
| `Export.EarlierReplace` | Script/map-to-canvas.js:93 | replacing the first `//export` of `u + tail` drops the slash at `u`'s first occurrence |
| `Selection.Lookup` | Script/map-to-canvas.js:63-73 | a layer is looked up exactly when `getLayer` finds it and, under `baseOnly`, its id is a basemap id; with `baseOnly` false every id is looked up |
| `Selection.SelectLayers` | Script/map-to-canvas.js:58-118 | the loop's `requests` and console output are `Requests` and `SkipLog` of `map.layerIds` |
| `Selection.Decide` | Script/map-to-canvas.js:75-115 | for a looked-up layer: fetch its export URL when the url is truthy and the layer is visible, else report it; characterised by `RequestIff` and `NoUrlIff` |
| `Selection.Requests` | Script/map-to-canvas.js:58-99 | the `requests` array after the loop has visited a prefix of the ids; characterised by `RequestIff`, `RequestsInLayerOrder` and `RequestsPerLayer` |
| `Selection.SkipLog` | Script/map-to-canvas.js:58-115 | the console output of the loop after a prefix of the ids; characterised by `NoUrlIff` |
| `Selection.RequestIff` | Script/map-to-canvas.js:63-99 | a request `(id, url)` is issued iff `id` is a layer id that is looked up, has a url and is visible at the map scale, with `url` its export URL |
| `Selection.NoUrlIff` | Script/map-to-canvas.js:63-115 | "No URL for layer: id" is logged iff `id` is looked up but lacks a url or is not visible |
| `Console.NoUrlMessage` | Script/map-to-canvas.js:114 | `"No URL for layer: " + layerId`; its use is stated by `Selection.NoUrlIff` |
| `Selection.RequestsInLayerOrder` | Script/map-to-canvas.js:58-99 | the requests' layer ids are a subsequence of `map.layerIds`, in the same order |
| `Selection.RequestsPerLayer` | Script/map-to-canvas.js:58-99 | no id gets more requests than it occurs in `map.layerIds`: at most one request per layer |
| `Compose.Canvas.ClearRect` | Script/map-to-canvas.js:48 | appends one clear command and keeps the size |
| `Compose.Canvas.Resize` | Script/map-to-canvas.js:51-52 | sets width and height and keeps the commands |
| `Compose.Canvas.DrawImage` | Script/map-to-canvas.js:124 | appends one draw command and keeps the size |
| `Compose.Canvas.Save` | Script/map-to-canvas.js:157 | appends `save` and keeps the size |
| `Compose.Settle` | Script/map-to-canvas.js:121 | the join resolves iff every load succeeded and rejects iff some load failed, whatever the rest do |
| `Compose.BaseOnly` | Script/map-to-canvas.js:39 | `baseOnly` defaults to false only when undefined; its effect is stated by `Selection.Lookup` |
| `Compose.OutputWidth` | Script/map-to-canvas.js:41 | `customWidth`, or the map width when undefined; the canvas width after `MapToCanvas` |
| `Compose.OutputHeight` | Script/map-to-canvas.js:42 | `customHeight`, or the map height when undefined; the canvas height after `MapToCanvas` |
| `Compose.FirstMissing` | Script/map-to-canvas.js:141-143 | the position of the first graphics layer whose fragment lookup throws: all before it are found, it is not |
| `Compose.SvgFragment` | Script/map-to-canvas.js:142-143 | `svgs[name + '_layer'].innerHTML`, or nothing when the svg element or the child is missing, which makes the lookup throw; characterised by `FirstMissing` |
| `Compose.SvgThrows` | Script/map-to-canvas.js:140-154 | the SVG `try` catches iff `graphicsLayers` is undefined or names a missing fragment; characterised by `SvgStopsAtFirstMissing`, `SvgAllDrawn` and `DrawSvgLayers` |
| `Compose.DrawImages` | Script/map-to-canvas.js:123-125 | draws one image per request, in request order, over the whole output |
| `Compose.ImageDraws` | Script/map-to-canvas.js:123-125 | one `drawImage` per loaded image, in request order; characterised by `SuccessOrder` and `DrawnImagesAreSelectedLayers` |
| `Compose.CanvasOverlay` | Script/map-to-canvas.js:130-138 | one `drawImage` per root canvas, in document order; characterised by `OverlayCount` |
| `Compose.SvgOverlay` | Script/map-to-canvas.js:140-154 | the rasterised SVG layers drawn before the first missing one; characterised by `SvgStopsAtFirstMissing` and `SvgAllDrawn` |
| `Compose.SvgDraw` | Script/map-to-canvas.js:143-150 | one SVG layer: its markup wrapped in `<svg>…</svg>`, rasterised at map size and drawn over the whole output; characterised by `SvgStopsAtFirstMissing` and `SvgAllDrawn` |
| `Compose.OverlayDraws` | Script/map-to-canvas.js:127-155 | the overlays chosen by `dojoConfig.gfxRenderer`: root canvases, SVG layers or none; characterised by `OverlayCount` |
| `Compose.DrawGraphicsCanvases` | Script/map-to-canvas.js:130-138 | draws every canvas under the map root, in document order, over the whole output |
| `Compose.DrawSvgLayers` | Script/map-to-canvas.js:139-155 | draws the named SVG layers in order up to the first missing one and reports whether the `try` caught an exception |
| `Compose.OnLoaded` | Script/map-to-canvas.js:121-157 | the success callback appends the images, then the renderer's overlays, then `save`, and reports whether the SVG `try` caught |
| `Compose.JoinedDraws` | Script/map-to-canvas.js:121-161 | the commands the join's callbacks add; characterised by `FailFast`, `NeverSettles`, `SuccessOrder` and `DrawsCoverOutput` |
| `Compose.JoinedLog` | Script/map-to-canvas.js:152-160 | what the callbacks log; characterised by `FailFast`, `NeverSettles` and `SvgStopsAtFirstMissing` |
| `Compose.MapToCanvas` | Script/map-to-canvas.js:36-162 | canvas size becomes `customWidth`/`customHeight`, defaulting to the map size only when undefined; the commands are the clear at the old size and then `JoinedDraws`; the log is the layer loop's then the handlers' |
| `Compose.FailFast` | Script/map-to-canvas.js:121-161 | one failed load: nothing drawn, not even `save`; `console.error` and the alert "Error creating thumbnail." |
| `Compose.NeverSettles` | Script/map-to-canvas.js:121 | a load that never ends, with none failed: no handler runs |
| `Compose.SuccessOrder` | Script/map-to-canvas.js:121-157 | all loads succeed: the images in request order, then the overlays, then `save` |
| `Compose.OverlayCount` | Script/map-to-canvas.js:127-155 | canvas renderer: one draw per root canvas; SVG renderer: the layers before the first missing one; any other renderer: none |
| `Compose.DrawsCoverOutput` | Script/map-to-canvas.js:124-150 | every command after the clear, except the final `save`, draws at `(0, 0, customWidth, customHeight)` |
| `Compose.SvgStopsAtFirstMissing` | Script/map-to-canvas.js:140-154 | the first missing SVG layer stops the loop; earlier layers stay drawn and later ones are never drawn |
| `Compose.SvgAllDrawn` | Script/map-to-canvas.js:140-154 | when every named fragment exists, each layer is drawn once, in order, and nothing is caught |
| `Compose.DrawnImagesAreSelectedLayers` | Script/map-to-canvas.js:58-125 | on success the images drawn first are the export URLs of the selected layers, in layer order |

## Left out

- Image loading (`Script/map-to-canvas.js:96-111`): creating the `Image`, setting `crossOrigin`, the load and error listeners, and the network request. This is browser I/O. Each load's ending is an input instead.
- Dojo's `Deferred` and `all` (`:78`, `:121`) are asynchronous scheduling. Only the result is kept: the join fails fast and otherwise waits for every load. Which rejection reaches `console.error` depends on timing, so `ConsoleError` carries no payload.
- Pixel contents. `clearRect`, `drawImage`, `drawSvg` and `save` are recorded as commands, not rasterised. Resizing a canvas also clears its bitmap and resets its context state; that is not modelled.
- `drawSvg` and `drawImage` failures are not modelled. These are foreign calls, and only a missing SVG fragment or a missing `graphicsLayers` throws in the model.
- DOM access: `querySelectorAll("canvas")` and the first svg element's `children[...]` lookup. These are the `Root` input: a count of canvases, and a map from child name to inner markup.
- `dojoConfig.gfxRenderer` is a global. It is the explicit `Renderer` input.
- `console.log`, `console.error` and `alert` become entries in a returned log. The text of a caught exception's message is engine-specific and is not kept.
- The decimal rendering of the extent coordinates (floating-point numbers) is taken as given strings.
- Text.Decimal: renders every non-negative integer as plain digits. JavaScript numbers are doubles, and `String(n)` writes plain digits only below 10^21 (`String(1e21)` is `"1e+21"`). Map sizes and wkids of 10^21 or more are outside the model.
- Compose.MapToCanvas: keeps any non-negative `customWidth`/`customHeight` as the canvas size. The canvas `width` and `height` attributes are `unsigned long`, and the DOM does not keep a value of 2^31 or more as given. Such sizes are outside the model.
- Map width, map height, `wkid`, `customWidth` and `customHeight` are non-negative integers. Other JavaScript values there (fractions, negatives, `null`) are not modelled.
- Compose.Options.baseOnly is `undefined`, `true` or `false` only. Other values are not modelled. For example, `null` fails both `baseOnly && …` and `baseOnly == false`, so it selects no layer.
- `includeGraphics` (`:40`) is defaulted but never read, so it has no behaviour.
- `layer.url` is a string, and "" stands for every falsy url. Truthy non-string urls are not modelled.
- Strings are sequences of Unicode scalar values. A lone UTF-16 surrogate, which makes `encodeURIComponent` throw, cannot occur in the model.
