# Splot: the tile server and the globe services, in Dafny

This project models the core of Splot, a photo globe. It has two parts.

- **The Cloudflare-worker tile server** (`worker/src/pmtiles.js`). It serves map tiles and TileJSON out of PMTiles archives kept in an R2 bucket, behind the edge cache. The model covers:
  - the path grammar (`parseTilePath`);
  - the decompression dispatch;
  - the R2 range source;
  - the whole request handler: method check, path check, CORS headers, cache hit, zoom range, extension check against the archive's tile type, content types, and the 404/500 mapping of failures.
- **The TypeScript services of the web app.**
  - The trip builder (`tripService.ts`): locations, segments, and the date parsing of "start → end" ranges.
  - The route layers (`routeService.ts`) with their colour palettes.
  - The in-page debug console (`DebugConsole.tsx`): argument rendering, a log capped at 100 messages, and message ids.
  - The R2 image listing (`r2Service.ts`): image-file test, and XML and HTML listings.
  - The network monitor's URL classifier (`networkMonitor.ts`).
  - The debug-console switch (`debugUtils.ts`).

Four regular expressions of the source are modelled by scanners that return the capture groups: the tile path and TileJSON patterns of `pmtiles.js`, the end-date pattern `→\s*(.+)$` of `tripService.ts`, and the tile-address pattern of `networkMonitor.ts`. Each of these scanners is proved to accept exactly the strings its pattern describes. The start-date pattern `^([^→]+)` is modelled as the text before the first arrow, with no scanner and no exactness lemma. The HTML pattern of `r2Service.ts` is not modelled; see "## Left out".

Where the source changes state step by step, the model is imperative:
- the `Headers` object is a class with a map field;
- the console log and its id counter are fields of `ConsoleBuffer`;
- `parseTripData`, the extension-table walk and `parseResponse` are methods with loops.

Each method is proved against a specification function. The properties are then proved about that function.

Modules:

| file | module | models |
|---|---|---|
| `wrappers.dfy` | `Wrappers` | Option / Result |
| `strings.dfy` | `Strings` | the JavaScript string operations used: `includes`, `startsWith`/`endsWith`, `indexOf`/`lastIndexOf`, ASCII case mapping, decimal digits, `trim` |
| `seqs.dfy` | `Seqs` | `Array.prototype.filter` |
| `tile_path.dfy` | `TilePath` | `parseTilePath` |
| `archive_source.dfy` | `ArchiveSource` | `nativeDecompress`, `R2Source` |
| `tile_handler.dfy` | `TileHandler` | `handlePMTilesRequest`, `cacheableResponse`, `Headers` |
| `trip_service.dfy` | `TripService` | `tripService.ts` |
| `route_service.dfy` | `RouteService` | `routeService.ts` |
| `debug_console.dfy` | `DebugConsole` | `DebugConsole.tsx` (capture, log, clear, message class) |
| `r2_images.dfy` | `R2Images` | `r2Service.ts` (`isImageFile`, `parseResponse`) |
| `network_monitor.dfy` | `NetworkMonitor` | `isPMTilesRequest`, `getMethodFromInit` |
| `debug_utils.dfy` | `DebugUtils` | `shouldShowDebugConsole` |

## Model

| member | source | states |
|---|---|---|
| ArchiveSource.Decompress | worker/src/pmtiles.js:17-27 | None and Unknown return the buffer unchanged. Gzip returns what inflating the stream gives, which fails on a corrupt stream. Every other code fails with "Compression method not supported". The result is a success exactly for None, Unknown, or Gzip on a stream that inflates. |
| ArchiveSource.R2Source.Request | worker/src/pmtiles.js:43-49 | The bucket read asks for `{name}.pmtiles` at the given offset and length. It is conditional on the ETag exactly when a non-empty ETag is given. |
| ArchiveSource.R2Source.GetBytes | worker/src/pmtiles.js:42-66 | A missing object raises KeyNotFound. An object without a body raises EtagMismatch. Otherwise the result is the data with the object's ETag, cache control and expiry. Each condition holds in both directions. |
| TilePath.MatchTileExact | worker/src/pmtiles.js:72 | The tile pattern matches a path with given captures exactly when the captures fit their character classes and spell out the path. |
| TilePath.MatchTileSetExact | worker/src/pmtiles.js:79 | The TileJSON pattern matches exactly `/tiles/{name}.json` with a name free of `/`. |
| TilePath.ParseTilePath | worker/src/pmtiles.js:70-86 | The tile shape is tried before the TileJSON shape. A failure has an empty name and extension. A tile result has a valid name and a lower-case extension, and the path starts with its directory and ends with its extension. The tile's z, x and y are the decimal values of the captured digit runs, so leading zeros are ignored. The name and extension are the captures. A TileJSON result has extension `json`. |
| TilePath.ParseTileRoundTrip | worker/src/pmtiles.js:72-76 | A formatted tile path parses back to its name, its z/x/y numbers and its extension. |
| TilePath.ParseTileSetRoundTrip | worker/src/pmtiles.js:79-83 | A TileJSON path parses back to its name, with extension `json` and no tile. |
| TileHandler.Headers.Set | worker/src/pmtiles.js:127 | Setting a header replaces that one entry and leaves the others as they were. |
| TileHandler.Headers.SetAll | worker/src/pmtiles.js:116-118 | Setting the CORS pairs in order gives the overlay of the pairs on the old headers. |
| TileHandler.NewResponse | worker/src/pmtiles.js:129-132 | The response keeps the status, the body and every given header. A text body adds `text/plain;charset=UTF-8` only when no content type is set. |
| TileHandler.CorsReapplied | worker/src/pmtiles.js:136-139 | After the CORS headers are added, each has its value and every other header is unchanged, present or absent. |
| TileHandler.CheckExtension | worker/src/pmtiles.js:166-186 | The table walk refuses exactly the extensions that differ from the type's own. `pbf` is allowed for vector tiles, and types outside the table accept anything. A refusal names the type's required extension. |
| TileHandler.CacheableResponse | worker/src/pmtiles.js:126-142 | It sets the one-day cache policy on the headers and stores the response built from them. The client's answer is that stored response with the CORS headers. |
| TileHandler.AnsweredIsStoredWithCors | worker/src/pmtiles.js:129-141 | Adding CORS before or after the default content type is filled in gives the same response. |
| TileHandler.CatchFault | worker/src/pmtiles.js:212-218 | A missing archive answers 404 "Archive not found". Any other failure answers 500 "Internal server error". Both are cached. |
| TileHandler.ServeFromArchive | worker/src/pmtiles.js:144-218 | The `try` block and its `catch` store the response that `Served` prescribes, and answer it with CORS. |
| TileHandler.HandleRequest | worker/src/pmtiles.js:91-219 | A request that is not GET gets 405 and nothing is cached. A malformed path gets 404 "Invalid tile URL" and nothing is cached. A cache hit is answered from the cache with CORS and nothing is written. Otherwise the served response is written to the cache and answered with CORS. |
| TileHandler.ServedIsCacheable | worker/src/pmtiles.js:127 | Every response handed to the cache carries `public, max-age=86400`. |
| TileHandler.ServedStatus | worker/src/pmtiles.js:144-218 | The status is always one of 200, 204, 400, 404 and 500. Each of 200, 204 and 400 holds exactly under the conditions that lead to it. A failed header read gives the fault response for its error. Any caught fault gives its fault response. A zoom outside the archive's range gives an empty 404. The status is 404 exactly when the caught fault is a missing key or the zoom is out of range. The status is 500 exactly when any other fault is caught. |
| TileHandler.ServedContentType | worker/src/pmtiles.js:151-205 | TileJSON is served as `application/json`. A 200 tile carries exactly the content type of the archive's tile type, and none for AVIF or unlisted types. |
| TileHandler.ServedBody | worker/src/pmtiles.js:151-210 | A 200 tile carries the archive's tile bytes, and a 200 TileJSON carries the archive's TileJSON text. A 204 has no body. A 400 carries the message naming the requested extension and the extension of the archive's tile type. |
| TileHandler.CachedAnswerKeepsHeaders | worker/src/pmtiles.js:113-124 | A cache hit keeps the cached status, body and other headers, and adds the CORS headers. |
| TripService.ParseStartDate | src/services/tripService.ts:123-129 | An empty range, or one starting with the arrow, comes back unchanged. A range without an arrow comes back trimmed. |
| TripService.StartDateBeforeArrow | src/services/tripService.ts:123-129 | The start date is the trimmed text before the first arrow. |
| TripService.TailMatchesExact | src/services/tripService.ts:135 | The scan for `\s*(.+)$` accepts exactly white space followed by a non-empty run without line terminators. |
| TripService.CaptureTrimsLikeRemainder | src/services/tripService.ts:135-137 | Whatever white space `\s*` takes, the trimmed capture is the same. |
| TripService.FirstMatch | src/services/tripService.ts:135 | Returns the leftmost position where `→\s*(.+)$` matches, or -1 when there is none. |
| TripService.EndDateWithoutLineBreaks | src/services/tripService.ts:134-140 | Without line breaks, the end date is the trimmed text after the first arrow, unless nothing follows that arrow. |
| TripService.DateRangeRoundTrip | src/services/tripService.ts:123-140 | Both parsers give back the trimmed dates a "start → end" range was written from. |
| TripService.IndexExact | src/services/tripService.ts:74-85 | The location map holds exactly the names of the locations, each under its own name. |
| TripService.LocationsFromTable | src/services/tripService.ts:76-87 | Every location carries the table's coordinates for a name that some stop has. |
| TripService.LocationsDistinct | src/services/tripService.ts:76-87 | No name is given two locations. |
| TripService.LocationsComplete | src/services/tripService.ts:76-87 | Every stop whose name the table knows has a location. |
| TripService.LocationsInFirstAppearanceOrder | src/services/tripService.ts:76-87 | Locations come in the order in which their names first appear among the stops. |
| TripService.SegmentsBound | src/services/tripService.ts:92-112 | There is at most one segment per consecutive pair of stops. |
| TripService.SegmentsSound | src/services/tripService.ts:92-112 | Every segment is built from a consecutive pair of stops that both have a location. |
| TripService.SegmentsComplete | src/services/tripService.ts:92-112 | Every consecutive pair of stops that both have a location gives a segment. |
| TripService.SegmentsAllConnected | src/services/tripService.ts:92-112 | When every stop has a location, the segments are exactly the consecutive pairs, in order. |
| TripService.TripSegmentsWellFormed | src/services/tripService.ts:100-109 | Each segment's id is "from-to-to". Both ends are trip locations. It is a flight exactly when the next stop is reached by air, never a stay, and its notes say which. |
| TripService.TheTrip | src/services/tripService.ts:26-70 | The app's 15 stops are all in the coordinate table and give 14 segments, in travel order. |
| TripService.ParseTripData | src/services/tripService.ts:46-118 | The `forEach` and the pair loop build exactly the trip that the specification functions describe. |
| TripService.FlightArcs | src/services/tripService.ts:153-166 | There is one arc per flight segment, in order, between the segment's end points, red, with stroke 2 and altitude 0.3. |
| TripService.GroundPaths | src/services/tripService.ts:171-184 | There is one path per ground segment, in order, from longitude/latitude to longitude/latitude, teal, with stroke 3 and altitude 0.01. |
| TripService.TripPoints | src/services/tripService.ts:189-198 | There is one yellow point of size 1 per location, labelled with its name. |
| TripService.LayersCoverSegments | src/services/tripService.ts:153-184 | Together, the arcs and the paths draw every segment of a built trip exactly once. |
| RouteService.FlightColor | src/services/routeService.ts:99-112 | The colour is an entry of the flight palette. |
| RouteService.GroundColor | src/services/routeService.ts:117-128 | The colour is an entry of the ground palette. |
| RouteService.FlightColorsCycle | src/services/routeService.ts:99-112 | Two indices get the same flight colour exactly when they agree modulo 9. |
| RouteService.GroundColorsCycle | src/services/routeService.ts:117-128 | Two indices get the same ground colour exactly when they agree modulo 7. |
| RouteService.TransformFlightsToArcs | src/services/routeService.ts:63-76 | There is one arc per flight route, in order. Each carries the route's id, name and end points, and the colour of its position among the flights. |
| RouteService.TransformGroundToPaths | src/services/routeService.ts:81-94 | There is one path per ground route, in order. Each goes from start to end with latitude first and has the colour of its position among the ground routes. |
| RouteService.ArcsAreTheFlights | src/services/routeService.ts:63-76 | A route is drawn as an arc exactly when it is one of the routes and its type is "flight". |
| RouteService.PathsAreTheGroundRoutes | src/services/routeService.ts:81-94 | A route is drawn as a path exactly when it is one of the routes and its type is "ground". |
| RouteService.ArcsOfConcat | src/services/routeService.ts:63-76 | Appending routes keeps the earlier arcs, colours included, and adds one arc per appended flight. |
| RouteService.PathsOfConcat | src/services/routeService.ts:81-94 | Appending routes keeps the earlier paths, colours included, and adds one path per appended ground route. |
| DebugConsole.KeepLast | src/components/DebugConsole.tsx:176 | `slice(-100)` keeps the last 100 elements, or all of them when there are fewer. |
| DebugConsole.AppendKeepsMostRecent | src/components/DebugConsole.tsx:168-178 | After an append, the log grows by one up to 100. The new message is last, and the rest are the most recent earlier messages, in order. |
| DebugConsole.AppendKeepsIdsIncreasing | src/components/DebugConsole.tsx:168-178 | Numbering the new message with the counter keeps the ids rising along the log and below the counter. |
| DebugConsole.ConsoleBuffer.Append | src/components/DebugConsole.tsx:168-178 | The message takes the counter's value, the counter moves on, and the log keeps the last 100. The log invariant is preserved. |
| DebugConsole.ConsoleBuffer.Capture | src/components/DebugConsole.tsx:92-179 | The rendered arguments, joined by spaces, are appended as one message. |
| DebugConsole.ConsoleBuffer.Clear | src/components/DebugConsole.tsx:207-209 | The log empties and the id counter is not reset. |
| DebugConsole.MessageClass | src/components/DebugConsole.tsx:211-218 | The class is "debug-console-message-" followed by the type's name. |
| DebugConsole.MessageClassInjective | src/components/DebugConsole.tsx:211-218 | Different message types get different classes. |
| DebugConsole.MoreNoteReadsBack | src/components/DebugConsole.tsx:137 | The "...N more" note spells out the count in decimal. |
| DebugConsole.ArrayPreview | src/components/DebugConsole.tsx:126-140 | The preview shows the first 10 elements joined by ", ". If one of them cannot be rendered, it is `[Array(n)]`. |
| DebugConsole.ArrayPreviewAccountsForAll | src/components/DebugConsole.tsx:129-137 | More than 10 elements: the first 10 and a note of the rest. At most 10: all of them and no note. |
| DebugConsole.ConstructorName | src/components/DebugConsole.tsx:144 | A present, non-empty constructor name is kept. An absent or empty one reads "Object". |
| DebugConsole.KeyPreview | src/components/DebugConsole.tsx:147-157 | No keys gives `{} (Ctor)`. Otherwise the preview starts with the first 5 keys joined by ", " and ends with the constructor name. |
| DebugConsole.KeyPreviewAccountsForAll | src/components/DebugConsole.tsx:155-157 | More than 5 keys: the first 5 and a note of the rest. |
| DebugConsole.KeyPreviewShowsFew | src/components/DebugConsole.tsx:155-157 | 1 to 5 keys: all of them and no note. |
| DebugConsole.Render | src/components/DebugConsole.tsx:97-165 | The fallback order for one argument: String form for primitives; JSON, except "{}" for an Error; cleaned JSON; then the per-kind fallback. `undefined` JSON renders as nothing. |
| DebugConsole.CaptureText | src/components/DebugConsole.tsx:97-166 | A single argument is rendered on its own. |
| DebugConsole.CaptureTextConcat | src/components/DebugConsole.tsx:97-166 | The text of several arguments is the text of the first ones, one space, and the text of the rest. |
| DebugConsole.PrimitivesJoined | src/components/DebugConsole.tsx:165-166 | Primitive arguments are joined by single spaces. |
| R2Images.ToLowerJs | src/services/r2Service.ts:50 | Lower-casing never shortens a string. It keeps the length when there is no dotted capital I. |
| R2Images.ToLowerJsConcat | src/services/r2Service.ts:50 | Lower-casing works character by character. |
| R2Images.Cut | src/services/r2Service.ts:50 | `substring(lastIndexOf('.'))` starts at the last dot, or at 0 when there is no dot. |
| R2Images.AsWrittenAgrees | src/services/r2Service.ts:48-52 | The as-written test and the corrected one agree unless a dotted capital I comes before the last dot. |
| R2Images.AsWrittenNeverOveraccepts | src/services/r2Service.ts:48-52 | The as-written test never accepts a key that the corrected one refuses. |
| R2Images.DottedCapitalIMisread | src/services/r2Service.ts:50 | As written, "İ.png" is not recognised as an image. |
| R2Images.DottedCapitalIRead | src/services/r2Service.ts:48-52 | Corrected, "İ.png" is recognised as an image. |
| R2Images.ImageByExtension | src/services/r2Service.ts:48-52 | Under the corrected test: only the suffix from the last dot decides, whatever its case. |
| R2Images.ListedExtensionAccepted | src/services/r2Service.ts:49 | Under the corrected test: each listed extension is accepted after any name. |
| R2Images.CapitalExtensionAccepted | src/services/r2Service.ts:48-52 | Under the corrected test: each listed extension is also accepted in capitals. |
| R2Images.NoDotNoImage | src/services/r2Service.ts:48-52 | A key without a dot is no image, under either reading. |
| R2Images.PngSuffixAccepted | src/services/r2Service.ts:48-52 | Under the corrected test: any name followed by ".PNG" is an image. |
| R2Images.TxtSuffixRejected | src/services/r2Service.ts:48-52 | Under the corrected test: any name followed by ".txt" is no image. |
| R2Images.R2Service.FromXmlExact | src/services/r2Service.ts:151-169 | For any key test, an image comes from the XML listing exactly when its key is listed, non-empty and passes the test. Its URL is the key under the bucket. |
| R2Images.R2Service.FromXmlAsWritten | src/services/r2Service.ts:151-169 | With the source's own `isImageFile`, as written, an image comes from the XML listing exactly when its key is listed and passes that test. Its URL is the key under the bucket. |
| R2Images.R2Service.FromXmlAsWrittenWithinCorrected | src/services/r2Service.ts:151-169 | Every image of the as-written XML listing is also in the listing filtered by the corrected test. |
| R2Images.R2Service.FromXmlConcat | src/services/r2Service.ts:151-169 | The XML images keep the order of the listing. |
| R2Images.R2Service.FromHtmlExact | src/services/r2Service.ts:175-187 | For any key test, an image comes from the HTML page exactly when its file name was captured and passes the test. Its URL is the name under the bucket. |
| R2Images.R2Service.FromHtmlAsWrittenWithinCorrected | src/services/r2Service.ts:175-187 | Every image of the as-written HTML listing is also in the listing filtered by the corrected test. |
| R2Images.R2Service.FromHtmlConcat | src/services/r2Service.ts:175-187 | The HTML images keep the order of the page. |
| R2Images.R2Service.ParseResponse | src/services/r2Service.ts:142-198 | A text containing `<?xml` or `<ListBucketResult` gives the XML images. Any other text gives the HTML images. Both listings are filtered by `isImageFile` as written, so "İ.png" is dropped. |
| NetworkMonitor.MatchAddressSound | src/utils/networkMonitor.ts:117 | What the address scanner captures is well formed and spells out the URL. |
| NetworkMonitor.MatchAddressComplete | src/utils/networkMonitor.ts:117 | Every URL ending in `/z/x/y.ext` with a listed extension is read back by the scanner. |
| NetworkMonitor.MatchAddressExact | src/utils/networkMonitor.ts:117 | The scanner succeeds exactly on the URLs that end in a tile address. |
| NetworkMonitor.IsPMTilesRequestExact | src/utils/networkMonitor.ts:111-119 | The classifier accepts exactly: URLs containing "/tiles/" or "pmtiles"; ".json" URLs mentioning "tiles"; URLs ending in a tile address. The ".pmtiles" clause adds nothing. |
| NetworkMonitor.AddressUrlsAreTileRequests | src/utils/networkMonitor.ts:117 | Every tile-address URL counts as a tile request. |
| NetworkMonitor.UnlistedExtensionIsNoAddress | src/utils/networkMonitor.ts:117 | A suffix after the last dot that is not a listed extension is no address. |
| NetworkMonitor.GetMethodFromInit | src/utils/networkMonitor.ts:124-126 | The result is never empty. It is the method the options name, or "GET" when they name none or an empty one. |
| DebugUtils.ParameterDecides | src/utils/debugUtils.ts:9-25 | Away from a preview host, the console shows exactly for `debug=true` or `debug=1`. |
| DebugUtils.PreviewHostShows | src/utils/debugUtils.ts:18-22 | On a host containing "preview" in any case, the console shows whatever the parameter. |

## Left out

- I/O is not modelled; its results are inputs instead.
  - R2 `get` is a function parameter.
  - The edge cache is an input map. The response given to `cache.put` is returned as `cacheWrite`.
  - `ctx.waitUntil`, the gzip `DecompressionStream` (a function parameter) and `console.error`/`console.warn` are left out.
- The PMTiles archive reader is not part of this model. This covers header decoding, directories, `ResolvedValueCache` and the ETag retry. Its answers (`getHeader`, `getTileJson`, `getZxy`) are the `Archive` value, each of which may be an error.
- `JSON.stringify(tileJson)` is not modelled: the archive's TileJSON answer is the serialised text.
- `new URL(...)` parsing is not modelled: the request's origin and pathname are inputs. `+z` on a digit string is its decimal value, with unbounded integers rather than JavaScript numbers.
- Coordinates are JavaScript numbers. They are only copied, so they are `real`. Number precision is not modelled.
- Unicode case mapping is modelled only for ASCII and for U+0130, which lowers to two characters. No other character lowers to a letter used by the listed extensions. Strings are sequences of characters, not UTF-16 code units.
- `extractGeoLocation` (random coordinates) and the size and date fields of an image are not modelled. They never affect which images are listed.
- `DOMParser` and the HTML regular expression scan are not modelled. `ParseResponse` receives their results: the `Key` texts and the captured file names.
- The `catch` of `parseResponse` is not modelled: the model's inputs cannot throw.
- `fetchImages`, `validateImage` and `isValidUrl` of `r2Service.ts` are not part of this model, and neither are the network interceptors of `networkMonitor.ts`.
- The console monkey-patching and the call to the original console method are left out, and so are `removeCircularReferences` and React rendering. What the JavaScript runtime returns for an argument is given with the argument (`Arg`).
- The message timestamp is an input.
- DebugConsole.ConsoleBuffer.Append: React may run a state updater twice in development mode. The model runs it once.
- Names of `Object.prototype` properties (`constructor`, `toString`, …) are truthy lookups in the source's coordinate table. The model's table is a map, so they are not modelled.
- `saveTripDataToJson` and `fetchRouteData` are serialisation and I/O, and are not modelled.
- RouteService.ArcsOfConcat: states only that the earlier arcs are kept and the count adds up. It does not state the colours of the appended part, which are shifted by the number of earlier flights.
- RouteService.PathsOfConcat: states only that the earlier paths are kept and the count adds up, as for arcs.
- The edge cache receives every response built by `cacheableResponse`, 400, 404 and 500 included, though the system's design says only successful (200/204) responses are cached. The model follows the code.

## Findings

| source | as written | input that shows it | evidently intended | confidence | as-written member | corrected member |
|---|---|---|---|---|---|---|
| src/services/r2Service.ts:50 | `key.toLowerCase().substring(key.lastIndexOf('.'))` takes the position of the last dot in `key` but cuts the lower-cased copy. `toLowerCase` turns U+0130 into two characters, so every such character before the dot moves the cut one place left of the dot. | the key "İ.png" | the extension of the key, lower-cased: "İ.png" is a PNG image | not executed | R2Images.DottedCapitalIMisread | R2Images.DottedCapitalIRead |

The listings of `ParseResponse` follow the code and filter with the test as written (`IsImageFileAsWritten`). `FromXml` and `FromHtml` take the key test as a parameter, so the same listings under the corrected test `IsImageFile` are `FromXml(keys, IsImageFile)` and `FromHtml(names, IsImageFile)`. `FromXmlAsWrittenWithinCorrected` and `FromHtmlAsWrittenWithinCorrected` prove that the as-written listings are contained in the corrected ones.
