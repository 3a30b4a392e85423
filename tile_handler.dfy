/**
  * The tile request handler of the tile server (`handlePMTilesRequest` in
  * worker/src/pmtiles.js), as a sequential decision procedure from the
  * request, the edge cache and the archive's answers to the response.
  *
  * The handler's inputs that come from I/O are values here:
  *   - the edge cache (`caches.default`) is the map that `cache.match` looks
  *     requests up in, and the response handed to `cache.put` is returned as
  *     `cacheWrite` instead of being stored in the background;
  *   - the PMTiles reader over `{name}.pmtiles` is the `Archive` value of its
  *     answers: the header, the TileJSON text for a base URL, and the tile for
  *     an address, each of which may be an error instead.
  *
  * Header names are case-insensitive and a `Headers` object keeps them in
  * lower case, so every header name below is written in lower case.
  */
module TileHandler {
  import opened Wrappers
  import opened Strings
  import opened TilePath
  import opened ArchiveSource

  /** The PMTiles v3 tile types (Unknown 0, Mvt 1, Png 2, Jpeg 3, Webp 4, Avif 5);
      a header byte outside that list is kept as its code. */
  datatype TileType = UnknownType | Mvt | Png | Jpeg | Webp | Avif | UnlistedType(code: nat)

  /** The fields of the archive header that the handler reads. */
  datatype Header = Header(minZoom: nat, maxZoom: nat, tileType: TileType)

  /** The answers of the PMTiles reader over one archive: `getHeader()`, the serialised
      `getTileJson(baseUrl)`, and `getZxy(z, x, y)`, where an absent tile is `None`. */
  datatype Archive = Archive(
    header: Result<Header, Fault>,
    tileJson: string -> Result<string, Fault>,
    tileAt: Tile -> Result<Option<Bytes>, Fault>)

  /** The parts of an incoming request the handler reads; `origin` and `pathname`
      are those of `new URL(url)`. */
  datatype Request = Request(httpMethod: string, url: string, origin: string, pathname: string)

  datatype Body = NoBody | Text(text: string) | Data(bytes: Bytes)

  datatype Response = Response(status: nat, headers: map<string, string>, body: Body)

  const ContentTypeName := "content-type"
  const CacheControlName := "cache-control"
  /** Shared caches may keep a response for a day (RFC 9111, sections 5.2.2.9 and 5.2.2.1). */
  const CacheControlValue := "public, max-age=86400"
  const PlainTextType := "text/plain;charset=UTF-8"

  /** The CORS headers, in the order the handler sets them. */
  const CorsHeaders: seq<(string, string)> := [
    ("access-control-allow-origin", "*"),
    ("access-control-allow-methods", "GET, OPTIONS"),
    ("access-control-allow-headers", "Content-Type"),
    ("vary", "Origin")
  ]

  /** The table of tile types and the extension each one requires, in the handler's order. */
  const TypeExtensions: seq<(TileType, string)> := [
    (Mvt, "mvt"), (Png, "png"), (Jpeg, "jpg"), (Webp, "webp"), (Avif, "avif")
  ]

  // ---------------------------------------------------------------------------
  // Headers

  /** `m` after setting each of `pairs` in turn; a later pair wins over an earlier one. */
  function Overlay(m: map<string, string>, pairs: seq<(string, string)>): map<string, string> {
    if pairs == [] then m
    else Overlay(m, pairs[..|pairs| - 1])[pairs[|pairs| - 1].0 := pairs[|pairs| - 1].1]
  }

  /** The headers `m` with the CORS headers set over them. */
  function WithCors(m: map<string, string>): map<string, string> {
    Overlay(m, CorsHeaders)
  }

  predicate IsCorsName(k: string) {
    k == "access-control-allow-origin" || k == "access-control-allow-methods"
    || k == "access-control-allow-headers" || k == "vary"
  }

  /** The CORS headers set one after the other. */
  lemma WithCorsUnfold(m: map<string, string>)
    ensures WithCors(m) == m["access-control-allow-origin" := "*"]["access-control-allow-methods" := "GET, OPTIONS"]
                            ["access-control-allow-headers" := "Content-Type"]["vary" := "Origin"]
  {
    var c := CorsHeaders;
    assert c[..1][..0] == [] && c[..2][..1] == c[..1] && c[..3][..2] == c[..2] && c[..4][..3] == c[..3] && c[..4] == c;
    assert Overlay(m, c[..1]) == m[c[0].0 := c[0].1];
    assert Overlay(m, c[..2]) == Overlay(m, c[..1])[c[1].0 := c[1].1];
    assert Overlay(m, c[..3]) == Overlay(m, c[..2])[c[2].0 := c[2].1];
    assert Overlay(m, c) == Overlay(m, c[..3])[c[3].0 := c[3].1];
  }

  /** Setting the CORS headers gives each its value and leaves every other header as it was. */
  lemma CorsReapplied(m: map<string, string>)
    ensures forall i :: 0 <= i < |CorsHeaders| ==>
              CorsHeaders[i].0 in WithCors(m) && WithCors(m)[CorsHeaders[i].0] == CorsHeaders[i].1
    ensures forall k :: !IsCorsName(k) ==>
              (k in WithCors(m) <==> k in m) && (k in m ==> WithCors(m)[k] == m[k])
  {
    WithCorsUnfold(m);
  }

  /** A header that none of `pairs` names can be set before or after them alike. */
  lemma {:induction false} OverlayCommutes(m: map<string, string>, pairs: seq<(string, string)>, k: string, v: string)
    requires forall i :: 0 <= i < |pairs| ==> pairs[i].0 != k
    ensures Overlay(m[k := v], pairs) == Overlay(m, pairs)[k := v]
  {
    if pairs != [] {
      OverlayCommutes(m, pairs[..|pairs| - 1], k, v);
    }
  }

  /** A mutable header list, as the Fetch standard's `Headers`. Fetch compares header
      names without regard to case; here names are kept as given, and every name this
      module sets is written in lower case, so the two agree on every header used. */
  class Headers {
    var entries: map<string, string>

    /** `new Headers()` */
    constructor ()
      ensures entries == map[]
    {
      entries := map[];
    }

    /** `new Headers(init)` */
    constructor Copy(init: map<string, string>)
      ensures entries == init
    {
      entries := init;
    }

    /** `headers.set(name, value)` */
    method Set(name: string, value: string)
      modifies this
      ensures entries == old(entries)[name := value]
    {
      entries := entries[name := value];
    }

    /** `Object.entries(pairs).forEach(([key, value]) => headers.set(key, value))` */
    method SetAll(pairs: seq<(string, string)>)
      modifies this
      ensures entries == Overlay(old(entries), pairs)
    {
      var i := 0;
      while i < |pairs|
        invariant 0 <= i <= |pairs|
        invariant entries == Overlay(old(entries), pairs[..i])
      {
        assert pairs[..i + 1][..i] == pairs[..i];
        Set(pairs[i].0, pairs[i].1);
        i := i + 1;
      }
      assert pairs[..|pairs|] == pairs;
    }
  }

  // ---------------------------------------------------------------------------
  // Responses

  /** `new Response(body, { headers, status })`. A string body brings the content type
      `text/plain;charset=UTF-8` when the headers name none (body extraction in the
      Fetch standard); no body and binary data bring none. */
  function NewResponse(body: Body, headers: map<string, string>, status: nat): (r: Response)
    ensures r.status == status && r.body == body
    ensures r.headers.Keys == headers.Keys + (if body.Text? then {ContentTypeName} else {})
    ensures forall k :: k in headers ==> r.headers[k] == headers[k]
    ensures body.Text? && ContentTypeName !in headers ==> r.headers[ContentTypeName] == PlainTextType
  {
    if body.Text? && ContentTypeName !in headers then
      Response(status, headers[ContentTypeName := PlainTextType], body)
    else
      Response(status, headers, body)
  }

  /** The headers `m` with the caching policy set. */
  function Stamp(m: map<string, string>): map<string, string> {
    m[CacheControlName := CacheControlValue]
  }

  /** A missing archive is a 404, every other failure a 500. */
  function FaultStatus(e: Fault): nat {
    if e == KeyNotFound then 404 else 500
  }

  function FaultText(e: Fault): string {
    if e == KeyNotFound then "Archive not found" else "Internal server error"
  }

  /** The response cached for a failure caught while serving from the archive. */
  function FaultResponse(e: Fault): Response {
    NewResponse(Text(FaultText(e)), Stamp(map[]), FaultStatus(e))
  }

  /** The extension an archive of type `t` requires, if its type is in the table. */
  function ExpectedExtension(t: TileType): Option<string> {
    match t
    case Mvt => Some("mvt")
    case Png => Some("png")
    case Jpeg => Some("jpg")
    case Webp => Some("webp")
    case Avif => Some("avif")
    case _ => None
  }

  /** The extension check: the type's own extension, `pbf` for vector tiles, and
      anything at all for a type outside the table. */
  predicate ExtensionAccepted(t: TileType, ext: string) {
    ExpectedExtension(t).None? || ext == ExpectedExtension(t).value || (t == Mvt && ext == "pbf")
  }

  function BadExtensionText(ext: string, expected: string): string {
    "Bad request: requested ." + ext + " but archive has type ." + expected
  }

  /** The content type of a tile of type `t`; AVIF and types outside the list get none. */
  function ContentTypeFor(t: TileType): Option<string> {
    match t
    case Mvt => Some("application/x-protobuf")
    case Png => Some("image/png")
    case Jpeg => Some("image/jpeg")
    case Webp => Some("image/webp")
    case _ => None
  }

  function ContentTypeHeaders(t: TileType): map<string, string> {
    if ContentTypeFor(t).Some? then map[ContentTypeName := ContentTypeFor(t).value] else map[]
  }

  /** Row `entry` of the extension table rejects the extension `ext` for type `t`. */
  predicate Rejects(entry: (TileType, string), t: TileType, ext: string) {
    t == entry.0 && ext != entry.1 && !(t == Mvt && ext == "pbf")
  }

  /** A row of the extension table that rejects an extension names the extension the
      type requires, and the check refuses it. */
  lemma RowAgrees(i: nat, t: TileType, ext: string)
    requires i < |TypeExtensions|
    ensures Rejects(TypeExtensions[i], t, ext) ==>
              ExpectedExtension(t) == Some(TypeExtensions[i].1) && !ExtensionAccepted(t, ext)
  {
  }

  /** An extension the check refuses is rejected by some row of the table. */
  lemma TableComplete(t: TileType, ext: string)
    ensures (forall j :: 0 <= j < |TypeExtensions| ==> !Rejects(TypeExtensions[j], t, ext)) ==> ExtensionAccepted(t, ext)
  {
    match t
    case Mvt => assert !ExtensionAccepted(t, ext) ==> Rejects(TypeExtensions[0], t, ext);
    case Png => assert !ExtensionAccepted(t, ext) ==> Rejects(TypeExtensions[1], t, ext);
    case Jpeg => assert !ExtensionAccepted(t, ext) ==> Rejects(TypeExtensions[2], t, ext);
    case Webp => assert !ExtensionAccepted(t, ext) ==> Rejects(TypeExtensions[3], t, ext);
    case Avif => assert !ExtensionAccepted(t, ext) ==> Rejects(TypeExtensions[4], t, ext);
    case _ =>
  }

  /** The walk over the extension table: the extension the archive's type requires when
      the requested one is refused, and None when it is accepted. */
  method CheckExtension(t: TileType, ext: string) returns (expected: Option<string>)
    ensures expected.None? <==> ExtensionAccepted(t, ext)
    ensures expected.Some? ==> expected == ExpectedExtension(t)
  {
    for i := 0 to |TypeExtensions|
      invariant forall j :: 0 <= j < i ==> !Rejects(TypeExtensions[j], t, ext)
    {
      var (tileType, expectedExt) := TypeExtensions[i];
      if t == tileType && ext != expectedExt {
        if t == Mvt && ext == "pbf" {
          // `.pbf` is still accepted for vector tiles
          continue;
        }
        RowAgrees(i, t, ext);
        return Some(expectedExt);
      }
    }
    TableComplete(t, ext);
    return None;
  }

  // ---------------------------------------------------------------------------
  // The handler

  /** `request.method.toUpperCase() !== 'GET'`: upper-casing only ASCII letters is enough
      here, since no other character upper-cases to text made only of G, E and T. */
  predicate IsGet(req: Request) {
    AsciiUpper(req.httpMethod) == "GET"
  }

  predicate ZoomInRange(h: Header, t: Tile) {
    h.minZoom <= t.z <= h.maxZoom
  }

  /** The client's view of a response handed to the cache: the same, with the CORS headers. */
  function Answered(stored: Response): Response {
    Response(stored.status, WithCors(stored.headers), stored.body)
  }

  /** The TileJSON answer, served as `application/json`. */
  function JsonResponse(json: Result<string, Fault>): Response {
    match json
    case Err(e) => FaultResponse(e)
    case Ok(text) => Response(200, Stamp(map[ContentTypeName := "application/json"]), Text(text))
  }

  /** The tile answer: the data with 200, or an empty 204 when the archive has no such tile. */
  function TileResponse(data: Result<Option<Bytes>, Fault>, t: TileType): Response {
    match data
    case Err(e) => FaultResponse(e)
    case Ok(Some(d)) => Response(200, Stamp(ContentTypeHeaders(t)), Data(d))
    case Ok(None) => Response(204, Stamp(ContentTypeHeaders(t)), NoBody)
  }

  /** The response handed to the cache for a well-formed path the cache does not hold:
      the decisions of the handler's `try` block in order, and of its `catch`. */
  function Served(origin: string, p: ParsedPath, archive: Archive): Response
    requires p.ok
  {
    match archive.header
    case Err(e) => FaultResponse(e)
    case Ok(h) =>
      if p.tile.None? then JsonResponse(archive.tileJson(origin + TilesPrefix + p.name))
      else if !ZoomInRange(h, p.tile.value) then Response(404, Stamp(map[]), NoBody)
      else if !ExtensionAccepted(h.tileType, p.ext) then
        NewResponse(Text(BadExtensionText(p.ext, ExpectedExtension(h.tileType).value)), Stamp(map[]), 400)
      else TileResponse(archive.tileAt(p.tile.value), h.tileType)
  }

  /** `cacheableResponse`: set the caching policy on `headers`, hand the response to the
      cache, and answer the same response with the CORS headers added. */
  method CacheableResponse(body: Body, headers: Headers, status: nat) returns (stored: Response, resp: Response)
    modifies headers
    ensures headers.entries == Stamp(old(headers.entries))
    ensures stored == NewResponse(body, headers.entries, status)
    ensures resp == Answered(stored)
  {
    headers.Set(CacheControlName, CacheControlValue);
    stored := NewResponse(body, headers.entries, status);
    var respHeaders := new Headers.Copy(headers.entries);
    respHeaders.SetAll(CorsHeaders);
    resp := NewResponse(body, respHeaders.entries, status);
    AnsweredIsStoredWithCors(body, headers.entries, status);
  }

  /** Adding the CORS headers before or after `new Response` fills in the content type
      gives the same response. */
  lemma AnsweredIsStoredWithCors(body: Body, h: map<string, string>, status: nat)
    ensures NewResponse(body, WithCors(h), status) == Answered(NewResponse(body, h, status))
  {
    CorsReapplied(h);
    if body.Text? && ContentTypeName !in h {
      OverlayCommutes(h, CorsHeaders, ContentTypeName, PlainTextType);
    }
  }

  /** The `catch` clause: a missing archive answers 404, anything else 500. */
  method CatchFault(e: Fault) returns (stored: Response, resp: Response)
    ensures stored == FaultResponse(e)
    ensures resp == Answered(stored)
  {
    var headers := new Headers();
    if e == KeyNotFound {
      stored, resp := CacheableResponse(Text("Archive not found"), headers, 404);
    } else {
      stored, resp := CacheableResponse(Text("Internal server error"), headers, 500);
    }
  }

  /** The handler's `try` block and its `catch`, for a well-formed path the cache does
      not hold. */
  method ServeFromArchive(origin: string, p: ParsedPath, archive: Archive) returns (stored: Response, resp: Response)
    requires p.ok
    ensures stored == Served(origin, p, archive)
    ensures resp == Answered(stored)
  {
    var cacheableHeaders := new Headers();
    if archive.header.Err? {
      stored, resp := CatchFault(archive.header.error);
      return;
    }
    var header := archive.header.value;

    if p.tile.None? {
      cacheableHeaders.Set(ContentTypeName, "application/json");
      var json := archive.tileJson(origin + TilesPrefix + p.name);
      if json.Err? {
        stored, resp := CatchFault(json.error);
      } else {
        stored, resp := CacheableResponse(Text(json.value), cacheableHeaders, 200);
      }
      return;
    }
    var tile := p.tile.value;

    if tile.z < header.minZoom || tile.z > header.maxZoom {
      stored, resp := CacheableResponse(NoBody, cacheableHeaders, 404);
      return;
    }

    var expected := CheckExtension(header.tileType, p.ext);
    if expected.Some? {
      stored, resp := CacheableResponse(Text(BadExtensionText(p.ext, expected.value)), cacheableHeaders, 400);
      return;
    }

    var tileData := archive.tileAt(tile);
    if tileData.Err? {
      stored, resp := CatchFault(tileData.error);
      return;
    }

    match header.tileType {
      case Mvt => cacheableHeaders.Set(ContentTypeName, "application/x-protobuf");
      case Png => cacheableHeaders.Set(ContentTypeName, "image/png");
      case Jpeg => cacheableHeaders.Set(ContentTypeName, "image/jpeg");
      case Webp => cacheableHeaders.Set(ContentTypeName, "image/webp");
      case _ =>
    }
    assert cacheableHeaders.entries == ContentTypeHeaders(header.tileType);

    if tileData.value.Some? {
      stored, resp := CacheableResponse(Data(tileData.value.value), cacheableHeaders, 200);
    } else {
      stored, resp := CacheableResponse(NoBody, cacheableHeaders, 204);
    }
  }

  /** `handlePMTilesRequest`: returns the response and the response handed to the edge
      cache, if any. */
  method HandleRequest(req: Request, cache: map<string, Response>, archive: Archive)
    returns (resp: Response, cacheWrite: Option<Response>)
    ensures !IsGet(req) ==> resp == Response(405, map[], NoBody) && cacheWrite == None
    ensures IsGet(req) && !ParseTilePath(req.pathname).ok ==>
              resp == NewResponse(Text("Invalid tile URL"), map[], 404) && cacheWrite == None
    ensures IsGet(req) && ParseTilePath(req.pathname).ok && req.url in cache ==>
              resp == Answered(cache[req.url]) && cacheWrite == None
    ensures IsGet(req) && ParseTilePath(req.pathname).ok && req.url !in cache ==>
              && cacheWrite == Some(Served(req.origin, ParseTilePath(req.pathname), archive))
              && resp == Answered(cacheWrite.value)
  {
    if AsciiUpper(req.httpMethod) != "GET" {
      return Response(405, map[], NoBody), None;
    }

    var parsed := ParseTilePath(req.pathname);
    if !parsed.ok {
      return NewResponse(Text("Invalid tile URL"), map[], 404), None;
    }

    if req.url in cache {
      var cached := cache[req.url];
      var respHeaders := new Headers.Copy(cached.headers);
      respHeaders.SetAll(CorsHeaders);
      return Response(cached.status, respHeaders.entries, cached.body), None;
    }

    var stored;
    stored, resp := ServeFromArchive(req.origin, parsed, archive);
    cacheWrite := Some(stored);
  }

  // ---------------------------------------------------------------------------
  // What the served responses promise

  /** Every response handed to the cache carries the one-day caching policy. */
  lemma ServedIsCacheable(origin: string, p: ParsedPath, archive: Archive)
    requires p.ok
    ensures CacheControlName in Served(origin, p, archive).headers
    ensures Served(origin, p, archive).headers[CacheControlName] == CacheControlValue
  {
  }

  /** The fault `handleRequest` catches while serving `p`, if any: a failed header read,
      a failed TileJSON, or a failed tile read once zoom and extension pass. */
  function CaughtFault(origin: string, p: ParsedPath, archive: Archive): Option<Fault>
    requires p.ok
  {
    match archive.header
    case Err(e) => Some(e)
    case Ok(h) =>
      if p.tile.None? then
        (if archive.tileJson(origin + TilesPrefix + p.name).Err? then Some(archive.tileJson(origin + TilesPrefix + p.name).error) else None)
      else if ZoomInRange(h, p.tile.value) && ExtensionAccepted(h.tileType, p.ext) && archive.tileAt(p.tile.value).Err? then
        Some(archive.tileAt(p.tile.value).error)
      else None
  }

  /** The status of a served response, case by case: 200 and 204 only for content from
      the archive, 400 exactly for a refused extension, 404 for a missing key or a
      zoom level outside the archive's range, and 500 for any other failure. */
  lemma ServedStatus(origin: string, p: ParsedPath, archive: Archive)
    requires p.ok
    ensures var r := Served(origin, p, archive);
      && r.status in {200, 204, 400, 404, 500}
      && (r.status == 200 <==>
            archive.header.Ok? &&
            (if p.tile.None? then archive.tileJson(origin + TilesPrefix + p.name).Ok?
             else ZoomInRange(archive.header.value, p.tile.value)
                  && ExtensionAccepted(archive.header.value.tileType, p.ext)
                  && archive.tileAt(p.tile.value).Ok? && archive.tileAt(p.tile.value).value.Some?))
      && (r.status == 204 <==>
            archive.header.Ok? && p.tile.Some? && ZoomInRange(archive.header.value, p.tile.value)
            && ExtensionAccepted(archive.header.value.tileType, p.ext)
            && archive.tileAt(p.tile.value) == Ok(None))
      && (r.status == 400 <==>
            archive.header.Ok? && p.tile.Some? && ZoomInRange(archive.header.value, p.tile.value)
            && !ExtensionAccepted(archive.header.value.tileType, p.ext))
      && (archive.header.Err? ==> r == FaultResponse(archive.header.error))
      && (CaughtFault(origin, p, archive).Some? ==> r == FaultResponse(CaughtFault(origin, p, archive).value))
      && (archive.header.Ok? && p.tile.Some? && !ZoomInRange(archive.header.value, p.tile.value) ==>
            r == Response(404, Stamp(map[]), NoBody))
      && (r.status == 404 <==>
            CaughtFault(origin, p, archive) == Some(KeyNotFound)
            || (archive.header.Ok? && p.tile.Some? && !ZoomInRange(archive.header.value, p.tile.value)))
      && (r.status == 500 <==>
            CaughtFault(origin, p, archive).Some? && CaughtFault(origin, p, archive).value != KeyNotFound)
  {
  }

  /** A served tile carries the content type of the archive's tile type, and TileJSON is
      served as JSON. */
  lemma ServedContentType(origin: string, p: ParsedPath, archive: Archive)
    requires p.ok
    ensures var r := Served(origin, p, archive);
      && (r.status == 200 && p.tile.None? ==> r.headers[ContentTypeName] == "application/json" && r.body.Text?)
      && (r.status == 200 && p.tile.Some? ==>
            r.body.Data? && (ContentTypeName in r.headers <==> ContentTypeFor(archive.header.value.tileType).Some?)
            && (ContentTypeName in r.headers ==> r.headers[ContentTypeName] == ContentTypeFor(archive.header.value.tileType).value))
  {
  }

  /** The body of a served response: the archive's tile bytes or TileJSON text for a
      200, nothing for a 204, and for a 400 a message naming the requested extension and
      the archive's own. */
  lemma ServedBody(origin: string, p: ParsedPath, archive: Archive)
    requires p.ok
    ensures var r := Served(origin, p, archive);
      && (r.status == 200 && p.tile.Some? ==> r.body == Data(archive.tileAt(p.tile.value).value.value))
      && (r.status == 200 && p.tile.None? ==> r.body == Text(archive.tileJson(origin + TilesPrefix + p.name).value))
      && (r.status == 204 ==> r.body == NoBody)
      && (r.status == 400 ==>
            r.body == Text(BadExtensionText(p.ext, ExpectedExtension(archive.header.value.tileType).value)))
  {
  }

  /** A request answered from the cache gets the cached status and body, the CORS
      headers, and every other cached header unchanged. */
  lemma CachedAnswerKeepsHeaders(cached: Response)
    ensures Answered(cached).status == cached.status && Answered(cached).body == cached.body
    ensures forall i :: 0 <= i < |CorsHeaders| ==>
              CorsHeaders[i].0 in Answered(cached).headers && Answered(cached).headers[CorsHeaders[i].0] == CorsHeaders[i].1
    ensures forall k :: !IsCorsName(k) && k in cached.headers ==>
              k in Answered(cached).headers && Answered(cached).headers[k] == cached.headers[k]
  {
    CorsReapplied(cached.headers);
  }
}
