/**
  * The storage side of the tile server (worker/src/pmtiles.js): the
  * decompression dispatch handed to the PMTiles reader (`nativeDecompress`)
  * and the range-read source over an R2 bucket (`R2Source`), with the errors
  * they raise.
  *
  * The R2 binding `env.TILES.get` and the gzip stream are foreign calls; they
  * are parameters here.
  */
module ArchiveSource {
  import opened Wrappers

  type Bytes = seq<bv8>

  /** The errors an archive read can raise. */
  datatype Fault =
    | KeyNotFound             // `KeyNotFoundError`: the bucket has no `{name}.pmtiles`
    | EtagMismatch            // `EtagMismatch`: a conditional read found a changed object
    | UnsupportedCompression  // "Compression method not supported"
    | OtherFault(message: string)  // anything else the archive reader raises

  /** The PMTiles v3 compression codes (Unknown 0, None 1, Gzip 2, Brotli 3, Zstd 4);
      a header byte outside that list is kept as its code. */
  datatype Compression =
    | UnknownCompression
    | NoCompression
    | Gzip
    | Brotli
    | Zstd
    | UnlistedCompression(code: nat)

  /** `nativeDecompress`: no compression and unknown compression pass the bytes through,
      gzip is inflated by the platform's stream (`gunzip`, which fails on a corrupt
      stream), and every other code is refused. */
  function Decompress(buf: Bytes, compression: Compression, gunzip: Bytes -> Result<Bytes, Fault>): (r: Result<Bytes, Fault>)
    ensures compression in {NoCompression, UnknownCompression} ==> r == Ok(buf)
    ensures compression == Gzip ==> r == gunzip(buf)
    ensures compression !in {NoCompression, UnknownCompression, Gzip} ==> r == Err(UnsupportedCompression)
    ensures r.Ok? <==> compression in {NoCompression, UnknownCompression} || (compression == Gzip && gunzip(buf).Ok?)
  {
    if compression == NoCompression || compression == UnknownCompression then Ok(buf)
    else if compression == Gzip then gunzip(buf)
    else Err(UnsupportedCompression)
  }

  /** The arguments of one `env.TILES.get(key, { range, onlyIf })` call. */
  datatype RangeGet = RangeGet(key: string, offset: nat, length: nat, etagMatches: Option<string>)

  /** An object as the bucket returns it; `body` is absent when the `onlyIf` condition failed. */
  datatype StoredObject = StoredObject(
    body: Option<Bytes>,
    etag: string,
    cacheControl: Option<string>,
    cacheExpiry: Option<string>)

  /** What `getBytes` resolves to. */
  datatype RangeResponse = RangeResponse(
    data: Bytes,
    etag: string,
    cacheControl: Option<string>,
    expires: Option<string>)

  /** A range-read source over the archive `{archiveName}.pmtiles` of an R2 bucket. */
  datatype R2Source = R2Source(archiveName: string) {

    /** The key the PMTiles reader caches this source's reads under. */
    function GetKey(): string {
      archiveName
    }

    /** The bucket read that `getBytes` issues. An empty ETag is falsy in JavaScript,
        so it makes the read unconditional, like an absent one. */
    function Request(offset: nat, length: nat, etag: Option<string>): (q: RangeGet)
      ensures q.key == archiveName + ".pmtiles"
      ensures q.offset == offset && q.length == length
      ensures q.etagMatches.Some? <==> etag.Some? && etag.value != ""
      ensures q.etagMatches.Some? ==> q.etagMatches == etag
    {
      RangeGet(archiveName + ".pmtiles", offset, length,
               if etag.Some? && etag.value != "" then etag else None)
    }

    /** `getBytes`: a missing object raises KeyNotFound, an object without a body (its
        ETag no longer matches) raises EtagMismatch, and otherwise the bytes come back
        with the object's ETag and caching metadata. `bucket` is `env.TILES.get`. */
    function GetBytes(offset: nat, length: nat, etag: Option<string>,
                      bucket: RangeGet -> Option<StoredObject>): (r: Result<RangeResponse, Fault>)
      ensures var got := bucket(Request(offset, length, etag));
        && (r == Err(KeyNotFound) <==> got.None?)
        && (r == Err(EtagMismatch) <==> got.Some? && got.value.body.None?)
        && (r.Ok? <==> got.Some? && got.value.body.Some?)
        && (r.Ok? ==> r.value == RangeResponse(got.value.body.value, got.value.etag,
                                               got.value.cacheControl, got.value.cacheExpiry))
    {
      match bucket(Request(offset, length, etag))
      case None => Err(KeyNotFound)
      case Some(obj) =>
        if obj.body.None? then Err(EtagMismatch)
        else Ok(RangeResponse(obj.body.value, obj.etag, obj.cacheControl, obj.cacheExpiry))
    }
  }
}
