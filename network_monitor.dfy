/**
  * The URL classifier of the network monitor (src/utils/networkMonitor.ts):
  * which requests count as map-tile traffic, and which HTTP method a fetch
  * call uses when its options name none.
  *
  * The last clause of the classifier is the regular expression
  * \/\d+\/\d+\/\d+\.(mvt|png|jpg|jpeg|webp|avif|pbf)$, a tile address at the
  * end of the URL. It is modelled by a scanner that cuts at the last `.` and
  * then at the last three `/`, proved to accept exactly the URLs the pattern
  * describes.
  */
module NetworkMonitor {
  import opened Wrappers
  import opened Strings

  const AddressExtensions: seq<string> := ["mvt", "png", "jpg", "jpeg", "webp", "avif", "pbf"]

  /** A tile address at the end of a URL: whatever comes first, then /z/x/y.ext. */
  datatype AddressMatch = AddressMatch(prefix: string, z: string, x: string, y: string, ext: string)

  predicate AddressWellFormed(m: AddressMatch) {
    IsDigits(m.z) && IsDigits(m.x) && IsDigits(m.y) && m.ext in AddressExtensions
  }

  function AddressUrl(m: AddressMatch): string {
    m.prefix + "/" + m.z + "/" + m.x + "/" + m.y + "." + m.ext
  }

  /** The scanner for the address pattern. */
  function MatchAddress(url: string): Option<AddressMatch> {
    match SplitLast(url, '.')
    case None => None
    case Some((r3, ext)) =>
      match SplitLast(r3, '/')
      case None => None
      case Some((r2, y)) =>
        match SplitLast(r2, '/')
        case None => None
        case Some((r1, x)) =>
          match SplitLast(r1, '/')
          case None => None
          case Some((prefix, z)) =>
            var m := AddressMatch(prefix, z, x, y, ext);
            if AddressWellFormed(m) then Some(m) else None
  }

  lemma DigitsHaveNoSeparator(s: string)
    requires IsDigits(s)
    ensures '/' !in s
  {
    forall i | 0 <= i < |s| ensures s[i] != '/' {
      assert IsDigit(s[i]);
    }
  }

  lemma Reassociate(p: string, a: string, b: string, c: string, e: string)
    ensures ((p + "/" + a) + "/" + b) + "/" + c + "." + e == p + "/" + a + "/" + b + "/" + c + "." + e
  {
  }

  /** What the scanner captures spells out the URL it matched. */
  lemma MatchAddressSound(url: string, m: AddressMatch)
    requires MatchAddress(url) == Some(m)
    ensures AddressWellFormed(m) && url == AddressUrl(m)
  {
    SplitLastParts(url, '.');
    var (r3, ext) := SplitLast(url, '.').value;
    SplitLastParts(r3, '/');
    var (r2, y) := SplitLast(r3, '/').value;
    SplitLastParts(r2, '/');
    var (r1, x) := SplitLast(r2, '/').value;
    SplitLastParts(r1, '/');
    var (prefix, z) := SplitLast(r1, '/').value;
    assert m == AddressMatch(prefix, z, x, y, ext);
    Reassociate(prefix, z, x, y, ext);
  }

  /** A well-formed address is read back by the scanner, whatever its prefix. */
  lemma MatchAddressComplete(m: AddressMatch)
    requires AddressWellFormed(m)
    ensures MatchAddress(AddressUrl(m)) == Some(m)
  {
    DigitsHaveNoSeparator(m.x);
    DigitsHaveNoSeparator(m.y);
    DigitsHaveNoSeparator(m.z);
    assert '.' !in m.ext;
    var r1 := m.prefix + "/" + m.z;
    var r2 := r1 + "/" + m.x;
    var r3 := r2 + "/" + m.y;
    assert AddressUrl(m) == r3 + ['.'] + m.ext;
    SplitLastOf(r3, '.', m.ext);
    assert r3 == r2 + ['/'] + m.y;
    SplitLastOf(r2, '/', m.y);
    assert r2 == r1 + ['/'] + m.x;
    SplitLastOf(r1, '/', m.x);
    assert r1 == m.prefix + ['/'] + m.z;
    SplitLastOf(m.prefix, '/', m.z);
  }

  /** The URL ends in a tile address in the sense of the pattern. */
  ghost predicate EndsWithAddress(url: string) {
    exists m :: AddressWellFormed(m) && url == AddressUrl(m)
  }

  /** The scanner succeeds exactly on the URLs that end in a tile address. */
  lemma MatchAddressExact(url: string)
    ensures MatchAddress(url).Some? <==> EndsWithAddress(url)
  {
    if MatchAddress(url).Some? {
      MatchAddressSound(url, MatchAddress(url).value);
    }
    if EndsWithAddress(url) {
      var m :| AddressWellFormed(m) && url == AddressUrl(m);
      MatchAddressComplete(m);
    }
  }

  /** `isPMTilesRequest` */
  predicate IsPMTilesRequest(url: string) {
    || Contains(url, "/tiles/")
    || Contains(url, ".pmtiles")
    || Contains(url, "pmtiles")
    || (EndsWith(url, ".json") && Contains(url, "tiles"))
    || MatchAddress(url).Some?
  }

  /** The classifier accepts exactly the URLs under a tiles directory, those naming
      pmtiles anywhere, TileJSON URLs mentioning tiles, and those ending in a tile
      address; the ".pmtiles" clause adds nothing, since "pmtiles" already covers it. */
  lemma IsPMTilesRequestExact(url: string)
    ensures IsPMTilesRequest(url) <==>
      || Contains(url, "/tiles/")
      || Contains(url, "pmtiles")
      || (EndsWith(url, ".json") && Contains(url, "tiles"))
      || EndsWithAddress(url)
  {
    MatchAddressExact(url);
    if Contains(url, ".pmtiles") {
      assert ".pmtiles" == "." + "pmtiles";
      ContainsTail(url, ".", "pmtiles");
    }
  }

  /** Every URL of a tile address counts, after any prefix. */
  lemma AddressUrlsAreTileRequests(m: AddressMatch)
    requires AddressWellFormed(m)
    ensures IsPMTilesRequest(AddressUrl(m))
  {
    MatchAddressComplete(m);
  }

  /** Only the listed extensions, in small letters, end an address: whatever follows the
      last dot decides, so "/1/2/3.PNG" or "/1/2/3.png.gz" is no address. */
  lemma UnlistedExtensionIsNoAddress(front: string, ext: string)
    requires '.' !in ext && ext !in AddressExtensions
    ensures MatchAddress(front + "." + ext).None?
    ensures !EndsWithAddress(front + "." + ext)
  {
    assert front + "." + ext == front + ['.'] + ext;
    SplitLastOf(front, '.', ext);
    MatchAddressExact(front + "." + ext);
  }

  /** The options of a fetch call, as far as the method goes. */
  datatype RequestInit = RequestInit(httpMethod: Option<string>)

  /** `getMethodFromInit`: the method the options name, or "GET" when they are absent or
      name none (an empty method counts as none). */
  function GetMethodFromInit(init: Option<RequestInit>): (r: string)
    ensures r != ""
    ensures r == "GET" || (init.Some? && init.value.httpMethod == Some(r))
    ensures init.Some? && init.value.httpMethod.Some? && init.value.httpMethod.value != "" ==>
              r == init.value.httpMethod.value
  {
    if init.Some? && init.value.httpMethod.Some? && init.value.httpMethod.value != "" then
      init.value.httpMethod.value
    else
      "GET"
  }
}
