/**
  * The path grammar of the tile server (`parseTilePath` in
  * worker/src/pmtiles.js). Two shapes are accepted, tried in this order:
  *
  *   /tiles/{name}/{z}/{x}/{y}.{ext}   matched by ^/tiles/([^/]+)/(\d+)/(\d+)/(\d+)\.([a-z]+)$
  *   /tiles/{name}.json                matched by ^/tiles/([^/]+)\.json$
  *
  * Each regular expression is modelled by a scanner that returns its capture
  * groups, and each scanner is proved to accept exactly the strings its
  * pattern describes.
  */
module TilePath {
  import opened Wrappers
  import opened Strings

  const TilesPrefix := "/tiles/"

  /** A tile address as numbers (the source's `[+z, +x, +y]`). */
  datatype Tile = Tile(z: nat, x: nat, y: nat)

  /** The source's `{ ok, name, tile, ext }` result; `tile` is absent for a TileJSON request. */
  datatype ParsedPath = ParsedPath(ok: bool, name: string, tile: Option<Tile>, ext: string)

  /** The capture groups of the tile pattern: name, z, x, y and extension. */
  datatype TileMatch = TileMatch(name: string, z: string, x: string, y: string, ext: string)

  /** What `[^/]+` matches. */
  predicate IsName(s: string) {
    |s| > 0 && '/' !in s
  }

  /** Capture groups that satisfy the character classes of the tile pattern. */
  predicate WellFormed(m: TileMatch) {
    IsName(m.name) && IsDigits(m.z) && IsDigits(m.x) && IsDigits(m.y) && IsLowerWord(m.ext)
  }

  /** The path that the tile pattern reads back as the captures `m`. */
  function TileUrl(m: TileMatch): string {
    TilesPrefix + m.name + "/" + m.z + "/" + m.x + "/" + m.y + "." + m.ext
  }

  /** The path that the TileJSON pattern reads back as the name `name`. */
  function TileSetUrl(name: string): string {
    TilesPrefix + name + ".json"
  }

  /** The tile pattern: after the prefix, cut at the first three `/` and then at the first `.`. */
  function MatchTile(path: string): Option<TileMatch> {
    if !StartsWith(path, TilesPrefix) then None
    else
      match SplitFirst(path[|TilesPrefix|..], '/')
      case None => None
      case Some((name, r1)) =>
        match SplitFirst(r1, '/')
        case None => None
        case Some((z, r2)) =>
          match SplitFirst(r2, '/')
          case None => None
          case Some((x, r3)) =>
            match SplitFirst(r3, '.')
            case None => None
            case Some((y, ext)) =>
              var m := TileMatch(name, z, x, y, ext);
              if WellFormed(m) then Some(m) else None
  }

  /** The TileJSON pattern: what lies between the prefix and a final `.json` must be a name. */
  function MatchTileSet(path: string): Option<string> {
    if StartsWith(path, TilesPrefix) && EndsWith(path, ".json") && |path| > |TilesPrefix| + 5 then
      var name := path[|TilesPrefix|..|path| - 5];
      if '/' !in name then Some(name) else None
    else None
  }

  lemma DigitsHaveNoSeparator(s: string)
    requires IsDigits(s)
    ensures '/' !in s && '.' !in s
  {
    forall i | 0 <= i < |s| ensures s[i] != '/' && s[i] != '.' {
      assert IsDigit(s[i]);
    }
  }

  /** What the tile pattern captures spells out the path it matched. */
  lemma MatchTileSound(path: string, m: TileMatch)
    requires MatchTile(path) == Some(m)
    ensures WellFormed(m) && path == TileUrl(m)
  {
    var rest := path[|TilesPrefix|..];
    StartsWithSplit(path, TilesPrefix);
    var sp0 := SplitFirst(rest, '/');
    SplitFirstParts(rest, '/');
    var name, r1 := sp0.value.0, sp0.value.1;
    var sp1 := SplitFirst(r1, '/');
    SplitFirstParts(r1, '/');
    var z, r2 := sp1.value.0, sp1.value.1;
    var sp2 := SplitFirst(r2, '/');
    SplitFirstParts(r2, '/');
    var x, r3 := sp2.value.0, sp2.value.1;
    var sp3 := SplitFirst(r3, '.');
    SplitFirstParts(r3, '.');
    var y, ext := sp3.value.0, sp3.value.1;
    assert m == TileMatch(name, z, x, y, ext);
    Reassociate(TilesPrefix, name, z, x, y, ext);
  }

  lemma Reassociate(p: string, a: string, b: string, c: string, d: string, e: string)
    ensures p + (a + "/" + (b + "/" + (c + "/" + (d + "." + e))))
         == p + a + "/" + b + "/" + c + "/" + d + "." + e
  {
  }

  /** Well-formed captures are exactly what the tile pattern reads back from their path. */
  lemma MatchTileComplete(m: TileMatch)
    requires WellFormed(m)
    ensures MatchTile(TileUrl(m)) == Some(m)
  {
    var path := TileUrl(m);
    DigitsHaveNoSeparator(m.z);
    DigitsHaveNoSeparator(m.x);
    DigitsHaveNoSeparator(m.y);
    var r3 := m.y + "." + m.ext;
    var r2 := m.x + "/" + r3;
    var r1 := m.z + "/" + r2;
    var rest := m.name + "/" + r1;
    assert path == TilesPrefix + rest;
    assert path[|TilesPrefix|..] == rest;
    SplitFirstOf(m.name, '/', r1);
    SplitFirstOf(m.z, '/', r2);
    SplitFirstOf(m.x, '/', r3);
    SplitFirstOf(m.y, '.', m.ext);
  }

  /** The tile pattern matches `path` with captures `m` exactly when the captures are
      well formed and spell out `path`. */
  lemma MatchTileExact(path: string, m: TileMatch)
    ensures MatchTile(path) == Some(m) <==> WellFormed(m) && path == TileUrl(m)
  {
    if MatchTile(path) == Some(m) {
      MatchTileSound(path, m);
    }
    if WellFormed(m) && path == TileUrl(m) {
      MatchTileComplete(m);
    }
  }

  /** A tile path starts with its name's directory and ends with its extension. */
  lemma TileUrlEnds(m: TileMatch)
    ensures StartsWith(TileUrl(m), TilesPrefix + m.name + "/")
    ensures EndsWith(TileUrl(m), "." + m.ext)
  {
    var path := TileUrl(m);
    var head := TilesPrefix + m.name + "/";
    var tail := "." + m.ext;
    assert path == head + (m.z + "/" + m.x + "/" + m.y) + tail;
    assert path[..|head|] == head;
    assert path[|path| - |tail|..] == tail;
  }

  /** The TileJSON pattern matches `path` with name `name` exactly when `name` is a
      name and `path` is `/tiles/{name}.json`. */
  lemma MatchTileSetExact(path: string, name: string)
    ensures MatchTileSet(path) == Some(name) <==> IsName(name) && path == TileSetUrl(name)
  {
    if MatchTileSet(path) == Some(name) {
      assert path == path[..|TilesPrefix|] + path[|TilesPrefix|..|path| - 5] + path[|path| - 5..];
    }
    if IsName(name) && path == TileSetUrl(name) {
      assert path[|TilesPrefix|..|path| - 5] == name;
    }
  }

  /** `parseTilePath`: the tile shape first, then the TileJSON shape, else a failure
      with empty name and extension. */
  function ParseTilePath(path: string): (r: ParsedPath)
    ensures r.ok <==> MatchTile(path).Some? || MatchTileSet(path).Some?
    ensures !r.ok ==> r.name == "" && r.ext == "" && r.tile.None?
    ensures r.tile.Some? <==> MatchTile(path).Some?
    ensures r.tile.Some? ==> IsName(r.name) && IsLowerWord(r.ext)
                             && StartsWith(path, TilesPrefix + r.name + "/")
                             && EndsWith(path, "." + r.ext)
    ensures r.ok && r.tile.None? ==> r.ext == "json" && IsName(r.name) && path == TileSetUrl(r.name)
    ensures MatchTile(path).Some? ==>
              (MatchTileSound(path, MatchTile(path).value);
               var m := MatchTile(path).value;
               r.name == m.name && r.ext == m.ext
               && r.tile == Some(Tile(DecimalValue(m.z), DecimalValue(m.x), DecimalValue(m.y))))
  {
    match MatchTile(path)
    case Some(m) =>
      MatchTileSound(path, m);
      TileUrlEnds(m);
      ParsedPath(true, m.name, Some(Tile(DecimalValue(m.z), DecimalValue(m.x), DecimalValue(m.y))), m.ext)
    case None =>
      match MatchTileSet(path)
      case Some(name) =>
        MatchTileSetExact(path, name);
        ParsedPath(true, name, None, "json")
      case None => ParsedPath(false, "", None, "")
  }

  /** The canonical tile path for a name, a tile and an extension. */
  function FormatTilePath(name: string, t: Tile, ext: string): string {
    TileUrl(TileMatch(name, NatToDecimal(t.z), NatToDecimal(t.x), NatToDecimal(t.y), ext))
  }

  /** Parsing a formatted tile path gives back its name, tile and extension. */
  lemma ParseTileRoundTrip(name: string, t: Tile, ext: string)
    requires IsName(name) && IsLowerWord(ext)
    ensures ParseTilePath(FormatTilePath(name, t, ext)) == ParsedPath(true, name, Some(t), ext)
  {
    var m := TileMatch(name, NatToDecimal(t.z), NatToDecimal(t.x), NatToDecimal(t.y), ext);
    MatchTileExact(TileUrl(m), m);
  }

  /** Parsing a TileJSON path gives back its name, with extension `json` and no tile. */
  lemma ParseTileSetRoundTrip(name: string)
    requires IsName(name)
    ensures ParseTilePath(TileSetUrl(name)) == ParsedPath(true, name, None, "json")
  {
    var path := TileSetUrl(name);
    MatchTileSetExact(path, name);
    assert path[|TilesPrefix|..] == name + ".json";
    assert '/' !in name + ".json";
  }
}
