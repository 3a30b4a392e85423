/**
  * The image listing of the photo layer (src/services/r2Service.ts): which
  * bucket keys count as images, and how a bucket listing, in S3 XML or as an
  * HTML directory page, becomes the list of images.
  *
  * Parsing the XML document and scanning the HTML page with a regular
  * expression are not modelled: `ParseResponse` receives, in document order,
  * the text of the `Key` element of each `Contents` element (None when it has
  * none), and the file names the HTML pattern captured.
  */
module R2Images {
  import opened Wrappers
  import opened Strings
  import opened Seqs

  /** An image of the listing; the coordinates and size, which are random
      placeholders, are not modelled. */
  datatype ImageData = ImageData(url: string, key: string)

  const ImageExtensions: seq<string> := [".jpg", ".jpeg", ".png", ".gif", ".webp", ".bmp", ".svg"]

  const DottedCapitalI: char := '\U{0130}'

  // ---------------------------------------------------------------------------
  // Lower case as JavaScript does it

  /** `toLowerCase` of one character, for the characters that matter here: ASCII capitals
      become small letters, and U+0130 (capital I with dot above) becomes "i" followed by
      U+0307 (combining dot above), one character more. */
  function LowerJs(c: char): string {
    if c == DottedCapitalI then ['i', '\U{0307}'] else [LowerChar(c)]
  }

  /** `s.toLowerCase()` */
  function ToLowerJs(s: string): (r: string)
    ensures |r| >= |s|
    ensures DottedCapitalI !in s ==> |r| == |s|
  {
    if s == [] then [] else ToLowerJs(s[..|s| - 1]) + LowerJs(s[|s| - 1])
  }

  lemma {:induction false} ToLowerJsConcat(a: string, b: string)
    ensures ToLowerJs(a + b) == ToLowerJs(a) + ToLowerJs(b)
  {
    if b == [] {
      assert a + b == a;
    } else {
      var front, last := b[..|b| - 1], b[|b| - 1];
      assert (a + b)[..|a + b| - 1] == a + front;
      assert (a + b)[|a + b| - 1] == last;
      assert ToLowerJs(b) == ToLowerJs(front) + LowerJs(last);
      assert ToLowerJs(a + b) == ToLowerJs(a + front) + LowerJs(last);
      ToLowerJsConcat(a, front);
    }
  }

  lemma ToLowerJsSingle(c: char)
    ensures ToLowerJs([c]) == LowerJs(c)
  {
    assert [c][..0] == [];
  }

  /** Lower-casing `t` gives `s` when it does so character by character. */
  lemma {:induction false} ToLowerJsPointwise(t: string, s: string)
    requires |t| == |s|
    requires forall i :: 0 <= i < |t| ==> LowerJs(t[i]) == [s[i]]
    ensures ToLowerJs(t) == s
  {
    if t != [] {
      var n := |t| - 1;
      ToLowerJsPointwise(t[..n], s[..n]);
      assert s == s[..n] + [s[n]];
    }
  }

  /** A word of small ASCII letters and dots is its own lower case. */
  lemma {:induction false} ToLowerJsFixes(s: string)
    requires forall i :: 0 <= i < |s| ==> s[i] == '.' || 'a' <= s[i] <= 'z'
    ensures ToLowerJs(s) == s
  {
    ToLowerJsPointwise(s, s);
  }

  /** Lower-casing such a word written in capitals gives it back. */
  lemma LowerOfUpper(s: string)
    requires forall i :: 0 <= i < |s| ==> s[i] == '.' || 'a' <= s[i] <= 'z'
    ensures ToLowerJs(AsciiUpper(s)) == s
  {
    var upper := AsciiUpper(s);
    forall i | 0 <= i < |s| ensures LowerJs(upper[i]) == [s[i]] {
      assert upper[i] == UpperChar(s[i]);
    }
    ToLowerJsPointwise(upper, s);
  }

  /** Lower-casing lengthens a string exactly when it holds a dotted capital I. */
  lemma {:induction false} ToLowerJsLonger(s: string)
    ensures DottedCapitalI in s ==> |ToLowerJs(s)| > |s|
  {
    if s != [] {
      ToLowerJsLonger(s[..|s| - 1]);
      assert s == s[..|s| - 1] + [s[|s| - 1]];
    }
  }

  /** Lower-casing makes no dots. */
  lemma {:induction false} ToLowerJsKeepsDots(s: string)
    ensures '.' in ToLowerJs(s) ==> '.' in s
  {
    if s != [] {
      ToLowerJsKeepsDots(s[..|s| - 1]);
      assert s == s[..|s| - 1] + [s[|s| - 1]];
    }
  }

  /** Lower-casing keeps a leading dot. */
  lemma LowerKeepsLeadingDot(s: string)
    requires |s| > 0 && s[0] == '.'
    ensures |ToLowerJs(s)| > 0 && ToLowerJs(s)[0] == '.'
  {
    assert s == [s[0]] + s[1..];
    ToLowerJsConcat([s[0]], s[1..]);
    ToLowerJsSingle(s[0]);
  }

  /** Every listed extension has its dot in front and nowhere else. */
  lemma ExtensionsHaveOneDot()
    ensures forall e :: e in ImageExtensions ==> |e| > 1 && e[0] == '.' && '.' !in e[1..]
  {
  }

  /** Every listed extension is a dot and small ASCII letters. */
  lemma ExtensionsAreLowerAscii(e: string)
    requires e in ImageExtensions
    ensures forall i :: 0 <= i < |e| ==> e[i] == '.' || 'a' <= e[i] <= 'z'
  {
  }

  // ---------------------------------------------------------------------------
  // isImageFile

  /** Where `substring(key.lastIndexOf('.'))` starts: at the last dot, or at 0 when there
      is none, since `substring` reads -1 as 0. */
  function Cut(key: string): (k: nat)
    ensures k <= |key|
    ensures '.' in key ==> k < |key| && key[k] == '.' && '.' !in key[k + 1..]
    ensures '.' !in key ==> k == 0
  {
    var p := LastIndexOf(key, '.');
    if p < 0 then 0 else p
  }

  /** `isImageFile` as written: the position of the last dot is taken in `key` but used
      in its lower-cased copy. */
  function IsImageFileAsWritten(key: string): bool {
    ToLowerJs(key)[Cut(key)..] in ImageExtensions
  }

  /** `isImageFile` with the extension cut from the key itself and then lower-cased. */
  function IsImageFile(key: string): bool {
    ToLowerJs(key[Cut(key)..]) in ImageExtensions
  }

  /** A suffix with its only dot in front: what `Cut` cuts off. */
  predicate IsExtension(ext: string) {
    |ext| > 0 && ext[0] == '.' && '.' !in ext[1..]
  }

  /** The extension of `name + ext` is `ext`. */
  lemma CutOf(name: string, ext: string)
    requires IsExtension(ext)
    ensures Cut(name + ext) == |name|
    ensures (name + ext)[|name|..] == ext
  {
    LastIndexOfBefore(name, '.', ext[1..]);
    assert name + ext == name + ['.'] + ext[1..];
  }

  /** Without a dotted capital I before the last dot, the lower-cased key has its last dot
      where the key has it. */
  lemma AsWrittenWindow(key: string)
    requires DottedCapitalI !in key[..Cut(key)]
    ensures ToLowerJs(key)[Cut(key)..] == ToLowerJs(key[Cut(key)..])
  {
    var k := Cut(key);
    assert key == key[..k] + key[k..];
    ToLowerJsConcat(key[..k], key[k..]);
    var front, back := ToLowerJs(key[..k]), ToLowerJs(key[k..]);
    assert |front| == k;
    assert (front + back)[k..] == back;
  }

  /** The two readings agree unless a dotted capital I comes before the last dot. */
  lemma AsWrittenAgrees(key: string)
    requires DottedCapitalI !in key[..Cut(key)]
    ensures IsImageFileAsWritten(key) == IsImageFile(key)
  {
    AsWrittenWindow(key);
  }

  /** A window that starts before a dot is not a listed extension. */
  lemma WindowBeforeDotRejected(front: string, back: string, k: nat)
    requires k < |front| && |back| > 0 && back[0] == '.'
    ensures (front + back)[k..] !in ImageExtensions
  {
    var window := (front + back)[k..];
    var c := |front| - k;
    assert window[c] == '.' && c >= 1;
    assert window[1..][c - 1] == '.';
    ExtensionsHaveOneDot();
  }

  /** The reading as written never accepts a key that the corrected one refuses: a dotted
      capital I before the last dot moves the cut in front of the dot, and no extension
      has a dot after its first character. */
  lemma AsWrittenNeverOveraccepts(key: string)
    ensures IsImageFileAsWritten(key) ==> IsImageFile(key)
  {
    var k := Cut(key);
    if DottedCapitalI in key[..k] {
      assert key == key[..k] + key[k..];
      ToLowerJsConcat(key[..k], key[k..]);
      ToLowerJsLonger(key[..k]);
      LowerKeepsLeadingDot(key[k..]);
      WindowBeforeDotRejected(ToLowerJs(key[..k]), ToLowerJs(key[k..]), k);
    } else {
      AsWrittenAgrees(key);
    }
  }

  /** The counterexample: "İ.png" is a PNG file, but the reading as written cuts the
      lower-cased "i̇.png" one place too early, at the combining dot, and misses it. */
  lemma DottedCapitalIMisread()
    ensures !IsImageFileAsWritten("\U{0130}.png")
  {
    var key := "\U{0130}.png";
    var ext := ".png";
    assert IsExtension(ext);
    assert key == [DottedCapitalI] + ext;
    CutOf([DottedCapitalI], ext);
    ToLowerJsConcat([DottedCapitalI], ext);
    ToLowerJsSingle(DottedCapitalI);
    var window := ToLowerJs(key)[Cut(key)..];
    assert window[0] == '\U{0307}';
    ExtensionsHaveOneDot();
  }

  /** The corrected reading takes "İ.png" for the PNG file it is. */
  lemma DottedCapitalIRead()
    ensures IsImageFile("\U{0130}.png")
  {
    PngSuffixAccepted([DottedCapitalI]);
    assert [DottedCapitalI] + ".png" == "\U{0130}.png";
  }

  /** Only the suffix from the last dot counts, and its case does not: `name + ext` is
      an image exactly when `ext` in lower case is a listed extension. */
  lemma ImageByExtension(name: string, ext: string)
    requires IsExtension(ext)
    ensures IsImageFile(name + ext) <==> ToLowerJs(ext) in ImageExtensions
  {
    CutOf(name, ext);
  }

  /** Each listed extension is recognised after any name. */
  lemma ListedExtensionAccepted(name: string, e: string)
    requires e in ImageExtensions
    ensures IsImageFile(name + e)
  {
    ExtensionsHaveOneDot();
    ExtensionsAreLowerAscii(e);
    ImageByExtension(name, e);
    ToLowerJsFixes(e);
  }

  /** Each listed extension is recognised in capitals too. */
  lemma CapitalExtensionAccepted(name: string, e: string)
    requires e in ImageExtensions
    ensures IsImageFile(name + AsciiUpper(e))
  {
    ExtensionsHaveOneDot();
    ExtensionsAreLowerAscii(e);
    var upper := AsciiUpper(e);
    assert IsExtension(upper) by {
      forall i | 1 <= i < |upper| ensures upper[i] != '.' {
        assert e[i] != '.';
      }
      assert forall c :: c in upper[1..] ==> c != '.';
    }
    ImageByExtension(name, upper);
    LowerOfUpper(e);
  }

  /** A key without a dot is never an image, since every listed extension has one. */
  lemma NoDotNoImage(key: string)
    requires '.' !in key
    ensures !IsImageFile(key) && !IsImageFileAsWritten(key)
  {
    ExtensionsHaveOneDot();
    ToLowerJsKeepsDots(key);
    assert key[0..] == key;
  }

  /** Only the last dot decides: after any stem, dots in it included, a ".png" suffix
      makes an image ... */
  lemma PngSuffixAccepted(stem: string)
    ensures IsImageFile(stem + ".png")
  {
    ListedExtensionAccepted(stem, ".png");
  }

  /** ... and a ".txt" suffix does not. */
  lemma TxtSuffixRejected(stem: string)
    ensures !IsImageFile(stem + ".txt")
  {
    var txt := ".txt";
    assert IsExtension(txt);
    ImageByExtension(stem, txt);
    assert forall i :: 0 <= i < |txt| ==> txt[i] == '.' || 'a' <= txt[i] <= 'z';
    ToLowerJsFixes(txt);
  }

  // ---------------------------------------------------------------------------
  // parseResponse

  /** The listing is S3 XML when it holds an XML declaration or a ListBucketResult element. */
  predicate IsXmlListing(text: string) {
    Contains(text, "<?xml") || Contains(text, "<ListBucketResult")
  }

  class R2Service {
    const bucketUrl: string

    constructor (bucketUrl: string)
      ensures this.bucketUrl == bucketUrl
    {
      this.bucketUrl := bucketUrl;
    }

    /** The image a key of the bucket becomes. */
    function ImageFor(key: string): ImageData {
      ImageData(bucketUrl + "/" + key, key)
    }

    /** The images listed by the XML keys: present, non-empty keys that pass `accept`
        (the source filters with `IsImageFileAsWritten`). */
    function FromXml(keys: seq<Option<string>>, accept: string -> bool): seq<ImageData> {
      if keys == [] then []
      else
        var prev := FromXml(keys[..|keys| - 1], accept);
        var key := keys[|keys| - 1];
        if key.Some? && key.value != "" && accept(key.value) then prev + [ImageFor(key.value)] else prev
    }

    /** The images listed by the HTML file names that pass `accept`. */
    function FromHtml(names: seq<string>, accept: string -> bool): seq<ImageData> {
      if names == [] then []
      else
        var prev := FromHtml(names[..|names| - 1], accept);
        var name := names[|names| - 1];
        if accept(name) then prev + [ImageFor(name)] else prev
    }

    /** Every image of the XML listing is a listed, accepted key under the bucket. */
    lemma {:induction false} FromXmlSound(keys: seq<Option<string>>, accept: string -> bool, d: ImageData)
      requires d in FromXml(keys, accept)
      ensures Some(d.key) in keys && d.key != "" && accept(d.key) && d.url == bucketUrl + "/" + d.key
    {
      var prev, last := keys[..|keys| - 1], keys[|keys| - 1];
      if d in FromXml(prev, accept) {
        FromXmlSound(prev, accept, d);
        var j :| 0 <= j < |prev| && prev[j] == Some(d.key);
        assert keys[j] == Some(d.key);
      } else {
        var added := last.Some? && last.value != "" && accept(last.value);
        assert FromXml(keys, accept) == if added then FromXml(prev, accept) + [ImageFor(last.value)] else FromXml(prev, accept);
        assert added && d == ImageFor(last.value);
        assert keys[|keys| - 1] == Some(d.key);
      }
    }

    /** Every listed, non-empty key that passes `accept` becomes an image of the listing. */
    lemma {:induction false} FromXmlComplete(keys: seq<Option<string>>, accept: string -> bool, key: string)
      requires Some(key) in keys && key != "" && accept(key)
      ensures ImageFor(key) in FromXml(keys, accept)
    {
      var prev, last := keys[..|keys| - 1], keys[|keys| - 1];
      if last == Some(key) {
        assert FromXml(keys, accept) == FromXml(prev, accept) + [ImageFor(key)];
      } else {
        var j :| 0 <= j < |keys| && keys[j] == Some(key);
        assert j < |prev| && prev[j] == Some(key);
        FromXmlComplete(prev, accept, key);
        assert forall x :: x in FromXml(prev, accept) ==> x in FromXml(keys, accept);
      }
    }

    /** An image comes from the XML listing exactly when its key is one of the listed
        keys, non-empty and accepted, and its URL is the key under the bucket. */
    lemma FromXmlExact(keys: seq<Option<string>>, accept: string -> bool, d: ImageData)
      ensures d in FromXml(keys, accept) <==>
        Some(d.key) in keys && d.key != "" && accept(d.key) && d.url == bucketUrl + "/" + d.key
    {
      if d in FromXml(keys, accept) {
        FromXmlSound(keys, accept, d);
      }
      if Some(d.key) in keys && d.key != "" && accept(d.key) && d.url == bucketUrl + "/" + d.key {
        FromXmlComplete(keys, accept, d.key);
      }
    }

    /** With the source's own test, the XML listing holds exactly the listed keys that
        `isImageFile` as written accepts (the empty key is not one of them). */
    lemma FromXmlAsWritten(keys: seq<Option<string>>, d: ImageData)
      ensures d in FromXml(keys, IsImageFileAsWritten) <==>
        Some(d.key) in keys && IsImageFileAsWritten(d.key) && d.url == bucketUrl + "/" + d.key
    {
      FromXmlExact(keys, IsImageFileAsWritten, d);
      if d.key == "" {
        NoDotNoImage(d.key);
      }
    }

    /** The as-written XML listing never holds an image the corrected test would refuse. */
    lemma FromXmlAsWrittenWithinCorrected(keys: seq<Option<string>>, d: ImageData)
      requires d in FromXml(keys, IsImageFileAsWritten)
      ensures d in FromXml(keys, IsImageFile)
    {
      FromXmlExact(keys, IsImageFileAsWritten, d);
      AsWrittenNeverOveraccepts(d.key);
      FromXmlExact(keys, IsImageFile, d);
    }

    /** The XML images keep the order of the listing. */
    lemma {:induction false} FromXmlConcat(a: seq<Option<string>>, b: seq<Option<string>>, accept: string -> bool)
      ensures FromXml(a + b, accept) == FromXml(a, accept) + FromXml(b, accept)
    {
      if b == [] {
        assert a + b == a;
      } else {
        assert (a + b)[..|a + b| - 1] == a + b[..|b| - 1];
        FromXmlConcat(a, b[..|b| - 1], accept);
      }
    }

    /** Every image of the HTML page is a captured, accepted file name under the bucket. */
    lemma {:induction false} FromHtmlSound(names: seq<string>, accept: string -> bool, d: ImageData)
      requires d in FromHtml(names, accept)
      ensures d.key in names && accept(d.key) && d.url == bucketUrl + "/" + d.key
    {
      var prev, last := names[..|names| - 1], names[|names| - 1];
      if d in FromHtml(prev, accept) {
        FromHtmlSound(prev, accept, d);
        var j :| 0 <= j < |prev| && prev[j] == d.key;
        assert names[j] == d.key;
      } else {
        assert FromHtml(names, accept) == if accept(last) then FromHtml(prev, accept) + [ImageFor(last)] else FromHtml(prev, accept);
        assert accept(last) && d == ImageFor(last);
        assert names[|names| - 1] == d.key;
      }
    }

    /** Every captured file name that passes `accept` becomes an image of the page. */
    lemma {:induction false} FromHtmlComplete(names: seq<string>, accept: string -> bool, name: string)
      requires name in names && accept(name)
      ensures ImageFor(name) in FromHtml(names, accept)
    {
      var prev, last := names[..|names| - 1], names[|names| - 1];
      if name == last {
        assert FromHtml(names, accept) == FromHtml(prev, accept) + [ImageFor(last)];
      } else {
        var j :| 0 <= j < |names| && names[j] == name;
        assert j < |prev| && prev[j] == name;
        FromHtmlComplete(prev, accept, name);
        assert forall x :: x in FromHtml(prev, accept) ==> x in FromHtml(names, accept);
      }
    }

    /** An image comes from the HTML page exactly when its file name was captured and is
        accepted, and its URL is the name under the bucket. */
    lemma FromHtmlExact(names: seq<string>, accept: string -> bool, d: ImageData)
      ensures d in FromHtml(names, accept) <==> d.key in names && accept(d.key) && d.url == bucketUrl + "/" + d.key
    {
      if d in FromHtml(names, accept) {
        FromHtmlSound(names, accept, d);
      }
      if d.key in names && accept(d.key) && d.url == bucketUrl + "/" + d.key {
        FromHtmlComplete(names, accept, d.key);
      }
    }

    /** The as-written HTML listing never holds an image the corrected test would refuse. */
    lemma FromHtmlAsWrittenWithinCorrected(names: seq<string>, d: ImageData)
      requires d in FromHtml(names, IsImageFileAsWritten)
      ensures d in FromHtml(names, IsImageFile)
    {
      FromHtmlExact(names, IsImageFileAsWritten, d);
      AsWrittenNeverOveraccepts(d.key);
      FromHtmlExact(names, IsImageFile, d);
    }

    /** The HTML images keep the order of the page. */
    lemma {:induction false} FromHtmlConcat(a: seq<string>, b: seq<string>, accept: string -> bool)
      ensures FromHtml(a + b, accept) == FromHtml(a, accept) + FromHtml(b, accept)
    {
      if b == [] {
        assert a + b == a;
      } else {
        assert (a + b)[..|a + b| - 1] == a + b[..|b| - 1];
        FromHtmlConcat(a, b[..|b| - 1], accept);
      }
    }

    /** `parseResponse`: the XML branch when the text looks like an S3 listing, the HTML
        branch otherwise. */
    method ParseResponse(responseText: string, xmlKeys: seq<Option<string>>, htmlNames: seq<string>)
      returns (images: seq<ImageData>)
      ensures IsXmlListing(responseText) ==> images == FromXml(xmlKeys, IsImageFileAsWritten)
      ensures !IsXmlListing(responseText) ==> images == FromHtml(htmlNames, IsImageFileAsWritten)
    {
      images := [];
      if Contains(responseText, "<?xml") || Contains(responseText, "<ListBucketResult") {
        for i := 0 to |xmlKeys|
          invariant images == FromXml(xmlKeys[..i], IsImageFileAsWritten)
        {
          assert xmlKeys[..i + 1][..i] == xmlKeys[..i];
          var key := xmlKeys[i];
          if key.Some? && key.value != "" && IsImageFileAsWritten(key.value) {
            images := images + [ImageFor(key.value)];
          }
        }
        assert xmlKeys[..|xmlKeys|] == xmlKeys;
      } else {
        for i := 0 to |htmlNames|
          invariant images == FromHtml(htmlNames[..i], IsImageFileAsWritten)
        {
          assert htmlNames[..i + 1][..i] == htmlNames[..i];
          var fileName := htmlNames[i];
          if IsImageFileAsWritten(fileName) {
            images := images + [ImageFor(fileName)];
          }
        }
        assert htmlNames[..|htmlNames|] == htmlNames;
      }
    }
  }
}
