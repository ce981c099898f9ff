/**
 * `AssetLoader` (public/assetLoader.js): a memoising loader that turns an asset file into a
 * `data:` URL (section 3 of RFC 2397) with a Base64 payload (section 4 of RFC 4648) and a MIME
 * type chosen from the file extension. The file read is a parameter.
 */
module Assets {
  import opened Wrappers
  import opened Text

  type byte = x: int | 0 <= x < 256

  // ----- Base64 -----

  /** The character for a 6-bit value in the standard alphabet. */
  function IndexChar(i: nat): char
    requires i < 64
  {
    if i < 26 then ('A' as int + i) as char
    else if i < 52 then ('a' as int + i - 26) as char
    else if i < 62 then ('0' as int + i - 52) as char
    else if i == 62 then '+'
    else '/'
  }

  predicate Base64Char(c: char)
  {
    ('A' <= c <= 'Z') || ('a' <= c <= 'z') || ('0' <= c <= '9') || c == '+' || c == '/'
  }

  /** The 6-bit value of an alphabet character. */
  function CharIndex(c: char): (i: nat)
    requires Base64Char(c)
    ensures i < 64 && IndexChar(i) == c
  {
    if 'A' <= c <= 'Z' then c as int - 'A' as int
    else if 'a' <= c <= 'z' then c as int - 'a' as int + 26
    else if '0' <= c <= '9' then c as int - '0' as int + 52
    else if c == '+' then 62
    else 63
  }

  lemma IndexCharIsBase64(i: nat)
    requires i < 64
    ensures Base64Char(IndexChar(i)) && CharIndex(IndexChar(i)) == i
  {
  }

  /** Three bytes as four alphabet characters. */
  function EncodeGroup(b0: byte, b1: byte, b2: byte): (g: string)
    ensures |g| == 4 && forall k :: 0 <= k < 4 ==> Base64Char(g[k])
  {
    IndexCharIsBase64(b0 / 4);
    IndexCharIsBase64((b0 % 4) * 16 + b1 / 16);
    IndexCharIsBase64((b1 % 16) * 4 + b2 / 64);
    IndexCharIsBase64(b2 % 64);
    [IndexChar(b0 / 4), IndexChar((b0 % 4) * 16 + b1 / 16), IndexChar((b1 % 16) * 4 + b2 / 64), IndexChar(b2 % 64)]
  }

  /** Four characters for every started group of three bytes. */
  function EncodedLength(n: nat): nat
  {
    if n == 0 then 0 else if n <= 3 then 4 else 4 + EncodedLength(n - 3)
  }

  /** The encoded length is four times the number of groups, the last one possibly short. */
  lemma {:induction false} EncodedLengthFormula(n: nat)
    ensures EncodedLength(n) == 4 * ((n + 2) / 3)
  {
    if n > 3 {
      EncodedLengthFormula(n - 3);
      assert (n + 2) / 3 == (n - 3 + 2) / 3 + 1;
    }
  }

  /** `data.toString('base64')`: three bytes to four characters, '=' padding at the end. */
  function Base64(data: seq<byte>): (r: string)
    ensures |r| == EncodedLength(|data|)
    ensures forall k :: 0 <= k < |r| ==> Base64Char(r[k]) || r[k] == '='
    decreases |data|
  {
    if |data| == 0 then ""
    else if |data| == 1 then EncodeGroup(data[0], 0, 0)[..2] + "=="
    else if |data| == 2 then EncodeGroup(data[0], data[1], 0)[..3] + "="
    else EncodeGroup(data[0], data[1], data[2]) + Base64(data[3..])
  }

  /** Well-formed Base64 text: groups of four, padding only at the very end. */
  predicate Base64Text(s: string)
    decreases |s|
  {
    |s| % 4 == 0 &&
    (|s| == 0 ||
     (Base64Char(s[0]) && Base64Char(s[1]) &&
      (if |s| == 4 && s[2] == '=' then s[3] == '='
       else Base64Char(s[2]) && (if |s| == 4 && s[3] == '=' then true else Base64Char(s[3]) && Base64Text(s[4..])))))
  }

  /** Decoding: four characters back to three bytes, fewer where padded. */
  function DecodeBase64(s: string): seq<byte>
    requires Base64Text(s)
    decreases |s|
  {
    if |s| == 0 then []
    else
      var i0 := CharIndex(s[0]);
      var i1 := CharIndex(s[1]);
      var b0 := i0 * 4 + i1 / 16;
      if |s| == 4 && s[2] == '=' then [b0]
      else
        var i2 := CharIndex(s[2]);
        var b1 := (i1 % 16) * 16 + i2 / 4;
        if |s| == 4 && s[3] == '=' then [b0, b1]
        else
          var i3 := CharIndex(s[3]);
          [b0, b1, (i2 % 4) * 64 + i3] + DecodeBase64(s[4..])
  }

  /** The bit arithmetic of one group inverts. */
  lemma GroupArithmetic(b0: byte, b1: byte, b2: byte)
    ensures var i1 := (b0 % 4) * 16 + b1 / 16;
      var i2 := (b1 % 16) * 4 + b2 / 64;
      (b0 / 4) * 4 + i1 / 16 == b0 && (i1 % 16) * 16 + i2 / 4 == b1 && (i2 % 4) * 64 + b2 % 64 == b2
  {
  }

  /** The indices of a group's characters are the ones it was built from. */
  lemma GroupIndices(b0: byte, b1: byte, b2: byte)
    ensures var g := EncodeGroup(b0, b1, b2);
      && CharIndex(g[0]) == b0 / 4 && CharIndex(g[1]) == (b0 % 4) * 16 + b1 / 16
      && CharIndex(g[2]) == (b1 % 16) * 4 + b2 / 64 && CharIndex(g[3]) == b2 % 64
  {
    IndexCharIsBase64(b0 / 4);
    IndexCharIsBase64((b0 % 4) * 16 + b1 / 16);
    IndexCharIsBase64((b1 % 16) * 4 + b2 / 64);
    IndexCharIsBase64(b2 % 64);
  }

  lemma FullGroup(b0: byte, b1: byte, b2: byte, rest: string)
    requires Base64Text(rest)
    ensures Base64Text(EncodeGroup(b0, b1, b2) + rest)
    ensures DecodeBase64(EncodeGroup(b0, b1, b2) + rest) == [b0, b1, b2] + DecodeBase64(rest)
  {
    var g := EncodeGroup(b0, b1, b2);
    GroupText(g, rest);
    GroupIndices(b0, b1, b2);
    GroupArithmetic(b0, b1, b2);
    GroupDecode(g, rest);
  }

  /** Four alphabet characters in front of encoded text give encoded text. */
  lemma GroupText(g: string, rest: string)
    requires |g| == 4 && forall k :: 0 <= k < 4 ==> Base64Char(g[k])
    requires Base64Text(rest)
    ensures Base64Text(g + rest)
    ensures (g + rest)[4..] == rest
  {
    var s := g + rest;
    assert s[4..] == rest;
    assert s[0] == g[0] && s[1] == g[1] && s[2] == g[2] && s[3] == g[3];
  }

  /** Decoding an unpadded group reads its four indices and goes on with the rest. */
  lemma GroupDecode(g: string, rest: string)
    requires |g| == 4 && forall k :: 0 <= k < 4 ==> Base64Char(g[k])
    requires Base64Text(rest) && Base64Text(g + rest)
    ensures var i0, i1, i2, i3 := CharIndex(g[0]), CharIndex(g[1]), CharIndex(g[2]), CharIndex(g[3]);
      DecodeBase64(g + rest) == [i0 * 4 + i1 / 16, (i1 % 16) * 16 + i2 / 4, (i2 % 4) * 64 + i3] + DecodeBase64(rest)
  {
    var s := g + rest;
    assert s[4..] == rest;
    assert s[0] == g[0] && s[1] == g[1] && s[2] == g[2] && s[3] == g[3];
  }

  lemma OneByteGroup(b0: byte)
    ensures Base64Text(Base64([b0])) && DecodeBase64(Base64([b0])) == [b0]
  {
    var g := EncodeGroup(b0, 0, 0);
    GroupIndices(b0, 0, 0);
    GroupArithmetic(b0, 0, 0);
    assert Base64([b0]) == [g[0], g[1], '=', '='];
  }

  lemma TwoByteGroup(b0: byte, b1: byte)
    ensures Base64Text(Base64([b0, b1])) && DecodeBase64(Base64([b0, b1])) == [b0, b1]
  {
    var g := EncodeGroup(b0, b1, 0);
    GroupIndices(b0, b1, 0);
    GroupArithmetic(b0, b1, 0);
    assert Base64([b0, b1]) == [g[0], g[1], g[2], '='];
  }

  /** Decoding the encoding gives the bytes back. */
  lemma {:induction false} Base64RoundTrip(data: seq<byte>)
    ensures Base64Text(Base64(data))
    ensures DecodeBase64(Base64(data)) == data
    decreases |data|
  {
    if |data| == 0 {
      assert Base64(data) == "";
    } else if |data| == 1 {
      assert data == [data[0]];
      OneByteGroup(data[0]);
    } else if |data| == 2 {
      assert data == [data[0], data[1]];
      TwoByteGroup(data[0], data[1]);
    } else {
      Base64RoundTrip(data[3..]);
      GroupStep(data);
    }
  }

  /** One full group in front of a round-tripping rest round-trips. */
  lemma GroupStep(data: seq<byte>)
    requires |data| >= 3
    requires Base64Text(Base64(data[3..])) && DecodeBase64(Base64(data[3..])) == data[3..]
    ensures Base64Text(Base64(data)) && DecodeBase64(Base64(data)) == data
  {
    var b0, b1, b2 := data[0], data[1], data[2];
    var rest := data[3..];
    var enc := Base64(rest);
    Base64Step(data);
    FullGroup(b0, b1, b2, enc);
    HeadThree(data);
  }

  /** A sequence of three or more is its first three elements and the rest. */
  lemma HeadThree<T>(s: seq<T>)
    requires |s| >= 3
    ensures s == [s[0], s[1], s[2]] + s[3..]
  {
  }

  lemma Base64Step(data: seq<byte>)
    requires |data| >= 3
    ensures Base64(data) == EncodeGroup(data[0], data[1], data[2]) + Base64(data[3..])
  {
  }

  // ----- MIME types -----

  /** `path.extname` for a POSIX path: from the last '.' of the last component, if not leading. */
  function StripTrailingSlashes(p: string): (r: string)
    ensures r == "" || r[|r| - 1] != '/'
  {
    if p != "" && p[|p| - 1] == '/' then StripTrailingSlashes(p[..|p| - 1]) else p
  }

  function LastIndexOf(s: string, c: char): (i: int)
    ensures -1 <= i < |s|
    ensures i >= 0 ==> s[i] == c
    ensures forall k :: i < k < |s| ==> s[k] != c
  {
    if s == "" then -1 else if s[|s| - 1] == c then |s| - 1 else LastIndexOf(s[..|s| - 1], c)
  }

  function Extname(path: string): (ext: string)
    ensures ext == "" || ext[0] == '.'
    ensures forall k :: 0 <= k < |ext| ==> ext[k] != '/'
    ensures forall k :: 0 < k < |ext| ==> ext[k] != '.'
  {
    var p := StripTrailingSlashes(path);
    var base := p[LastIndexOf(p, '/') + 1..];
    var d := LastIndexOf(base, '.');
    if d <= 0 || base == ".." then "" else base[d..]
  }

  const OctetStream := "application/octet-stream"

  /** The switch on the lower-cased extension. */
  function MimeType(ext: string): (mime: string)
  {
    var lower := ToLower(ext);
    if lower == ".png" then "image/png"
    else if lower == ".jpg" || lower == ".jpeg" then "image/jpeg"
    else if lower == ".svg" then "image/svg+xml"
    else if lower == ".gif" then "image/gif"
    else if lower == ".css" then "text/css"
    else if lower == ".js" then "application/javascript"
    else OctetStream
  }

  /** The seven known extensions, in either case, and the fallback for everything else. */
  lemma MimeTable(ext: string)
    ensures var lower := ToLower(ext);
      && (lower == ".png" <==> MimeType(ext) == "image/png")
      && (lower == ".jpg" || lower == ".jpeg" <==> MimeType(ext) == "image/jpeg")
      && (lower == ".svg" <==> MimeType(ext) == "image/svg+xml")
      && (lower == ".gif" <==> MimeType(ext) == "image/gif")
      && (lower == ".css" <==> MimeType(ext) == "text/css")
      && (lower == ".js" <==> MimeType(ext) == "application/javascript")
      && (lower !in {".png", ".jpg", ".jpeg", ".svg", ".gif", ".css", ".js"} <==> MimeType(ext) == OctetStream)
  {
  }

  /** `data:${mimeType};base64,${base64}` */
  function DataUrl(mime: string, payload: string): string
  {
    "data:" + mime + ";base64," + payload
  }

  predicate IsDataUrl(s: string)
  {
    |s| >= 5 && s[..5] == "data:"
  }

  /** The URL a successful load of `relativePath` yields. */
  function LoadedUrl(relativePath: string, contents: seq<byte>): (url: string)
    ensures IsDataUrl(url)
  {
    DataUrl(MimeType(Extname(relativePath)), Base64(contents))
  }

  /** The loader with its cache of data URLs by relative path. */
  class AssetLoader {
    var cache: map<string, string>

    /** Every cached value is a data URL; '' (a failed load) is never cached. */
    predicate Valid()
      reads this
    {
      forall p :: p in cache ==> IsDataUrl(cache[p])
    }

    constructor()
      ensures cache == map[] && Valid()
    {
      cache := map[];
    }

    /**
     * `loadAsBase64`. `contents` is what reading the asset would give (`None`: the read throws);
     * `didRead` says whether the file was read at all.
     */
    method LoadAsBase64(relativePath: string, contents: Option<seq<byte>>) returns (url: string, didRead: bool)
      requires Valid()
      modifies this
      ensures Valid()
      ensures relativePath in old(cache) ==> url == old(cache)[relativePath] && !didRead && cache == old(cache)
      ensures relativePath !in old(cache) && contents.None? ==> url == "" && didRead && cache == old(cache)
      ensures relativePath !in old(cache) && contents.Some? ==>
        url == LoadedUrl(relativePath, contents.value) && didRead && cache == old(cache)[relativePath := url]
      ensures url != "" ==> relativePath in cache && cache[relativePath] == url
    {
      if relativePath in cache {
        return cache[relativePath], false;
      }
      didRead := true;
      if contents.None? {
        return "", didRead;
      }
      var mimeType := MimeType(Extname(relativePath));
      url := "data:" + mimeType + ";base64," + Base64(contents.value);
      cache := cache[relativePath := url];
    }
  }

  lemma {:induction false} LastIndexOfAppend(a: string, b: string, c: char)
    ensures (forall k :: 0 <= k < |b| ==> b[k] != c) ==> LastIndexOf(a + b, c) == LastIndexOf(a, c)
    ensures b != [] && b[|b| - 1] == c ==> LastIndexOf(a + b, c) == |a| + |b| - 1
  {
    if b != [] && b[|b| - 1] != c {
      assert (a + b)[..|a + b| - 1] == a + b[..|b| - 1];
      LastIndexOfAppend(a, b[..|b| - 1], c);
    } else if b == [] {
      assert a + b == a;
    }
  }

  /** The last '/' of `<dir>/<tail>` is the one before `tail` when `tail` has none. */
  lemma LastSlash(dir: string, tail: string)
    requires forall k :: 0 <= k < |tail| ==> tail[k] != '/'
    ensures LastIndexOf(dir + "/" + tail, '/') == |dir|
  {
    LastIndexOfAppend(dir, "/", '/');
    LastIndexOfAppend(dir + "/", tail, '/');
  }

  /** The last '.' of `<stem>.<ext>` is the one before `ext` when `ext` has none. */
  lemma LastDot(stem: string, ext: string)
    requires forall k :: 0 <= k < |ext| ==> ext[k] != '.'
    ensures LastIndexOf(stem + "." + ext, '.') == |stem|
  {
    LastIndexOfAppend(stem, ".", '.');
    LastIndexOfAppend(stem + ".", ext, '.');
  }

  /** `<dir>/<stem>.<ext>` has the extension `.<ext>` when the stem is non-empty. */
  lemma ExtnameOf(dir: string, stem: string, ext: string)
    requires stem != "" && ext != ""
    requires forall k :: 0 <= k < |stem| ==> stem[k] != '/'
    requires forall k :: 0 <= k < |ext| ==> ext[k] != '/' && ext[k] != '.'
    ensures Extname(dir + "/" + (stem + "." + ext)) == "." + ext
  {
    var tail := stem + "." + ext;
    var path := dir + "/" + tail;
    TailShape(stem, ext);
    NoTrailingSlash(path);
    LastSlash(dir, tail);
    assert path[|dir| + 1..] == tail;
    LastDot(stem, ext);
    ExtnameParts(path, |dir|, |stem|);
  }

  /** Extname read off a path without trailing slashes whose last '/' and last '.' are known. */
  lemma ExtnameParts(path: string, i: nat, d: int)
    requires StripTrailingSlashes(path) == path
    requires i < |path| && LastIndexOf(path, '/') == i
    requires LastIndexOf(path[i + 1..], '.') == d && d > 0 && path[i + 1..] != ".."
    ensures Extname(path) == path[i + 1..][d..]
  {
  }

  lemma NoTrailingSlash(p: string)
    requires p != "" && p[|p| - 1] != '/'
    ensures StripTrailingSlashes(p) == p
  {
  }

  /** `<stem>.<ext>` has no '/', is not "..", ends like `ext` and has `.<ext>` after the stem. */
  lemma TailShape(stem: string, ext: string)
    requires stem != "" && ext != ""
    requires forall k :: 0 <= k < |stem| ==> stem[k] != '/'
    requires forall k :: 0 <= k < |ext| ==> ext[k] != '/' && ext[k] != '.'
    ensures var tail := stem + "." + ext;
      && (forall k :: 0 <= k < |tail| ==> tail[k] != '/')
      && tail != ".." && tail[|tail| - 1] != '/'
      && tail[|stem|..] == "." + ext
  {
    var tail := stem + "." + ext;
    forall k | 0 <= k < |tail| ensures tail[k] != '/' {
      if k < |stem| {
        assert tail[k] == stem[k];
      } else if k > |stem| {
        assert tail[k] == ext[k - |stem| - 1];
      }
    }
    assert tail[|tail| - 1] == ext[|ext| - 1];
  }
}
