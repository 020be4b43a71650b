/**
  Where the widget looks for a downloaded asset: the extension (`tag`) of a
  URI and the `GET_FILE` path `mediaPath/curID/md5hex(uri).tag(uri)`.
 */
module AssetPath {
  import opened Common
  import opened Text
  import QtArg

  /**
    MD5 of a string's UTF-8 bytes, as QCryptographicHash computes it. The
    hash itself is not modelled: callers supply it.
   */
  type Digest = string -> seq<byte>

  /** The `tag` lambda: the text after the last '.', or the empty string when there is no '.'. */
  function Tag(uri: string): (t: string)
    ensures '.' !in uri ==> t == ""
    ensures '.' in uri ==> '.' !in t && |t| < |uri| && uri == uri[..|uri| - |t| - 1] + "." + t
  {
    var idx := LastIndexOf(uri, '.');
    if idx >= 0 then
      assert uri == uri[..idx] + "." + uri[idx + 1..];
      uri[idx + 1..]
    else ""
  }

  /** `Tag` undoes joining with a final '.': whatever precedes the dot, a dot-free tail is the tag. */
  lemma TagOfJoin(prefix: string, t: string)
    requires '.' !in t
    ensures Tag(prefix + "." + t) == t
  {
    var s := prefix + "." + t;
    assert s[|prefix|] == '.';
    assert s[|prefix| + 1..] == t;
  }

  /** The file name of an asset: the hex digest, a '.', and the URI's extension. */
  function FileName(uri: string, md5: Digest): string {
    ToHex(md5(uri)) + "." + Tag(uri)
  }

  /** `GET_FILE(uri)` with the substitutions the format string means: `mediaPath/curID/name`. */
  function GetFile(mediaPath: string, curId: int32, uri: string, md5: Digest): string {
    mediaPath + "/" + IntToString(curId as int) + "/" + FileName(uri, md5)
  }

  /** The cached file keeps the URI's extension. */
  lemma GetFileKeepsExtension(mediaPath: string, curId: int32, uri: string, md5: Digest)
    ensures Tag(GetFile(mediaPath, curId, uri, md5)) == Tag(uri)
  {
    var t := Tag(uri);
    var prefix := mediaPath + "/" + IntToString(curId as int) + "/" + ToHex(md5(uri));
    assert GetFile(mediaPath, curId, uri, md5) == prefix + "." + t;
    TagOfJoin(prefix, t);
  }

  /** The cached file's path ends in "." followed by the URI's extension. */
  lemma GetFileEndsWithTag(mediaPath: string, curId: int32, uri: string, md5: Digest)
    ensures var f := GetFile(mediaPath, curId, uri, md5);
            |f| > |Tag(uri)| && f[|f| - |Tag(uri)| - 1..] == "." + Tag(uri)
  {
    var t := Tag(uri);
    var prefix := mediaPath + "/" + IntToString(curId as int) + "/" + ToHex(md5(uri));
    var f := GetFile(mediaPath, curId, uri, md5);
    assert f == prefix + ("." + t);
    assert f[|prefix|..] == "." + t;
  }

  /** Two pages with different ids never share a cache file for the same URI. */
  lemma GetFileSeparatesPages(mediaPath: string, a: int32, b: int32, uri: string, md5: Digest)
    requires GetFile(mediaPath, a, uri, md5) == GetFile(mediaPath, b, uri, md5)
    ensures a == b
  {
    var name := "/" + FileName(uri, md5);
    var sa := IntToString(a as int);
    var sb := IntToString(b as int);
    var fa := (mediaPath + "/" + sa) + name;
    var fb := (mediaPath + "/" + sb) + name;
    assert fa == GetFile(mediaPath, a, uri, md5);
    assert fb == GetFile(mediaPath, b, uri, md5);
    assert |sa| == |sb|;
    assert sa == fa[|mediaPath| + 1..|mediaPath| + 1 + |sa|];
    assert sb == fb[|mediaPath| + 1..|mediaPath| + 1 + |sb|];
    IntToStringInjective(a as int, b as int);
  }

  // ---- GET_FILE as the macro computes it ------------------------------------

  /** A one-digit place marker. */
  function Mark(d: char): string { ['%', d] }

  /** The pieces of the format string "%1/%2/%3.%4", each holding one marker fewer. */
  const Tail3: string := "." + Mark('4')
  const Tail2: string := "/" + (Mark('3') + Tail3)
  const Tail1: string := "/" + (Mark('2') + Tail2)
  const FileTemplate: string := Mark('1') + Tail1

  lemma FileTemplateSpelling()
    ensures FileTemplate == "%1/%2/%3.%4"
  {
  }

  /**
    `GET_FILE(uri)` as written: four chained `.arg` calls on "%1/%2/%3.%4".
    Each call rescans the whole string, the text substituted so far included.
   */
  function GetFileAsWritten(mediaPath: string, curId: int32, uri: string, md5: Digest): string {
    QtArg.Arg(QtArg.Arg(QtArg.Arg(QtArg.Arg(FileTemplate, mediaPath),
                                  IntToString(curId as int)),
                        ToHex(md5(uri))),
              Tag(uri))
  }

  /** The lowest marker left in each piece of the template. */
  lemma TemplateMarkers()
    ensures QtArg.LowestMarker(Tail3) == Some(4)
    ensures QtArg.LowestMarker(Tail2) == Some(3)
    ensures QtArg.LowestMarker(Tail1) == Some(2)
  {
    assert Mark('4') == ['%', '4'] + [];
    QtArg.MarkerHead('4', [], 0, "");
    QtArg.LowestAfterPlainPrefix(".", Mark('4'));
    assert Tail3[0] == '.';
    QtArg.MarkerHead('3', Tail3, 0, "");
    QtArg.LowestAfterPlainPrefix("/", Mark('3') + Tail3);
    assert Tail2[0] == '/';
    QtArg.MarkerHead('2', Tail2, 0, "");
    QtArg.LowestAfterPlainPrefix("/", Mark('2') + Tail2);
  }

  /** Each `.arg` of the chain fills the template's lowest remaining marker. */
  lemma TemplateArgs(a: string)
    ensures QtArg.Arg(FileTemplate, a) == a + Tail1
    ensures QtArg.Arg(Mark('2') + Tail2, a) == a + Tail2
    ensures QtArg.Arg(Mark('3') + Tail3, a) == a + Tail3
    ensures QtArg.Arg(Mark('4'), a) == a
  {
    TemplateMarkers();
    assert Tail1[0] == '/' && Tail2[0] == '/' && Tail3[0] == '.';
    QtArg.ArgHead('1', Tail1, a);
    QtArg.ArgHead('2', Tail2, a);
    QtArg.ArgHead('3', Tail3, a);
    assert Mark('4') == ['%', '4'] + [];
    QtArg.ArgHead('4', [], a);
  }

  /** Decimal and hex renderings never contain a '%'. */
  lemma NoPercentInNumbers(i: int, bytes: seq<byte>)
    ensures '%' !in IntToString(i)
    ensures '%' !in ToHex(bytes)
  {
    var s, h := IntToString(i), ToHex(bytes);
    forall k | 0 <= k < |s| ensures s[k] != '%' {
      assert IsDigit(s[k]) || s[k] == '-';
    }
    forall k | 0 <= k < |h| ensures h[k] != '%' {
      assert IsHexDigit(h[k]);
    }
  }

  /** The last three `.arg` calls, once the text before the second marker holds no '%'. */
  lemma ArgTail(dir: string, id: string, hex: string, tag: string)
    requires '%' !in dir && '%' !in id && '%' !in hex
    ensures QtArg.Arg(QtArg.Arg(QtArg.Arg(dir + Tail1, id), hex), tag)
            == dir + "/" + id + "/" + hex + "." + tag
  {
    TemplateArgs(id);
    TemplateArgs(hex);
    TemplateArgs(tag);
    var p1 := dir + "/";
    ConcatAssoc(dir, "/", Mark('2') + Tail2);
    QtArg.ArgPlainPrefix(p1, Mark('2') + Tail2, id);
    var p2 := p1 + id + "/";
    ConcatAssoc(id, "/", Mark('3') + Tail3);
    ConcatAssoc(p1, id + "/", Mark('3') + Tail3);
    ConcatAssoc(p1, id, "/");
    QtArg.ArgPlainPrefix(p2, Mark('3') + Tail3, hex);
    var p3 := p2 + hex + ".";
    ConcatAssoc(hex, ".", Mark('4'));
    ConcatAssoc(p2, hex + ".", Mark('4'));
    ConcatAssoc(p2, hex, ".");
    QtArg.ArgPlainPrefix(p3, Mark('4'), tag);
  }

  /** With no '%' in the media path, the macro builds exactly the intended path. */
  lemma AsWrittenAgreesWithoutPercent(mediaPath: string, curId: int32, uri: string, md5: Digest)
    requires '%' !in mediaPath
    ensures GetFileAsWritten(mediaPath, curId, uri, md5) == GetFile(mediaPath, curId, uri, md5)
  {
    var id, hex, tag := IntToString(curId as int), ToHex(md5(uri)), Tag(uri);
    NoPercentInNumbers(curId as int, md5(uri));
    TemplateArgs(mediaPath);
    ArgTail(mediaPath, id, hex, tag);
    ConcatAssoc(mediaPath + "/" + id + "/", hex + ".", tag);
    ConcatAssoc(mediaPath + "/" + id + "/", hex, ".");
  }

  /**
    The second `.arg` when the media path is itself the marker `%2`: the id
    replaces both markers numbered 2, the one the media path brought in
    included.
   */
  lemma PercentPathSecondArg(id: string)
    ensures QtArg.Arg(Mark('2') + Tail1, id) == id + "/" + id + Tail2
  {
    var k: nat := 2;
    TemplateMarkers();
    assert Tail1[0] == '/' && Tail2[0] == '/';
    QtArg.MarkerHead('2', Tail1, k, id);
    QtArg.ReplaceAfterPlainPrefix("/", Mark('2') + Tail2, k, id);
    QtArg.MarkerHead('2', Tail2, k, id);
    QtArg.ReplaceAbsentMarker(Tail2, k, id);
    ConcatAssoc(id, "/", id + Tail2);
    ConcatAssoc(id + "/", id, Tail2);
  }

  /** A media path that is the marker `%2`, whatever the page id, the digest and the tag. */
  lemma PercentPathChain(id: string, hex: string, tag: string)
    requires '%' !in id && '%' !in hex
    ensures QtArg.Arg(QtArg.Arg(QtArg.Arg(QtArg.Arg(FileTemplate, Mark('2')), id), hex), tag)
            == id + "/" + id + "/" + hex + "." + tag
  {
    TemplateArgs(Mark('2'));
    PercentPathSecondArg(id);
    assert id + "/" + id + Tail2 == (id + "/" + id) + Tail2;
    TemplateArgs(hex);
    TemplateArgs(tag);
    var p2 := id + "/" + id + "/";
    ConcatAssoc(id + "/" + id, "/", Mark('3') + Tail3);
    QtArg.ArgPlainPrefix(p2, Mark('3') + Tail3, hex);
    var p3 := p2 + hex + ".";
    ConcatAssoc(hex, ".", Mark('4'));
    ConcatAssoc(p2, hex + ".", Mark('4'));
    ConcatAssoc(p2, hex, ".");
    QtArg.ArgPlainPrefix(p3, Mark('4'), tag);
  }

  /**
    A media path "%2" is itself rewritten by the second `.arg`: the page id
    replaces both markers numbered 2, so the file lands in "7/7/..." instead
    of "%2/7/...".
   */
  lemma AsWrittenMisplacesPercentPath(uri: string, md5: Digest)
    ensures GetFileAsWritten("%2", 7, uri, md5) == "7/7/" + ToHex(md5(uri)) + "." + Tag(uri)
    ensures GetFileAsWritten("%2", 7, uri, md5) != GetFile("%2", 7, uri, md5)
  {
    var hex, tag := ToHex(md5(uri)), Tag(uri);
    NoPercentInNumbers(7, md5(uri));
    assert IntToString(7) == "7";
    assert Mark('2') == "%2";
    PercentPathChain("7", hex, tag);
    assert "7" + "/" + "7" + "/" == "7/7/";
    assert GetFile("%2", 7, uri, md5)[0] == '%';
  }

  /**
    A media path that is the marker `%1`: the page id is written in its place
    and every later argument lands one field early, leaving "%4" unfilled.
   */
  lemma PercentOneChain(id: string, hex: string, tag: string)
    requires '%' !in id && '%' !in hex
    ensures QtArg.Arg(QtArg.Arg(QtArg.Arg(QtArg.Arg(FileTemplate, Mark('1')), id), hex), tag)
            == id + "/" + hex + "/" + tag + Tail3
  {
    TemplateArgs(Mark('1'));
    TemplateArgs(id);
    TemplateArgs(hex);
    TemplateArgs(tag);
    ConcatAssoc(id, "/", Mark('2') + Tail2);
    QtArg.ArgPlainPrefix(id + "/", Mark('2') + Tail2, hex);
    var p := id + "/" + hex + "/";
    ConcatAssoc(hex, "/", Mark('3') + Tail3);
    ConcatAssoc(id + "/", hex + "/", Mark('3') + Tail3);
    ConcatAssoc(id + "/", hex, "/");
    QtArg.ArgPlainPrefix(p, Mark('3') + Tail3, tag);
    ConcatAssoc(p, tag, Tail3);
  }

  lemma Tail3Spelling()
    ensures Tail3 == ".%4"
    ensures "." + "%4" == ".%4"
  {
  }

  /**
    As written, a media path "%1" loses the media directory and the URI's
    extension: the file is looked up as curID/md5hex/tag.%4, whose own
    extension is "%4".
   */
  lemma AsWrittenDropsMediaPath(curId: int32, uri: string, md5: Digest)
    ensures GetFileAsWritten("%1", curId, uri, md5)
            == IntToString(curId as int) + "/" + ToHex(md5(uri)) + "/" + Tag(uri) + ".%4"
    ensures Tag(GetFileAsWritten("%1", curId, uri, md5)) == "%4"
  {
    var id, hex, tag := IntToString(curId as int), ToHex(md5(uri)), Tag(uri);
    NoPercentInNumbers(curId as int, md5(uri));
    assert Mark('1') == "%1";
    PercentOneChain(id, hex, tag);
    Tail3Spelling();
    var prefix := id + "/" + hex + "/" + tag;
    TagOfJoin(prefix, "%4");
    ConcatAssoc(prefix, ".", "%4");
  }
}
