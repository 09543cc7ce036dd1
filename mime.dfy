/** `get_mime_type`: the content type the C server announces for a file path. */
module Mime {
  import opened Wrappers
  import opened Octets

  const TextPlain := Ascii("text/plain")
  const TextHtml := Ascii("text/html")

  /** The suffix table, keyed by the text from the last '.' on; matching is case-sensitive. */
  const Table: map<seq<byte>, seq<byte>> := map[
    Ascii(".html") := TextHtml,
    Ascii(".css") := Ascii("text/css"),
    Ascii(".js") := Ascii("application/javascript"),
    Ascii(".png") := Ascii("image/png"),
    Ascii(".jpg") := Ascii("image/jpeg"),
    Ascii(".gif") := Ascii("image/gif")
  ]

  /** Every type `get_mime_type` can return. */
  const KnownTypes: set<seq<byte>> := {
    TextPlain, TextHtml, Ascii("text/css"), Ascii("application/javascript"),
    Ascii("image/png"), Ascii("image/jpeg"), Ascii("image/gif")
  }

  /** The text types fit a header line. */
  lemma TextTypesFit()
    ensures |TextPlain| <= 22 && CR !in TextPlain
    ensures |TextHtml| <= 22 && CR !in TextHtml
    ensures |Ascii("text/css")| <= 22 && CR !in Ascii("text/css")
  {
  }

  /** The script and image types fit a header line. */
  lemma OtherTypesFit()
    ensures |Ascii("application/javascript")| <= 22 && CR !in Ascii("application/javascript")
    ensures |Ascii("image/png")| <= 22 && CR !in Ascii("image/png")
    ensures |Ascii("image/jpeg")| <= 22 && CR !in Ascii("image/jpeg")
    ensures |Ascii("image/gif")| <= 22 && CR !in Ascii("image/gif")
  {
  }

  /** Every type fits a header line: at most 22 octets, and no carriage return. */
  lemma KnownTypeFits(t: seq<byte>)
    requires t in KnownTypes
    ensures |t| <= 22 && CR !in t
  {
    TextTypesFit();
    OtherTypesFit();
  }

  /** `strrchr(path, '.')`: where the last '.' of the path is, if there is one. */
  function LastDot(path: seq<byte>): (r: Option<nat>)
    ensures r.None? ==> DOT !in path
    ensures r.Some? ==> r.value < |path| && path[r.value] == DOT
    ensures r.Some? ==> DOT !in path[r.value + 1..]
  {
    if path == [] then None
    else if path[|path| - 1] == DOT then Some(|path| - 1)
    else
      var r := LastDot(path[..|path| - 1]);
      assert r.Some? ==> path[r.value + 1..] == path[..|path| - 1][r.value + 1..] + [path[|path| - 1]];
      r
  }

  /** The chain of comparisons of `get_mime_type`, applied to the suffix from the last '.' on. */
  function MimeType(path: seq<byte>): (r: seq<byte>)
    ensures r in KnownTypes
    ensures DOT !in path ==> r == TextPlain
  {
    match LastDot(path)
    case None => TextPlain
    case Some(i) => Compare(path[i..])
  }

  /** The `strcmp` chain of `get_mime_type` on the extension `strrchr` found. */
  function Compare(ext: seq<byte>): (r: seq<byte>)
    ensures r in KnownTypes
  {
    if ext == Ascii(".html") then TextHtml
      else if ext == Ascii(".css") then Ascii("text/css")
      else if ext == Ascii(".js") then Ascii("application/javascript")
      else if ext == Ascii(".png") then Ascii("image/png")
      else if ext == Ascii(".jpg") then Ascii("image/jpeg")
      else if ext == Ascii(".gif") then Ascii("image/gif")
      else TextPlain
  }

  /** The lookup the comparisons stand for: the table entry of a suffix, or text/plain. */
  function Lookup(ext: seq<byte>): seq<byte> {
    if ext in Table then Table[ext] else TextPlain
  }

  /** The six keys of the table are pairwise different (they differ in length or second octet). */
  lemma KeysDiffer()
    ensures Ascii(".css") != Ascii(".png") && Ascii(".css") != Ascii(".jpg") && Ascii(".css") != Ascii(".gif")
    ensures Ascii(".png") != Ascii(".jpg") && Ascii(".png") != Ascii(".gif") && Ascii(".jpg") != Ascii(".gif")
  {
    assert Ascii(".css")[1] == 99;
    assert Ascii(".png")[1] == 112;
    assert Ascii(".jpg")[1] == 106;
    assert Ascii(".gif")[1] == 103;
  }

  /** The comparisons agree with the table: the same type for every extension. */
  lemma CompareIsLookup(ext: seq<byte>)
    ensures Compare(ext) == Lookup(ext)
  {
    KeysDiffer();
    assert Table.Keys == {Ascii(".html"), Ascii(".css"), Ascii(".js"), Ascii(".png"), Ascii(".jpg"), Ascii(".gif")};
    if ext == Ascii(".html") {
      assert Table[ext] == TextHtml;
    } else if ext == Ascii(".css") {
      assert Table[ext] == Ascii("text/css");
    } else if ext == Ascii(".js") {
      assert Table[ext] == Ascii("application/javascript");
    } else if ext == Ascii(".png") {
      assert Table[ext] == Ascii("image/png");
    } else if ext == Ascii(".jpg") {
      assert Table[ext] == Ascii("image/jpeg");
    } else if ext == Ascii(".gif") {
      assert Table[ext] == Ascii("image/gif");
    } else {
      assert ext !in Table;
    }
  }

  /** The last '.' of a path that ends in a suffix with a single, leading '.' is that one. */
  lemma LastDotOfSuffix(prefix: seq<byte>, ext: seq<byte>)
    requires ext != [] && ext[0] == DOT && DOT !in ext[1..]
    ensures LastDot(prefix + ext) == Some(|prefix|)
  {
    var path := prefix + ext;
    var r := LastDot(path);
    assert path[|prefix|] == DOT;
    if r.None? {
      assert false;
    }
    var i := r.value;
    assert path[i + 1..] == path[i + 1..|prefix| + 1] + path[|prefix| + 1..];
    assert path[|prefix| + 1..] == ext[1..];
  }

  /**
   * Only the suffix from the last '.' decides the type, wherever that '.' is in the path:
   * in the file name or in a directory part before it.
   */
  lemma MimeTypeBySuffix(prefix: seq<byte>, ext: seq<byte>)
    requires ext != [] && ext[0] == DOT && DOT !in ext[1..]
    ensures MimeType(prefix + ext) == Lookup(ext)
  {
    LastDotOfSuffix(prefix, ext);
    assert (prefix + ext)[|prefix|..] == ext;
    CompareIsLookup(ext);
  }

}
