/**
 * The Rust server: the URL-to-path rewrite and the choice of response in `handle_request`, and
 * the HTML directory listing built by `generate_directory_listing`.
 *
 * The file system and the two library calls the handler depends on are given as a `Host`
 * record of functions, so that every property holds for any file system.
 */
module RustServer {
  import opened Wrappers
  import opened Octets

  /** An `std::io::Error`; only its identity matters to the handler. */
  datatype IoError = IoError(code: int)

  /**
   * What the handler depends on outside this file: `PathBuf::push` of a relative component,
   * `Path::is_dir`, `fs::read`, `fs::read_dir` (each entry already reduced to its lossy file
   * name or its error) and the candidate types `mime_guess::from_path` lists for a path.
   */
  datatype Host = Host(
    push: (string, string) -> string,
    isDir: string -> bool,
    read: string -> Result<seq<byte>, IoError>,
    readDir: string -> Result<seq<Result<string, IoError>>, IoError>,
    guessMime: string -> seq<string>)

  /** A response body: text built by the handler, or the octets of a file. */
  datatype Body = Text(text: string) | Data(octets: seq<byte>)

  /**
   * A response as the handler builds it: the status code and the Content-Type header the handler
   * adds. The text/plain default that `Response::from_string` sets by itself is not recorded.
   */
  datatype Response = Response(status: nat, contentType: Option<string>, body: Body)

  const IndexName := "index.html"
  const TextHtml := "text/html"
  const TextPlain := "text/plain"
  const ServerErrorText := "500 Internal Server Error"
  const NotFoundText := "404 Not Found"
  const ListEnd := "</ul></body></html>"

  // ---------------------------------------------------------------- the URL rewrite

  /** `str::trim_start_matches('/')`: the URL without every '/' it starts with. */
  function TrimLeadingSlashes(url: string): (r: string)
    ensures |r| <= |url| && r == url[|url| - |r|..]
    ensures forall i :: 0 <= i < |url| - |r| ==> url[i] == '/'
    ensures r == [] || r[0] != '/'
  {
    if url != [] && url[0] == '/' then TrimLeadingSlashes(url[1..]) else url
  }

  /** The component pushed onto the base directory: "index.html" for an empty URL path. */
  function Target(urlPath: string): (r: string)
    ensures urlPath == [] ==> r == IndexName
    ensures urlPath != [] ==> r == urlPath
  {
    if urlPath == [] then IndexName else urlPath
  }

  /** The file-system path a request URL resolves to. */
  function ResolvedPath(url: string, baseDir: string, host: Host): string {
    host.push(baseDir, Target(TrimLeadingSlashes(url)))
  }

  /** `first_or_text_plain`: the first candidate type, or "text/plain" when there is none. */
  function FirstOrTextPlain(candidates: seq<string>): (r: string)
    ensures candidates == [] ==> r == TextPlain
    ensures candidates != [] ==> r == candidates[0]
  {
    if candidates == [] then TextPlain else candidates[0]
  }

  // ---------------------------------------------------------------- the directory listing

  /** The document head of a listing of `/urlPath`. */
  function ListTitle(urlPath: string): string {
    "<html><head><title>Index of /" + urlPath + "</title></head><body>"
  }

  /** The heading that opens the list. */
  function ListHeading(urlPath: string): string {
    "<h2>Index of /" + urlPath + "</h2><ul>"
  }

  /** Everything a listing of `/urlPath` starts with. */
  function ListHead(urlPath: string): string {
    ListTitle(urlPath) + ListHeading(urlPath)
  }

  /** The link of an entry: its name alone at the root, `urlPath/name` below it. */
  function Link(urlPath: string, name: string): (r: string)
    ensures urlPath == [] ==> r == name
    ensures urlPath != [] ==> r == urlPath + "/" + name
  {
    if urlPath == [] then name else urlPath + "/" + name
  }

  /** The list item of one entry. */
  function ListItem(urlPath: string, name: string): string {
    "<li><a href=\"" + Link(urlPath, name) + "\">" + name + "</a></li>"
  }

  /** The item of a readable entry; an entry that is an error has none. */
  function EntryItem(urlPath: string, entry: Result<string, IoError>): string {
    if entry.Ok? then ListItem(urlPath, entry.value) else []
  }

  /** The list items of the entries, in order. */
  function ListItems(urlPath: string, entries: seq<Result<string, IoError>>): string {
    if entries == [] then []
    else ListItems(urlPath, entries[..|entries| - 1]) + EntryItem(urlPath, entries[|entries| - 1])
  }

  /** The position of the first entry that is an error, or the number of entries when none is. */
  function FirstError(entries: seq<Result<string, IoError>>): (k: nat)
    ensures k <= |entries|
    ensures forall j :: 0 <= j < k ==> entries[j].Ok?
    ensures k < |entries| ==> entries[k].Err?
  {
    if entries == [] || entries[0].Err? then 0 else 1 + FirstError(entries[1..])
  }

  /**
   * What `generate_directory_listing` returns for the result of `read_dir`: the error of
   * `read_dir` itself, else the first entry error, else the whole page.
   */
  function Listing(dir: Result<seq<Result<string, IoError>>, IoError>, urlPath: string): (r: Result<string, IoError>)
    ensures r.Ok? <==> dir.Ok? && forall j :: 0 <= j < |dir.value| ==> dir.value[j].Ok?
    ensures dir.Err? ==> r == Err(dir.error)
  {
    match dir
    case Err(e) => Err(e)
    case Ok(entries) =>
      var k := FirstError(entries);
      if k < |entries| then Err(entries[k].error)
      else Ok(ListHead(urlPath) + ListItems(urlPath, entries) + ListEnd)
  }

  /** The items of one more entry that is readable: its own item follows the earlier ones. */
  lemma ItemsGrow(urlPath: string, entries: seq<Result<string, IoError>>, i: nat)
    requires i < |entries| && entries[i].Ok?
    ensures ListItems(urlPath, entries[..i + 1]) == ListItems(urlPath, entries[..i]) + ListItem(urlPath, entries[i].value)
  {
    assert entries[..i + 1][..i] == entries[..i];
  }

  /** A readable entry before the first error moves the first error no closer. */
  lemma PastReadable(entries: seq<Result<string, IoError>>, i: nat)
    requires i < |entries| && i <= FirstError(entries) && entries[i].Ok?
    ensures i + 1 <= FirstError(entries)
  {
  }

  /** Appending the item of one more readable entry to a page that holds the earlier items. */
  lemma AppendItem(html: string, page: string, urlPath: string, entries: seq<Result<string, IoError>>, i: nat)
    requires i < |entries| && entries[i].Ok?
    requires page == html + ListItems(urlPath, entries[..i])
    ensures page + ListItem(urlPath, entries[i].value) == html + ListItems(urlPath, entries[..i + 1])
  {
    ItemsGrow(urlPath, entries, i);
    AppendAssociates(html, ListItems(urlPath, entries[..i]), ListItem(urlPath, entries[i].value));
  }

  /** Appending to a string that already holds two parts. */
  lemma AppendAssociates(a: string, b: string, c: string)
    ensures (a + b) + c == a + (b + c)
  {
  }

  /**
   * The loop of `generate_directory_listing`: one item per entry appended to `html`, up to the
   * first entry that is an error.
   */
  method AppendItems(html: string, entries: seq<Result<string, IoError>>, urlPath: string)
    returns (r: Result<string, IoError>)
    ensures var k := FirstError(entries);
      r == if k < |entries| then Err(entries[k].error) else Ok(html + ListItems(urlPath, entries))
  {
    var page := html;
    var i := 0;
    while i < |entries|
      invariant 0 <= i <= |entries|
      invariant i <= FirstError(entries)
      invariant page == html + ListItems(urlPath, entries[..i])
    {
      if entries[i].Err? {
        assert FirstError(entries) == i;
        return Err(entries[i].error);
      }
      PastReadable(entries, i);
      AppendItem(html, page, urlPath, entries, i);
      page := page + ListItem(urlPath, entries[i].value);
      i := i + 1;
    }
    assert entries[..i] == entries;
    assert FirstError(entries) == |entries|;
    return Ok(page);
  }

  /** `generate_directory_listing`: the head, the items of the entries `read_dir` yields, the end. */
  method GenerateDirectoryListing(dir: Result<seq<Result<string, IoError>>, IoError>, urlPath: string)
    returns (r: Result<string, IoError>)
    ensures r == Listing(dir, urlPath)
  {
    var html := "";
    html := html + ListTitle(urlPath);
    html := html + ListHeading(urlPath);
    if dir.Err? {
      return Err(dir.error);
    }
    assert html == ListHead(urlPath);
    r := AppendItems(html, dir.value, urlPath);
    if r.Ok? {
      r := Ok(r.value + ListEnd);
    }
  }

  // ---------------------------------------------------------------- handle_request

  /** The response to a directory: its listing as HTML, or a 500 when the listing fails. */
  function DirectoryResponse(listing: Result<string, IoError>): (r: Response)
    ensures r.status == (if listing.Ok? then 200 else 500)
    ensures r.contentType.Some? <==> listing.Ok?
  {
    match listing
    case Ok(html) => Response(200, Some(TextHtml), Text(html))
    case Err(_) => Response(500, None, Text(ServerErrorText))
  }

  /** The response to any other path: its octets with their guessed type, or a 404. */
  function FileResponse(contents: Result<seq<byte>, IoError>, candidates: seq<string>): (r: Response)
    ensures r.status == (if contents.Ok? then 200 else 404)
    ensures contents.Ok? ==> r.body == Data(contents.value) && r.contentType == Some(FirstOrTextPlain(candidates))
    ensures contents.Err? ==> r.contentType.None?
  {
    match contents
    case Ok(octets) => Response(200, Some(FirstOrTextPlain(candidates)), Data(octets))
    case Err(_) => Response(404, None, Text(NotFoundText))
  }

  /** The response `handle_request` sends for a request URL. */
  function Respond(url: string, baseDir: string, host: Host): (r: Response)
    ensures r.status == 200 || r.status == 404 || r.status == 500
    ensures r.status == 200 <==> r.contentType.Some?
    ensures r.status == 404 <==> !host.isDir(ResolvedPath(url, baseDir, host)) && host.read(ResolvedPath(url, baseDir, host)).Err?
  {
    var urlPath := TrimLeadingSlashes(url);
    var path := ResolvedPath(url, baseDir, host);
    if host.isDir(path) then DirectoryResponse(Listing(host.readDir(path), urlPath))
    else FileResponse(host.read(path), host.guessMime(path))
  }

  /** `handle_request`: resolve the path, then list the directory or send the file. */
  method HandleRequest(url: string, baseDir: string, host: Host) returns (resp: Response)
    ensures resp == Respond(url, baseDir, host)
  {
    var urlPath := TrimLeadingSlashes(url);
    var path := host.push(baseDir, Target(urlPath));
    if host.isDir(path) {
      var listing := GenerateDirectoryListing(host.readDir(path), urlPath);
      match listing {
        case Ok(html) =>
          resp := Response(200, Some(TextHtml), Text(html));
        case Err(_) =>
          resp := Response(500, None, Text(ServerErrorText));
      }
      return;
    }
    match host.read(path) {
      case Ok(contents) =>
        var mimeType := FirstOrTextPlain(host.guessMime(path));
        resp := Response(200, Some(mimeType), Data(contents));
      case Err(_) =>
        resp := Response(404, None, Text(NotFoundText));
    }
  }

  // ---------------------------------------------------------------- properties

  /** Stripping is idempotent: what is left starts with no '/'. */
  lemma TrimTwice(url: string)
    ensures TrimLeadingSlashes(TrimLeadingSlashes(url)) == TrimLeadingSlashes(url)
  {
  }

  /** Stripping ignores how many slashes the URL starts with. */
  lemma {:induction false} SlashesStripped(slashes: string, url: string)
    requires forall i :: 0 <= i < |slashes| ==> slashes[i] == '/'
    ensures TrimLeadingSlashes(slashes + url) == TrimLeadingSlashes(url)
  {
    if slashes != [] {
      var rest := slashes[1..];
      assert (slashes + url)[0] == '/';
      assert (slashes + url)[1..] == rest + url;
      SlashesStripped(rest, url);
    } else {
      assert slashes + url == url;
    }
  }

  /** Any number of leading slashes give the same response: "/a", "//a" and "a" are one file. */
  lemma LeadingSlashesIgnored(slashes: string, url: string, baseDir: string, host: Host)
    requires forall i :: 0 <= i < |slashes| ==> slashes[i] == '/'
    ensures Respond(slashes + url, baseDir, host) == Respond(url, baseDir, host)
  {
    SlashesStripped(slashes, url);
  }

  /** A URL of slashes only, the empty URL included, asks for "index.html" in the base directory. */
  lemma SlashesOnlyIsIndex(url: string, baseDir: string, host: Host)
    requires forall i :: 0 <= i < |url| ==> url[i] == '/'
    ensures ResolvedPath(url, baseDir, host) == host.push(baseDir, IndexName)
  {
    assert TrimLeadingSlashes(url) == [];
  }

  /** Any other URL is pushed as sent, without its leading slashes and without normalisation. */
  lemma PathAsSent(url: string, baseDir: string, host: Host)
    requires exists i :: 0 <= i < |url| && url[i] != '/'
    ensures ResolvedPath(url, baseDir, host) == host.push(baseDir, TrimLeadingSlashes(url))
    ensures TrimLeadingSlashes(url) != []
  {
  }

  /** The items of consecutive runs of entries follow one another: items keep the entry order. */
  lemma {:induction false} ItemsSplit(urlPath: string, a: seq<Result<string, IoError>>, b: seq<Result<string, IoError>>)
    ensures ListItems(urlPath, a + b) == ListItems(urlPath, a) + ListItems(urlPath, b)
  {
    if b == [] {
      assert a + b == a;
    } else {
      var init, last := b[..|b| - 1], b[|b| - 1];
      assert (a + b)[..|a + b| - 1] == a + init;
      assert (a + b)[|a + b| - 1] == last;
      calc {
        ListItems(urlPath, a + b);
        ListItems(urlPath, a + init) + EntryItem(urlPath, last);
        { ItemsSplit(urlPath, a, init); }
        (ListItems(urlPath, a) + ListItems(urlPath, init)) + EntryItem(urlPath, last);
        { AppendAssociates(ListItems(urlPath, a), ListItems(urlPath, init), EntryItem(urlPath, last)); }
        ListItems(urlPath, a) + (ListItems(urlPath, init) + EntryItem(urlPath, last));
        ListItems(urlPath, a) + ListItems(urlPath, b);
      }
    }
  }

  /**
   * A readable entry has exactly its own item, between the items of the entries before it and
   * those of the entries after it.
   */
  lemma ItemOfEntry(urlPath: string, entries: seq<Result<string, IoError>>, k: nat)
    requires k < |entries| && entries[k].Ok?
    ensures ListItems(urlPath, entries)
      == ListItems(urlPath, entries[..k]) + ListItem(urlPath, entries[k].value) + ListItems(urlPath, entries[k + 1..])
  {
    assert entries == entries[..k + 1] + entries[k + 1..];
    ItemsSplit(urlPath, entries[..k + 1], entries[k + 1..]);
    ItemsGrow(urlPath, entries, k);
  }

  /** An error anywhere among the entries fails the whole listing: no partial page is returned. */
  lemma ListingAborts(entries: seq<Result<string, IoError>>, urlPath: string, k: nat)
    requires k < |entries| && entries[k].Err?
    ensures Listing(Ok(entries), urlPath).Err?
    ensures (forall j :: 0 <= j < k ==> entries[j].Ok?) ==> Listing(Ok(entries), urlPath) == Err(entries[k].error)
  {
  }

  /** A listing that succeeds is the head, the items of every entry in order, and the end. */
  lemma ListingPage(entries: seq<Result<string, IoError>>, urlPath: string)
    requires forall j :: 0 <= j < |entries| ==> entries[j].Ok?
    ensures Listing(Ok(entries), urlPath)
      == Ok(ListTitle(urlPath) + ListHeading(urlPath) + ListItems(urlPath, entries) + ListEnd)
  {
  }

  /**
   * A directory is answered by its listing, or by a 500 when the listing fails; what a file read
   * would return never matters.
   */
  lemma DirectoryAnswer(url: string, baseDir: string, host: Host, read: string -> Result<seq<byte>, IoError>)
    requires host.isDir(ResolvedPath(url, baseDir, host))
    ensures var listing := Listing(host.readDir(ResolvedPath(url, baseDir, host)), TrimLeadingSlashes(url));
      var resp := Respond(url, baseDir, host);
      && (listing.Ok? ==> resp == Response(200, Some(TextHtml), Text(listing.value)))
      && (listing.Err? ==> resp == Response(500, None, Text(ServerErrorText)))
    ensures Respond(url, baseDir, host.(read := read)) == Respond(url, baseDir, host)
  {
  }

  /**
   * Any other path is answered with the octets read, typed by the first guess or "text/plain",
   * or by a 404 when the read fails; the directory reader is never consulted.
   */
  lemma FileAnswer(url: string, baseDir: string, host: Host,
                   readDir: string -> Result<seq<Result<string, IoError>>, IoError>)
    requires !host.isDir(ResolvedPath(url, baseDir, host))
    ensures var path := ResolvedPath(url, baseDir, host);
      var resp := Respond(url, baseDir, host);
      && (host.read(path).Ok? ==> resp == Response(200, Some(FirstOrTextPlain(host.guessMime(path))), Data(host.read(path).value)))
      && (host.read(path).Err? ==> resp == Response(404, None, Text(NotFoundText)))
    ensures Respond(url, baseDir, host.(readDir := readDir)) == Respond(url, baseDir, host)
  {
  }

  /** The document head of the example listing below. */
  lemma ExampleTitle()
    ensures ListTitle("docs") == "<html><head><title>Index of /docs</title></head><body>"
  {
  }

  /** The heading of the example listing below. */
  lemma ExampleHeading()
    ensures ListHeading("docs") == "<h2>Index of /docs</h2><ul>"
  {
  }

  /** The one item of the example listing below. */
  lemma ExampleItem()
    ensures ListItem("docs", "a.txt") == "<li><a href=\"docs/a.txt\">a.txt</a></li>"
  {
    assert Link("docs", "a.txt") == "docs/a.txt";
  }

  /** The listing of a sub-directory "docs" holding one file "a.txt", piece by piece. */
  lemma ListingExample()
    ensures Listing(Ok([Ok("a.txt")]), "docs")
      == Ok("<html><head><title>Index of /docs</title></head><body>"
         + "<h2>Index of /docs</h2><ul>"
         + "<li><a href=\"docs/a.txt\">a.txt</a></li>"
         + "</ul></body></html>")
  {
    var entries: seq<Result<string, IoError>> := [Ok("a.txt")];
    assert FirstError(entries) == 1;
    assert entries[..0] == [];
    assert ListItems("docs", entries) == ListItem("docs", "a.txt");
    ExampleTitle();
    ExampleHeading();
    ExampleItem();
  }
}
