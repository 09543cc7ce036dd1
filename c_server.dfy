/**
 * The request pipeline of the C server: read one request, check the method, resolve the path
 * under the base directory, and answer with the file, a 404, a 405 or a 500.
 */
module CServer {
  import opened Wrappers
  import opened Octets
  import opened Numerals
  import opened Mime
  import opened Framing
  import opened RequestLine

  const DefaultPort := 8080
  /** Size of the request buffer and of the header buffer. */
  const BufferSize := 4096
  const MethodCapacity := 8
  const PathCapacity := 1024
  const FilePathCapacity := 2048
  const BaseDirCapacity := 1024
  /** The largest `st_size` a file can report: `off_t` is a signed 64-bit integer. */
  const MaxFileSize := 0x7fff_ffff_ffff_ffff

  const Get := Ascii("GET")
  const Root := Ascii("/")
  const IndexPath := Ascii("/index.html")

  const Ok200 := Ascii("200 OK")
  const NotFound404 := Ascii("404 Not Found")
  const NotAllowed405 := Ascii("405 Method Not Allowed")
  const ServerError500 := Ascii("500 Internal Server Error")
  const NotFoundPage := Ascii("<h1>404 Not Found</h1>")
  const NotAllowedPage := Ascii("<h1>405 Method Not Allowed</h1>")
  const ServerErrorPage := Ascii("<h1>500 Internal Server Error</h1>")


  // ---------------------------------------------------------------- configuration

  /** The process-wide settings `main` fills in before serving. */
  datatype Config = Config(port: int, baseDir: seq<byte>)

  /** `base_dir` is a C string that fits its 1024-octet array. */
  predicate ValidConfig(cfg: Config) {
    |cfg.baseDir| < BaseDirCapacity && NUL !in cfg.baseDir
  }

  /**
   * The defaults and the two positional arguments (`args` is argv without the program name).
   * The port is whatever `atoi` makes of the first argument; the directory is the second
   * argument, cut to the 1023 octets `strncpy` copies.
   */
  function Configure(args: seq<seq<byte>>, atoi: seq<byte> -> int): (cfg: Config)
    requires forall i :: 0 <= i < |args| ==> NUL !in args[i]
    ensures ValidConfig(cfg)
    ensures |args| == 0 ==> cfg.port == DefaultPort
    ensures |args| >= 1 ==> cfg.port == atoi(args[0])
    ensures |args| < 2 ==> cfg.baseDir == Ascii(".")
    ensures |args| >= 2 ==> cfg.baseDir <= args[1]
    ensures |args| >= 2 ==> |cfg.baseDir| == if |args[1]| < BaseDirCapacity then |args[1]| else BaseDirCapacity - 1
  {
    var port := if |args| >= 1 then atoi(args[0]) else DefaultPort;
    var dir := if |args| >= 2 then Truncate(args[1], BaseDirCapacity) else Ascii(".");
    Config(port, dir)
  }

  // ---------------------------------------------------------------- the connection

  /** A client socket: the octets the peer has delivered and not yet read, and all octets written back. */
  class Connection {
    var pending: seq<byte>
    /** The socket is in an error state: `read` returns -1. */
    var broken: bool
    var sent: seq<byte>

    constructor (pending: seq<byte>, broken: bool)
      ensures this.pending == pending && this.broken == broken && sent == []
    {
      this.pending := pending;
      this.broken := broken;
      sent := [];
    }

    /** `read(2)` of at most `count` octets into `buf`. */
    method Read(buf: array<byte>, count: nat) returns (n: int)
      requires count <= buf.Length
      modifies this`pending, buf
      ensures n == ReadCount(old(pending), broken, count)
      ensures n <= 0 ==> pending == old(pending) && buf[..] == old(buf[..])
      ensures n > 0 ==> pending == old(pending)[n..]
      ensures n > 0 ==> buf[..n] == old(pending)[..n] && buf[n..] == old(buf[n..])
    {
      n := ReadCount(pending, broken, count);
      if n > 0 {
        forall i | 0 <= i < n {
          buf[i] := pending[i];
        }
        pending := pending[n..];
      }
    }

    /** `write(2)`, every octet delivered. */
    method Write(data: seq<byte>)
      modifies this`sent
      ensures sent == old(sent) + data
    {
      sent := sent + data;
    }
  }

  /** What `read` returns: -1 on a broken socket, 0 at end of stream, otherwise the octets taken. */
  function ReadCount(pending: seq<byte>, broken: bool, count: nat): (n: int)
    ensures broken ==> n == -1
    ensures !broken ==> 0 <= n <= count && n <= |pending| && (n == count || n == |pending|)
  {
    if broken then -1 else if |pending| < count then |pending| else count
  }

  // ---------------------------------------------------------------- the file system

  /** A `FILE *` the server holds. */
  datatype File = File(path: seq<byte>)

  /** Every file's size fits `st_size`. */
  predicate FileSizesFit(files: map<seq<byte>, seq<byte>>) {
    forall p :: p in files ==> |files[p]| <= MaxFileSize
  }

  /**
   * The C library calls `serve_file` makes: the regular files by the path `fopen` is given,
   * whether `malloc` can return a block, and counters of what is held.
   */
  class FileSystem {
    const files: map<seq<byte>, seq<byte>>
    const heapAvailable: bool
    var openCalls: nat
    var openFiles: nat
    var liveBlocks: nat

    constructor (files: map<seq<byte>, seq<byte>>, heapAvailable: bool)
      ensures this.files == files && this.heapAvailable == heapAvailable
      ensures openCalls == 0 && openFiles == 0 && liveBlocks == 0
    {
      this.files := files;
      this.heapAvailable := heapAvailable;
      openCalls, openFiles, liveBlocks := 0, 0, 0;
    }

    /** `fopen(path, "rb")`. */
    method Open(path: seq<byte>) returns (f: Option<File>)
      modifies this`openCalls, this`openFiles
      ensures f == if path in files then Some(File(path)) else None
      ensures openCalls == old(openCalls) + 1
      ensures openFiles == old(openFiles) + if f.Some? then 1 else 0
    {
      openCalls := openCalls + 1;
      if path in files {
        f := Some(File(path));
        openFiles := openFiles + 1;
      } else {
        f := None;
      }
    }

    /** `stat(path, &st)` of a file that was just opened. */
    method Stat(path: seq<byte>) returns (size: nat)
      requires path in files
      ensures size == |files[path]|
    {
      size := |files[path]|;
    }

    /** `fread(buf, 1, count, f)`. */
    method Fread(buf: array<byte>, count: nat, f: File) returns (n: nat)
      requires f.path in files && count <= buf.Length
      modifies buf
      ensures n == if count < |files[f.path]| then count else |files[f.path]|
      ensures buf[..n] == files[f.path][..n] && buf[n..] == old(buf[n..])
    {
      var contents := files[f.path];
      n := if count < |contents| then count else |contents|;
      forall i | 0 <= i < n {
        buf[i] := contents[i];
      }
    }

    /** `fclose(f)`. */
    method Close(f: File)
      requires openFiles > 0
      modifies this`openFiles
      ensures openFiles == old(openFiles) - 1
    {
      openFiles := openFiles - 1;
    }

    /** `malloc(size)`: null when the heap is exhausted. */
    method Malloc(size: nat) returns (buf: array?<byte>)
      modifies this`liveBlocks
      ensures (buf != null) == heapAvailable
      ensures buf != null ==> fresh(buf) && buf.Length == size
      ensures liveBlocks == old(liveBlocks) + if buf != null then 1 else 0
    {
      if heapAvailable {
        buf := new byte[size];
        liveBlocks := liveBlocks + 1;
      } else {
        buf := null;
      }
    }

    /** `free(buf)`. */
    method Free(buf: array<byte>)
      requires liveBlocks > 0
      modifies this`liveBlocks
      ensures liveBlocks == old(liveBlocks) - 1
    {
      liveBlocks := liveBlocks - 1;
    }
  }

  // ---------------------------------------------------------------- send_response

  lemma LiteralLengths()
    ensures |Ok200| == 6 && |NotFound404| == 13 && |NotAllowed405| == 22 && |ServerError500| == 25
    ensures |TextHtml| == 9
    ensures |NotFoundPage| == 22 && |NotAllowedPage| == 31 && |ServerErrorPage| == 34
  {
  }

  /** The header `snprintf` formats fits the 4096-octet header buffer. */
  predicate HeaderFits(status: seq<byte>, contentType: seq<byte>, bodyLength: nat) {
    |HeaderBlock(status, contentType, bodyLength)| < BufferSize
  }

  /**
   * Every header the server sends fits: its statuses have at most 25 octets, its types at most
   * 22, and a length below 2^63 has at most 19 digits.
   */
  lemma ServerHeadersFit(status: seq<byte>, contentType: seq<byte>, bodyLength: nat)
    requires |status| <= 25 && |contentType| <= 22 && bodyLength <= MaxFileSize
    ensures HeaderFits(status, contentType, bodyLength)
  {
    assert Pow10(3) == 1000;
    assert Pow10(6) == 1000000;
    assert Pow10(9) == 1000000000;
    assert Pow10(12) == 1000000000000;
    assert Pow10(15) == 1000000000000000;
    assert Pow10(18) == 1000000000000000000;
    DecimalLength(bodyLength, 19);
    HeaderLength(status, contentType, bodyLength);
  }

  /** `send_response`: write the header block, then the body. */
  method SendResponse(conn: Connection, status: seq<byte>, contentType: seq<byte>, body: seq<byte>)
    requires HeaderFits(status, contentType, |body|)
    modifies conn`sent
    ensures conn.sent == old(conn.sent) + Frame(status, contentType, body)
  {
    var header := HeaderBlock(status, contentType, |body|);
    conn.Write(header);
    conn.Write(body);
  }

  // ---------------------------------------------------------------- serve_file

  /** The one response `serve_file` sends for `path`. */
  function FileReply(path: seq<byte>, files: map<seq<byte>, seq<byte>>, heapAvailable: bool): seq<byte> {
    if path !in files then Frame(NotFound404, TextHtml, NotFoundPage)
    else if !heapAvailable then Frame(ServerError500, TextHtml, ServerErrorPage)
    else Frame(Ok200, MimeType(path), files[path])
  }

  /** `serve_file`: open, size, allocate, read, close, send, free. */
  method ServeFile(conn: Connection, fs: FileSystem, path: seq<byte>)
    requires FileSizesFit(fs.files)
    modifies conn`sent, fs`openCalls, fs`openFiles, fs`liveBlocks
    ensures conn.sent == old(conn.sent) + FileReply(path, fs.files, fs.heapAvailable)
    ensures fs.openCalls == old(fs.openCalls) + 1
    ensures fs.openFiles == old(fs.openFiles) && fs.liveBlocks == old(fs.liveBlocks)
  {
    LiteralLengths();
    var file := fs.Open(path);
    if file.None? {
      ServerHeadersFit(NotFound404, TextHtml, |NotFoundPage|);
      SendResponse(conn, NotFound404, TextHtml, NotFoundPage);
      return;
    }
    var size := fs.Stat(path);
    var buf := fs.Malloc(size);
    if buf == null {
      ServerHeadersFit(ServerError500, TextHtml, |ServerErrorPage|);
      SendResponse(conn, ServerError500, TextHtml, ServerErrorPage);
      fs.Close(file.value);
      return;
    }
    var _ := fs.Fread(buf, size, file.value);
    assert buf[..] == fs.files[path];
    fs.Close(file.value);
    var mime := MimeType(path);
    KnownTypeFits(mime);
    ServerHeadersFit(Ok200, mime, size);
    SendResponse(conn, Ok200, mime, buf[..]);
    fs.Free(buf);
  }

  /** No type or status the server sends has a CR in it, so a client can read the header back. */
  lemma NoCRInLiterals()
    ensures CR !in Ok200 && CR !in NotFound404 && CR !in NotAllowed405 && CR !in ServerError500
    ensures CR !in TextHtml
  {
  }

  /**
   * What a client reads from `serve_file`'s response: a 404 page when the open fails, a 500 page
   * when the allocation fails, and otherwise 200 with the file's type and exactly its contents.
   */
  lemma FileReplyReadsBack(path: seq<byte>, files: map<seq<byte>, seq<byte>>, heapAvailable: bool)
    ensures ParseMessage(FileReply(path, files, heapAvailable)) == Some(
      if path !in files then Message(NotFound404, TextHtml, NotFoundPage)
      else if !heapAvailable then Message(ServerError500, TextHtml, ServerErrorPage)
      else Message(Ok200, MimeType(path), files[path]))
  {
    NoCRInLiterals();
    if path !in files {
      FrameRoundTrip(NotFound404, TextHtml, NotFoundPage);
    } else if !heapAvailable {
      FrameRoundTrip(ServerError500, TextHtml, ServerErrorPage);
    } else {
      KnownTypeFits(MimeType(path));
      FrameRoundTrip(Ok200, MimeType(path), files[path]);
    }
  }

  // ---------------------------------------------------------------- handle_client

  /** Ways the C code reaches undefined behaviour through `sscanf` or an unset buffer. */
  datatype Hazard =
    | NoMethodWord    // nothing but white space: `method` is compared without being set
    | MethodOverflow  // a first word of 8 octets or more overruns `method[8]`
    | PathOverflow    // a second word of 1024 octets or more overruns `path[1024]`
    | NoPathWord      // GET with no second word: `path` is used without being set

  /** What `handle_client` does with one connection. */
  datatype Action =
    | Silent                      // the read returned 0 or -1: nothing is sent
    | NotAllowed                  // the method is not GET: one 405 response
    | Serve(filePath: seq<byte>)  // `serve_file` on this path
    | Undefined(hazard: Hazard)   // the C code has no defined behaviour; the model sends nothing

  /** `strcpy(path, "/index.html")` when the path is exactly "/". */
  function Rewrite(path: seq<byte>): seq<byte> {
    if path == Root then IndexPath else path
  }

  /** `snprintf(file_path, 2048, "%s%s", base_dir, path)`. */
  function FilePath(baseDir: seq<byte>, path: seq<byte>): (r: seq<byte>)
    ensures r <= baseDir + Rewrite(path)
    ensures |r| < FilePathCapacity
  {
    Truncate(baseDir + Rewrite(path), FilePathCapacity)
  }

  /** The decisions `handle_client` takes on the text of its buffer. */
  function Route(text: seq<byte>, baseDir: seq<byte>): Action {
    Decide(ScanRequestLine(text), baseDir)
  }

  /** The same decisions, on the two words `sscanf` stores. */
  function Decide(words: Words, baseDir: seq<byte>): (r: Action)
    ensures !r.Undefined? <==> (
      && words.verb.Some? && |words.verb.value| < MethodCapacity
      && (words.target.None? || |words.target.value| < PathCapacity)
      && (words.verb.value == Get ==> words.target.Some?))
    ensures r.Serve? ==> words.verb == Some(Get) && r.filePath == FilePath(baseDir, words.target.value)
    ensures r != Silent
  {
    if words.verb.None? then Undefined(NoMethodWord)
    else if |words.verb.value| >= MethodCapacity then Undefined(MethodOverflow)
    else if words.target.Some? && |words.target.value| >= PathCapacity then Undefined(PathOverflow)
    else if words.verb.value != Get then NotAllowed
    else if words.target.None? then Undefined(NoPathWord)
    else Serve(FilePath(baseDir, words.target.value))
  }

  /** The octets an action puts on the connection. */
  function Reply(action: Action, files: map<seq<byte>, seq<byte>>, heapAvailable: bool): seq<byte> {
    match action
    case NotAllowed => Frame(NotAllowed405, TextHtml, NotAllowedPage)
    case Serve(path) => FileReply(path, files, heapAvailable)
    case _ => []
  }

  /**
   * The first lines of `handle_client`: one read of at most 4095 octets into the request buffer,
   * then a NUL after what was received. The text is what string functions see of the buffer.
   */
  method Receive(conn: Connection) returns (received: int, text: seq<byte>)
    modifies conn`pending
    ensures received == ReadCount(old(conn.pending), conn.broken, BufferSize - 1)
    ensures conn.pending == (if received <= 0 then old(conn.pending) else old(conn.pending)[received..])
    ensures received > 0 ==> text == CString(old(conn.pending)[..received])
  {
    var buffer := new byte[BufferSize];
    received := conn.Read(buffer, BufferSize - 1);
    if received <= 0 {
      return received, [];
    }
    ghost var request := buffer[..received];
    buffer[received] := NUL;
    assert buffer[..received] == request;
    assert buffer[..] == request + buffer[received..];
    CStringTerminated(request, buffer[received..]);
    text := CString(buffer[..]);
  }

  /** `handle_client`: receive the request text, then answer it. */
  method HandleClient(conn: Connection, cfg: Config, fs: FileSystem) returns (action: Action)
    requires ValidConfig(cfg) && FileSizesFit(fs.files)
    modifies conn`pending, conn`sent, fs`openCalls, fs`openFiles, fs`liveBlocks
    ensures var n := ReadCount(old(conn.pending), conn.broken, BufferSize - 1);
      && action == (if n <= 0 then Silent else Route(CString(old(conn.pending)[..n]), cfg.baseDir))
      && conn.pending == (if n <= 0 then old(conn.pending) else old(conn.pending)[n..])
    ensures conn.sent == old(conn.sent) + Reply(action, fs.files, fs.heapAvailable)
    ensures fs.openCalls == old(fs.openCalls) + if action.Serve? then 1 else 0
    ensures fs.openFiles == old(fs.openFiles) && fs.liveBlocks == old(fs.liveBlocks)
  {
    var received, text := Receive(conn);
    if received <= 0 {
      return Silent;
    }
    action := Answer(conn, cfg, fs, ScanRequestLine(text));
  }

  /**
   * The rest of `handle_client` on the two words `sscanf` stores: the method check, the rewrite
   * of "/", the path under the base directory, and `serve_file`.
   */
  method Answer(conn: Connection, cfg: Config, fs: FileSystem, words: Words) returns (action: Action)
    requires ValidConfig(cfg) && FileSizesFit(fs.files)
    modifies conn`sent, fs`openCalls, fs`openFiles, fs`liveBlocks
    ensures action == Decide(words, cfg.baseDir)
    ensures conn.sent == old(conn.sent) + Reply(action, fs.files, fs.heapAvailable)
    ensures fs.openCalls == old(fs.openCalls) + if action.Serve? then 1 else 0
    ensures fs.openFiles == old(fs.openFiles) && fs.liveBlocks == old(fs.liveBlocks)
  {
    if words.verb.None? {
      return Undefined(NoMethodWord);
    }
    var verb := words.verb.value;
    if |verb| >= MethodCapacity {
      return Undefined(MethodOverflow);
    }
    if words.target.Some? && |words.target.value| >= PathCapacity {
      return Undefined(PathOverflow);
    }
    if verb != Get {
      Refuse(conn);
      return NotAllowed;
    }
    if words.target.None? {
      return Undefined(NoPathWord);
    }
    var path := words.target.value;
    if path == Root {
      path := IndexPath;
    }
    var filePath := Truncate(cfg.baseDir + path, FilePathCapacity);
    ServeFile(conn, fs, filePath);
    return Serve(filePath);
  }

  /** The 405 answer to any method other than GET. */
  method Refuse(conn: Connection)
    modifies conn`sent
    ensures conn.sent == old(conn.sent) + Frame(NotAllowed405, TextHtml, NotAllowedPage)
  {
    LiteralLengths();
    ServerHeadersFit(NotAllowed405, TextHtml, |NotAllowedPage|);
    SendResponse(conn, NotAllowed405, TextHtml, NotAllowedPage);
  }

  // ---------------------------------------------------------------- properties of the pipeline

  /** Which requests are served, refused or undefined, in terms of the two words `sscanf` stores. */
  lemma RouteByWords(text: seq<byte>, baseDir: seq<byte>)
    ensures var words := ScanRequestLine(text);
      var bounded := words.verb.Some? && |words.verb.value| < MethodCapacity
        && (words.target.None? || |words.target.value| < PathCapacity);
      && (Route(text, baseDir) == NotAllowed <==> bounded && words.verb.value != Get)
      && (Route(text, baseDir).Serve? <==> bounded && words.verb.value == Get && words.target.Some?)
      && (Route(text, baseDir).Serve? ==> Route(text, baseDir).filePath == FilePath(baseDir, words.target.value))
  {
  }

  /** The base directory and the path always fit `file_path`: `snprintf` never cuts the path. */
  lemma FilePathUncut(baseDir: seq<byte>, path: seq<byte>)
    requires |baseDir| < BaseDirCapacity && |path| < PathCapacity
    ensures FilePath(baseDir, path) == baseDir + Rewrite(path)
    ensures |FilePath(baseDir, path)| < FilePathCapacity
  {
  }

  /**
   * A GET request line is served from the base directory followed by the path as sent,
   * with "/" standing for "/index.html"; nothing is normalised.
   */
  lemma {:induction false} GetServesPath(lead: seq<byte>, sep: seq<byte>, path: seq<byte>, rest: seq<byte>, baseDir: seq<byte>)
    requires Spaced(lead, Get, sep, path, rest)
    requires |path| < PathCapacity && |baseDir| < BaseDirCapacity
    ensures Route(lead + Get + sep + path + rest, baseDir) == Serve(baseDir + Rewrite(path))
  {
    ScanRequestLineOf(lead, Get, sep, path, rest);
    assert Route(lead + Get + sep + path + rest, baseDir) == Decide(Words(Some(Get), Some(path)), baseDir);
    FilePathUncut(baseDir, path);
  }

  /**
   * Any other method that fits `method[8]` is refused, whatever path of fewer than 1024 octets
   * follows it. A longer path has already overrun `path[1024]` (`Undefined(PathOverflow)`), and
   * a request with no path at all is covered by `RouteByWords`.
   */
  lemma {:induction false} OtherMethodRefused(lead: seq<byte>, verb: seq<byte>, sep: seq<byte>, path: seq<byte>, rest: seq<byte>, baseDir: seq<byte>)
    requires Spaced(lead, verb, sep, path, rest)
    requires |verb| < MethodCapacity && verb != Get && |path| < PathCapacity
    ensures Route(lead + verb + sep + path + rest, baseDir) == NotAllowed
  {
    ScanRequestLineOf(lead, verb, sep, path, rest);
    assert Route(lead + verb + sep + path + rest, baseDir) == Decide(Words(Some(verb), Some(path)), baseDir);
  }

  /** The refusal reads back as one 405 page, and it does not depend on the files. */
  lemma NotAllowedReadsBack(files: map<seq<byte>, seq<byte>>, heapAvailable: bool)
    ensures ParseMessage(Reply(NotAllowed, files, heapAvailable)) == Some(Message(NotAllowed405, TextHtml, NotAllowedPage))
  {
    NoCRInLiterals();
    FrameRoundTrip(NotAllowed405, TextHtml, NotAllowedPage);
  }

  /**
   * What a client reads back for `GET path`: the file at base directory + path with status 200,
   * its type and exactly its octets; a 404 page when there is no such file; a 500 page when the
   * buffer cannot be allocated.
   */
  lemma {:induction false} GetReadsBack(lead: seq<byte>, sep: seq<byte>, path: seq<byte>, rest: seq<byte>, baseDir: seq<byte>, files: map<seq<byte>, seq<byte>>, heapAvailable: bool)
    requires Spaced(lead, Get, sep, path, rest)
    requires |path| < PathCapacity && |baseDir| < BaseDirCapacity
    ensures var file := baseDir + Rewrite(path);
      ParseMessage(Reply(Route(lead + Get + sep + path + rest, baseDir), files, heapAvailable)) == Some(
        if file !in files then Message(NotFound404, TextHtml, NotFoundPage)
        else if !heapAvailable then Message(ServerError500, TextHtml, ServerErrorPage)
        else Message(Ok200, MimeType(file), files[file]))
  {
    GetServesPath(lead, sep, path, rest, baseDir);
    FileReplyReadsBack(baseDir + Rewrite(path), files, heapAvailable);
  }

}
