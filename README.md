# Two minimal static-file HTTP servers, modelled in Dafny

The repository holds two small HTTP servers that serve files from a base directory.

- The C server (`c/http_server.c`) handles one request per connection:
  - It reads the request into a 4096-octet buffer and splits off the first two words with `sscanf`.
  - It refuses every method other than `GET` with a 405.
  - It rewrites `/` to `/index.html` and appends the path to the base directory.
  - It answers with the file (200, typed by its extension), a 404 when `fopen` fails, or a 500 when `malloc` fails.
  - Every response carries `Content-Type`, `Content-Length` and `Connection: close`.
- The Rust server (`rust/http_server/src/main.rs`) uses `tiny_http`:
  - It strips every leading `/` from the URL and pushes the rest (or `index.html`) onto the base directory.
  - It answers a directory with an HTML listing (500 if the listing fails).
  - It answers anything else with the file's octets, typed by `mime_guess` (404 if the read fails).

The model is split into modules:

| file | module | what it holds |
|---|---|---|
| `wrappers.dfy` | `Wrappers` | `Option` and `Result` |
| `octets.dfy` | `Octets` | octets, ASCII literals, C strings up to their NUL, `isspace`, `snprintf`/`strncpy` truncation |
| `numerals.dfy` | `Numerals` | the `%zu` rendering of a length, and its reading back |
| `mime.dfy` | `Mime` | `get_mime_type` |
| `framing.dfy` | `Framing` | the octets `send_response` writes, and a reader of them (the partner of the writer) |
| `request_line.dfy` | `RequestLine` | what `sscanf(buffer, "%s %s", …)` stores |
| `c_server.dfy` | `CServer` | the configuration, the connection and the C library as classes, `send_response`, `serve_file`, `handle_client` |
| `c_scenarios.dfy` | `CScenarios` | two complete exchanges, octet for octet |
| `rust_server.dfy` | `RustServer` | `handle_request` and `generate_directory_listing` |

The C state is imperative:

- The socket is a `Connection` class. Its fields are the pending input and everything sent.
- The C library calls (`fopen`, `stat`, `fread`, `fclose`, `malloc`, `free`) are methods of a `FileSystem` class. It holds a fixed map of regular files and counts open handles and live heap blocks.
- The request buffer and the file buffer are arrays.

Each C method is proved against a specification function:

- `FileReply` for `serve_file`;
- `Route` and `Decide` for `handle_client`, with `Rewrite` for the "/" rewrite and `FilePath` for the `snprintf` into `file_path`;
- `Frame` (built from `HeaderBlock`) for `send_response`;
- `Reply` for the octets each action of `handle_client` sends.

The properties are proved about those functions. The chief one: what a client parses back from the wire is exactly the status, the type and the file's octets.

The C code has undefined behaviour in four cases:

- the request has no first word;
- the method does not fit `method[8]`;
- the path does not fit `path[1024]`;
- a `GET` has no second word.

The model gives each of these its own `Undefined` action and sends nothing for it.

The Rust handler's decisions are pure functions:

- `ResolvedPath` for the URL rewrite;
- `Listing`, built from `ListTitle`, `ListHeading`, `ListItem` and `ListItems`, for the directory listing;
- `DirectoryResponse`, `FileResponse` and `Respond` for the choice of response.

The listing itself is built by a loop in the source, so `GenerateDirectoryListing` is a method with that loop, proved equal to `Listing`. `HandleRequest` is the method that calls it; it exists because a function cannot call a method, and it is proved equal to `Respond`, about which the properties are stated.

The file system and the `PathBuf`/`mime_guess` calls are a `Host` record of functions, so every property holds for every file system.

## Model

| member | source | states |
|---|---|---|
| CServer.Configure | c/http_server.c:97-104 | The result is always a valid C string that fits `base_dir[1024]`, and the base directory is "." (the initial value of `base_dir`, line 14) when no directory argument is given. The port is 8080 unless a first argument is given, then `atoi` of it. A second argument becomes the base directory, as a prefix of it that is the whole argument when it is shorter than 1024 octets and otherwise its first 1023 octets |
| Octets.Truncate | c/http_server.c:104 | A bounded copy keeps a prefix of the source: the whole of it when it fits, else exactly capacity - 1 octets |
| Octets.CString | c/http_server.c:75 | A C string is a prefix of its buffer with no NUL in it, and a NUL follows it whenever it is shorter than the buffer |
| Octets.CStringTerminated | c/http_server.c:73-75 | Writing a NUL right after the received octets makes the request text exactly the received octets up to their own first NUL; nothing left over in the buffer is seen |
| CServer.ReadCount | c/http_server.c:73-74 | `read` returns -1 on a broken socket; otherwise it takes at most the count asked for, never more than is pending, and stops short only when the input runs out |
| CServer.Connection.Read | c/http_server.c:73 | The octets read land at the front of the buffer in order and leave the pending input; the rest of the buffer is unchanged; a read of 0 or -1 changes nothing |
| CServer.Connection.Write | c/http_server.c:39-40 | A write appends exactly its data to what the connection has sent |
| Mime.LastDot | c/http_server.c:18 | The position found holds a '.', and no '.' follows it; there is no position exactly when the path has no '.' |
| Mime.Compare | c/http_server.c:20-26 | The comparison chain always returns one of the seven known types |
| Mime.MimeType | c/http_server.c:17-27 | Every path gets one of the seven known types, and a path with no '.' gets text/plain |
| Mime.CompareIsLookup | c/http_server.c:20-26 | For every extension, the chain of `strcmp` calls agrees with the six-entry suffix table, with text/plain for any other extension (matching is case-sensitive) |
| Mime.LastDotOfSuffix | c/http_server.c:18 | For a path that ends in a suffix with one leading '.', `strrchr` finds that '.' |
| Mime.MimeTypeBySuffix | c/http_server.c:17-27 | The type depends only on the text from the last '.' on, even when that '.' lies in a directory name |
| Mime.KnownTypeFits | c/http_server.c:19-26 | Every type the server announces has at most 22 octets and no CR |
| Numerals.Decimal | c/http_server.c:34 | `%zu` gives at least one decimal digit, with no leading zero |
| Numerals.DecimalRoundTrip | c/http_server.c:34 | Reading the digits of `%zu` back gives the length that was formatted |
| Numerals.DecimalLength | c/http_server.c:34 | A length below 10^k takes at most k digits |
| Framing.HeaderLength | c/http_server.c:31-37 | The header block is 66 octets of fixed text plus the status, the type and the length digits |
| Framing.BodyReadsBack | c/http_server.c:34-40 | After the Content-Length digits and the blank line, a client takes exactly the body that was written |
| Framing.FrameRoundTrip | c/http_server.c:29-41 | Parsing what `send_response` wrote gives back the status, the content type and the body, for any status and type without CR: the announced length is the number of octets that follow the header |
| CServer.Rewrite | c/http_server.c:88 | Defined as: the path "/" becomes "/index.html"; every other path is kept as sent |
| CServer.FilePath | c/http_server.c:91-92 | The file path is a prefix of the base directory followed by the rewritten path, and it always fits `file_path[2048]` with its NUL (`FilePathUncut` shows nothing is ever cut) |
| CServer.Decide | c/http_server.c:80-94 | The action is defined exactly when a method was stored and fits `method[8]`, any path fits `path[1024]`, and a GET has a path. A served action is a GET on the file path of the stored path. `Silent` is never decided from a request text |
| CServer.Route | c/http_server.c:80-94 | Defined as `Decide` of the two words `sscanf` stores from the request text; `RouteByWords` states its outcome in both directions |
| CServer.FileReply | c/http_server.c:43-69 | Defined as: the 404 frame when no file has the path, else the 500 frame when `malloc` fails, else the 200 frame with the path's type and the file's octets; `FileReplyReadsBack` states what a client reads from it |
| CServer.Reply | c/http_server.c:82-94 | Defined as: the 405 frame for a refusal, `FileReply` for a served path, and nothing for `Silent` or an undefined action |
| Framing.HeaderBlock | c/http_server.c:31-37 | Defined as: the status line, the Content-Type line, the Content-Length line with `%zu` of the length, `Connection: close` and the blank line; `HeaderLength` gives its size |
| Framing.Frame | c/http_server.c:39-40 | What one response writes starts with the header block, and the octets after the header block are exactly the body |
| CServer.ServerHeadersFit | c/http_server.c:30-37 | Every header the server formats fits the 4096-octet header buffer: statuses of at most 25 octets, types of at most 22, and lengths below 2^63 |
| CServer.SendResponse | c/http_server.c:29-41 | The connection receives exactly the header block followed by the body |
| CServer.FileSystem.Open | c/http_server.c:44 | `fopen` yields a handle exactly when a file has that path, and counts an open handle for it |
| CServer.FileSystem.Stat | c/http_server.c:51-53 | `stat` reports the file's size |
| CServer.FileSystem.Fread | c/http_server.c:63 | `fread` fills the front of the buffer with the file's first octets, up to the count asked for |
| CServer.FileSystem.Close | c/http_server.c:64 | `fclose` releases one open handle |
| CServer.FileSystem.Malloc | c/http_server.c:55-56 | `malloc` returns a fresh block of the size asked for, or null exactly when `heapAvailable` is false (see `## Left out`) |
| CServer.FileSystem.Free | c/http_server.c:68 | `free` releases one heap block |
| CServer.ServeFile | c/http_server.c:43-69 | `serve_file` sends exactly one response: 404 when the open fails, 500 when the allocation fails, else 200 with the path's type and the file's contents. On every path it closes what it opened and frees what it allocated |
| CServer.FileReplyReadsBack | c/http_server.c:43-69 | A client parses `serve_file`'s response back as the 404 page, the 500 page, or status 200 with the path's type and exactly the file's octets |
| RequestLine.ScanWord | c/http_server.c:80 | A `%s` conversion fails exactly when only white space is left; otherwise it stores a non-empty word with no white space, which is preceded only by white space and followed by white space or the end |
| RequestLine.SpaceRun | c/http_server.c:80 | The leading white space `%s` skips is all white space and ends at the first other octet |
| RequestLine.WordRun | c/http_server.c:80 | The word `%s` takes has no white space and ends at the first white space |
| RequestLine.ScanRequestLine | c/http_server.c:80 | `sscanf` stores a path only after a method, and each word it stores is non-empty with no white space |
| RequestLine.ScanWordOf | c/http_server.c:80 | A word between white space is read back by `%s` whole, leaving what follows it |
| RequestLine.ScanRequestLineOf | c/http_server.c:80 | For a request line `METHOD SP PATH …`, `sscanf` stores the method and the path, and ignores the protocol version and the headers |
| CServer.Receive | c/http_server.c:72-75 | One read of at most 4095 octets into a fresh 4096-octet buffer, then a NUL after what was received: the pending input advances by what was read, and when something was read the request text is exactly the received octets up to their first NUL |
| CServer.HandleClient | c/http_server.c:71-95 | One read of at most 4095 octets. A read of 0 or -1 sends nothing. Otherwise the action is the route of the received text up to its first NUL, and the connection receives exactly that action's reply. Every handle and block is released |
| CServer.Answer | c/http_server.c:78-94 | After the read, the action follows the two words `sscanf` stored, and the reply matches that action |
| CServer.Refuse | c/http_server.c:82-86 | A refused method gets exactly one 405 frame with its HTML page |
| CServer.RouteByWords | c/http_server.c:80-94 | A request is refused exactly when both words fit their arrays and the method is not GET. It is served exactly when both fit, the method is GET and a path was given. A served request goes to the base directory joined with the (rewritten) path |
| CServer.FilePathUncut | c/http_server.c:88-92 | With `base_dir` and `path` inside their arrays, `snprintf` into `file_path[2048]` never cuts: the file path is the base directory followed by the path, with "/" standing for "/index.html" |
| CServer.GetServesPath | c/http_server.c:80-94 | A GET request line is served from the base directory followed by the path exactly as sent (no normalisation, so ".." is kept), with "/" read as "/index.html" |
| CServer.OtherMethodRefused | c/http_server.c:80-86 | Any method other than GET that fits `method[8]` is refused with 405, whatever path of fewer than 1024 octets follows it. A longer path has already overrun `path[1024]` and is `Undefined(PathOverflow)`; a request with no path is covered by `RouteByWords` |
| CServer.NotAllowedReadsBack | c/http_server.c:82-85 | A client parses the refusal back as status 405 with the HTML page, whatever files exist |
| CServer.GetReadsBack | c/http_server.c:71-95 | For `GET path`, a client parses back the file at base directory + path, with status 200, its type and exactly its octets. It gets the 404 page when there is no such file, and the 500 page when the buffer cannot be allocated |
| CScenarios.IndexRoute | c/http_server.c:88-92 | "GET / HTTP/1.1" under "." is served from "./index.html" |
| CScenarios.IndexType | c/http_server.c:20 | "./index.html" is sent as text/html |
| CScenarios.IndexFrame | c/http_server.c:31-40 | The 200 response for a nine-octet page, line by line |
| CScenarios.IndexScenario | c/http_server.c:71-95 | The complete answer to "GET / HTTP/1.1" with an index page, octet for octet |
| CScenarios.MissingRoute | c/http_server.c:80-92 | "GET /missing.txt HTTP/1.1" under "." is looked up as "./missing.txt" |
| CScenarios.NotFoundFrame | c/http_server.c:45-47 | The 404 response, line by line, with a Content-Length of 22 |
| CScenarios.MissingScenario | c/http_server.c:43-48 | The complete answer to a request for a missing file, octet for octet |
| RustServer.TrimLeadingSlashes | rust/http_server/src/main.rs:22 | The URL path is a suffix of the URL, everything removed was '/', and it does not start with '/' |
| RustServer.TrimTwice | rust/http_server/src/main.rs:22 | Stripping the slashes is idempotent |
| RustServer.SlashesStripped | rust/http_server/src/main.rs:22 | Any run of leading slashes is stripped whole |
| RustServer.Target | rust/http_server/src/main.rs:24 | An empty URL path stands for "index.html"; any other is pushed unchanged |
| RustServer.LeadingSlashesIgnored | rust/http_server/src/main.rs:21-24 | Any number of leading slashes give the same response: "/a", "//a" and "a" name one file |
| RustServer.SlashesOnlyIsIndex | rust/http_server/src/main.rs:22-24 | A URL of slashes only, or an empty one, resolves to "index.html" in the base directory |
| RustServer.PathAsSent | rust/http_server/src/main.rs:22-24 | Any other URL is pushed onto the base directory as sent, without its leading slashes and without normalisation |
| RustServer.FirstOrTextPlain | rust/http_server/src/main.rs:44-46 | The type is the first candidate `mime_guess` lists, or text/plain when it lists none |
| RustServer.Link | rust/http_server/src/main.rs:70-74 | An entry links to its bare name at the root, and to `urlPath/name` below it |
| RustServer.FirstError | rust/http_server/src/main.rs:67-68 | Finds the first entry that is an error: every entry before it is readable, and it is an error unless it is past the end |
| RustServer.AppendItems | rust/http_server/src/main.rs:67-76 | The loop over `read_dir` either fails with the first entry error, or appends the items of all entries, in order, to the page so far |
| RustServer.GenerateDirectoryListing | rust/http_server/src/main.rs:59-80 | The listing is the `read_dir` error, else the first entry error, else the head, the items of all entries in order and the end |
| RustServer.ItemsSplit | rust/http_server/src/main.rs:67-76 | The items of consecutive runs of entries follow one another, so the items keep the order of the entries |
| RustServer.ItemOfEntry | rust/http_server/src/main.rs:67-76 | Each readable entry contributes exactly its own item, between the items of the entries before it and those after it |
| RustServer.ListingAborts | rust/http_server/src/main.rs:67-68 | An error in any entry fails the whole listing, and no partial page is returned; the error returned is the first one |
| RustServer.ListingPage | rust/http_server/src/main.rs:60-79 | A listing of readable entries is the title, the heading, every entry's item in order, and the closing tags |
| RustServer.ListingExample | rust/http_server/src/main.rs:59-80 | The listing of a directory "docs" holding "a.txt", character for character |
| RustServer.ResolvedPath | rust/http_server/src/main.rs:22-24 | Defined as: the base directory with the stripped URL path pushed onto it, or "index.html" when that path is empty; `SlashesOnlyIsIndex` and `PathAsSent` state the two cases |
| RustServer.ListTitle | rust/http_server/src/main.rs:61-64 | Defined as: the document head, titled "Index of /" followed by the URL path |
| RustServer.ListHeading | rust/http_server/src/main.rs:65 | Defined as: the heading "Index of /" followed by the URL path, opening the list |
| RustServer.ListItem | rust/http_server/src/main.rs:75 | Defined as: a list item whose anchor points at the entry's `Link` and shows the entry's name |
| RustServer.ListItems | rust/http_server/src/main.rs:67-76 | Defined as: the items of the readable entries in order; `ItemsSplit` and `ItemOfEntry` state the order and that each entry has exactly its own item |
| RustServer.Listing | rust/http_server/src/main.rs:59-80 | The listing succeeds exactly when `read_dir` succeeds and every entry is readable; a `read_dir` error is returned as it is |
| RustServer.DirectoryResponse | rust/http_server/src/main.rs:27-38 | A listing is answered with status 200 and the handler's text/html Content-Type; a failed listing with status 500 and no Content-Type added by the handler (the library's text/plain default stays, see `## Left out`) |
| RustServer.FileResponse | rust/http_server/src/main.rs:42-56 | The octets read are answered with status 200, exactly those octets, and the first guessed type or text/plain as the handler's Content-Type; a failed read with status 404 and no Content-Type added by the handler (the library's text/plain default stays, see `## Left out`) |
| RustServer.Respond | rust/http_server/src/main.rs:21-57 | Every response has status 200, 404 or 500. Exactly the 200 responses carry a Content-Type added by the handler; the 404 and 500 pages keep the library's default one. A 404 happens exactly when the resolved path is not a directory and reading it fails |
| RustServer.HandleRequest | rust/http_server/src/main.rs:21-57 | The response is `Respond` for every URL, base directory and file system, reached through the looping `GenerateDirectoryListing` for a directory |
| RustServer.DirectoryAnswer | rust/http_server/src/main.rs:26-39 | A directory is answered with its listing as text/html with status 200, or with a plain 500 when the listing fails. What a file read would return does not matter |
| RustServer.FileAnswer | rust/http_server/src/main.rs:42-56 | Any other path is answered with the octets read, typed by the first guess or text/plain, or with a plain 404 when the read fails. The directory reader is never consulted |

## Left out

- Sockets, `bind`/`listen`/`accept`, the accept loops and the start-up banners are I/O around the core. The connection is a `Connection` object.
- Configure: `atoi` is a parameter, not modelled digit by digit.
- Short writes are not modelled: `write` delivers every octet.
- Connection.Read: it returns everything pending up to the count. The model does not deliver a request over several `read` calls, and neither does the server.
- Undefined behaviour in `handle_client` (an uninitialised or overrun `method`/`path`) is a distinct `Undefined` action that sends nothing. What a compiled binary would really do there is unknown.
- Directories on the C side are not modelled: `fopen` on a directory, and `stat` failing after `fopen` succeeds. The file map holds regular files only.
- CServer.FileSystem.Malloc: `heapAvailable` is a free flag that stands for every NULL `malloc` returns. That includes a NULL from `malloc(0)` for an empty file, which is allowed by the C standard; on such a C library an empty file gets the 500 page.
- The size from `stat` is assumed to fit `st_size` (a `FileSizesFit` precondition).
- Short `fread` results are not modelled: the file is not assumed to change between `stat` and `fread`.
- tiny_http itself is not modelled: request parsing, the default `Server`/`Date` headers, `Content-Length`, chunking, and `respond(...).unwrap()` panicking on a closed connection. It also leaves out the `Content-Type: text/plain; charset=UTF-8` that `Response::from_string` sets on the 404 and 500 pages, and which `with_header` replaces on the listing. So a `Response` records only the status, the `Content-Type` the handler adds, and the body; on the wire every Rust response carries a Content-Type.
- The Rust URL is used exactly as `tiny_http` returns it. The query string is kept, and nothing is percent-decoded, as in the source.
- `PathBuf::push`, `Path::is_dir`, `fs::read`, `fs::read_dir`, `OsStr::to_string_lossy` and `mime_guess::from_path` are uninterpreted `Host` functions. For example, an absolute pushed component replacing the base directory is not captured.
- The Rust `main` (arguments 1 and 2 defaulting to "8080" and ".") sits outside the request handling and is not modelled.
- Concurrency is not modelled: both servers handle one connection at a time.
