/**
 * Two complete exchanges with the C server, octet for octet: the request text a client
 * sends, and the response it reads back.
 */
module CScenarios {
  import opened Octets
  import opened Numerals
  import opened Mime
  import opened Framing
  import opened CServer

  /** The request line of a browser asking for "/", split into the words `sscanf` reads. */
  lemma IndexRequestWords()
    ensures Ascii("GET / HTTP/1.1\r\n\r\n") == [] + Get + [32] + Root + Ascii(" HTTP/1.1\r\n\r\n")
  {
  }

  /** "GET / HTTP/1.1" is routed to "./index.html" under the default base directory. */
  lemma IndexRoute()
    ensures Route(Ascii("GET / HTTP/1.1\r\n\r\n"), Ascii(".")) == Serve(Ascii("./index.html"))
  {
    IndexRequestWords();
    GetServesPath([], [32], Root, Ascii(" HTTP/1.1\r\n\r\n"), Ascii("."));
    IndexFile();
  }

  /** "/" stands for "/index.html" under the base directory ".". */
  lemma IndexFile()
    ensures Ascii(".") + Rewrite(Root) == Ascii("./index.html")
  {
    assert Rewrite(Root) == IndexPath;
  }

  /** An ".html" file is sent as text/html. */
  lemma IndexType()
    ensures MimeType(Ascii("./index.html")) == TextHtml
  {
    assert Ascii("./index.html") == Ascii("./index") + Ascii(".html");
    MimeTypeBySuffix(Ascii("./index"), Ascii(".html"));
    CompareIsLookup(Ascii(".html"));
  }

  /** The 200 response for a nine-octet page, line by line. */
  lemma IndexFrame()
    ensures Frame(Ok200, TextHtml, Ascii("<p>hi</p>"))
      == Ascii("HTTP/1.1 200 OK") + Ascii("\r\nContent-Type: text/html") + Ascii("\r\nContent-Length: 9")
         + Ascii("\r\nConnection: close\r\n\r\n") + Ascii("<p>hi</p>")
  {
    assert Decimal(9) == Ascii("9");
    assert StatusPrefix + Ok200 == Ascii("HTTP/1.1 200 OK");
    assert TypePrefix + TextHtml == Ascii("\r\nContent-Type: text/html");
    assert LengthPrefix + Ascii("9") == Ascii("\r\nContent-Length: 9");
  }

  /** `GET / HTTP/1.1` with an index page in the current directory. */
  lemma IndexScenario()
    ensures Reply(Route(Ascii("GET / HTTP/1.1\r\n\r\n"), Ascii(".")), map[Ascii("./index.html") := Ascii("<p>hi</p>")], true)
      == Ascii("HTTP/1.1 200 OK") + Ascii("\r\nContent-Type: text/html") + Ascii("\r\nContent-Length: 9")
         + Ascii("\r\nConnection: close\r\n\r\n") + Ascii("<p>hi</p>")
  {
    IndexRoute();
    IndexType();
    IndexFrame();
  }

  /** The request line for "/missing.txt", split into the words `sscanf` reads. */
  lemma MissingRequestWords()
    ensures Ascii("GET ") + Ascii("/missing.txt") + Ascii(" HTTP/1.1\r\n\r\n") == [] + Get + [32] + Ascii("/missing.txt") + Ascii(" HTTP/1.1\r\n\r\n")
  {
    assert Ascii("GET ") == Get + [32];
  }

  /** "/missing.txt" is looked up as "./missing.txt". */
  lemma MissingFile()
    ensures Ascii(".") + Rewrite(Ascii("/missing.txt")) == Ascii("./missing.txt")
  {
    assert Ascii("/missing.txt") != Root;
  }

  /** "GET /missing.txt HTTP/1.1" is routed to "./missing.txt". */
  lemma MissingRoute()
    ensures Route(Ascii("GET ") + Ascii("/missing.txt") + Ascii(" HTTP/1.1\r\n\r\n"), Ascii(".")) == Serve(Ascii("./missing.txt"))
  {
    MissingRequestWords();
    GetServesPath([], [32], Ascii("/missing.txt"), Ascii(" HTTP/1.1\r\n\r\n"), Ascii("."));
    MissingFile();
  }

  /** The 404 response, line by line. */
  lemma NotFoundFrame()
    ensures Frame(NotFound404, TextHtml, NotFoundPage)
      == Ascii("HTTP/1.1 404 Not Found") + Ascii("\r\nContent-Type: text/html") + Ascii("\r\nContent-Length: 22")
         + Ascii("\r\nConnection: close\r\n\r\n") + Ascii("<h1>404 Not Found</h1>")
  {
    assert Decimal(22) == Ascii("22");
    assert StatusPrefix + NotFound404 == Ascii("HTTP/1.1 404 Not Found");
    assert TypePrefix + TextHtml == Ascii("\r\nContent-Type: text/html");
    assert LengthPrefix + Ascii("22") == Ascii("\r\nContent-Length: 22");
  }

  /** `GET /missing.txt HTTP/1.1` against an empty directory. */
  lemma MissingScenario()
    ensures Reply(Route(Ascii("GET ") + Ascii("/missing.txt") + Ascii(" HTTP/1.1\r\n\r\n"), Ascii(".")), map[], true)
      == Ascii("HTTP/1.1 404 Not Found") + Ascii("\r\nContent-Type: text/html") + Ascii("\r\nContent-Length: 22")
         + Ascii("\r\nConnection: close\r\n\r\n") + Ascii("<h1>404 Not Found</h1>")
  {
    MissingRoute();
    NotFoundFrame();
  }
}
