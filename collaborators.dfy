/** The code the crawl-and-probe engine calls but does not own, as data it is handed: urllib's
    reference resolution and query handling, BeautifulSoup's view of a document, the HTTP client
    and the Playwright renderer. Each is a total function; a call that raises is `None`. */
module Collaborators {
  import opened Wrappers
  import opened Strings

  /** What the crawlers read from a parsed page: the `href` of every `<a>` element (`None` when
      the attribute is absent) and the value of every `routerlink` attribute, in document order. */
  datatype Document = Document(anchors: seq<Option<string>>, routerLinks: seq<string>)

  /** urllib and BeautifulSoup, uninterpreted.
      - `urljoin(base, ref)`: reference resolution (section 5.2 of RFC 3986);
      - `queryPairs(url)`: `parse_qsl(urlparse(url).query, keep_blank_values=True)`;
      - `withQuery(url, pairs)`: `urlunparse(urlparse(url)._replace(query=urlencode(pairs, doseq=True)))`;
      - `parseHtml(text)`: `BeautifulSoup(text, "html.parser")`, as the document above. */
  datatype UrlLib = UrlLib(
    urljoin: (string, string) -> string,
    queryPairs: string -> seq<(string, string)>,
    withQuery: (string, seq<(string, string)>) -> string,
    parseHtml: string -> Document)

  /** urllib's query round trip: parsing the query of a URL whose query `withQuery` wrote gives
      back the pairs written (`parse_qsl(urlencode(pairs))`, blank values kept). */
  ghost predicate QueryRoundTrips(lib: UrlLib) {
    forall url, pairs :: lib.queryPairs(lib.withQuery(url, pairs)) == pairs
  }

  /** A response of `HttpClient.get`: its `Content-Type` header, if any, and its body text. */
  datatype Response = Response(contentType: Option<string>, text: string)

  /** `"text/html" in response.headers.get("Content-Type", "")`. */
  predicate IsHtml(r: Response) {
    Contains(r.contentType.GetOr(""), "text/html")
  }

  /** The HTTP client: `get` is `None` when the request raises; `sameDomain` is its rule
      "the netloc is empty or equals the base URL's netloc". */
  datatype HttpClient = HttpClient(get: string -> Option<Response>, sameDomain: string -> bool)

  /** What `JSRenderer.render` returns: the page HTML and the URL after redirects. */
  datatype Rendered = Rendered(html: string, finalUrl: string)

  /** The JavaScript renderer: `render` is `None` when navigation or rendering raises. */
  datatype JsRenderer = JsRenderer(render: string -> Option<Rendered>)
}
