/** The per-page worker of pkg/scraper/scraper.go (`startScrapingWorker`):
    the outcome of building the request, sending it, checking the status and
    parsing the body is mapped to one result record. The network and the HTML
    parser are foreign code; their outcomes arrive as an `Exchange`. */
module Scraper {
  import opened Wrappers
  import opened Web
  import LinksCounter

  /** The scraper's result for one page. */
  datatype ScrapeResult = ScrapeResult(
    pageURL: string,
    externalLinksNum: nat,
    internalLinksNum: nat,
    success: bool,
    error: Option<string>)

  /** What happened to the request for one page: it could not be built, it
      failed in transport, or a response arrived with a status code and the
      outcome of parsing its body. */
  datatype Exchange =
    | RequestFailed(reason: string)
    | TransportFailed(reason: string)
    | Responded(status: int, document: Result<Node, string>)

  const BadStatusCode := "bad status code"

  /** The end of the worker once the links are counted: a counting error
      still keeps the counts it came with; otherwise the page succeeded. */
  function Settle(pageURL: string, external: nat, internal: nat, err: Option<string>): (r: ScrapeResult)
    ensures r.pageURL == pageURL
    ensures r.externalLinksNum == external && r.internalLinksNum == internal
    ensures Consistent(r)
    ensures r.error == err
  {
    match err
    case Some(e) => ScrapeResult(pageURL, external, internal, false, Some(e))
    case None => ScrapeResult(pageURL, external, internal, true, None)
  }

  /** A well-formed outcome: it succeeded exactly when it carries no error. */
  predicate Consistent(r: ScrapeResult) {
    r.success <==> r.error.None?
  }

  /** `startScrapingWorker`. */
  method StartScrapingWorker(url: Url, exchange: Exchange, parse: Parser) returns (r: ScrapeResult)
    ensures r.pageURL == url.text
    ensures Consistent(r)
    ensures r.success <==> exchange.Responded? && exchange.status < 400 && exchange.document.Ok?
    ensures !r.success ==> r.externalLinksNum == 0 && r.internalLinksNum == 0
    ensures exchange.RequestFailed? || exchange.TransportFailed? ==> r.error == Some(exchange.reason)
    ensures exchange.Responded? && exchange.status >= 400 ==> r.error == Some(BadStatusCode)
    ensures exchange.Responded? && exchange.status < 400 && exchange.document.Err? ==> r.error == Some(exchange.document.error)
    ensures exchange.Responded? && exchange.status < 400 && exchange.document.Ok? ==>
      LinksCounter.Counts(r.externalLinksNum, r.internalLinksNum) == LinksCounter.NodeCounts(url, exchange.document.value, parse)
  {
    r := ScrapeResult(url.text, 0, 0, false, None);
    match exchange {
      case RequestFailed(e) =>
        r := r.(error := Some(e));
      case TransportFailed(e) =>
        r := r.(error := Some(e));
      case Responded(status, document) =>
        if status >= 400 {
          r := r.(error := Some(BadStatusCode));
        } else if document.Err? {
          r := r.(error := Some(document.error));
        } else {
          var external, internal, err := LinksCounter.CountLinks(url, document.value, parse);
          r := Settle(url.text, external, internal, err);
        }
    }
  }
}
