/**
  `crawl_page`, the single-attempt handler of the general crawler: one user
  agent drawn from its own pool, one page load, and a response built from the
  page's markup, text, anchors and selector matches. Any exception that
  escapes the handler becomes an error response.
*/
module GeneralCrawl {
  import opened Wrappers
  import opened Text
  import opened Captcha
  import opened Extraction

  /** The general crawler's `USER_AGENTS`. */
  const GeneralUserAgents: seq<string> := [
    "Mozilla/5.0 (Windows NT 10.0; Win64; x64) AppleWebKit/537.36 (KHTML, like Gecko) Chrome/120.0.0.0 Safari/537.36",
    "Mozilla/5.0 (Macintosh; Intel Mac OS X 10_15_7) AppleWebKit/537.36 (KHTML, like Gecko) Chrome/120.0.0.0 Safari/537.36",
    "Mozilla/5.0 (X11; Linux x86_64) AppleWebKit/537.36 (KHTML, like Gecko) Chrome/120.0.0.0 Safari/537.36",
    "Mozilla/5.0 (Windows NT 10.0; Win64; x64; rv:122.0) Gecko/20100101 Firefox/122.0",
    "Mozilla/5.0 (Macintosh; Intel Mac OS X 10_15_7) AppleWebKit/605.1.15 (KHTML, like Gecko) Version/17.1 Safari/605.1.15"
  ]

  /**
    What the browser gives the handler: an exception that escapes (launch,
    context, content or anchor evaluation failing), or the page's markup,
    visible text, anchors and the selector query's result.
  */
  datatype PageLoad =
    | LoadFailed(message: string)
    | Loaded(html: string, text: string, anchors: seq<Anchor>, query: SelectorQuery)

  /** The two response shapes, by their `status`. */
  datatype PageResponse =
    | PageSuccess(content: string, url: string, links: seq<PageLink>, captchaDetected: bool, userAgent: string)
    | PageError(errorMessage: string, url: string)

  /**
    `crawl_page(request)`: an error response carrying the message when the
    load raises; otherwise a success response with the selected content, the
    filtered anchor links, the keyword CAPTCHA verdict on markup and text
    together, and the user agent drawn from the pool.
  */
  method CrawlPage(url: string, selector: Option<string>, load: PageLoad) returns (resp: PageResponse)
    ensures resp.PageError? <==> load.LoadFailed?
    ensures load.LoadFailed? ==> resp == PageError(load.message, url)
    ensures load.Loaded? ==>
              && resp.url == url
              && resp.content == SelectedText(selector, load.query, load.text)
              && resp.links == PageLinks(load.anchors)
              && resp.captchaDetected == DetectCaptcha(load.html + load.text)
              && resp.userAgent in GeneralUserAgents
  {
    match load
    case LoadFailed(message) =>
      resp := PageError(message, url);
    case Loaded(html, text, anchors, query) =>
      assert GeneralUserAgents[0] in GeneralUserAgents;
      var userAgent :| userAgent in GeneralUserAgents;
      var links := PageLinks(anchors);
      var captchaDetected := DetectCaptcha(html + text);
      var content := SelectContent(selector, query, text);
      resp := PageSuccess(content, url, links, captchaDetected, userAgent);
  }
}
