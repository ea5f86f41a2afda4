/**
  The retry loop of `crawl_with_self_hosted`. The browser is an oracle: the
  `driver` function gives, for each attempt number, what that attempt sees —
  an exception, or a rendered page (the CAPTCHA probe's view, the markup, the
  visible text and the selector query's result). Each attempt draws a fresh
  user agent and proxy, classifies the page, and either retries, returns a
  blocked or error response on the final attempt, or returns a success
  response; the session's counters record every attempt.
*/
module Orchestrator {
  import opened Wrappers
  import opened Text
  import opened BlockDetection
  import opened Captcha
  import opened Identity
  import opened Sessions
  import opened Extraction

  /** The fields of `CrawlRequest` the loop reads. */
  datatype CrawlRequest = CrawlRequest(url: string, selector: Option<string>, sessionId: Option<string>, maxRetries: int)

  /** What one attempt sees of the browser. */
  datatype Attempt =
    | Raised(message: string)
    | Rendered(page: CaptchaPage, html: string, text: string, query: SelectorQuery)

  /** The three response shapes, by their `status`. */
  datatype CrawlResponse =
    | Success(url: string, content: string, links: seq<SelectorLink>, captchaDetected: bool,
              blocked: bool, blockType: Option<BlockType>, sessionId: string)
    | Blocked(kind: BlockType, error: string, url: string, sessionId: string)
    | Error(error: string, url: string, sessionId: string, attempts: int)

  /** The user agent and proxy an attempt was launched with. */
  datatype LaunchIdentity = LaunchIdentity(userAgent: string, proxy: Option<string>)

  /** The success response's content is cut to this many characters. */
  const MaxContent: int := 5000

  /** The `session_id` the request is served under: the given one unless absent or empty, else `session_<roll>`. */
  function SessionIdFor(given: Option<string>, roll: nat): (id: string)
    requires 10000 <= roll <= 99999
    ensures id != ""
    ensures given.Some? && given.value != "" ==> id == given.value
    ensures !(given.Some? && given.value != "") ==>
              |id| == 13 && id[..8] == "session_"
              && var digits := id[8..];
                 (forall i :: 0 <= i < |digits| ==> IsDigit(digits[i])) && DecimalValue(digits) == roll
  {
    if given.Some? && given.value != "" then given.value
    else
      FiveDigits(roll);
      DecimalRoundTrip(roll);
      var id := "session_" + Decimal(roll);
      assert id[8..] == Decimal(roll);
      id
  }

  /** The blocked response for kind `t`. */
  function BlockedResponse(t: BlockType, url: string, sid: string): CrawlResponse {
    Blocked(t, "Blocked detected: " + Name(t), url, sid)
  }

  /** The attempt rendered a page the classifier does not flag. */
  predicate Clean(a: Attempt) {
    a.Rendered? && Classify(Lower(a.html + a.text)).None?
  }

  /** Attempt `i` ends the loop: it is the last one, or it succeeds. */
  predicate Ends(req: CrawlRequest, driver: nat -> Attempt, i: nat) {
    i == req.maxRetries - 1 || Clean(driver(i))
  }

  /**
    What attempt `a` returns, if anything: a success on a clean page; on a
    flagged page or an exception, a blocked or error response when it is the
    final attempt and nothing (the loop goes on) otherwise.
  */
  function Respond(req: CrawlRequest, sid: string, a: Attempt, final: bool): (r: Option<CrawlResponse>)
    ensures r.None? <==> !final && !Clean(a)
    ensures r.Some? ==> r.value.url == req.url && r.value.sessionId == sid
    ensures r.Some? && r.value.Success? ==>
              Clean(a) && |r.value.content| <= MaxContent && !r.value.blocked && r.value.blockType.None?
    ensures r.Some? && r.value.Blocked? ==>
              final && a.Rendered? && Classify(Lower(a.html + a.text)) == Some(r.value.kind)
    ensures r.Some? && r.value.Error? ==>
              final && a == Raised(r.value.error) && r.value.attempts == req.maxRetries
  {
    match a
    case Raised(message) =>
      if final then Some(Error(message, req.url, sid, req.maxRetries)) else None
    case Rendered(page, html, text, query) =>
      match Classify(Lower(html + text))
      case Some(t) => if final then Some(BlockedResponse(t, req.url, sid)) else None
      case None =>
        var e := SelectedLinks(req.selector, query, text);
        Some(Success(req.url, SliceTo(e.content, MaxContent), e.links, SolveCaptchaIfNeeded(page), false, None, sid))
  }

  /** The response of the loop run from attempt `i` on. */
  function OutcomeFrom(req: CrawlRequest, sid: string, driver: nat -> Attempt, i: nat): Option<CrawlResponse>
    decreases req.maxRetries - i
  {
    if i >= req.maxRetries then None
    else match Respond(req, sid, driver(i), i == req.maxRetries - 1)
      case Some(r) => Some(r)
      case None => OutcomeFrom(req, sid, driver, i + 1)
  }

  /**
    The handler's response: `None` exactly when the loop body never runs and
    the handler falls off its end; otherwise the response of the first
    attempt that ends the loop.
  */
  function Outcome(req: CrawlRequest, sid: string, driver: nat -> Attempt): (r: Option<CrawlResponse>)
    ensures r.None? <==> req.maxRetries <= 0
    ensures req.maxRetries > 0 ==>
              var k := FirstEnd(req, driver, 0);
              r == Respond(req, sid, driver(k), k == req.maxRetries - 1)
  {
    if req.maxRetries > 0 then
      OutcomeFromIsFirstEnd(req, sid, driver, 0);
      EndingResponds(req, sid, driver, FirstEnd(req, driver, 0));
      OutcomeFrom(req, sid, driver, 0)
    else OutcomeFrom(req, sid, driver, 0)
  }

  /** The first attempt from `i` on that ends the loop. */
  function FirstEnd(req: CrawlRequest, driver: nat -> Attempt, i: nat): (k: nat)
    requires i < req.maxRetries
    ensures i <= k < req.maxRetries && Ends(req, driver, k)
    ensures forall j :: i <= j < k ==> !Ends(req, driver, j)
    decreases req.maxRetries - i
  {
    if Ends(req, driver, i) then i else FirstEnd(req, driver, i + 1)
  }

  /** How many attempts the loop makes. */
  function AttemptsMade(req: CrawlRequest, driver: nat -> Attempt): nat {
    if req.maxRetries <= 0 then 0 else FirstEnd(req, driver, 0) + 1
  }

  /** How many attempts raise or see a flagged page: all of them but a successful last one. */
  function FailedAttempts(req: CrawlRequest, driver: nat -> Attempt): nat {
    if req.maxRetries <= 0 then 0
    else if Clean(driver(FirstEnd(req, driver, 0))) then FirstEnd(req, driver, 0)
    else FirstEnd(req, driver, 0) + 1
  }

  /** An attempt that does not end the loop returns nothing: the loop continues. */
  lemma NonEndingContinues(req: CrawlRequest, sid: string, a: Attempt, i: nat)
    requires i != req.maxRetries - 1 && !Clean(a)
    ensures Respond(req, sid, a, i == req.maxRetries - 1) == None
  {
  }

  /** An attempt that ends the loop returns a response. */
  lemma EndingResponds(req: CrawlRequest, sid: string, driver: nat -> Attempt, i: nat)
    requires Ends(req, driver, i)
    ensures Respond(req, sid, driver(i), i == req.maxRetries - 1).Some?
  {
  }

  /** From attempt `i` on, the loop's response is that of the first attempt that ends it. */
  lemma {:induction false} OutcomeFromIsFirstEnd(req: CrawlRequest, sid: string, driver: nat -> Attempt, i: nat)
    requires i < req.maxRetries
    ensures var k := FirstEnd(req, driver, i);
            OutcomeFrom(req, sid, driver, i) == Respond(req, sid, driver(k), k == req.maxRetries - 1)
    decreases req.maxRetries - i
  {
    if !Ends(req, driver, i) {
      NonEndingContinues(req, sid, driver(i), i);
      OutcomeFromIsFirstEnd(req, sid, driver, i + 1);
    } else {
      EndingResponds(req, sid, driver, i);
    }
  }

  /**
    The loop's response is that of its last attempt, the first one that ends
    it; every earlier attempt raised or saw a flagged page. At most
    `max_retries` attempts are made, and with `max_retries <= 0` none is and
    nothing is returned.
  */
  lemma OutcomeIsLastAttempt(req: CrawlRequest, sid: string, driver: nat -> Attempt)
    ensures AttemptsMade(req, driver) <= Max(0, req.maxRetries)
    ensures Outcome(req, sid, driver).None? <==> req.maxRetries <= 0
    ensures req.maxRetries > 0 ==>
              var k := AttemptsMade(req, driver) - 1;
              Outcome(req, sid, driver) == Respond(req, sid, driver(k), k == req.maxRetries - 1)
              && forall j :: 0 <= j < k ==> !Clean(driver(j))
  {
    if req.maxRetries > 0 {
      var k := FirstEnd(req, driver, 0);
      forall j | 0 <= j < k ensures !Clean(driver(j)) {
        assert !Ends(req, driver, j);
      }
    }
  }

  /** A block or exception before the final attempt moves on to the next attempt. */
  lemma FailureBeforeFinalRetries(req: CrawlRequest, sid: string, driver: nat -> Attempt, i: nat)
    requires i < req.maxRetries - 1 && !Clean(driver(i))
    ensures OutcomeFrom(req, sid, driver, i) == OutcomeFrom(req, sid, driver, i + 1)
  {
  }

  /**
    A blocked response means the final attempt saw a page of that kind; an
    error response means the final attempt raised that message and reports
    `attempts == max_retries`; in both cases every attempt failed.
  */
  lemma FailureResponses(req: CrawlRequest, sid: string, driver: nat -> Attempt)
    requires Outcome(req, sid, driver).Some? && !Outcome(req, sid, driver).value.Success?
    ensures AttemptsMade(req, driver) == req.maxRetries
    ensures FailedAttempts(req, driver) == req.maxRetries
    ensures var last := driver(req.maxRetries - 1);
            match Outcome(req, sid, driver).value
            case Blocked(t, error, url, id) =>
              last.Rendered? && Classify(Lower(last.html + last.text)) == Some(t)
              && error == "Blocked detected: " + Name(t) && url == req.url && id == sid
            case Error(error, url, id, attempts) =>
              last == Raised(error) && attempts == req.maxRetries && url == req.url && id == sid
            case Success(_, _, _, _, _, _, _) => false
  {
    OutcomeIsLastAttempt(req, sid, driver);
  }

  /**
    A success response carries at most 5000 characters of content, is not
    flagged as blocked, and holds the selector extraction and CAPTCHA probe
    of the first clean page; the attempts before it all failed.
  */
  lemma SuccessResponse(req: CrawlRequest, sid: string, driver: nat -> Attempt)
    requires Outcome(req, sid, driver).Some? && Outcome(req, sid, driver).value.Success?
    ensures var r := Outcome(req, sid, driver).value;
            var k := AttemptsMade(req, driver) - 1;
            var a := driver(k);
            |r.content| <= MaxContent && !r.blocked && r.blockType.None?
            && Clean(a) && FailedAttempts(req, driver) == k
            && r.links == SelectedLinks(req.selector, a.query, a.text).links
            && r.content == SliceTo(SelectedLinks(req.selector, a.query, a.text).content, MaxContent)
            && r.captchaDetected == SolveCaptchaIfNeeded(a.page)
            && r.url == req.url && r.sessionId == sid
  {
    OutcomeIsLastAttempt(req, sid, driver);
  }

  /**
    One pass of the loop body of `crawl_with_self_hosted` on attempt outcome
    `a`: probe for a CAPTCHA, classify the page, count a block or an
    exception, and on a clean page extract the selector links and count a
    success. A response is returned exactly when the attempt is final or the
    page is clean.
  */
  method RunAttempt(session: Session, req: CrawlRequest, sid: string, a: Attempt, final: bool)
      returns (resp: Option<CrawlResponse>)
    modifies session
    ensures resp == Respond(req, sid, a, final)
    ensures resp.Some? <==> final || Clean(a)
    ensures session.blockedCount == old(session.blockedCount) + (if Clean(a) then 0 else 1)
    ensures session.successCount == old(session.successCount) + (if Clean(a) then 1 else 0)
    ensures session.requestCount == old(session.requestCount) + (if Clean(a) then 1 else 0)
    ensures session.lastUsed == old(session.lastUsed)
  {
    match a {
      case Raised(message) =>
        session.blockedCount := session.blockedCount + 1;
        if final {
          return Some(Error(message, req.url, sid, req.maxRetries));
        }
        return None;
      case Rendered(page, html, text, query) =>
        var captchaDetected := SolveCaptchaIfNeeded(page);
        var indicators := DetectBlockIndicators(html, text);
        if indicators.blocked {
          session.blockedCount := session.blockedCount + 1;
          if final {
            return Some(BlockedResponse(indicators.blockType.value, req.url, sid));
          }
          return None;
        }
        var content, links := ExtractSelectorLinks(req.selector, query, text);
        session.successCount := session.successCount + 1;
        session.requestCount := session.requestCount + 1;
        return Some(Success(req.url, SliceTo(content, MaxContent), links, captchaDetected,
                            indicators.blocked, indicators.blockType, sid));
    }
  }

  /** The loop of `crawl_with_self_hosted`, run against the `session` it resolved. */
  method RunAttempts(session: Session, req: CrawlRequest, sid: string, driver: nat -> Attempt, proxyPool: seq<string>)
      returns (resp: Option<CrawlResponse>, launches: seq<LaunchIdentity>)
    modifies session
    ensures resp == Outcome(req, sid, driver)
    ensures |launches| == AttemptsMade(req, driver)
    ensures forall i :: 0 <= i < |launches| ==>
              launches[i].userAgent in StealthUserAgents
              && (launches[i].proxy.None? <==> proxyPool == [])
              && (launches[i].proxy.Some? ==> launches[i].proxy.value in proxyPool)
    ensures session.blockedCount == old(session.blockedCount) + FailedAttempts(req, driver)
    ensures resp.Some? && resp.value.Success? ==>
              session.successCount == old(session.successCount) + 1
              && session.requestCount == old(session.requestCount) + 1
    ensures !(resp.Some? && resp.value.Success?) ==>
              session.successCount == old(session.successCount)
              && session.requestCount == old(session.requestCount)
    ensures session.lastUsed == old(session.lastUsed)
  {
    resp := None;
    launches := [];
    var attempt := 0;
    while attempt < req.maxRetries
      invariant 0 <= attempt
      invariant req.maxRetries > 0 ==> attempt < req.maxRetries
      invariant req.maxRetries <= 0 ==> attempt == 0
      invariant forall j :: 0 <= j < attempt ==> !Ends(req, driver, j)
      invariant |launches| == attempt
      invariant forall i :: 0 <= i < |launches| ==>
                  launches[i].userAgent in StealthUserAgents
                  && (launches[i].proxy.None? <==> proxyPool == [])
                  && (launches[i].proxy.Some? ==> launches[i].proxy.value in proxyPool)
      invariant session.blockedCount == old(session.blockedCount) + attempt
      invariant session.successCount == old(session.successCount)
      invariant session.requestCount == old(session.requestCount)
      invariant session.lastUsed == old(session.lastUsed)
      decreases req.maxRetries - attempt
    {
      var userAgent := RandomUserAgent();
      var proxy := RandomProxy(proxyPool);
      launches := launches + [LaunchIdentity(userAgent, proxy)];
      var r := RunAttempt(session, req, sid, driver(attempt), attempt == req.maxRetries - 1);
      if r.Some? {
        assert Ends(req, driver, attempt);
        assert FirstEnd(req, driver, 0) == attempt;
        resp := r;
        return;
      }
      attempt := attempt + 1;
    }
  }

  /**
    `crawl_with_self_hosted(request)`: resolve the session id (`roll` stands
    for the random five-digit suffix), fetch or create that session, and run
    the attempt loop on it. Sessions stored under other ids keep their
    counters.
  */
  method CrawlWithSelfHosted(registry: SessionRegistry, req: CrawlRequest, roll: nat, now: int,
                             driver: nat -> Attempt, proxyPool: seq<string>)
      returns (resp: Option<CrawlResponse>, launches: seq<LaunchIdentity>)
    requires registry.Valid()
    requires 10000 <= roll <= 99999
    modifies registry, registry.storage.Values
    ensures registry.Valid()
    ensures var sid := SessionIdFor(req.sessionId, roll);
            && sid in registry.storage
            && registry.storage == old(registry.storage)[sid := registry.storage[sid]]
            && resp == Outcome(req, sid, driver)
            && |launches| == AttemptsMade(req, driver)
    ensures var sid := SessionIdFor(req.sessionId, roll);
            var s := registry.storage[sid];
            var success := if resp.Some? && resp.value.Success? then 1 else 0;
            if sid in old(registry.storage) then
              s == old(registry.storage[sid])
              && s.lastUsed == old(registry.storage[sid].lastUsed)
              && s.blockedCount == old(registry.storage[sid].blockedCount) + FailedAttempts(req, driver)
              && s.successCount == old(registry.storage[sid].successCount) + success
              && s.requestCount == old(registry.storage[sid].requestCount) + success
            else
              s.createdAt == now && s.lastUsed == now
              && s.blockedCount == FailedAttempts(req, driver)
              && s.successCount == success && s.requestCount == success
    ensures forall k :: k in old(registry.storage) && k != SessionIdFor(req.sessionId, roll) ==>
              registry.storage[k] == old(registry.storage[k])
              && registry.storage[k].lastUsed == old(registry.storage[k].lastUsed)
              && registry.storage[k].blockedCount == old(registry.storage[k].blockedCount)
              && registry.storage[k].successCount == old(registry.storage[k].successCount)
              && registry.storage[k].requestCount == old(registry.storage[k].requestCount)
  {
    var sid := SessionIdFor(req.sessionId, roll);
    var session := registry.GetOrCreate(sid, now);
    resp, launches := RunAttempts(session, req, sid, driver, proxyPool);
  }

  // ---------------------------------------------------------------------------
  // Scenarios
  // ---------------------------------------------------------------------------

  /** A clean page on the only attempt: a success after one attempt and no failures. */
  lemma CleanFirstAttempt(req: CrawlRequest, sid: string, driver: nat -> Attempt)
    requires req.maxRetries == 1 && Clean(driver(0))
    ensures Outcome(req, sid, driver).Some? && Outcome(req, sid, driver).value.Success?
    ensures AttemptsMade(req, driver) == 1 && FailedAttempts(req, driver) == 0
  {
    OutcomeIsLastAttempt(req, sid, driver);
  }

  /** A flagged page and then a clean one, with two attempts allowed: a success on the second attempt. */
  lemma BlockedThenClean(req: CrawlRequest, sid: string, driver: nat -> Attempt)
    requires req.maxRetries == 2 && !Clean(driver(0)) && Clean(driver(1))
    ensures Outcome(req, sid, driver).Some? && Outcome(req, sid, driver).value.Success?
    ensures AttemptsMade(req, driver) == 2 && FailedAttempts(req, driver) == 1
  {
    assert FirstEnd(req, driver, 0) == 1;
    OutcomeIsLastAttempt(req, sid, driver);
  }

  /**
    Three attempts that each show "captcha" in the lower-cased page: a
    captcha block after three attempts, all counted as blocked.
  */
  lemma CaptchaEveryAttempt(req: CrawlRequest, sid: string, driver: nat -> Attempt)
    requires req.maxRetries == 3
    requires forall i :: 0 <= i < 3 ==>
               driver(i).Rendered? && Contains(Lower(driver(i).html + driver(i).text), "captcha")
    ensures Outcome(req, sid, driver) == Some(BlockedResponse(Captcha, req.url, sid))
    ensures AttemptsMade(req, driver) == 3 && FailedAttempts(req, driver) == 3
  {
    forall i | 0 <= i < 3
      ensures Classify(Lower(driver(i).html + driver(i).text)) == Some(Captcha)
    {
      CaptchaKeywordWins(Lower(driver(i).html + driver(i).text), "captcha");
    }
    assert FirstEnd(req, driver, 2) == 2;
    assert FirstEnd(req, driver, 1) == 2;
    assert FirstEnd(req, driver, 0) == 2;
    OutcomeIsLastAttempt(req, sid, driver);
  }

  /** Every attempt raising: an error response reporting `max_retries` attempts. */
  lemma AlwaysRaising(req: CrawlRequest, sid: string, driver: nat -> Attempt, message: string)
    requires req.maxRetries > 0
    requires forall i :: 0 <= i < req.maxRetries ==> driver(i).Raised?
    requires driver(req.maxRetries - 1) == Raised(message)
    ensures Outcome(req, sid, driver) == Some(Error(message, req.url, sid, req.maxRetries))
    ensures FailedAttempts(req, driver) == req.maxRetries
  {
    OutcomeIsLastAttempt(req, sid, driver);
  }
}
