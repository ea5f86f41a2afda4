# Scraping resilience engine, modelled in Dafny

This project models the decision logic of a Playwright-based scraping
service: two FastAPI handlers that drive a headless browser. The browser
itself is not modelled. Every driver call is replaced by data handed to the
model: an `Attempt` per attempt number for the session-aware crawler, a
`PageLoad` for the general crawler, and element handles that either read or
raise.

What is modelled:

- **Block classifier** (`detect_block_indicators`): the markup and visible
  text are lower-cased together and searched for the keywords of five groups,
  tried in the order captcha, rate_limit, ip_blocked, js_required, bot_check.
  The first matching group names the block (`block_detection.dfy`).
- **CAPTCHA detectors**: the general crawler's seven-keyword `detect_captcha`
  and the session-aware crawler's structural probe `solve_captcha_if_needed`.
  The probe checks for a site-key element, then for the challenge script in
  the markup (`captcha.dfy`).
- **Identity choice**: a user agent from a fixed pool and a proxy from the
  configured pool, or no proxy when the pool is empty (`identity.dfy`).
- **Sessions**: `BrowserSession` counters, the `SESSION_STORAGE` registry
  with `get_or_create_session`, and the `should_rotate` predicate
  (`sessions.dfy`).
- **Extraction**: the `"text: href"` links of the first 100 selector
  matches, the newline-joined texts of all matches, the anchor-link list
  capped at 50, and the job-card selector fallback (`extraction.dfy`).
- **Retry loop** of `crawl_with_self_hosted`, with the session counters it
  updates and the three response shapes it returns (`orchestrator.dfy`).
- **`crawl_page`**, the general crawler's single-attempt handler
  (`general_crawl.dfy`).

Shared pieces: `wrappers.dfy` (an `Option` type) and `text.dfy` (ASCII lower
case, substring search, Python's `strip` and JavaScript's `trim` with their
own white-space sets, `join`, `s[:n]`, and decimal rendering).

Time is an integer clock in microseconds. The two-hour rotation age is
therefore 7,200,000,000. Random choices are modelled as an arbitrary member of
the pool (`:|`). The random five-digit session suffix is a parameter `roll`.

Notable behaviours of the code, which the model keeps:

- the classifier's captcha group has only three keywords
  (playwright_enhanced_withSession.py:198);
- there is no session reset, and `last_used` is never updated after creation;
- failed attempts, whether blocked pages or exceptions, increment only
  `blocked_count`; `request_count` moves only on success;
- the success and blocked responses carry no attempt count; only the error
  response has `attempts`, and it is always `max_retries`;
- with `max_retries <= 0` the handler returns nothing;
- a selector that matches nothing yields empty content in `crawl_page`, not
  the page text;
- when no job-card selector matches, the card list is empty; there is no
  fallback to page text.

## Model

| member | source | states |
|---|---|---|
| BlockDetection.DetectBlockIndicators | playwright_enhanced_withSession.py:189-213 | `blocked` holds exactly when some keyword of some group occurs in the lower-cased `html + text`, and exactly when a block type is set. The type set is the first matching group in table order. `retry_after` is always absent. |
| BlockDetection.FirstMatchingIsFirst | playwright_enhanced_withSession.py:207-211 | Trying the groups in order yields nothing exactly when no group matches. Otherwise it yields the kind of a matching group that no earlier group precedes. |
| BlockDetection.TableFirstMatch | playwright_enhanced_withSession.py:197-211 | Over the keyword table, the search finds nothing exactly when no group matches. Otherwise the kind it finds labels a group that matches with no earlier group matching. |
| BlockDetection.Classify | playwright_enhanced_withSession.py:205-211 | The classification of the lower-cased page is absent exactly when no group matches. A kind it names is that of the first matching group. |
| BlockDetection.ClassifyIsFirstMatch | playwright_enhanced_withSession.py:197-211 | Priority: kind `t` is chosen exactly when the group of `t` matches and no earlier group does. No kind is chosen exactly when no group matches. |
| BlockDetection.CaptchaKeywordWins | playwright_enhanced_withSession.py:198-211 | A captcha-group keyword in the page makes it a captcha block, whatever else the page holds (e.g. also "403"). |
| BlockDetection.ClassifyAs | playwright_enhanced_withSession.py:207-211 | If a kind's group is the first to match, the classifier names that kind. |
| BlockDetection.VerifyHumanMissesEarlierGroups | playwright_enhanced_withSession.py:198-201 | Text lacking the characters c, l, t, 4, s, p, b and j matches none of the first four groups. |
| BlockDetection.VerifyHumanIsBotCheck | playwright_enhanced_withSession.py:197-211 | "verify you're human" on its own is classified bot_check, not captcha. |
| Captcha.CaptchaWordsAreKeywords | playwright-general.py:37-40 | Any keyword of the classifier's captcha group (playwright_enhanced_withSession.py:198) occurring in a text means a detector keyword occurs too. |
| Captcha.DetectCaptcha | playwright-general.py:35-42 | The verdict is unchanged when the content is lower-cased first. Any keyword of the classifier's captcha group in the lower-cased content is enough. |
| Captcha.DetectCaptchaIgnoresCase | playwright-general.py:35-42 | `detect_captcha(s)` equals `detect_captcha(lower(s))`. |
| Captcha.ClassifierCaptchaIsDetected | playwright-general.py:37-42 | A page the classifier calls a captcha block is also flagged by `detect_captcha`. Its three captcha keywords are among the detector's seven. |
| Captcha.BotCheckMissesAllGroups | playwright_enhanced_withSession.py:197-203 | Text lacking the characters a, r, m, 4, s, i, f, n, j, v and d matches no classifier group. |
| Captcha.BotCheckDetectedButNotBlocked | playwright-general.py:37-42 | "bot check" is a CAPTCHA for `detect_captcha` but matches no group of `detect_block_indicators`. The two keyword lists disagree. |
| Captcha.SolveCaptchaIfNeeded | playwright_enhanced_withSession.py:156-185 | A site-key element means a CAPTCHA. Otherwise the challenge script must appear in the markup, case-sensitively. A driver call that raises means none. |
| Captcha.ChallengeScriptIsCaptchaBlock | playwright_enhanced_withSession.py:176-177 | Markup containing `recaptcha/api.js` is always classified as a captcha block, because the script name contains "captcha". |
| Identity.RandomUserAgent | playwright_enhanced_withSession.py:128-129 | The user agent is one of the five stealth user agents. |
| Identity.RandomProxy | playwright_enhanced_withSession.py:57-60 | No proxy exactly when the pool is empty. Otherwise the proxy is a member of the pool. |
| Sessions.RotationDue | playwright_enhanced_withSession.py:144-147 | Within two hours (7,200,000,000 microseconds), rotation is due exactly from the 51st request on. Past two hours, it is due at any count. |
| Sessions.Session.ShouldRotate | playwright_enhanced_withSession.py:144-147 | Rotation is due when more than 50 requests were served or more than two hours passed since creation. It is not due when neither holds. |
| Sessions.RotationThreshold | playwright_enhanced_withSession.py:144-147 | With age within two hours, 50 requests do not call for rotation and 51 do. Past two hours, rotation is due at any count. |
| Sessions.RotationMonotone | playwright_enhanced_withSession.py:144-147 | Once rotation is due, it stays due as the count and the age grow. |
| Sessions.Session.constructor | playwright_enhanced_withSession.py:136-142 | A new session has the given id, creation and last-used time `now`, and all three counters zero. |
| Sessions.SessionRegistry.constructor | playwright_enhanced_withSession.py:133 | The registry starts empty. |
| Sessions.SessionRegistry.GetOrCreate | playwright_enhanced_withSession.py:149-152 | Returns the session stored under the id. If the id is known, the map is unchanged. If it is new, exactly one fresh session, created and last used at `now` with zero counters, is added under it. Every session stays stored under its own id. |
| Sessions.DistinctKeysDistinctSessions | playwright_enhanced_withSession.py:149-152 | Distinct ids hold distinct session objects, so updating one session leaves the others alone. |
| Sessions.GetOrCreateTwice | playwright_enhanced_withSession.py:149-152 | Idempotence: a second call with the same id returns the same session and changes nothing more. |
| Extraction.HrefLinks | playwright_enhanced_withSession.py:545-547 | There are at most as many links as elements, and every link has a non-empty href. |
| Extraction.HrefLinksAppend | playwright_enhanced_withSession.py:542-547 | Link extraction distributes over concatenation, so links keep their elements' order. |
| Extraction.HrefLinksMembership | playwright_enhanced_withSession.py:545-547 | A link is extracted exactly when some element has a non-empty href and yields that stripped text and href. |
| Extraction.ExtractSelectorLinks | playwright_enhanced_withSession.py:536-549 | The element loop equals the specification `SelectedLinks`. No selector, or a query that raises, gives the page text and no links. Otherwise it gives the links of the readable prefix of the first 100 matches. Their joined `"text: href"` lines are the content, unless a read raised; then the content is the page text and the links read so far are kept. |
| Extraction.SelectedLinks | playwright_enhanced_withSession.py:536-549 | No selector, or a query that raises, gives the page text and no links. When every one of the first 100 matches can be read, the content is the newline-joined `"text: href"` lines of the links. When one of them cannot, the content stays the page text. |
| Extraction.SelectedLinksFromWindow | playwright_enhanced_withSession.py:541-547 | There are at most 100 links, each from one of the first 100 matched elements with a non-empty href. |
| Extraction.SelectedText | playwright-general.py:109-120 | No selector, or a query that raises, gives the page text. So does a match whose text cannot be read, anywhere in the list. When every match can be read, the content is their texts joined by newlines. |
| Extraction.SelectContent | playwright-general.py:109-120 | The element loop equals `SelectedText`: no selector gives the page text; every match readable gives their texts joined by newlines; a query or read that raises gives the page text. |
| Extraction.NoMatchesGiveEmptyContent | playwright-general.py:111-118 | A selector that matches nothing gives the empty content, not the page text. |
| Extraction.TwoHeadlines | playwright-general.py:113-118 | Matches with texts "A" and "B" give "A\nB". |
| Extraction.UnreadableMatchGivesPageText | playwright-general.py:115-120 | A match whose text cannot be read, anywhere in the list, makes the content the page text. |
| Extraction.KeptLinks | playwright-general.py:96-102 | No more links than anchors, and every kept link has non-empty text and href. |
| Extraction.KeptLinksAppend | playwright-general.py:96-102 | Filtering distributes over concatenation, so links keep anchor order. |
| Extraction.KeptLinksMembership | playwright-general.py:97-102 | A link is kept exactly when it has non-empty text and href and is the trimmed form of some anchor. |
| Extraction.PageLinks | playwright-general.py:94-105 | At most 50 links, a prefix of the kept links. All of them are returned when at most 50 qualify, and exactly 50 otherwise. |
| Extraction.KeptLinkEntry | playwright-general.py:97-102 | A kept link has non-empty text with no JavaScript white space at either end, a non-empty href, and comes from an anchor. |
| Extraction.PageLinksEntries | playwright-general.py:94-105 | Every returned link has non-empty text with no white space at either end and a non-empty href, and is the trimmed form of some anchor. |
| Extraction.FindJobCards | playwright_enhanced_withSession.py:358-371 | The cards are empty exactly when every selector matches nothing. Otherwise they are the matches of the first selector that matches anything, and all earlier selectors matched nothing. |
| Extraction.JobCardsToProcess | playwright_enhanced_withSession.py:358-381 | At most `max_jobs` cards are processed. When some selector matches, the cards are `[:max_jobs]` of the matches of the first selector that matches anything. When none matches, there are no cards. |
| Text.StripDiffersOnSeparators | playwright_enhanced_withSession.py:546 | Python's `strip` removes the information separator U+001C, while JavaScript's `trim` (playwright-general.py:98) keeps it. |
| Text.StripRemovesOnlySpace | playwright_enhanced_withSession.py:546 | Stripping removes only white space: the result occurs in the input between two runs of white-space characters. |
| Orchestrator.SessionIdFor | playwright_enhanced_withSession.py:417 | A given non-empty session id is kept. An absent or empty one becomes `session_` followed by five digits that read back as the random roll. The result is never empty. |
| Orchestrator.Respond | playwright_enhanced_withSession.py:516-584 | One attempt returns nothing exactly when it is not final and its page is not clean. A success needs a clean page, carries at most 5000 characters and `blocked` false. A blocked response needs a final attempt whose page the classifier flags as that kind. An error response needs a final attempt that raised that message, with `attempts == max_retries`. Every response carries the request's URL and session id. |
| Orchestrator.FirstEnd | playwright_enhanced_withSession.py:520-534 | The first attempt that ends the loop (the final one, or the first clean page) lies within `max_retries`. No earlier attempt ends it. |
| Orchestrator.NonEndingContinues | playwright_enhanced_withSession.py:518-525 | A blocked page or an exception before the final attempt returns no response. |
| Orchestrator.EndingResponds | playwright_enhanced_withSession.py:518-586 | A clean page, or any outcome on the final attempt, returns a response. |
| Orchestrator.OutcomeFromIsFirstEnd | playwright_enhanced_withSession.py:420-586 | The response of the loop from attempt `i` on is the response of the first attempt that ends it. |
| Orchestrator.Outcome | playwright_enhanced_withSession.py:420-586 | The handler returns nothing exactly when `max_retries <= 0`. Otherwise it returns the response of the first attempt that is clean or final. |
| Orchestrator.OutcomeIsLastAttempt | playwright_enhanced_withSession.py:420-586 | At most `max(0, max_retries)` attempts are made. Nothing is returned exactly when `max_retries <= 0`. Otherwise the response is that of the last attempt made, and every earlier attempt failed. |
| Orchestrator.FailureBeforeFinalRetries | playwright_enhanced_withSession.py:520-525 | A block or exception on a non-final attempt continues with the next attempt. |
| Orchestrator.FailureResponses | playwright_enhanced_withSession.py:526-534 | A blocked response means all `max_retries` attempts failed and the final one showed a page of that kind, with error "Blocked detected: <kind>". An error response means the final attempt raised that message, and it reports `attempts == max_retries`. |
| Orchestrator.SuccessResponse | playwright_enhanced_withSession.py:536-566 | A success response has at most 5000 characters of content and `blocked` false with no block type. It carries the selector extraction and CAPTCHA probe of the first clean page. Every earlier attempt failed. |
| Orchestrator.RunAttempt | playwright_enhanced_withSession.py:421-586 | One pass of the loop body returns `Respond` for its attempt: a response exactly when the attempt is final or the page is clean. A clean page adds one to `success_count` and `request_count`. A block or exception adds one to `blocked_count` and nothing else. `last_used` is unchanged. |
| Orchestrator.RunAttempts | playwright_enhanced_withSession.py:420-586 | The loop returns `Outcome` and makes `AttemptsMade` launches, each with a pooled user agent and proxy. `blocked_count` grows by the failed attempts. `success_count` and `request_count` grow by one on success and are unchanged otherwise. `last_used` is unchanged. |
| Orchestrator.CrawlWithSelfHosted | playwright_enhanced_withSession.py:407-586 | The request is served under the resolved session id, created if new, and the response is `Outcome`. The counters of that session move as in `RunAttempts`, and its `last_used` stays as it was, or is `now` for a new session. Sessions under other ids keep their counters and `last_used`. |
| Orchestrator.CleanFirstAttempt | playwright_enhanced_withSession.py:420-566 | With one attempt allowed and a clean page, the result is a success after one attempt with no failures. |
| Orchestrator.BlockedThenClean | playwright_enhanced_withSession.py:420-566 | With two attempts allowed, a blocked first page and a clean second page give a success after two attempts, one of them failed. |
| Orchestrator.CaptchaEveryAttempt | playwright_enhanced_withSession.py:420-534 | With three attempts allowed and "captcha" in every page, the result is a captcha block after three attempts, all counted as blocked. |
| Orchestrator.AlwaysRaising | playwright_enhanced_withSession.py:568-584 | If every attempt raises, the result is an error with the final message, reporting `max_retries` attempts, all counted as blocked. |
| GeneralCrawl.CrawlPage | playwright-general.py:44-139 | An error response with the message exactly when the load raises. Otherwise a success response whose content is `SelectedText`, whose links are `PageLinks` of the anchors, and whose CAPTCHA flag is `detect_captcha(html + text)`, with a user agent from the pool. |

## Left out

- Text.Lower: lower-cases ASCII letters only. Python's `str.lower` also folds non-ASCII letters, so keyword matches that depend on such letters are not captured.
- Browser driver calls (launch, `new_context`, `goto`, `evaluate`, `route`, `wait_for_timeout`, `close`) are abstracted. Their results are the `Attempt`, `PageLoad`, `CaptchaPage`, `SelectorQuery` and `Element` values. A `close()` that raises is not one of them; the two `Orchestrator.RunAttempts` lines below on `close()` say what that leaves out.
- Orchestrator.RunAttempts: the user agent and proxy of an attempt are recorded but do not influence what the driver returns, since the driver is external.
- Orchestrator.RunAttempts: a `close()` that raises after a block or success has been counted sends control to the exception handler. That handler counts the attempt again as blocked and may retry. This double counting is not modelled.
- Orchestrator.RunAttempts: a `close()` that raises inside the exception handler (playwright_enhanced_withSession.py:571-574) escapes `crawl_with_self_hosted`. `blocked_count` has already been incremented, no response is returned, and the later attempts never run. The model has no such attempt, so `Orchestrator.Outcome` returns a response whenever `max_retries > 0`.
- Timing: random delays, backoff sleeps and scrolling (`asyncio.sleep`, `random.uniform`, `apply_human_behavior`) have no effect on the logic and are left out. So is `add_delays`.
- `STEALTH_JS` and the other injected scripts run inside the browser. Only the anchor-link filter script is modelled.
- FastAPI wiring, `/health`, `/routes`, request validation and logging are left out.
- `login_and_save_session` and `linkedin_authenticated_scrape` are left out. They consist of interactive login, file I/O and driver calls.
- The per-card field scraping of `linkedin_enhanced_scrape` is driver calls only, so it is left out. The model stops at the cards it would process.
- Extraction.FindJobCards: a `query_selector_all` that raises inside the selector loop of `linkedin_enhanced_scrape` (playwright_enhanced_withSession.py:366-371) escapes that function. The query is modelled as total.
- The proxy pool literal in `ProxyConfig` is not valid Python, so the pool is a parameter.
- Concurrent requests interleaving on `SESSION_STORAGE` under asyncio are not modelled. The registry is updated sequentially.
- `should_rotate` is modelled (`Sessions.Session.ShouldRotate`) but never called by the handlers, as in the code.
