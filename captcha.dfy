/**
  The two CAPTCHA detectors: the keyword test `detect_captcha` of the general
  crawler, and the structural probe `solve_captcha_if_needed` of the
  session-aware crawler, which looks for a site-key element and then for the
  invisible-challenge script in the page markup.
*/
module Captcha {
  import opened Wrappers
  import opened Text
  import opened BlockDetection

  /** The keywords `detect_captcha` looks for (a longer list than the classifier's captcha group). */
  const CaptchaKeywords: seq<string> := [
    "captcha", "recaptcha", "challenge", "verify you're human",
    "bot check", "security check", "unusual activity"
  ]

  /** Every keyword of the classifier's captcha group is also a detector keyword. */
  lemma CaptchaWordsAreKeywords(s: string)
    ensures ContainsAny(s, CaptchaWords) ==> ContainsAny(s, CaptchaKeywords)
  {
    if ContainsAny(s, CaptchaWords) {
      var j :| 0 <= j < |CaptchaWords| && Contains(s, CaptchaWords[j]);
      assert CaptchaWords[j] == CaptchaKeywords[j];
    }
  }

  /**
    `detect_captcha(content)`: some keyword occurs in the lower-cased content.
    The verdict does not change when the content is lower-cased first, and
    any keyword of the classifier's captcha group is enough.
  */
  function DetectCaptcha(content: string): (detected: bool)
    ensures detected == ContainsAny(Lower(Lower(content)), CaptchaKeywords)
    ensures ContainsAny(Lower(content), CaptchaWords) ==> detected
  {
    LowerIdempotent(content);
    CaptchaWordsAreKeywords(Lower(content));
    ContainsAny(Lower(content), CaptchaKeywords)
  }

  /** Detection does not depend on letter case. */
  lemma DetectCaptchaIgnoresCase(s: string)
    ensures DetectCaptcha(s) == DetectCaptcha(Lower(s))
  {
    LowerIdempotent(s);
  }

  /** A page the classifier calls a captcha is one the detector flags too. */
  lemma ClassifierCaptchaIsDetected(html: string, text: string)
    requires Classify(Lower(html + text)) == Some(Captcha)
    ensures DetectCaptcha(html + text)
  {
    assert GroupMatches(Lower(html + text), 0);
  }

  /** Groups of the classifier all miss a text without the characters a, r, m, 4, s, i, f, n, j, v and d. */
  lemma BotCheckMissesAllGroups(s: string)
    requires Avoids(s, {'a', 'r', 'm', '4', 's', 'i', 'f', 'n', 'j', 'v', 'd'})
    ensures forall g :: 0 <= g < |BlockKeywords| ==> !GroupMatches(s, g)
  {
    var bad := {'a', 'r', 'm', '4', 's', 'i', 'f', 'n', 'j', 'v', 'd'};
    NoneContained(s, CaptchaWords, [1, 0, 2], bad);
    NoneContained(s, RateLimitWords, [0, 4, 0, 0], bad);
    NoneContained(s, IpBlockedWords, [0, 0, 0, 0], bad);
    NoneContained(s, JsRequiredWords, [1, 0], bad);
    NoneContained(s, BotCheckWords, [0, 4, 0], bad);
  }

  /**
    The two keyword lists disagree: "bot check" is a CAPTCHA for
    `detect_captcha` but no block at all for `detect_block_indicators`.
  */
  lemma BotCheckDetectedButNotBlocked()
    ensures DetectCaptcha("bot check")
    ensures Classify(Lower("bot check")) == None
  {
    var s := "bot check";
    LowerOfLowerCase(s);
    assert OccursAt(s, CaptchaKeywords[4], 0);
    assert Avoids(s, {'a', 'r', 'm', '4', 's', 'i', 'f', 'n', 'j', 'v', 'd'});
    BotCheckMissesAllGroups(s);
    ClassifyIsFirstMatch(s);
  }

  // ---------------------------------------------------------------------------
  // solve_captcha_if_needed
  // ---------------------------------------------------------------------------

  /** The script reference of the invisible challenge. */
  const ChallengeScript: string := "recaptcha/api.js"

  /**
    What the probe sees of a page: the result of querying for an element with a
    site-key attribute, and the page markup; `None` stands for a driver call
    that raises.
  */
  datatype CaptchaPage = CaptchaPage(sitekeyFound: Option<bool>, content: Option<string>)

  /**
    `solve_captcha_if_needed(page)`: a site-key element means a challenge; else
    the challenge script in the markup (matched with its case) means one; a
    driver failure on the way means none.
  */
  function SolveCaptchaIfNeeded(page: CaptchaPage): (detected: bool)
    ensures page.sitekeyFound == Some(true) ==> detected
    ensures page.sitekeyFound.None? ==> !detected
    ensures page.sitekeyFound == Some(false) ==>
              (detected <==> page.content.Some? && Contains(page.content.value, ChallengeScript))
  {
    match page.sitekeyFound
    case None => false
    case Some(found) =>
      if found then true
      else match page.content
        case None => false
        case Some(markup) => Contains(markup, ChallengeScript)
  }

  /**
    Markup that loads the invisible-challenge script always classifies as a
    captcha block: the script name contains "captcha". A page the probe flags
    only through the script therefore never reaches a success response unless
    its markup changed between the probe and the classification.
  */
  lemma ChallengeScriptIsCaptchaBlock(html: string, text: string)
    requires Contains(html, ChallengeScript)
    ensures Classify(Lower(html + text)) == Some(Captcha)
  {
    var i :| 0 <= i <= |html| - |ChallengeScript| && OccursAt(html, ChallengeScript, i);
    var combined := html + text;
    OccursInFront(html, text, ChallengeScript, i);
    PieceOccurs(combined, ChallengeScript, i, 2, 9);
    assert ChallengeScript[2..9] == "captcha";
    LowerKeepsOccurrence(combined, "captcha", i + 2);
    CaptchaKeywordWins(Lower(combined), "captcha");
  }
}
