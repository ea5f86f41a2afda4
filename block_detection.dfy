/**
  The block classifier (`detect_block_indicators`): the rendered markup and
  visible text are lower-cased together and searched for the keywords of a
  fixed table of groups; the first group in table order with a keyword in
  the page names the kind of block.
*/
module BlockDetection {
  import opened Wrappers
  import opened Text

  /** The kinds of defensive response the classifier recognises. */
  datatype BlockType = Captcha | RateLimit | IpBlocked | JsRequired | BotCheck

  /** The key under which the source names each kind. */
  function Name(t: BlockType): string {
    match t
    case Captcha => "captcha"
    case RateLimit => "rate_limit"
    case IpBlocked => "ip_blocked"
    case JsRequired => "js_required"
    case BotCheck => "bot_check"
  }

  /** The `indicators` record the classifier returns. */
  datatype Indicators = Indicators(blocked: bool, blockType: Option<BlockType>, retryAfter: Option<nat>)

  datatype KeywordGroup = Group(kind: BlockType, keywords: seq<string>)

  const CaptchaWords: seq<string> := ["captcha", "recaptcha", "challenge"]
  const RateLimitWords: seq<string> := ["rate limit", "too many requests", "429", "slow down"]
  const IpBlockedWords: seq<string> := ["access denied", "ip blocked", "forbidden", "403"]
  const JsRequiredWords: seq<string> := ["enable javascript", "js required"]
  const BotCheckWords: seq<string> := ["verify you're human", "bot detection", "automated access"]

  /** The keyword table, in the order the groups are tried. */
  const BlockKeywords: seq<KeywordGroup> := [
    Group(Captcha, CaptchaWords),
    Group(RateLimit, RateLimitWords),
    Group(IpBlocked, IpBlockedWords),
    Group(JsRequired, JsRequiredWords),
    Group(BotCheck, BotCheckWords)
  ]

  /** Some keyword of group `g` occurs in `combined`. */
  predicate GroupMatches(combined: string, g: nat)
    requires g < |BlockKeywords|
  {
    ContainsAny(combined, BlockKeywords[g].keywords)
  }

  /** Group `g` is the first group of the table that matches `combined`. */
  predicate FirstMatch(combined: string, g: nat)
    requires g < |BlockKeywords|
  {
    GroupMatches(combined, g) && forall h :: 0 <= h < g ==> !GroupMatches(combined, h)
  }

  /** Each kind labels exactly one group, the one at its own index. */
  function IndexOf(t: BlockType): (g: nat)
    ensures g < |BlockKeywords| && BlockKeywords[g].kind == t
  {
    match t
    case Captcha => 0
    case RateLimit => 1
    case IpBlocked => 2
    case JsRequired => 3
    case BotCheck => 4
  }

  /** The kind of block `combined` shows, trying `groups` in order. */
  function FirstMatching(combined: string, groups: seq<KeywordGroup>): Option<BlockType> {
    if groups == [] then None
    else if ContainsAny(combined, groups[0].keywords) then Some(groups[0].kind)
    else FirstMatching(combined, groups[1..])
  }

  /**
    The classification of the lower-cased page content `combined`: nothing
    when no group matches, otherwise the kind of the first group that does.
  */
  function Classify(combined: string): (r: Option<BlockType>)
    ensures r.None? <==> forall g :: 0 <= g < |BlockKeywords| ==> !GroupMatches(combined, g)
    ensures r.Some? ==> FirstMatch(combined, IndexOf(r.value))
  {
    TableFirstMatch(combined);
    FirstMatching(combined, BlockKeywords)
  }

  /** `detect_block_indicators(html, text)` */
  method DetectBlockIndicators(html: string, text: string) returns (ind: Indicators)
    ensures ind.blocked <==> exists g :: 0 <= g < |BlockKeywords| && GroupMatches(Lower(html + text), g)
    ensures ind.blocked <==> ind.blockType.Some?
    ensures ind.blockType.Some? ==> FirstMatch(Lower(html + text), IndexOf(ind.blockType.value))
    ensures ind.retryAfter == None
    ensures ind.blockType == Classify(Lower(html + text))
  {
    ind := Indicators(false, None, None);
    var combined := Lower(html + text);
    var g := 0;
    while g < |BlockKeywords|
      invariant 0 <= g <= |BlockKeywords|
      invariant ind == Indicators(false, None, None)
      invariant forall h :: 0 <= h < g ==> !GroupMatches(combined, h)
    {
      if ContainsAny(combined, BlockKeywords[g].keywords) {
        ind := ind.(blocked := true, blockType := Some(BlockKeywords[g].kind));
        assert GroupMatches(combined, g) && IndexOf(BlockKeywords[g].kind) == g;
        break;
      }
      g := g + 1;
    }
    ClassifyIsFirstMatch(combined);
  }

  /** The recursive classification agrees with the loop: it is the first matching group. */
  lemma {:induction false} FirstMatchingIsFirst(combined: string, groups: seq<KeywordGroup>)
    ensures FirstMatching(combined, groups).None? <==>
            forall g :: 0 <= g < |groups| ==> !ContainsAny(combined, groups[g].keywords)
    ensures FirstMatching(combined, groups).Some? ==>
            exists g :: 0 <= g < |groups| && groups[g].kind == FirstMatching(combined, groups).value
                   && ContainsAny(combined, groups[g].keywords)
                   && forall h :: 0 <= h < g ==> !ContainsAny(combined, groups[h].keywords)
  {
    if groups != [] && !ContainsAny(combined, groups[0].keywords) {
      FirstMatchingIsFirst(combined, groups[1..]);
      if FirstMatching(combined, groups).Some? {
        var g :| 0 <= g < |groups[1..]| && groups[1..][g].kind == FirstMatching(combined, groups).value
                 && ContainsAny(combined, groups[1..][g].keywords)
                 && forall h :: 0 <= h < g ==> !ContainsAny(combined, groups[1..][h].keywords);
        assert groups[g + 1] == groups[1..][g];
        assert forall h :: 1 <= h < g + 1 ==> groups[h] == groups[1..][h - 1];
      }
    }
  }

  /** Over the keyword table, the recursive search finds the first matching group, named by its kind. */
  lemma TableFirstMatch(combined: string)
    ensures FirstMatching(combined, BlockKeywords).None? <==>
            forall g :: 0 <= g < |BlockKeywords| ==> !GroupMatches(combined, g)
    ensures FirstMatching(combined, BlockKeywords).Some? ==>
            FirstMatch(combined, IndexOf(FirstMatching(combined, BlockKeywords).value))
  {
    FirstMatchingIsFirst(combined, BlockKeywords);
    var r := FirstMatching(combined, BlockKeywords);
    if r.Some? {
      var g :| 0 <= g < |BlockKeywords| && BlockKeywords[g].kind == r.value
               && GroupMatches(combined, g) && forall h :: 0 <= h < g ==> !GroupMatches(combined, h);
      assert IndexOf(BlockKeywords[g].kind) == g;
    }
  }

  /**
    Priority: `Classify` names kind `t` exactly when the group of `t` matches
    and no earlier group does; it names nothing exactly when no group matches.
  */
  lemma ClassifyIsFirstMatch(combined: string)
    ensures Classify(combined).None? <==> forall g :: 0 <= g < |BlockKeywords| ==> !GroupMatches(combined, g)
    ensures forall t :: Classify(combined) == Some(t) <==> FirstMatch(combined, IndexOf(t))
  {
    forall t | FirstMatch(combined, IndexOf(t)) ensures Classify(combined) == Some(t) {
      var u := Classify(combined).value;
      assert FirstMatch(combined, IndexOf(u));
      assert IndexOf(u) == IndexOf(t);
    }
  }

  /**
    A page with a captcha keyword is classified as a captcha, whatever else
    it contains ("captcha" together with "403" is a captcha, not an IP block).
  */
  lemma CaptchaKeywordWins(combined: string, k: string)
    requires k in BlockKeywords[0].keywords && Contains(combined, k)
    ensures Classify(combined) == Some(Captcha)
  {
    assert GroupMatches(combined, 0);
  }

  /** Kind `t` is the classification of any text where its group is the first to match. */
  lemma ClassifyAs(combined: string, t: BlockType)
    requires FirstMatch(combined, IndexOf(t))
    ensures Classify(combined) == Some(t)
  {
    ClassifyIsFirstMatch(combined);
  }

  /** Groups 0 to 3 all miss a text without the characters c, l, t, 4, s, p, b and j. */
  lemma VerifyHumanMissesEarlierGroups(s: string)
    requires Avoids(s, {'c', 'l', 't', '4', 's', 'p', 'b', 'j'})
    ensures forall g :: 0 <= g < 4 ==> !GroupMatches(s, g)
  {
    var bad := {'c', 'l', 't', '4', 's', 'p', 'b', 'j'};
    NoneContained(s, CaptchaWords, [0, 2, 0], bad);
    NoneContained(s, RateLimitWords, [2, 0, 0, 0], bad);
    NoneContained(s, IpBlockedWords, [1, 1, 3, 0], bad);
    NoneContained(s, JsRequiredWords, [3, 0], bad);
  }

  /**
    "verify you're human" on its own is a bot check: the classifier's captcha
    group does not list it, and no other earlier group matches.
  */
  lemma VerifyHumanIsBotCheck()
    ensures Classify(Lower("verify you're human")) == Some(BotCheck)
  {
    var s := "verify you're human";
    LowerOfLowerCase(s);
    assert Avoids(s, {'c', 'l', 't', '4', 's', 'p', 'b', 'j'});
    VerifyHumanMissesEarlierGroups(s);
    assert OccursAt(s, BotCheckWords[0], 0);
    ClassifyAs(s, BotCheck);
  }
}
