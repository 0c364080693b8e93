/** How `safe_generate` turns a failed model call into a message for the
    user (main.py:274-285): an ordered substring test on the exception's
    text picks one of four messages. */
module Errors {
  import opened Text

  /** The four outcomes of the classification, in the order they are
      tested. */
  datatype Failure = RateLimit | QuotaExceeded | InvalidKey | Other

  /** `"429" in e or "ResourceExhausted" in e`: tested as written, so the
      case matters. */
  predicate IsRateLimit(error: string) {
    Contains(error, "429") || Contains(error, "ResourceExhausted")
  }

  /** `"quota" in e.lower()` */
  predicate MentionsQuota(error: string) {
    Contains(Lower(error), "quota")
  }

  /** `"invalid" in e.lower()` */
  predicate MentionsInvalid(error: string) {
    Contains(Lower(error), "invalid")
  }

  /** The branch `safe_generate` takes for the exception text `error`. */
  function Classify(error: string): Failure {
    if IsRateLimit(error) then RateLimit
    else if MentionsQuota(error) then QuotaExceeded
    else if MentionsInvalid(error) then InvalidKey
    else Other
  }

  // ---------------------------------------------------------------------
  // The messages. Each is an icon, a bold title and a blank line, then
  // advice; the generic one puts the exception text before its advice.

  function Icon(f: Failure): string {
    match f
    case RateLimit => "\U{23f3}"
    case QuotaExceeded => "\U{1f4b3}"
    case InvalidKey => "\U{1f511}"
    case Other => "\U{26a0}\U{fe0f}"
  }

  function Title(f: Failure): string {
    match f
    case RateLimit => "Rate Limit Reached"
    case QuotaExceeded => "Quota " + "Exceeded"
    case InvalidKey => "Invalid API Key"
    case Other => "Error Occurred"
  }

  // The advice lines, assembled from short pieces; the text is the
  // source's, character for character.
  const RateLimitAdvice := "Please wait " + "60 seconds " + "before trying " + "again."
  const QuotaAdvice := "Your API " + "quota has " + "been exhausted. " + "Check your " + "Google Cloud " + "Console."
  const InvalidKeyAdvice := "Please verify " + "your API key " + "in the " + "sidebar."
  const OtherAdvice := "Please try " + "again or " + "contact support."

  function Advice(f: Failure, error: string): string {
    match f
    case RateLimit => RateLimitAdvice
    case QuotaExceeded => QuotaAdvice
    case InvalidKey => InvalidKeyAdvice
    case Other => error + "\n\n" + OtherAdvice
  }

  function Heading(f: Failure): string {
    Icon(f) + " **" + Title(f) + "**\n\n"
  }

  /** The message for failure class `f` and exception text `error`. */
  function Render(f: Failure, error: string): string {
    Heading(f) + Advice(f, error)
  }

  /** What `safe_generate` returns when the call raised `error`. */
  function Message(error: string): string {
    Render(Classify(error), error)
  }

  // ---------------------------------------------------------------------
  // Properties

  /** The tests are ordered: a rate-limit marker wins over any mention of
      quota or of an invalid key. */
  lemma RateLimitFirst(a: string, b: string)
    ensures Classify(a + "429" + b) == RateLimit
    ensures Classify(a + "ResourceExhausted" + b) == RateLimit
  {
    ContainsInfix(a, "429", b);
    ContainsInfix(a, "ResourceExhausted", b);
  }

  /** "quota" is matched in any letter case; only a rate-limit marker takes
      precedence over it. */
  lemma QuotaAnyCase(a: string, w: string, b: string)
    requires Lower(w) == "quota"
    ensures Classify(a + w + b) == (if IsRateLimit(a + w + b) then RateLimit else QuotaExceeded)
  {
    LowerAppend(a + w, b);
    LowerAppend(a, w);
    ContainsInfix(Lower(a), "quota", Lower(b));
  }

  /** "invalid" is matched in any letter case, below the two earlier
      tests. */
  lemma InvalidAnyCase(a: string, w: string, b: string)
    requires Lower(w) == "invalid"
    requires !IsRateLimit(a + w + b) && !MentionsQuota(a + w + b)
    ensures Classify(a + w + b) == InvalidKey
  {
    LowerAppend(a + w, b);
    LowerAppend(a, w);
    ContainsInfix(Lower(a), "invalid", Lower(b));
  }

  /** The rate-limit test is case-sensitive: the lower-case spelling of
      `ResourceExhausted` falls through to the generic message. */
  lemma RateLimitCaseSensitive()
    ensures Classify("resource" + "exhausted") == Other
  {
    var a, b := "resource", "exhausted";
    assert Lower(a + b) == a + b by {
      LowerAppend(a, b);
      assert Lower(a) == a;
      assert Lower(b) == b;
    }
    assert '4' !in a && '4' !in b;
    assert 'R' !in a && 'R' !in b;
    assert 'q' !in a && 'q' !in b;
    assert 'i' !in a && 'i' !in b;
    ContainsNeedsHead(a + b, "429");
    ContainsNeedsHead(a + b, "ResourceExhausted");
    ContainsNeedsHead(a + b, "quota");
    ContainsNeedsHead(a + b, "invalid");
  }

  /** The lower tiers only look at the lower-cased text, so lower-casing an
      exception text that is not a rate limit either way keeps its class. */
  lemma ClassifyLowerCase(error: string)
    requires !IsRateLimit(error) && !IsRateLimit(Lower(error))
    ensures Classify(Lower(error)) == Classify(error)
  {
    LowerIdempotent(error);
  }

  lemma RenderOtherQuotes(error: string)
    ensures Contains(Render(Other, error), error)
  {
    var h, t := Heading(Other), "\n\n" + OtherAdvice;
    assert Render(Other, error) == h + (error + t);
    assert h + (error + t) == h + error + t;
    ContainsInfix(h, error, t);
  }

  /** The generic message quotes the exception text in full. */
  lemma OtherQuotesError(error: string)
    requires Classify(error) == Other
    ensures Contains(Message(error), error)
  {
    RenderOtherQuotes(error);
  }

  /** The three specific messages do not depend on the text beyond its
      class. */
  lemma SpecificMessagesFixed(e1: string, e2: string)
    requires Classify(e1) == Classify(e2) != Other
    ensures Message(e1) == Message(e2)
  {
  }

  lemma RateLimitRenderNoError(error: string)
    ensures !Contains(Render(RateLimit, error), "Error")
  {
    assert 'E' !in Heading(RateLimit) by {
      assert 'E' !in "Rate Limit Reached";
    }
    assert 'E' !in Advice(RateLimit, error);
    ContainsNeedsHead(Render(RateLimit, error), "Error");
  }

  lemma InvalidKeyRenderNoError(error: string)
    ensures !Contains(Render(InvalidKey, error), "Error")
  {
    assert 'E' !in Heading(InvalidKey) by {
      assert 'E' !in "Invalid API Key";
    }
    assert 'E' !in Advice(InvalidKey, error);
    ContainsNeedsHead(Render(InvalidKey, error), "Error");
  }

  /** The quota message split at the one capital E it holds. */
  lemma QuotaRenderSplit(error: string)
    ensures Render(QuotaExceeded, error)
         == "\U{1f4b3} **Quota " + ("E" + ("xceeded**\n\n" + Advice(QuotaExceeded, error)))
  {
  }

  lemma QuotaTailNoCapitalE(error: string)
    ensures 'E' !in "xceeded**\n\n" + Advice(QuotaExceeded, error)
  {
  }

  /** The quota title holds an "E" ("Exceeded") but not the word. */
  lemma QuotaRenderNoError(error: string)
    ensures !Contains(Render(QuotaExceeded, error), "Error")
  {
    var pre := "\U{1f4b3} **Quota ";
    var rest := "xceeded**\n\n" + Advice(QuotaExceeded, error);
    QuotaRenderSplit(error);
    QuotaTailNoCapitalE(error);
    ContainsSkip(pre, "E" + rest, "Error");
    ContainsNeedsHead(rest, "Error");
    assert ("E" + rest)[1] == 'x';
    assert ("E" + rest)[1..] == rest;
  }

  /** Only the generic title holds the word. */
  lemma RenderNoError(f: Failure, error: string)
    requires f != Other
    ensures !Contains(Render(f, error), "Error")
  {
    match f
    case RateLimit => RateLimitRenderNoError(error);
    case InvalidKey => InvalidKeyRenderNoError(error);
    case QuotaExceeded => QuotaRenderNoError(error);
  }

  lemma RenderOtherHasError(error: string)
    ensures Contains(Render(Other, error), "Error")
  {
    var pre := "\U{26a0}\U{fe0f} **";
    var post := " Occurred**\n\n" + Advice(Other, error);
    assert Render(Other, error) == pre + "Error" + post;
    ContainsInfix(pre, "Error", post);
  }

  /** The word "Error" occurs in the message exactly when the exception
      fell through to the generic branch. */
  lemma MessageMentionsError(error: string)
    ensures Contains(Message(error), "Error") <==> Classify(error) == Other
  {
    if Classify(error) == Other {
      RenderOtherHasError(error);
    } else {
      RenderNoError(Classify(error), error);
    }
  }
}
