/**
 * The small pure helpers around the chat page: the send-button rule, the
 * character counter, error classification and its texts, cache-busting image
 * URLs; and two tiny stateful widgets, the loading-text ticker and the lyrics
 * expand button.
 */
module Controls {
  import opened Strings

  // ---------------------------------------------------------------------------
  // updateSendButton

  /** The send button is disabled when there is neither text nor an image, or while a request is out. */
  function SendDisabled(input: string, hasImage: bool, isLoading: bool): bool {
    (!(|Trim(input)| > 0) && !hasImage) || isLoading
  }

  /** Blank text counts as no text: whitespace alone never enables the button. */
  lemma SendDisabledMeaning(input: string, hasImage: bool, isLoading: bool)
    ensures SendDisabled(input, hasImage, isLoading) <==> (IsBlank(input) && !hasImage) || isLoading
  {
    TrimEmptyIffBlank(input);
  }

  // ---------------------------------------------------------------------------
  // updateCharCount

  /** The counter's colour. */
  datatype Band = Muted | Warning | Danger

  function CharBand(count: nat): Band {
    if count > 1800 then Danger else if count > 1500 then Warning else Muted
  }

  function Severity(b: Band): nat {
    match b
    case Muted => 0
    case Warning => 1
    case Danger => 2
  }

  /** A longer input never shows a milder colour. */
  lemma CharBandMonotone(a: nat, b: nat)
    requires a <= b
    ensures Severity(CharBand(a)) <= Severity(CharBand(b))
  {
  }

  /** The counter text `${count}/2000`. */
  function CharLabel(count: nat): (s: string)
    ensures |s| > 5 && s[|s| - 5..] == "/2000"
    ensures forall i :: 0 <= i < |s| - 5 ==> '0' <= s[i] <= '9'
  {
    DecimalString(count) + "/2000"
  }

  /** The counter can be read back: the digits before `/2000` are the count. */
  lemma CharLabelReadsBack(count: nat)
    ensures DigitsValue(CharLabel(count)[..|CharLabel(count)| - 5]) == count
  {
    assert CharLabel(count)[..|CharLabel(count)| - 5] == DecimalString(count);
    DecimalRoundTrip(count);
  }

  // ---------------------------------------------------------------------------
  // Error classification in sendMessage's catch block

  datatype ErrorKind = NetworkIssue | ServerIssue | OtherIssue

  /** The tests run in this order: a network marker first, then a `500` anywhere. */
  function Classify(message: string): ErrorKind {
    if Contains(message, "NetworkError") || Contains(message, "fetch") then NetworkIssue
    else if Contains(message, "500") then ServerIssue
    else OtherIssue
  }

  function ErrorText(k: ErrorKind): string {
    match k
    case NetworkIssue => "Network connection issue. Please check your internet and try again."
    case ServerIssue => "Server is experiencing issues. Please try again in a moment."
    case OtherIssue => "Sorry, I encountered an error processing your request."
  }

  const BubbleHead := "\U{1F916} "
  const BubbleTail := "\n\nDon't worry, I'm still here to help! Try sending your message again or ask me something else."

  /** The plain-text bot bubble the catch block adds under the toast. */
  function ErrorBubble(k: ErrorKind): string {
    BubbleHead + ErrorText(k) + BubbleTail
  }

  /** The bubble repeats the toast's text right after the robot emoji. */
  lemma ErrorBubbleCarriesToastText(k: ErrorKind)
    ensures OccursAt(ErrorBubble(k), ErrorText(k), |BubbleHead|)
  {
    OccursInMiddle(BubbleHead, ErrorText(k), BubbleTail);
  }

  /** Each kind of error has its own bubble (the three texts differ even in length), so the bubble tells which test matched. */
  lemma ErrorBubblesDiffer(j: ErrorKind, k: ErrorKind)
    requires j != k
    ensures ErrorBubble(j) != ErrorBubble(k)
  {
    var n, e, o := ErrorText(NetworkIssue), ErrorText(ServerIssue), ErrorText(OtherIssue);
    assert |n| == 67 && |e| == 60 && |o| == 54;
  }

  const HttpErrorPrefix := "HTTP error! status: "

  /** The error a non-ok response raises. */
  function HttpErrorMessage(status: nat): string {
    HttpErrorPrefix + DecimalString(status)
  }

  /** The message names the status: after the fixed prefix, its digits read back as the status. */
  lemma HttpErrorMessageReadsBack(status: nat)
    ensures StartsWith(HttpErrorMessage(status), HttpErrorPrefix)
    ensures DigitsValue(HttpErrorMessage(status)[|HttpErrorPrefix|..]) == status
  {
    assert HttpErrorMessage(status)[..|HttpErrorPrefix|] == HttpErrorPrefix;
    assert HttpErrorMessage(status)[|HttpErrorPrefix|..] == DecimalString(status);
    DecimalRoundTrip(status);
  }

  /** Only status 500 reads as a server error; every other HTTP status is generic (502 and 503 included). */
  lemma HttpStatusClassified(status: nat)
    requires 100 <= status < 1000
    ensures Classify(HttpErrorMessage(status)) == if status == 500 then ServerIssue else OtherIssue
  {
    var prefix := HttpErrorPrefix;
    var digits := DecimalString(status);
    ThreeDigitNumeral(status);
    ContainsSkipsPrefix(prefix, digits, "NetworkError");
    ContainsSkipsPrefix(prefix, digits, "fetch");
    ContainsSkipsPrefix(prefix, digits, "500");
    ContainsNeedsFirstChar(digits, "NetworkError");
    ContainsNeedsFirstChar(digits, "fetch");
    assert Contains(digits, "500") <==> digits == "500" by {
      ContainsMeaning(digits, "500");
      if Contains(digits, "500") {
        var i :| OccursAt(digits, "500", i);
        assert i == 0;
      } else {
        assert !OccursAt(digits, "500", 0);
      }
    }
  }

  /** A message with no `N`, no `f` and no `5` is generic. */
  lemma UnmarkedIsGeneric(message: string)
    requires 'N' !in message && 'f' !in message && '5' !in message
    ensures Classify(message) == OtherIssue
  {
    ContainsNeedsFirstChar(message, "NetworkError");
    ContainsNeedsFirstChar(message, "fetch");
    ContainsNeedsFirstChar(message, "500");
  }

  /** A browser timeout such as "signal timed out" carries none of the markers, so it is generic. */
  lemma TimeoutIsGeneric()
    ensures Classify("signal timed out") == OtherIssue
  {
    UnmarkedIsGeneric("signal timed out");
  }

  /** The network test wins over the server test: a failed fetch is a network issue even if it mentions 500. */
  lemma FetchFailureIsNetwork(before: string, after: string)
    ensures Classify(before + "fetch" + after) == NetworkIssue
  {
    var m := before + "fetch" + after;
    assert m[|before|..|before| + 5] == "fetch";
    assert OccursAt(m, "fetch", |before|);
    ContainsMeaning(m, "fetch");
  }

  // ---------------------------------------------------------------------------
  // Cache-busting image URLs (createImageElement's reload and retryImageLoad)

  /** `url + (url.includes('?') ? '&' : '?') + param`. */
  function CacheBust(url: string, param: string): (r: string)
    ensures |r| == |url| + 1 + |param|
    ensures r[..|url|] == url && r[|url| + 1..] == param
    ensures r[|url|] == '&' <==> '?' in url
  {
    ContainsOneChar(url, '?');
    url + (if Contains(url, "?") then "&" else "?") + param
  }

  lemma ContainsOneChar(s: string, c: char)
    ensures Contains(s, [c]) <==> c in s
  {
    ContainsMeaning(s, [c]);
    if c in s {
      var i :| 0 <= i < |s| && s[i] == c;
      assert OccursAt(s, [c], i);
    }
    if Contains(s, [c]) {
      var i :| OccursAt(s, [c], i);
      assert s[i] == s[i..i + 1][0];
    }
  }

  /** A cache-busted URL has one query: a `?` is added only when the URL has none. */
  lemma CacheBustOneQuery(url: string, param: string)
    ensures Count(CacheBust(url, param), '?') == (if '?' in url then Count(url, '?') else 1) + Count(param, '?')
  {
    var r := CacheBust(url, param);
    assert r == url + [r[|url|]] + param;
    CountAppend(url + [r[|url|]], param, '?');
    CountAppend(url, [r[|url|]], '?');
  }

  /** The `t=<now>` reload source, with the clock reading passed in. */
  function ReloadSrc(url: string, now: nat): string {
    CacheBust(url, "t=" + DecimalString(now))
  }

  /** The `retry=<now>` retry source, with the clock reading passed in. */
  function RetrySrc(url: string, now: nat): string {
    CacheBust(url, "retry=" + DecimalString(now))
  }

  /** A URL and a parameter without `?` give one query: `?` then the parameter. */
  lemma CacheBustPlain(url: string, param: string)
    requires '?' !in url && '?' !in param
    ensures Count(CacheBust(url, param), '?') == 1
    ensures CacheBust(url, param)[|url|..] == "?" + param
  {
    CacheBustOneQuery(url, param);
    var r := CacheBust(url, param);
    assert r[|url|..] == [r[|url|]] + r[|url| + 1..];
  }

  /** A parameter `name=<digits>` never holds a `?` when the name does not. */
  lemma ClockParamPlain(name: string, now: nat)
    requires '?' !in name
    ensures '?' !in name + DecimalString(now)
  {
    var digits := DecimalString(now);
    assert '?' !in digits by {
      assert forall i :: 0 <= i < |digits| ==> digits[i] != '?';
    }
  }

  /** A plain URL gets exactly one `?`, and the clock reading can be read back from the end. */
  lemma RetrySrcShape(url: string, now: nat)
    requires '?' !in url
    ensures Count(RetrySrc(url, now), '?') == 1
    ensures RetrySrc(url, now)[|url|..] == "?retry=" + DecimalString(now)
  {
    ClockParamPlain("retry=", now);
    CacheBustPlain(url, "retry=" + DecimalString(now));
  }

  /** The same for the `t=` reload. */
  lemma ReloadSrcShape(url: string, now: nat)
    requires '?' !in url
    ensures Count(ReloadSrc(url, now), '?') == 1
    ensures ReloadSrc(url, now)[|url|..] == "?t=" + DecimalString(now)
  {
    ClockParamPlain("t=", now);
    CacheBustPlain(url, "t=" + DecimalString(now));
  }

  // ---------------------------------------------------------------------------
  // The loading-text closure of addLoadingText

  const LoadingTexts: seq<string> := [
    "Shizuka is thinking... \U{1F4AD}",
    "Processing your request... \U{2728}",
    "Creating magic for you... \U{1F31F}",
    "Almost ready... \U{1F496}",
    "Generating response... \U{1F380}"
  ]

  /** `textIndex` and the step that shows the next text and advances it modulo five. */
  class LoadingTicker {
    var textIndex: nat
    /** How many times a text has been shown. */
    ghost var shown: nat

    ghost predicate Valid()
      reads this
    {
      textIndex == shown % |LoadingTexts|
    }

    constructor()
      ensures Valid() && textIndex == 0 && shown == 0
    {
      textIndex := 0;
      shown := 0;
    }

    /** `updateLoadingText`: when the overlay text element exists, show the current text and advance. */
    method Update(elementPresent: bool) returns (text: Option<string>)
      requires Valid()
      modifies this
      ensures Valid()
      ensures elementPresent ==> text == Some(LoadingTexts[old(shown) % 5]) && shown == old(shown) + 1
      ensures !elementPresent ==> text == None && shown == old(shown) && textIndex == old(textIndex)
    {
      if elementPresent {
        text := Some(LoadingTexts[textIndex]);
        textIndex := (textIndex + 1) % |LoadingTexts|;
        shown := shown + 1;
      } else {
        text := None;
      }
    }
  }

  // ---------------------------------------------------------------------------
  // toggleLyricsExpand

  const ExpandLabel := "<i class=\"fas fa-expand-alt\"></i> Expand"
  const CollapseLabel := "<i class=\"fas fa-compress-alt\"></i> Collapse"

  /** The button offers the opposite of the current state. */
  function LyricsLabel(expanded: bool): string {
    if expanded then CollapseLabel else ExpandLabel
  }

  /** The lyrics content's `expanded` class and the button's caption. */
  class LyricsPanel {
    var expanded: bool
    var caption: string

    constructor()
      ensures !expanded && caption == ExpandLabel
    {
      expanded := false;
      caption := ExpandLabel;
    }

    /** Flip the class; the caption follows the new state. */
    method Toggle()
      modifies this
      ensures expanded == !old(expanded)
      ensures caption == LyricsLabel(expanded)
    {
      if expanded {
        expanded := false;
        caption := ExpandLabel;
      } else {
        expanded := true;
        caption := CollapseLabel;
      }
    }
  }
}
