# Sizu-ai chat client: a Dafny model of the page logic

The Sizu-ai web page (`js/script.js`) is a single-page chat client. The user types a message and may attach an image. The page posts the message to `/chat` and shows the reply as a bot bubble. That bubble holds the formatted reply text and, when the server sends them, a generated image, a music player, a short video, a video and song lyrics. The page also does the following:
- keeps a character counter and a send button in step with the input;
- classifies failures into three error texts;
- replays the stored history on load;
- clears the history on request;
- rotates a loading caption;
- adds cache-busting parameters when it reloads images.

This project models that logic in Dafny and proves what the code promises about it.

- `strings.dfy` (`Strings`): the JavaScript string operations the page relies on.
  - `trim` and its whitespace set, and `includes`.
  - Character counts.
  - The decimal rendering of a number below 10^21 (`${n}`), with its round trip.
- `markup.dfy` (`Markup`): `formatMessageText`, the chain of four global replaces.
  - Each of the first three is one `Pass` of a lazy regex `D(.*?)D`. Matches are leftmost and non-overlapping, scanning resumes after each match, and the shortest group wins. A match never crosses a line terminator, because `.` does not match one.
  - The last replace turns `\n` into `<br>`.
- `format_examples.dfy` (`FormatExamples`): worked examples of the whole transform, stated for every delimiter-free filler text.
- `thread.dfy` (`Thread`): the chat thread as a sequence of messages.
  - The welcome placeholder, user bubbles, bot replies and plain-text bot bubbles.
  - The blocks `addBotMessage` builds, and their order on screen.
  - The placeholder removal.
  - The history replay.
- `controls.dfy` (`Controls`): the pure helpers.
  - The send-button rule and the character-counter text and colour.
  - Error classification with its toast and bubble texts, and HTTP error messages.
  - Cache-busting URLs.
  - Two small stateful widgets: the loading-text ticker (`LoadingTicker`) and the lyrics expand button (`LyricsPanel`).
- `client.dfy` (`Client`): the page state as a class, `ChatClient`.
  - Its fields are the globals `isLoading` and `selectedImageFile`, the input text, the send button, the loading overlay, the counter, the stats counters, the toasts and the `chatMessages` thread.
  - Each event handler is a method that updates those fields and keeps `Valid()`. `Valid()` says:
    - the placeholder can only be first;
    - the button and the counter match the input;
    - the overlay shows exactly while a request is pending;
    - a selected image is at most 10 MiB.
  - `sendMessage` is split into `StartSend`, the synchronous part up to the request, and `Settle(outcome)`, its `try`/`catch`/`finally` once the request ends. The outcome is the parsed reply, the message of the error that was thrown, or a rejection that carries no message (a failed file read).

## Model

| member | source | states |
|---|---|---|
| Strings.TrimStartSpec | js/script.js:132 | `trimStart` drops exactly a whitespace prefix: the result is a suffix of the input, the dropped part is all whitespace, and the result does not start with whitespace |
| Strings.TrimEndSpec | js/script.js:132 | `trimEnd` drops exactly a whitespace suffix: the result is a prefix, the dropped part is all whitespace, and the result does not end with whitespace |
| Strings.TrimSpec | js/script.js:132 | `Trim`, the `.trim()` of the send rule: `trim` keeps an infix with whitespace on both sides of it, and neither end of what it keeps is whitespace |
| Strings.TrimEmptyIffBlank | js/script.js:132 | the trimmed text is empty exactly when the input is all whitespace |
| Strings.ContainsMeaning | js/script.js:244-246 | `Contains`, the `includes` of the classification: `includes` holds exactly when the pattern occurs at some index |
| Strings.ContainsSkipsPrefix | js/script.js:244-246 | a prefix lacking the pattern's first character cannot hold the start of an occurrence |
| Strings.ContainsNeedsFirstChar | js/script.js:244-246 | a string lacking the pattern's first character does not contain the pattern |
| Strings.CountAppend | js/script.js:702 | helper: character counts add up over concatenation |
| Strings.DecimalString | js/script.js:118-119 | the rendering of a number is non-empty and all decimal digits |
| Strings.DecimalRoundTrip | js/script.js:119 | reading the digits of `${n}` back gives `n` |
| Strings.ThreeDigitNumeral | js/script.js:223 | a status code from 100 to 999 renders as three digits, and renders as `500` only for 500 |
| Markup.CloseAt | js/script.js:471-473 | the lazy group's end, when found, leaves room for the closing delimiter |
| Markup.CloseAtFound | js/script.js:471-473 | the closing delimiter is really at the reported index, and no line terminator comes before it |
| Markup.CloseAtEarliest | js/script.js:471-473 | no closing delimiter occurs before the reported one: the group is the shortest possible |
| Markup.CloseAtMissing | js/script.js:471-473 | when no group is found, no delimiter occurs anywhere up to the end of the line |
| Markup.MatchShape | js/script.js:471-473 | a match is the delimiter, the group, the delimiter again, and then the rest of the text |
| Markup.Breaks | js/script.js:474 | no `\n` remains after the last replace |
| Markup.Lines | js/script.js:471-474 | helper: splitting at line terminators yields at least one line, and no line holds a terminator |
| Markup.MatchBeforeTerminator | js/script.js:471-473 | text after a line terminator cannot change the match at the front |
| Markup.PassBeforeTerminator | js/script.js:471-473 | a pass over text that continues at a line terminator rewrites the part before it and the part from it separately |
| Markup.PassAcrossTerminator | js/script.js:471-473 | a pass rewrites the text on either side of a line terminator separately and keeps the terminator |
| Markup.PassKeepsLine | js/script.js:471-473 | a pass adds no line terminator to a single line |
| Markup.LinesAcrossTerminator | js/script.js:471-474 | helper: the lines of `a`, a terminator and `b` are the lines of `a` followed by the lines of `b` |
| Markup.PassWorksLineByLine | js/script.js:471-473 | the output of a pass has as many lines as its input, and each output line is the pass applied to the matching input line |
| Markup.PassWithoutDelimiter | js/script.js:471-473 | text without the delimiter's first character passes through unchanged |
| Markup.PassPlainPrefix | js/script.js:471-473 | a prefix without the delimiter's first character is copied, and the scan resumes after it |
| Markup.CloseAtAfterPlain | js/script.js:471-473 | the group closes at the first delimiter after single-line, delimiter-free text |
| Markup.PassOnePair | js/script.js:471-473 | a delimited span with no delimiter character inside becomes one tag pair, and the scan resumes after it |
| Markup.PassKeepsOtherCount | js/script.js:471-473 | a pass neither adds nor removes any character that is absent from its delimiter and tags |
| Markup.SingleDelimiterLeftOnLine | js/script.js:472-473 | on one line, a single-character pass leaves at most one delimiter, because every other one was paired |
| Markup.ItalicLeavesOneStarPerLine | js/script.js:472 | after the italic pass, every line holds at most one `*` |
| Markup.CodeLeavesOneDelimiterPerLine | js/script.js:471-473 | after the bold, italic and code passes in that order, every line holds at most one `*` and at most one backtick |
| Markup.BreaksAppend | js/script.js:474 | the newline replace works character by character over a concatenation |
| Markup.BreaksWithoutNewline | js/script.js:474 | text without `\n` is left alone by the newline replace |
| Markup.FormatSplitsAtNewline | js/script.js:469-475 | `Format`, the whole of formatMessageText: each input `\n` becomes exactly one `<br>`, and the text on either side is formatted on its own |
| Markup.FormatPlainText | js/script.js:469-475 | text with no `*`, no backtick and no newline is returned unchanged |
| Markup.UnpassTagged | js/script.js:471-473 | erasing the tags of one rewritten match gives back its delimiters and group |
| Markup.PassRoundTrip | js/script.js:471-473 | `Pass`, one global replace: for text without `<`, erasing a pass's tags gives back the input: each pass loses nothing and tags exactly the delimiters it consumed |
| Markup.BoldSkipsLoneStar | js/script.js:471 | a `*` not followed by another `*` opens no bold match: the bold pass copies it and resumes after it |
| FormatExamples.TaggedPlain | js/script.js:471-473 | plain text wrapped in one rule's tags is still free of stars, backticks and line terminators |
| FormatExamples.EmptyBold | js/script.js:471 | `****` becomes `<strong></strong>`: the lazy group may be empty |
| FormatExamples.BoldPassInsideCode | js/script.js:471 | the bold pass rewrites `**x**` inside backticks and leaves the backticks in place |
| FormatExamples.BoldInsideCode | js/script.js:469-475 | `` `**x**` `` becomes `<code><strong>x</strong></code>` for every plain `x` |
| FormatExamples.BoldCopiesStarPair | js/script.js:471 | the bold pass copies an italic pair `*b*` around non-empty star-free text |
| Markup.CloseAtNoChar | js/script.js:471-473 | no lazy group closes in text that lacks the delimiter's first character |
| Markup.BoldCopiesDoubleStar | js/script.js:471 | a `**` with no other star after it has no closing pair, so the bold pass copies it unchanged |
| FormatExamples.MixedBold | js/script.js:471 | in `` **a** *b* `c` ``, the bold pass tags only the leading pair, also when `b` is empty and the two single stars touch |
| FormatExamples.MixedItalic | js/script.js:472 | the italic pass then tags only the pair of single stars |
| FormatExamples.MixedCode | js/script.js:473 | the code pass then tags only the backtick pair |
| FormatExamples.MixedLine | js/script.js:469-475 | `` **a** *b* `c` ``, a newline and `d` become `<strong>a</strong> <em>b</em> <code>c</code><br>d` for every plain `a`, `b`, `c`, `d`, the empty `b` included (then `<em></em>`) |
| Thread.Slot | js/script.js:336-338 | each candidate block of a reply can only occupy its own screen position |
| Thread.Find | js/script.js:318-466 | helper: a block found for a position is of that position's kind |
| Thread.PresentInOrder | js/script.js:336-466 | keeping only the blocks that are there preserves strictly increasing positions |
| Thread.FindPresent | js/script.js:336-466 | looking up a position among the blocks that are there gives exactly that position's slot |
| Thread.FindMissing | js/script.js:336-466 | helper: a position no block has is not found |
| Thread.BotMessageInOrder | js/script.js:336-464 | a bot reply shows its blocks in screen order: the image first (it goes straight into the message, ahead of the content), then the text, music, short video, video and lyrics, each kind at most once |
| Thread.BotMessageFind | js/script.js:336-459 | the block a reply shows at each position is exactly what the response's fields select there |
| Thread.BotMessageShows | js/script.js:336-459 | `BotMessage`, the bubble addBotMessage builds: the image shows exactly when the URL is non-empty and `isImage` holds; the formatted text always shows; music, short video, video and lyrics show exactly when their field is present, with that field's data; the lyrics artwork shows exactly when its URL is non-empty |
| Thread.ReplyOnlyIsOneTextBlock | js/script.js:329-333 | a reply with only text is a bot message with a single formatted text block |
| Thread.RemoveWelcome | js/script.js:307-311 | removing the placeholder removes one message when one is there, and changes nothing otherwise |
| Thread.RemoveWelcomeClears | js/script.js:307-311 | with the placeholder only at the top, removal leaves no placeholder and keeps every other message in order |
| Thread.RemoveWelcomeTakesOne | js/script.js:307-311 | removal takes away one placeholder and nothing else, as multisets |
| Thread.Replay | js/script.js:513-537 | a history replay adds at most one message per entry, each a user bubble without an image or a bot message with one block |
| Thread.ReplayAppend | js/script.js:513-537 | replaying two runs of entries is replaying the first and then the second |
| Thread.ReplayStep | js/script.js:513-537 | `Shown`, one step of the history loop: one more entry appends exactly what that entry shows |
| Thread.AssistantLikeLiveReply | js/script.js:516-535 | a replayed assistant turn is the same message as a live reply that carries only that text |
| Controls.SendDisabledMeaning | js/script.js:131-136 | `SendDisabled`, the rule at line 135: the send button is disabled exactly when the input is all whitespace and no image is selected, or a request is out |
| Controls.CharBandMonotone | js/script.js:121-127 | `CharBand`, the colour chosen at lines 121-127: a longer input never shows a milder counter colour |
| Controls.CharLabel | js/script.js:119 | the counter text is digits followed by `/2000` |
| Controls.CharLabelReadsBack | js/script.js:118-119 | the digits before `/2000` read back as the input length |
| Controls.HttpStatusClassified | js/script.js:222-248 | `Classify`, the tests at lines 244-246: a non-ok status is a server error only when it is 500; every other status, 502 and 503 included, gets the generic text |
| Controls.HttpErrorMessageReadsBack | js/script.js:223 | the thrown message is the fixed prefix followed by digits that read back as the status |
| Controls.UnmarkedIsGeneric | js/script.js:243-248 | a message with no `N`, no `f` and no `5` is generic |
| Controls.TimeoutIsGeneric | js/script.js:243-248 | the timeout's message "signal timed out" gets the generic text |
| Controls.FetchFailureIsNetwork | js/script.js:243-248 | the network test comes first: any message containing `fetch` is a network issue, even if it also contains `500` |
| Controls.ErrorBubbleCarriesToastText | js/script.js:250-253 | the error bubble repeats the toast text right after the robot emoji |
| Controls.ErrorBubblesDiffer | js/script.js:243-253 | different kinds of error give different bubbles |
| Controls.CacheBust | js/script.js:702 | the result is the URL, one separator and the parameter; the separator is `&` exactly when the URL already has a `?` |
| Controls.ContainsOneChar | js/script.js:702 | testing for a one-character pattern is testing membership of that character |
| Controls.CacheBustOneQuery | js/script.js:702 | a `?` is added only when the URL has none, so the number of `?` grows by at most one |
| Controls.CacheBustPlain | js/script.js:702 | a URL and parameter without `?` give exactly one `?`, followed by the parameter |
| Controls.RetrySrcShape | js/script.js:728 | the retry source has exactly one `?`, and ends in `?retry=` followed by the clock reading |
| Controls.ReloadSrcShape | js/script.js:702 | the reload source has exactly one `?`, and ends in `?t=` followed by the clock reading |
| Controls.LoadingTicker.constructor | js/script.js:74 | the ticker starts at the first text |
| Controls.LoadingTicker.Update | js/script.js:75-81 | when the caption element exists, the n-th update shows text n mod 5 and advances; otherwise nothing changes |
| Controls.LyricsPanel.constructor | js/script.js:452-454 | the lyrics start collapsed, and the button offers Expand |
| Controls.LyricsPanel.Toggle | js/script.js:765-776 | the expanded flag flips, and the button then offers the opposite action |
| Client.OutboundMessage | js/script.js:201 | the message sent is never empty: the text itself when there is text, otherwise a stand-in |
| Client.ChatClient.constructor | js/script.js:2-4 | the page starts with no request out and no image selected, as the globals say, and with the welcome placeholder alone, an empty input, a disabled send button and the counter at `0/2000` |
| Client.ChatClient.UpdateSendButton | js/script.js:131-136 | the button becomes exactly the send rule applied to the current input, image and loading flag, and nothing else changes |
| Client.ChatClient.UpdateCharCount | js/script.js:117-128 | the counter text and colour follow the input length, and nothing else changes |
| Client.ChatClient.OnInput | js/script.js:87-91 | after typing, the input is the new text, and the counter and button follow it |
| Client.ChatClient.HandleImageSelect | js/script.js:139-159 | no file changes nothing; a file over 10 MiB leaves the selection and adds one error toast; any other file becomes the selection |
| Client.ChatClient.RemoveImage | js/script.js:162-167 | the selection is cleared and the button follows |
| Client.ChatClient.AddMessage | js/script.js:272-315 | the placeholder is removed if present and one bubble is appended; only a user bubble can show the image; no placeholder remains |
| Client.ChatClient.AddBotMessage | js/script.js:318-466 | the reply is appended and the placeholder is left where it is |
| Client.ChatClient.UpdateStatsFromResponse | js/script.js:478-483 | with stats, both counters are set, each to 0 when missing; without stats, nothing changes |
| Client.ChatClient.UpdateStats | js/script.js:486-497 | an ok poll sets the total counter, to 0 when missing; a failed poll changes nothing |
| Client.ChatClient.StartSend | js/script.js:178-197 | a send starts exactly when the button is enabled, and otherwise nothing changes. Once started: loading is on, the overlay shows and the input is cleared; a user bubble appears only for non-empty trimmed text; the request carries that text or `Image uploaded` |
| Client.ChatClient.Settle | js/script.js:225-258 | loading ends on every path. A reply appends exactly one bot message, updates the stats and clears the image. An error with a message appends exactly one classified error bubble and one classified error toast, and keeps the image. A rejection without a message (a failed file read) changes nothing but the loading state and the button |
| Client.ChatClient.ShowReply | js/script.js:228-235 | the reply is appended, the stats are updated and the image is cleared, while the loading flag, the request, the overlay and the button stay as they were |
| Client.ChatClient.ShowError | js/script.js:243-253 | one error toast and one error bubble, both chosen by the same classification, while the image, the loading flag, the request, the overlay and the button stay as they were |
| Client.ChatClient.SendExample | js/script.js:170-175 | the example text is put in the input and sent as the button would; it starts exactly when the send rule allows it; the stats counters and the toasts are untouched |
| Client.ChatClient.LoadChatHistory | js/script.js:499-545 | a non-empty history removes the placeholder and appends its user and assistant turns in order, skipping other roles; an empty or failed history changes nothing |
| Client.ChatClient.ReplayHistory | js/script.js:513-537 | the loop appends exactly the replay of the entries, in order |
| Client.ChatClient.ShowEntry | js/script.js:514-536 | a user entry appends a user bubble, an assistant entry a one-block bot message, and any other role nothing |
| Client.ChatClient.ClearChat | js/script.js:548-615 | without confirmation nothing changes; an ok response resets the thread to the placeholder alone with a success toast; any other ending keeps the thread and adds an error toast |

## Left out

- Network and time.
  - `fetch`, `response.json`, `AbortSignal.timeout(180000)`, and the `/chat/stats`, `/chat/history` and `/chat/clear` requests are not modelled. Their results come in as parameters: an `Outcome`, an optional history, an ok flag.
  - The stats poll's `setInterval` (30 s) is not modelled.
  - The loading ticker's 2 s `setInterval` in `showLoading` is not modelled. Only its step is modelled, `LoadingTicker.Update`.
  - Toast removal after 5 s and the 3 s image reload delay are not modelled.
- `FileReader`, `fileToBase64` and data URLs are not modelled. An image is its size; the request records only whether an image goes with it. A failed read comes in as the `ReadFailure` outcome of `Settle`.
- `Math.random` (the session id) and `Date.now()` (cache-bust parameters) are nondeterministic. The id is the constructor's `uid` argument; the clock reading is the `now` argument of `ReloadSrc` and `RetrySrc`.
- Image load events are browser event flow. `img.onload`/`onerror` in `createImageElement` and `retryImageLoad` are not modelled, and neither is the retry panel that `addBotMessage` installs. That handler replaces the one `createImageElement` set. Only the cache-busting URL expressions are modelled.
- `copyLyrics` uses the asynchronous clipboard API and is not modelled.
- DOM presentation is not modelled: HTML templates, avatars, styles, scrolling, `autoResizeTextarea` and the markup of the welcome block. Message blocks are abstract values. The history's assistant bubble and a live reply carry the same formatted text block.
- `setupMobileOptimizations`, the touch handlers, the Enter-key handlers and the click outside the preview are UI wiring and are not modelled. The Enter key calls the same `sendMessage`.
- String lengths are counted in Unicode code points, while JavaScript counts UTF-16 code units. An emoji in the input counts once here and twice on the page.
- Client.ChatClient.LoadChatHistory: assumes the history entries are well-formed, with string role and content. The page throws part-way through on a malformed entry and keeps the messages already appended. That partial state is not modelled.
- Client.ChatClient.Settle: the request is the one recorded at start. The page reads `selectedImageFile` again while it builds the request, so an image chosen after the click would be sent. That interleaving is not modelled.
- Client.ChatClient.ShowReply: the page calls `removeImage` inside the reply path, and `removeImage` updates the button while loading is still on. The model clears the selection directly; the button is recomputed once loading ends in `Settle`, so the final state is the same.
- Error classification follows the code: the "signal timed out" message of an aborted request is generic, not a network issue, and of the HTTP statuses only 500 counts as a server error.
- Strings.DecimalString: agrees with JavaScript's rendering only below 10^21; from 10^21 on JavaScript prints exponent form. The numbers the script renders (character counts, HTTP statuses) are far below that.
- Client.ChatClient.constructor: the initial placeholder, the disabled send button and the `0/2000` counter come from the page markup, which is not part of this model; the script sets only `isLoading` and `selectedImageFile` at load (lines 2-4) and calls neither `updateSendButton` nor `updateCharCount` in its load handler (lines 18-25).
