/**
 * The chat page's session state: the globals `isLoading` and
 * `selectedImageFile`, the message input, the send button, the loading
 * overlay, the character counter, the stats counters, the toasts and the
 * `chatMessages` thread, with the handlers that change them.
 */
module Client {
  import opened Strings
  import opened Thread
  import opened Controls

  /** A selected image file; only its size matters to the page. */
  datatype ImageFile = ImageFile(size: nat)

  datatype ToastKind = InfoToast | SuccessToast | ErrorToast

  datatype Toast = Toast(message: string, kind: ToastKind)

  /** The body of the `/chat` request: uid, message, and whether an image goes with it. */
  datatype Request = Request(uid: string, message: string, withImage: bool)

  /**
   * How the request started by sendMessage ends: a parsed reply, the message of
   * the error thrown, or a rejection with no message at all. The last is what
   * fileToBase64 rejects with when the FileReader fails (an error event): the
   * catch block's `error.message.includes` then throws itself, so neither the
   * toast nor the error bubble appears and only the finally block runs.
   */
  datatype Outcome = Success(data: ChatResponse) | Failure(message: string) | ReadFailure

  /** The largest image handleImageSelect accepts: 10 MiB. */
  const MaxImageBytes: nat := 10 * 1024 * 1024

  /** The `sender` argument of addMessage. */
  datatype Sender = UserSender | BotSender

  const ImageUploaded := "Image uploaded"
  const ImageTooLarge := "Image size must be less than 10MB"
  const ChatCleared := "Chat history cleared!"
  const ClearFailed := "Failed to clear chat history"

  /** `value || 0` for a count that may be missing. */
  function OrZero(v: Option<int>): int {
    match v
    case Some(n) => n
    case None => 0
  }

  /** What the request says: the trimmed text, or a stand-in when only an image is sent. */
  function OutboundMessage(text: string): (m: string)
    ensures m != []
    ensures text != [] ==> m == text
  {
    if text != [] then text else ImageUploaded
  }

  /** The thread after a send starts: a user bubble only when there is text. */
  function AfterStart(thread: seq<Message>, text: string, hasImage: bool): seq<Message> {
    if text != [] then RemoveWelcome(thread) + [User(text, hasImage)] else thread
  }

  class ChatClient {
    const uid: string
    var thread: seq<Message>
    var input: string
    var selected: Option<ImageFile>
    var isLoading: bool
    var sendDisabled: bool
    var overlayShown: bool
    var charCaption: string
    var charBand: Band
    var toasts: seq<Toast>
    var totalShown: int
    var userShown: int
    /** The request in flight between the start of sendMessage and its settling. */
    var pending: Option<Request>

    /** What every handler keeps true between events. */
    ghost predicate Valid()
      reads this
    {
      && WelcomeOnlyFirst(thread)
      && sendDisabled == SendDisabled(input, selected.Some?, isLoading)
      && (isLoading <==> pending.Some?)
      && overlayShown == isLoading
      && charCaption == CharLabel(|input|) && charBand == CharBand(|input|)
      && (selected.Some? ==> selected.value.size <= MaxImageBytes)
    }

    /** The page as loaded: the welcome placeholder alone, an empty input, nothing selected. */
    constructor(uid: string)
      ensures Valid()
      ensures this.uid == uid && thread == [Welcome] && input == [] && selected == None
      ensures !isLoading && sendDisabled && toasts == [] && totalShown == 0 && userShown == 0
    {
      this.uid := uid;
      thread := [Welcome];
      input := [];
      selected := None;
      isLoading := false;
      sendDisabled := true;
      overlayShown := false;
      charCaption := CharLabel(0);
      charBand := CharBand(0);
      toasts := [];
      totalShown := 0;
      userShown := 0;
      pending := None;
    }

    /** updateSendButton. */
    method UpdateSendButton()
      modifies this
      ensures sendDisabled == SendDisabled(input, selected.Some?, isLoading)
      ensures thread == old(thread) && input == old(input) && selected == old(selected)
      ensures isLoading == old(isLoading) && overlayShown == old(overlayShown) && pending == old(pending)
      ensures charCaption == old(charCaption) && charBand == old(charBand)
      ensures toasts == old(toasts) && totalShown == old(totalShown) && userShown == old(userShown)
    {
      var hasText := |Trim(input)| > 0;
      var hasImage := selected.Some?;
      sendDisabled := (!hasText && !hasImage) || isLoading;
    }

    /** updateCharCount. */
    method UpdateCharCount()
      modifies this
      ensures charCaption == CharLabel(|input|) && charBand == CharBand(|input|)
      ensures thread == old(thread) && input == old(input) && selected == old(selected)
      ensures isLoading == old(isLoading) && overlayShown == old(overlayShown) && pending == old(pending)
      ensures sendDisabled == old(sendDisabled)
      ensures toasts == old(toasts) && totalShown == old(totalShown) && userShown == old(userShown)
    {
      var count := |input|;
      charCaption := CharLabel(count);
      charBand := CharBand(count);
    }

    /** The input event: the text changes and the counter and button follow it. */
    method OnInput(value: string)
      requires Valid()
      modifies this
      ensures Valid()
      ensures input == value
      ensures thread == old(thread) && selected == old(selected) && isLoading == old(isLoading) && pending == old(pending)
      ensures toasts == old(toasts) && totalShown == old(totalShown) && userShown == old(userShown)
    {
      input := value;
      UpdateCharCount();
      UpdateSendButton();
    }

    /** handleImageSelect: an absent file does nothing, an oversized one only raises a toast. */
    method HandleImageSelect(file: Option<ImageFile>)
      requires Valid()
      modifies this
      ensures Valid()
      ensures file.None? ==> selected == old(selected) && toasts == old(toasts)
      ensures file.Some? && file.value.size > MaxImageBytes ==>
        selected == old(selected) && toasts == old(toasts) + [Toast(ImageTooLarge, ErrorToast)]
      ensures file.Some? && file.value.size <= MaxImageBytes ==> selected == file && toasts == old(toasts)
      ensures thread == old(thread) && input == old(input) && isLoading == old(isLoading) && pending == old(pending)
      ensures totalShown == old(totalShown) && userShown == old(userShown)
    {
      if file.Some? {
        if file.value.size > MaxImageBytes {
          toasts := toasts + [Toast(ImageTooLarge, ErrorToast)];
          return;
        }
        selected := file;
        UpdateSendButton();
      }
    }

    /** removeImage. */
    method RemoveImage()
      requires Valid()
      modifies this
      ensures Valid()
      ensures selected == None
      ensures thread == old(thread) && input == old(input) && isLoading == old(isLoading) && pending == old(pending)
      ensures toasts == old(toasts) && totalShown == old(totalShown) && userShown == old(userShown)
    {
      selected := None;
      UpdateSendButton();
    }

    /** addMessage: the placeholder goes, then one bubble is appended; only a user bubble shows the image. */
    method AddMessage(sender: Sender, text: string, imageAttached: bool)
      requires WelcomeOnlyFirst(thread)
      modifies this
      ensures thread == RemoveWelcome(old(thread)) + [if sender == UserSender then User(text, imageAttached) else BotText(text)]
      ensures Welcome !in thread
      ensures input == old(input) && selected == old(selected) && isLoading == old(isLoading) && pending == old(pending)
      ensures sendDisabled == old(sendDisabled) && overlayShown == old(overlayShown)
      ensures charCaption == old(charCaption) && charBand == old(charBand)
      ensures toasts == old(toasts) && totalShown == old(totalShown) && userShown == old(userShown)
    {
      RemoveWelcomeClears(thread);
      var bubble := if sender == UserSender then User(text, imageAttached) else BotText(text);
      thread := RemoveWelcome(thread) + [bubble];
    }

    /** addBotMessage: append the reply and leave the placeholder where it is. */
    method AddBotMessage(data: ChatResponse)
      requires WelcomeOnlyFirst(thread)
      modifies this
      ensures thread == old(thread) + [BotMessage(data)]
      ensures WelcomeOnlyFirst(thread)
      ensures input == old(input) && selected == old(selected) && isLoading == old(isLoading) && pending == old(pending)
      ensures sendDisabled == old(sendDisabled) && overlayShown == old(overlayShown)
      ensures charCaption == old(charCaption) && charBand == old(charBand)
      ensures toasts == old(toasts) && totalShown == old(totalShown) && userShown == old(userShown)
    {
      thread := thread + [BotMessage(data)];
    }

    /** updateStatsFromResponse: both counters are set, to 0 when missing, only if the reply has stats. */
    method UpdateStatsFromResponse(data: ChatResponse)
      modifies this
      ensures data.stats.Some? ==>
        totalShown == OrZero(data.stats.value.totalRequests) && userShown == OrZero(data.stats.value.userRequests)
      ensures data.stats.None? ==> totalShown == old(totalShown) && userShown == old(userShown)
      ensures thread == old(thread) && input == old(input) && selected == old(selected)
      ensures isLoading == old(isLoading) && pending == old(pending) && sendDisabled == old(sendDisabled)
      ensures overlayShown == old(overlayShown) && charCaption == old(charCaption) && charBand == old(charBand)
      ensures toasts == old(toasts)
    {
      if data.stats.Some? {
        totalShown := OrZero(data.stats.value.totalRequests);
        userShown := OrZero(data.stats.value.userRequests);
      }
    }

    /**
     * updateStats, the periodic poll: `reply` is None when the request fails or
     * is not ok, otherwise the `total.requests` field of the body.
     */
    method UpdateStats(reply: Option<Option<int>>)
      requires Valid()
      modifies this
      ensures Valid()
      ensures totalShown == if reply.Some? then OrZero(reply.value) else old(totalShown)
      ensures userShown == old(userShown)
      ensures thread == old(thread) && input == old(input) && selected == old(selected)
      ensures isLoading == old(isLoading) && pending == old(pending) && toasts == old(toasts)
    {
      if reply.Some? {
        totalShown := OrZero(reply.value);
      }
    }

    /**
     * The synchronous part of sendMessage, up to the request. It goes ahead exactly
     * when the send button is enabled; otherwise nothing changes.
     */
    method StartSend() returns (started: bool)
      requires Valid()
      modifies this
      ensures Valid()
      ensures started == !old(sendDisabled)
      ensures !started ==> unchanged(this)
      ensures started ==>
        && isLoading && overlayShown && input == []
        && thread == AfterStart(old(thread), Trim(old(input)), old(selected).Some?)
        && pending == Some(Request(uid, OutboundMessage(Trim(old(input))), old(selected).Some?))
        && selected == old(selected) && toasts == old(toasts)
        && totalShown == old(totalShown) && userShown == old(userShown)
    {
      if isLoading {
        return false;
      }
      var messageText := Trim(input);
      if !(|messageText| > 0) && selected.None? {
        return false;
      }
      isLoading := true;
      overlayShown := true;
      UpdateSendButton();
      if |messageText| > 0 {
        AddMessage(UserSender, messageText, selected.Some?);
      }
      input := [];
      UpdateCharCount();
      pending := Some(Request(uid, OutboundMessage(messageText), selected.Some?));
      started := true;
    }

    /**
     * The rest of sendMessage once the request settles: a reply adds one bot
     * message, updates the stats and clears the image; an error adds one toast
     * and one error bubble and keeps the image; a rejection without a message
     * adds nothing. Loading ends in every case.
     */
    method Settle(outcome: Outcome)
      requires Valid() && pending.Some?
      modifies this
      ensures Valid()
      ensures !isLoading && pending == None && !overlayShown && input == old(input)
      ensures outcome.Success? ==>
        && thread == old(thread) + [BotMessage(outcome.data)]
        && selected == None && toasts == old(toasts)
        && (outcome.data.stats.Some? ==>
              totalShown == OrZero(outcome.data.stats.value.totalRequests)
              && userShown == OrZero(outcome.data.stats.value.userRequests))
        && (outcome.data.stats.None? ==> totalShown == old(totalShown) && userShown == old(userShown))
      ensures outcome.Failure? ==>
        && thread == RemoveWelcome(old(thread)) + [BotText(ErrorBubble(Classify(outcome.message)))]
        && toasts == old(toasts) + [Toast(ErrorText(Classify(outcome.message)), ErrorToast)]
        && selected == old(selected) && totalShown == old(totalShown) && userShown == old(userShown)
      ensures outcome.ReadFailure? ==>
        && thread == old(thread) && toasts == old(toasts)
        && selected == old(selected) && totalShown == old(totalShown) && userShown == old(userShown)
    {
      match outcome {
        case Success(data) =>
          ShowReply(data);
        case Failure(message) =>
          ShowError(message);
        case ReadFailure =>
      }
      isLoading := false;
      pending := None;
      overlayShown := false;
      UpdateSendButton();
    }

    /** The try block after a parsed reply: the bot message, the stats, and the image cleared. */
    method ShowReply(data: ChatResponse)
      requires Valid()
      modifies this
      ensures WelcomeOnlyFirst(thread) && selected == None
      ensures thread == old(thread) + [BotMessage(data)]
      ensures data.stats.Some? ==>
        totalShown == OrZero(data.stats.value.totalRequests) && userShown == OrZero(data.stats.value.userRequests)
      ensures data.stats.None? ==> totalShown == old(totalShown) && userShown == old(userShown)
      ensures input == old(input) && toasts == old(toasts)
      ensures charCaption == old(charCaption) && charBand == old(charBand)
      ensures isLoading == old(isLoading) && pending == old(pending)
      ensures overlayShown == old(overlayShown) && sendDisabled == old(sendDisabled)
    {
      AddBotMessage(data);
      UpdateStatsFromResponse(data);
      selected := None;
    }

    /** The catch block: one error toast and one error bubble, both from the message's classification. */
    method ShowError(message: string)
      requires Valid()
      modifies this
      ensures WelcomeOnlyFirst(thread)
      ensures thread == RemoveWelcome(old(thread)) + [BotText(ErrorBubble(Classify(message)))]
      ensures toasts == old(toasts) + [Toast(ErrorText(Classify(message)), ErrorToast)]
      ensures input == old(input) && selected == old(selected)
      ensures totalShown == old(totalShown) && userShown == old(userShown)
      ensures charCaption == old(charCaption) && charBand == old(charBand)
      ensures isLoading == old(isLoading) && pending == old(pending)
      ensures overlayShown == old(overlayShown) && sendDisabled == old(sendDisabled)
    {
      var kind := Classify(message);
      toasts := toasts + [Toast(ErrorText(kind), ErrorToast)];
      AddMessage(BotSender, ErrorBubble(kind), false);
    }

    /** sendExample: put the text in the input, then send as the button would. */
    method SendExample(text: string) returns (started: bool)
      requires Valid()
      modifies this
      ensures Valid()
      ensures started == !SendDisabled(text, old(selected).Some?, old(isLoading))
      ensures !started ==> input == text && thread == old(thread) && pending == old(pending)
      ensures started ==>
        && input == [] && isLoading
        && thread == AfterStart(old(thread), Trim(text), old(selected).Some?)
        && pending == Some(Request(uid, OutboundMessage(Trim(text)), old(selected).Some?))
      ensures selected == old(selected) && toasts == old(toasts)
      ensures totalShown == old(totalShown) && userShown == old(userShown)
    {
      input := text;
      UpdateSendButton();
      UpdateCharCount();
      started := StartSend();
    }

    /**
     * loadChatHistory: `history` is None when the request fails or is not ok.
     * A non-empty history removes the placeholder and appends its user and
     * assistant turns in order.
     */
    method LoadChatHistory(history: Option<seq<HistoryEntry>>)
      requires Valid()
      modifies this
      ensures Valid()
      ensures thread == if history.Some? && |history.value| > 0
                        then RemoveWelcome(old(thread)) + Replay(history.value)
                        else old(thread)
      ensures input == old(input) && selected == old(selected) && isLoading == old(isLoading) && pending == old(pending)
      ensures toasts == old(toasts) && totalShown == old(totalShown) && userShown == old(userShown)
    {
      if history.Some? && |history.value| > 0 {
        RemoveWelcomeClears(thread);
        thread := RemoveWelcome(thread);
        ReplayHistory(history.value);
      }
    }

    /** The loop over the history entries, in order, on a thread without the placeholder. */
    method ReplayHistory(es: seq<HistoryEntry>)
      requires Welcome !in thread
      modifies this
      ensures thread == old(thread) + Replay(es)
      ensures Welcome !in thread
      ensures input == old(input) && selected == old(selected) && isLoading == old(isLoading) && pending == old(pending)
      ensures sendDisabled == old(sendDisabled) && overlayShown == old(overlayShown)
      ensures charCaption == old(charCaption) && charBand == old(charBand)
      ensures toasts == old(toasts) && totalShown == old(totalShown) && userShown == old(userShown)
    {
      var i := 0;
      while i < |es|
        invariant 0 <= i <= |es|
        invariant Welcome !in thread
        invariant thread == old(thread) + Replay(es[..i])
        invariant input == old(input) && selected == old(selected) && isLoading == old(isLoading) && pending == old(pending)
        invariant sendDisabled == old(sendDisabled) && overlayShown == old(overlayShown)
        invariant charCaption == old(charCaption) && charBand == old(charBand)
        invariant toasts == old(toasts) && totalShown == old(totalShown) && userShown == old(userShown)
      {
        ReplayStep(old(thread), es, i);
        ShowEntry(es[i]);
        i := i + 1;
      }
      assert es[..|es|] == es;
    }

    /** One step of the history loop: a user turn through addMessage, an assistant turn as a bot bubble built in place, any other role skipped. */
    method ShowEntry(e: HistoryEntry)
      requires Welcome !in thread
      modifies this
      ensures thread == old(thread) + Shown(e)
      ensures Welcome !in thread
      ensures input == old(input) && selected == old(selected) && isLoading == old(isLoading) && pending == old(pending)
      ensures sendDisabled == old(sendDisabled) && overlayShown == old(overlayShown)
      ensures charCaption == old(charCaption) && charBand == old(charBand)
      ensures toasts == old(toasts) && totalShown == old(totalShown) && userShown == old(userShown)
    {
      if e.role == "user" {
        RemoveWelcomeClears(thread);
        AddMessage(UserSender, e.content, false);
      } else if e.role == "assistant" {
        thread := thread + [AssistantMessage(e.content)];
      }
    }

    /**
     * clearChat: nothing without confirmation; an ok response resets the thread
     * to the placeholder, any other ending leaves it and raises an error toast.
     */
    method ClearChat(confirmed: bool, responseOk: bool)
      requires Valid()
      modifies this
      ensures Valid()
      ensures !confirmed ==> thread == old(thread) && toasts == old(toasts)
      ensures confirmed && responseOk ==> thread == [Welcome] && toasts == old(toasts) + [Toast(ChatCleared, SuccessToast)]
      ensures confirmed && !responseOk ==> thread == old(thread) && toasts == old(toasts) + [Toast(ClearFailed, ErrorToast)]
      ensures input == old(input) && selected == old(selected) && isLoading == old(isLoading) && pending == old(pending)
      ensures totalShown == old(totalShown) && userShown == old(userShown)
    {
      if confirmed {
        if responseOk {
          thread := [Welcome];
          toasts := toasts + [Toast(ChatCleared, SuccessToast)];
        } else {
          toasts := toasts + [Toast(ClearFailed, ErrorToast)];
        }
      }
    }
  }
}
