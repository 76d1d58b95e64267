/**
 * The chat thread as the `chatMessages` container holds it: the welcome
 * placeholder, user bubbles, bot replies built by addBotMessage, and the
 * plain-text bot bubbles addMessage makes for errors. Also the server's chat
 * response, and the history entries loadChatHistory replays.
 */
module Thread {
  import opened Strings
  import opened Markup

  /** A music track or a short or long video: title, the "by" line and the media URL. */
  datatype Media = Media(title: string, credit: string, source: string)

  datatype LyricsData = LyricsData(track: string, artist: string, engine: string, lyrics: string, artwork: Option<string>)

  datatype Stats = Stats(totalRequests: Option<int>, userRequests: Option<int>)

  /** The JSON body of a successful `/chat` reply; an absent or null field is None. */
  datatype ChatResponse = ChatResponse(
    reply: string,
    imageUrl: Option<string>,
    isImage: bool,
    music: Option<Media>,
    shotti: Option<Media>,
    video: Option<Media>,
    lyrics: Option<LyricsData>,
    stats: Option<Stats>)

  /** The parts of a bot reply, in the order they appear on screen. */
  datatype Block =
    | ImageBlock(url: string)
    | TextBlock(html: string)
    | MusicBlock(music: Media)
    | ShortVideoBlock(clip: Media)
    | VideoBlock(video: Media)
    | LyricsBlock(song: LyricsData, artworkShown: bool)

  datatype Message =
    | Welcome
    | User(text: string, hasImage: bool)
    | Bot(blocks: seq<Block>)
    | BotText(text: string)

  /** A string field is truthy when present and non-empty. */
  predicate Truthy(o: Option<string>) {
    o.Some? && o.value != ""
  }

  /** The position of each kind of block in a bot reply. */
  function Rank(b: Block): nat {
    match b
    case ImageBlock(_) => 0
    case TextBlock(_) => 1
    case MusicBlock(_) => 2
    case ShortVideoBlock(_) => 3
    case VideoBlock(_) => 4
    case LyricsBlock(_, _) => 5
  }

  /** The block addBotMessage shows at position k of the reply, or None when it shows none there. */
  function Slot(data: ChatResponse, k: nat): (b: Option<Block>)
    requires k < 6
    ensures b.Some? ==> Rank(b.value) == k
  {
    if k == 0 then (if Truthy(data.imageUrl) && data.isImage then Some(ImageBlock(data.imageUrl.value)) else None)
    else if k == 1 then Some(TextBlock(Format(data.reply)))
    else if k == 2 then (match data.music case Some(m) => Some(MusicBlock(m)) case None => None)
    else if k == 3 then (match data.shotti case Some(m) => Some(ShortVideoBlock(m)) case None => None)
    else if k == 4 then (match data.video case Some(m) => Some(VideoBlock(m)) case None => None)
    else (match data.lyrics case Some(l) => Some(LyricsBlock(l, Truthy(l.artwork))) case None => None)
  }

  /** The blocks that are there, in slot order. */
  function Present(slots: seq<Option<Block>>): seq<Block> {
    if slots == [] then []
    else (if slots[0].Some? then [slots[0].value] else []) + Present(slots[1..])
  }

  /**
   * addBotMessage: the image container goes into the message itself, ahead of
   * the content; the content holds the formatted reply, then music, the short
   * video, the video and the lyrics, each only when its field is present.
   */
  function BotMessage(data: ChatResponse): Message {
    Bot(Present([Slot(data, 0), Slot(data, 1), Slot(data, 2), Slot(data, 3), Slot(data, 4), Slot(data, 5)]))
  }

  /** The first block of the given rank, if any. */
  function Find(bs: seq<Block>, k: nat): (b: Option<Block>)
    ensures b.Some? ==> Rank(b.value) == k
  {
    if bs == [] then None else if Rank(bs[0]) == k then Some(bs[0]) else Find(bs[1..], k)
  }

  /** Strictly increasing ranks: each kind at most once, in screen order. */
  predicate InRankOrder(bs: seq<Block>) {
    forall i, j :: 0 <= i < j < |bs| ==> Rank(bs[i]) < Rank(bs[j])
  }

  /** Slot i of `slots` holds only a block of rank base + i. */
  predicate Ranked(slots: seq<Option<Block>>, base: nat) {
    forall i :: 0 <= i < |slots| && slots[i].Some? ==> Rank(slots[i].value) == base + i
  }

  lemma {:induction false} PresentInOrder(slots: seq<Option<Block>>, base: nat)
    requires Ranked(slots, base)
    ensures InRankOrder(Present(slots))
    ensures forall i :: 0 <= i < |Present(slots)| ==> base <= Rank(Present(slots)[i]) < base + |slots|
  {
    if slots != [] {
      assert Ranked(slots[1..], base + 1) by {
        forall i | 0 <= i < |slots[1..]| && slots[1..][i].Some?
          ensures Rank(slots[1..][i].value) == base + 1 + i
        {
          assert slots[1..][i] == slots[i + 1];
        }
      }
      PresentInOrder(slots[1..], base + 1);
    }
  }

  lemma {:induction false} FindPresent(slots: seq<Option<Block>>, base: nat, k: nat)
    requires Ranked(slots, base) && base <= k < base + |slots|
    ensures Find(Present(slots), k) == slots[k - base]
  {
    var head := if slots[0].Some? then [slots[0].value] else [];
    var rest := Present(slots[1..]);
    assert Present(slots) == head + rest;
    if k == base {
      if slots[0].None? {
        assert head + rest == rest;
        PresentInOrder(slots[1..], base + 1);
        FindMissing(rest, k);
      }
    } else {
      assert Ranked(slots[1..], base + 1) by {
        forall i | 0 <= i < |slots[1..]| && slots[1..][i].Some?
          ensures Rank(slots[1..][i].value) == base + 1 + i
        {
          assert slots[1..][i] == slots[i + 1];
        }
      }
      FindPresent(slots[1..], base + 1, k);
      assert slots[1..][k - (base + 1)] == slots[k - base];
      if slots[0].Some? {
        assert (head + rest)[1..] == rest;
      }
    }
  }

  lemma {:induction false} FindMissing(bs: seq<Block>, k: nat)
    requires forall i :: 0 <= i < |bs| ==> Rank(bs[i]) != k
    ensures Find(bs, k) == None
  {
    if bs != [] {
      FindMissing(bs[1..], k);
    }
  }

  /** The blocks of a bot reply appear in screen order, each kind at most once. */
  lemma BotMessageInOrder(data: ChatResponse)
    ensures InRankOrder(BotMessage(data).blocks)
  {
    PresentInOrder([Slot(data, 0), Slot(data, 1), Slot(data, 2), Slot(data, 3), Slot(data, 4), Slot(data, 5)], 0);
  }

  /**
   * Each kind of block is in a bot reply exactly when its field is present
   * (the image also needs a non-empty URL and `isImage`), and it shows that field's data.
   */
  lemma BotMessageShows(data: ChatResponse)
    ensures Find(BotMessage(data).blocks, 0).Some? <==> Truthy(data.imageUrl) && data.isImage
    ensures Find(BotMessage(data).blocks, 0).Some? ==> Find(BotMessage(data).blocks, 0).value == ImageBlock(data.imageUrl.value)
    ensures Find(BotMessage(data).blocks, 1) == Some(TextBlock(Format(data.reply)))
    ensures Find(BotMessage(data).blocks, 2) == if data.music.Some? then Some(MusicBlock(data.music.value)) else None
    ensures Find(BotMessage(data).blocks, 3) == if data.shotti.Some? then Some(ShortVideoBlock(data.shotti.value)) else None
    ensures Find(BotMessage(data).blocks, 4) == if data.video.Some? then Some(VideoBlock(data.video.value)) else None
    ensures Find(BotMessage(data).blocks, 5)
         == if data.lyrics.Some? then Some(LyricsBlock(data.lyrics.value, Truthy(data.lyrics.value.artwork))) else None
  {
    BotMessageFind(data, 0);
    BotMessageFind(data, 1);
    BotMessageFind(data, 2);
    BotMessageFind(data, 3);
    BotMessageFind(data, 4);
    BotMessageFind(data, 5);
  }

  lemma BotMessageFind(data: ChatResponse, k: nat)
    requires k < 6
    ensures Find(BotMessage(data).blocks, k) == Slot(data, k)
  {
    var slots := [Slot(data, 0), Slot(data, 1), Slot(data, 2), Slot(data, 3), Slot(data, 4), Slot(data, 5)];
    FindPresent(slots, 0, k);
  }

  /** A reply carrying only text. */
  function ReplyOnly(reply: string): ChatResponse {
    ChatResponse(reply, None, false, None, None, None, None, None)
  }

  /** A plain reply is a single text block. */
  lemma ReplyOnlyIsOneTextBlock(reply: string)
    ensures BotMessage(ReplyOnly(reply)) == Bot([TextBlock(Format(reply))])
  {
    var d := ReplyOnly(reply);
    var slots := [Slot(d, 0), Slot(d, 1), Slot(d, 2), Slot(d, 3), Slot(d, 4), Slot(d, 5)];
    assert slots == [None, Some(TextBlock(Format(reply))), None, None, None, None];
    assert slots[2..][1..] == slots[3..] && slots[3..][1..] == slots[4..] && slots[4..][1..] == slots[5..];
    assert Present(slots[5..]) == [];
    assert Present(slots[4..]) == [];
    assert Present(slots[3..]) == [];
    assert Present(slots[2..]) == [];
    assert Present(slots[1..]) == [TextBlock(Format(reply))] by {
      assert slots[1..][1..] == slots[2..];
    }
    assert slots[0] == None && slots[1..] == slots[1..];
  }

  // ---------------------------------------------------------------------------
  // The welcome placeholder

  /** Where the page puts the placeholder: at the top, and nowhere else. */
  predicate WelcomeOnlyFirst(t: seq<Message>) {
    forall i :: 0 < i < |t| ==> t[i] != Welcome
  }

  /** `chatMessages.querySelector('.welcome-message')?.remove()`: drop the first placeholder, if any. */
  function RemoveWelcome(t: seq<Message>): (u: seq<Message>)
    ensures |u| <= |t|
    ensures Welcome in t ==> |u| == |t| - 1
    ensures Welcome !in t ==> u == t
  {
    if t == [] then []
    else if t[0] == Welcome then t[1..]
    else [t[0]] + RemoveWelcome(t[1..])
  }

  /** With the placeholder only at the top, removing it leaves none and keeps everything else in order. */
  lemma {:induction false} RemoveWelcomeClears(t: seq<Message>)
    requires WelcomeOnlyFirst(t)
    ensures Welcome !in RemoveWelcome(t)
    ensures RemoveWelcome(t) == if t != [] && t[0] == Welcome then t[1..] else t
  {
    if t != [] && t[0] != Welcome {
      assert Welcome !in t;
    }
  }

  /** RemoveWelcome takes away one placeholder and nothing else. */
  lemma {:induction false} RemoveWelcomeTakesOne(t: seq<Message>)
    ensures multiset(RemoveWelcome(t)) == multiset(t) - multiset{Welcome}
  {
    if t != [] {
      assert t == [t[0]] + t[1..];
      if t[0] != Welcome {
        RemoveWelcomeTakesOne(t[1..]);
      }
    }
  }

  // ---------------------------------------------------------------------------
  // History replay

  /** One stored turn from `/chat/history`. */
  datatype HistoryEntry = HistoryEntry(role: string, content: string)

  /** An assistant turn from history: a bot message holding only the formatted text. */
  function AssistantMessage(content: string): Message {
    Bot([TextBlock(Format(content))])
  }

  /** What one history entry adds to the thread: user and assistant turns, nothing for other roles. */
  function Shown(e: HistoryEntry): seq<Message> {
    if e.role == "user" then [User(e.content, false)]
    else if e.role == "assistant" then [AssistantMessage(e.content)]
    else []
  }

  /** The messages a history replay appends, in order. */
  function Replay(es: seq<HistoryEntry>): (ms: seq<Message>)
    ensures |ms| <= |es|
    ensures forall i :: 0 <= i < |ms| ==> (ms[i].User? && !ms[i].hasImage) || (ms[i].Bot? && |ms[i].blocks| == 1)
  {
    if es == [] then [] else Replay(es[..|es| - 1]) + Shown(es[|es| - 1])
  }

  lemma {:induction false} ReplayAppend(a: seq<HistoryEntry>, b: seq<HistoryEntry>)
    ensures Replay(a + b) == Replay(a) + Replay(b)
    decreases |b|
  {
    if b == [] {
      assert a + b == a;
    } else {
      var n := |b| - 1;
      assert (a + b)[..|a + b| - 1] == a + b[..n];
      ReplayAppend(a, b[..n]);
    }
  }

  /** One more entry of a prefix replays onto the end, also after whatever the thread already holds. */
  lemma ReplayStep(pre: seq<Message>, es: seq<HistoryEntry>, i: nat)
    requires i < |es|
    ensures Replay(es[..i + 1]) == Replay(es[..i]) + Shown(es[i])
    ensures pre + Replay(es[..i + 1]) == pre + Replay(es[..i]) + Shown(es[i])
  {
    assert es[..i + 1][..i] == es[..i];
  }

  /** A replayed assistant turn looks exactly like a live reply that carries only text. */
  lemma AssistantLikeLiveReply(content: string)
    ensures AssistantMessage(content) == BotMessage(ReplyOnly(content))
  {
    ReplyOnlyIsOneTextBlock(content);
  }
}
