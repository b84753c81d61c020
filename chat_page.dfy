/**
 * The chat screen's client-side state updates: the `setChats` and `setMessages` updaters run
 * when a message arrives or has been sent, the seen-receipt updater, the send guard and the
 * typing-indicator filters. Every React state updater is a function from the previous state
 * to the next; `moveChatToTop`, which copies the list and splices it in place, is also given
 * as a method that does the same steps.
 */
module ChatPage {
  import opened Wrappers
  import opened Text

  datatype LatestMessage = LatestMessage(text: Option<string>, sender: string)

  /**
   * A chat as the client holds it. `unseenCount` is the counter the client type declares;
   * `unSeenCount` is the field the chat service sends and the one `moveChatToTop` writes.
   */
  datatype Chat = Chat(
    id: string,
    users: seq<string>,
    latestMessage: LatestMessage,
    createdAt: string,
    updatedAt: string,
    unseenCount: Option<nat>,
    unSeenCount: Option<nat>)

  /** One row of the chat list. */
  datatype ChatEntry = ChatEntry(id: string, user: string, chat: Chat)

  datatype Image = Image(url: string, publicId: string)

  datatype MessageType = TextMessage | ImageMessage

  datatype Message = Message(
    id: string,
    chatId: string,
    senderId: string,
    text: Option<string>,
    image: Option<Image>,
    messageType: MessageType,
    seen: bool,
    seenAt: Option<string>,
    createdAt: string)

  /** The two fields of its `newMessage` argument that `moveChatToTop` reads. */
  datatype Preview = Preview(text: Option<string>, senderId: string)

  /** The text shown in the chat list for a message sent with an image. */
  const ImagePreview: string := "\U{1F4F8} image"

  // ---------------------------------------------------------------------------------------
  // moveChatToTop

  /** `findIndex` on the chat id: the first row holding chat `chatId`, or -1. */
  function FindChat(cs: seq<ChatEntry>, chatId: string): (i: int)
    ensures -1 <= i < |cs|
    ensures i < 0 <==> forall k :: 0 <= k < |cs| ==> cs[k].chat.id != chatId
    ensures 0 <= i ==> cs[i].chat.id == chatId && forall k :: 0 <= k < i ==> cs[k].chat.id != chatId
  {
    if |cs| == 0 then -1
    else if cs[0].chat.id == chatId then 0
    else
      var j := FindChat(cs[1..], chatId);
      if j < 0 then -1 else j + 1
  }

  /** A row holding the chat with no earlier such row is the one `FindChat` finds. */
  lemma FindChatIsFirst(cs: seq<ChatEntry>, chatId: string, i: nat)
    requires i < |cs| && cs[i].chat.id == chatId
    requires forall k :: 0 <= k < i ==> cs[k].chat.id != chatId
    ensures FindChat(cs, chatId) == i
  {
  }

  /** The arrival counts as unseen: `updatedUnseenCount && newMessage.senderId !== loggedInUser?._id`. */
  predicate CountsAsUnseen(p: Preview, counting: bool, me: Option<string>) {
    counting && Some(p.senderId) != me
  }

  /** `chat.unseenCount || 0`. */
  function Count(c: Chat): nat {
    c.unseenCount.GetOr(0)
  }

  /** `e` with `counter` as its `unseenCount`: used to say that nothing else differs. */
  function WithCount(e: ChatEntry, counter: Option<nat>): ChatEntry {
    e.(chat := e.chat.(unseenCount := counter))
  }

  /**
   * The moved chat as the source builds it: the counter is read from `unseenCount` but the
   * new value is written to `unSeenCount`, so `unseenCount` itself never moves.
   */
  function Bump(e: ChatEntry, p: Preview, counting: bool, me: Option<string>, now: string): (r: ChatEntry)
    ensures r.chat.unSeenCount.Some?
    ensures r.chat.unSeenCount.value == Count(e.chat) + if CountsAsUnseen(p, counting, me) then 1 else 0
    ensures r.chat.unseenCount == e.chat.unseenCount
    ensures r.chat.latestMessage == LatestMessage(p.text, p.senderId) && r.chat.updatedAt == now
    ensures r.id == e.id && r.user == e.user
    ensures r.chat.(latestMessage := e.chat.latestMessage, updatedAt := e.chat.updatedAt, unSeenCount := e.chat.unSeenCount) == e.chat
  {
    var old_ := Count(e.chat);
    e.(chat := e.chat.(
      latestMessage := LatestMessage(p.text, p.senderId),
      updatedAt := now,
      unSeenCount := Some(if CountsAsUnseen(p, counting, me) then old_ + 1 else old_)))
  }

  /** `splice(i, 1)` followed by `unshift(moved)`. */
  function Relocate(cs: seq<ChatEntry>, i: nat, moved: ChatEntry): (r: seq<ChatEntry>)
    requires i < |cs|
    ensures |r| == |cs| && r[0] == moved
    ensures forall k :: 0 <= k < |cs| && k != i ==> r[if k < i then k + 1 else k] == cs[k]
  {
    [moved] + cs[..i] + cs[i + 1..]
  }

  /**
   * `moveChatToTop`: no list stays no list; a list without the chat is returned as it is;
   * otherwise the updated chat comes first and every other row keeps its relative order.
   */
  function MoveToTop(prev: Option<seq<ChatEntry>>, chatId: string, p: Preview, counting: bool,
                     me: Option<string>, now: string): (r: Option<seq<ChatEntry>>)
    ensures prev.None? ==> r.None?
    ensures prev.Some? && FindChat(prev.value, chatId) < 0 ==> r == prev
    ensures prev.Some? && FindChat(prev.value, chatId) >= 0 ==>
      var cs, i := prev.value, FindChat(prev.value, chatId);
      && r.Some? && |r.value| == |cs|
      && r.value[0] == Bump(cs[i], p, counting, me, now)
      && r.value[0].chat.id == chatId
  {
    match prev
    case None => None
    case Some(cs) =>
      var i := FindChat(cs, chatId);
      if i < 0 then prev else Some(Relocate(cs, i, Bump(cs[i], p, counting, me, now)))
  }

  /** The found row, updated, goes to the front of the rest of the list. */
  lemma Moved(cs: seq<ChatEntry>, chatId: string, p: Preview, counting: bool, me: Option<string>, now: string)
    requires FindChat(cs, chatId) >= 0
    ensures var i := FindChat(cs, chatId);
      MoveToTop(Some(cs), chatId, p, counting, me, now) == Some(Relocate(cs, i, Bump(cs[i], p, counting, me, now)))
  {
  }

  lemma RelocatePermutes(cs: seq<ChatEntry>, i: nat, moved: ChatEntry)
    requires i < |cs|
    ensures multiset(Relocate(cs, i, moved)) == multiset(cs) - multiset{cs[i]} + multiset{moved}
  {
    assert cs == cs[..i] + [cs[i]] + cs[i + 1..];
    assert multiset(cs) == multiset(cs[..i]) + multiset{cs[i]} + multiset(cs[i + 1..]);
    assert Relocate(cs, i, moved) == [moved] + cs[..i] + cs[i + 1..];
    assert multiset(Relocate(cs, i, moved)) == multiset{moved} + multiset(cs[..i]) + multiset(cs[i + 1..]);
  }

  /** Every other row keeps its relative order: rows before the moved one shift down by one. */
  lemma MoveToTopKeepsOrder(cs: seq<ChatEntry>, chatId: string, p: Preview, counting: bool, me: Option<string>, now: string)
    requires FindChat(cs, chatId) >= 0
    ensures var r, i := MoveToTop(Some(cs), chatId, p, counting, me, now).value, FindChat(cs, chatId);
      forall k :: 0 <= k < |cs| && k != i ==> r[if k < i then k + 1 else k] == cs[k]
  {
  }

  /** The reordering is a permutation: the moved row is replaced by its update and nothing else changes. */
  lemma MoveToTopPermutes(cs: seq<ChatEntry>, chatId: string, p: Preview, counting: bool, me: Option<string>, now: string)
    requires FindChat(cs, chatId) >= 0
    ensures var i := FindChat(cs, chatId);
      multiset(MoveToTop(Some(cs), chatId, p, counting, me, now).value) ==
        multiset(cs) - multiset{cs[i]} + multiset{Bump(cs[i], p, counting, me, now)}
  {
    var i := FindChat(cs, chatId);
    Moved(cs, chatId, p, counting, me, now);
    RelocatePermutes(cs, i, Bump(cs[i], p, counting, me, now));
  }

  /** Bumping again with the same message only renews the time: the counter is recomputed from `unseenCount`. */
  lemma BumpTwice(e: ChatEntry, p: Preview, counting: bool, me: Option<string>, t1: string, t2: string)
    ensures Bump(Bump(e, p, counting, me, t1), p, counting, me, t2) == Bump(e, p, counting, me, t2)
  {
  }

  /**
   * Running the updater a second time for the same message leaves the list as one run with
   * the later time would: the chat is already on top, and its counter does not move again.
   */
  lemma MoveToTopTwice(prev: Option<seq<ChatEntry>>, chatId: string, p: Preview, counting: bool,
                       me: Option<string>, t1: string, t2: string)
    ensures MoveToTop(MoveToTop(prev, chatId, p, counting, me, t1), chatId, p, counting, me, t2) ==
            MoveToTop(prev, chatId, p, counting, me, t2)
  {
    if prev.Some? && FindChat(prev.value, chatId) >= 0 {
      MoveToTopTwiceFound(prev.value, chatId, p, counting, me, t1, t2);
    }
  }

  lemma MoveToTopTwiceFound(cs: seq<ChatEntry>, chatId: string, p: Preview, counting: bool,
                            me: Option<string>, t1: string, t2: string)
    requires FindChat(cs, chatId) >= 0
    ensures MoveToTop(MoveToTop(Some(cs), chatId, p, counting, me, t1), chatId, p, counting, me, t2) ==
            MoveToTop(Some(cs), chatId, p, counting, me, t2)
  {
    var i := FindChat(cs, chatId);
    var b1 := Bump(cs[i], p, counting, me, t1);
    var l1 := Relocate(cs, i, b1);
    Moved(cs, chatId, p, counting, me, t1);
    FoundAtTop(l1, chatId);
    Moved(l1, chatId, p, counting, me, t2);
    BumpTwice(cs[i], p, counting, me, t1, t2);
    RelocateTwice(cs, i, b1, Bump(cs[i], p, counting, me, t2));
    Moved(cs, chatId, p, counting, me, t2);
  }

  /** Relocating again to the front replaces the row just put there. */
  lemma RelocateTwice(cs: seq<ChatEntry>, i: nat, x: ChatEntry, y: ChatEntry)
    requires i < |cs|
    ensures Relocate(Relocate(cs, i, x), 0, y) == Relocate(cs, i, y)
  {
    assert Relocate(cs, i, x)[1..] == cs[..i] + cs[i + 1..];
  }

  /**
   * `moveChatToTop`'s updater step by step: copy the list, `findIndex`, `splice` the row out,
   * build the updated row, `unshift` it.
   */
  method MoveChatToTop(prev: Option<seq<ChatEntry>>, chatId: string, p: Preview, counting: bool,
                       me: Option<string>, now: string) returns (r: Option<seq<ChatEntry>>)
    ensures r == MoveToTop(prev, chatId, p, counting, me, now)
  {
    if prev.None? {
      return None;
    }
    var updatedChats := prev.value;
    var chatIndex := 0;
    while chatIndex < |updatedChats| && updatedChats[chatIndex].chat.id != chatId
      invariant 0 <= chatIndex <= |updatedChats|
      invariant forall k :: 0 <= k < chatIndex ==> updatedChats[k].chat.id != chatId
    {
      chatIndex := chatIndex + 1;
    }
    if chatIndex < |updatedChats| {
      ghost var before := updatedChats;
      assert FindChat(before, chatId) == chatIndex;
      var moveChat := updatedChats[chatIndex];
      updatedChats := updatedChats[..chatIndex] + updatedChats[chatIndex + 1..];
      var updatedChat := Bump(moveChat, p, counting, me, now);
      updatedChats := [updatedChat] + updatedChats;
      assert updatedChats == Relocate(before, chatIndex, updatedChat);
    }
    r := Some(updatedChats);
  }

  // ---------------------------------------------------------------------------------------
  // resetUnseenCount

  /** `resetUnseenCount`: every row of chat `chatId` gets a zero counter; nothing else changes. */
  function ResetUnseenCount(prev: Option<seq<ChatEntry>>, chatId: string): (r: Option<seq<ChatEntry>>)
    ensures r.None? <==> prev.None?
    ensures prev.Some? ==>
      && |r.value| == |prev.value|
      && forall k :: 0 <= k < |prev.value| ==>
        if prev.value[k].chat.id == chatId then
          r.value[k].chat.unseenCount == Some(0) && WithCount(r.value[k], prev.value[k].chat.unseenCount) == prev.value[k]
        else
          r.value[k] == prev.value[k]
  {
    match prev
    case None => None
    case Some(cs) =>
      Some(seq(|cs|, k requires 0 <= k < |cs| =>
        if cs[k].chat.id == chatId then WithCount(cs[k], Some(0)) else cs[k]))
  }

  /** Resetting twice is resetting once. */
  lemma ResetUnseenCountIdempotent(prev: Option<seq<ChatEntry>>, chatId: string)
    ensures ResetUnseenCount(ResetUnseenCount(prev, chatId), chatId) == ResetUnseenCount(prev, chatId)
  {
    if prev.Some? {
      var once := ResetUnseenCount(prev, chatId).value;
      var twice := ResetUnseenCount(Some(once), chatId).value;
      assert |twice| == |once|;
      forall k | 0 <= k < |once|
        ensures twice[k] == once[k]
      {
        if prev.value[k].chat.id == chatId {
          assert once[k] == WithCount(prev.value[k], Some(0));
        }
      }
      assert twice == once;
    }
  }

  // ---------------------------------------------------------------------------------------
  // The finding: the counter as written does not accumulate.

  /** The moved chat with the counter read from and written to the same field, `unseenCount`. */
  function BumpCorrected(e: ChatEntry, p: Preview, counting: bool, me: Option<string>, now: string): (r: ChatEntry)
    ensures r.chat.unseenCount.Some?
    ensures Count(r.chat) == Count(e.chat) + if CountsAsUnseen(p, counting, me) then 1 else 0
    ensures r.chat.latestMessage == LatestMessage(p.text, p.senderId) && r.chat.updatedAt == now
    ensures r.id == e.id && r.user == e.user
    ensures r.chat.(latestMessage := e.chat.latestMessage, updatedAt := e.chat.updatedAt, unseenCount := e.chat.unseenCount) == e.chat
  {
    var old_ := Count(e.chat);
    e.(chat := e.chat.(
      latestMessage := LatestMessage(p.text, p.senderId),
      updatedAt := now,
      unseenCount := Some(if CountsAsUnseen(p, counting, me) then old_ + 1 else old_)))
  }

  /** `moveChatToTop` with the counter field corrected: the same reordering around `BumpCorrected`. */
  function MoveToTopCorrected(prev: Option<seq<ChatEntry>>, chatId: string, p: Preview, counting: bool,
                              me: Option<string>, now: string): (r: Option<seq<ChatEntry>>)
    ensures prev.None? ==> r.None?
    ensures prev.Some? && FindChat(prev.value, chatId) < 0 ==> r == prev
    ensures prev.Some? && FindChat(prev.value, chatId) >= 0 ==>
      var cs, i := prev.value, FindChat(prev.value, chatId);
      && r.Some? && |r.value| == |cs|
      && r.value[0] == BumpCorrected(cs[i], p, counting, me, now)
      && r.value[0].chat.id == chatId
  {
    match prev
    case None => None
    case Some(cs) =>
      var i := FindChat(cs, chatId);
      if i < 0 then prev else Some(Relocate(cs, i, BumpCorrected(cs[i], p, counting, me, now)))
  }

  lemma MovedCorrected(cs: seq<ChatEntry>, chatId: string, p: Preview, counting: bool, me: Option<string>, now: string)
    requires FindChat(cs, chatId) >= 0
    ensures var i := FindChat(cs, chatId);
      MoveToTopCorrected(Some(cs), chatId, p, counting, me, now) ==
        Some(Relocate(cs, i, BumpCorrected(cs[i], p, counting, me, now)))
  {
  }

  lemma FoundAtTop(cs: seq<ChatEntry>, chatId: string)
    requires |cs| > 0 && cs[0].chat.id == chatId
    ensures FindChat(cs, chatId) == 0
  {
  }

  lemma StallsOnce(e: ChatEntry, p1: Preview, p2: Preview, me: Option<string>, t1: string, t2: string)
    requires e.chat.unseenCount.None? && CountsAsUnseen(p1, true, me) && CountsAsUnseen(p2, true, me)
    ensures Bump(Bump(e, p1, true, me, t1), p2, true, me, t2).chat.unSeenCount == Some(1)
  {
  }

  lemma AddsTwice(e: ChatEntry, p1: Preview, p2: Preview, me: Option<string>, t1: string, t2: string)
    requires CountsAsUnseen(p1, true, me) && CountsAsUnseen(p2, true, me)
    ensures BumpCorrected(BumpCorrected(e, p1, true, me, t1), p2, true, me, t2).chat.unseenCount == Some(Count(e.chat) + 2)
  {
  }

  /**
   * As written, a chat whose `unseenCount` is absent (as on every row the chat service sends,
   * which carry `unSeenCount` instead) shows 1 after two unseen arrivals, not 2.
   */
  lemma AsWrittenCounterStalls(cs: seq<ChatEntry>, chatId: string, p1: Preview, p2: Preview,
                               me: Option<string>, t1: string, t2: string)
    requires FindChat(cs, chatId) >= 0 && cs[FindChat(cs, chatId)].chat.unseenCount.None?
    requires CountsAsUnseen(p1, true, me) && CountsAsUnseen(p2, true, me)
    ensures var once := MoveToTop(Some(cs), chatId, p1, true, me, t1);
            var twice := MoveToTop(once, chatId, p2, true, me, t2);
            twice.Some? && twice.value[0].chat.unSeenCount == Some(1)
  {
    var i := FindChat(cs, chatId);
    var first := Bump(cs[i], p1, true, me, t1);
    Moved(cs, chatId, p1, true, me, t1);
    var l1 := Relocate(cs, i, first);
    FoundAtTop(l1, chatId);
    Moved(l1, chatId, p2, true, me, t2);
    StallsOnce(cs[i], p1, p2, me, t1, t2);
  }

  /** Corrected, each unseen arrival adds one: two arrivals add two. */
  lemma ArrivalsAccumulate(cs: seq<ChatEntry>, chatId: string, p1: Preview, p2: Preview,
                           me: Option<string>, t1: string, t2: string)
    requires FindChat(cs, chatId) >= 0
    requires CountsAsUnseen(p1, true, me) && CountsAsUnseen(p2, true, me)
    ensures var once := MoveToTopCorrected(Some(cs), chatId, p1, true, me, t1);
            var twice := MoveToTopCorrected(once, chatId, p2, true, me, t2);
            && twice.Some? && twice.value[0].chat.unseenCount.Some?
            && Count(twice.value[0].chat) == Count(cs[FindChat(cs, chatId)].chat) + 2
  {
    var i := FindChat(cs, chatId);
    var first := BumpCorrected(cs[i], p1, true, me, t1);
    MovedCorrected(cs, chatId, p1, true, me, t1);
    var l1 := Relocate(cs, i, first);
    FoundAtTop(l1, chatId);
    MovedCorrected(l1, chatId, p2, true, me, t2);
    AddsTwice(cs[i], p1, p2, me, t1, t2);
  }

  /** Resetting leaves the chat where it was, with a zero counter. */
  lemma ResetKeepsPosition(cs: seq<ChatEntry>, chatId: string)
    requires FindChat(cs, chatId) >= 0
    ensures var reset, i := ResetUnseenCount(Some(cs), chatId).value, FindChat(cs, chatId);
      |reset| == |cs| && FindChat(reset, chatId) == i && Count(reset[i].chat) == 0
  {
    var reset, i := ResetUnseenCount(Some(cs), chatId).value, FindChat(cs, chatId);
    forall k | 0 <= k < i
      ensures reset[k].chat.id != chatId
    {
      assert reset[k] == cs[k];
    }
    FindChatIsFirst(reset, chatId, i);
  }

  /** Corrected, the counter that `resetUnseenCount` zeroes is the one the next arrival increments. */
  lemma ResetThenArrival(cs: seq<ChatEntry>, chatId: string, p: Preview, me: Option<string>, now: string)
    requires FindChat(cs, chatId) >= 0
    requires CountsAsUnseen(p, true, me)
    ensures var r := MoveToTopCorrected(ResetUnseenCount(Some(cs), chatId), chatId, p, true, me, now);
            r.Some? && r.value[0].chat.unseenCount.Some? && Count(r.value[0].chat) == 1
  {
    var reset := ResetUnseenCount(Some(cs), chatId).value;
    ResetKeepsPosition(cs, chatId);
    MovedCorrected(reset, chatId, p, true, me, now);
  }

  // ---------------------------------------------------------------------------------------
  // Appending a message unless its id is already present

  predicate HasMessage(ms: seq<Message>, id: string) {
    exists k :: 0 <= k < |ms| && ms[k].id == id
  }

  predicate UniqueIds(ms: seq<Message>) {
    forall j, k :: 0 <= j < k < |ms| ==> ms[j].id != ms[k].id
  }

  /**
   * The `setMessages` updater after a send and on `newMessage`: no list counts as empty; a
   * message whose id is already listed leaves the list as it is; otherwise it goes at the end.
   */
  function AppendMessage(prev: Option<seq<Message>>, m: Message): (r: seq<Message>)
    ensures prev.GetOr([]) <= r && |r| <= |prev.GetOr([])| + 1
    ensures HasMessage(r, m.id)
    ensures HasMessage(prev.GetOr([]), m.id) ==> r == prev.GetOr([])
    ensures !HasMessage(prev.GetOr([]), m.id) ==> r[|r| - 1] == m
    ensures UniqueIds(prev.GetOr([])) ==> UniqueIds(r)
  {
    var current := prev.GetOr([]);
    if HasMessage(current, m.id) then current
    else
      assert (current + [m])[|current|] == m;
      current + [m]
  }

  /** Delivering the same message twice is delivering it once. */
  lemma AppendMessageIdempotent(prev: Option<seq<Message>>, m: Message)
    ensures AppendMessage(Some(AppendMessage(prev, m)), m) == AppendMessage(prev, m)
  {
  }

  // ---------------------------------------------------------------------------------------
  // messageSeen

  /** A `messageSeen` payload: `messageIds` absent means all of the receiver's messages. */
  datatype SeenEvent = SeenEvent(chatId: string, messageIds: Option<seq<string>>)

  /** The receipt covers `m`: it is one of mine, and listed (or no list was given). */
  predicate Covers(ev: SeenEvent, m: Message, me: Option<string>) {
    Some(m.senderId) == me && (ev.messageIds.None? || m.id in ev.messageIds.value)
  }

  function MarkSeen(m: Message, now: string): Message {
    m.(seen := true, seenAt := Some(now))
  }

  /**
   * The `messageSeen` handler: only for the chat in view; then exactly the covered messages
   * become seen with time `now`, and every other message is unchanged.
   */
  function OnMessageSeen(prev: Option<seq<Message>>, selected: Option<string>, ev: SeenEvent,
                         me: Option<string>, now: string): (r: Option<seq<Message>>)
    ensures selected != Some(ev.chatId) || prev.None? ==> r == prev
    ensures selected == Some(ev.chatId) && prev.Some? ==>
      && r.Some? && |r.value| == |prev.value|
      && forall k :: 0 <= k < |prev.value| ==>
        && r.value[k].seen == (prev.value[k].seen || Covers(ev, prev.value[k], me))
        && r.value[k].(seen := prev.value[k].seen, seenAt := prev.value[k].seenAt) == prev.value[k]
        && (Covers(ev, prev.value[k], me) ==> r.value[k].seenAt == Some(now))
        && (!Covers(ev, prev.value[k], me) ==> r.value[k] == prev.value[k])
  {
    if selected != Some(ev.chatId) then prev
    else
      match prev
      case None => None
      case Some(ms) =>
        Some(seq(|ms|, k requires 0 <= k < |ms| =>
          var msg := ms[k];
          if Some(msg.senderId) == me && ev.messageIds.Some? && msg.id in ev.messageIds.value then MarkSeen(msg, now)
          else if Some(msg.senderId) == me && ev.messageIds.None? then MarkSeen(msg, now)
          else msg))
  }

  /** A receipt never un-sees a message. */
  lemma SeenIsMonotone(prev: seq<Message>, selected: Option<string>, ev: SeenEvent, me: Option<string>, now: string, k: nat)
    requires k < |prev| && prev[k].seen
    ensures OnMessageSeen(Some(prev), selected, ev, me, now).value[k].seen
  {
  }

  // ---------------------------------------------------------------------------------------
  // Send guard

  /** The form data a send posts: the chat, the text when not blank, and whether an image goes along. */
  datatype Outgoing = Outgoing(chatId: string, text: Option<string>, hasImage: bool)

  /**
   * `handleMessageSend`'s guards: nothing is sent when the draft is blank and there is no
   * image, or when no chat is selected; otherwise the post carries the untrimmed draft when it
   * is not blank.
   */
  function PrepareSend(draft: string, hasImage: bool, selected: Option<string>): (r: Option<Outgoing>)
    ensures r.None? <==> (Blank(draft) && !hasImage) || selected.None? || selected == Some("")
    ensures r.Some? ==>
      && r.value.chatId == selected.value && r.value.hasImage == hasImage
      && r.value.text == (if Blank(draft) then None else Some(draft))
  {
    TrimEmptyIffBlank(draft);
    if Trim(draft) == "" && !hasImage then None
    else if selected.None? || selected.value == "" then None
    else Some(Outgoing(selected.value, if Trim(draft) != "" then Some(draft) else None, hasImage))
  }

  // ---------------------------------------------------------------------------------------
  // Typing indicator

  /** A typing signal: the sender's id is `loggedInUser?._id` on their side, so it may be absent. */
  datatype TypingEvent = TypingEvent(chatId: string, userId: Option<string>)

  /** The event is about the chat in view and comes from someone else. */
  predicate FromPeerInView(ev: TypingEvent, selected: Option<string>, me: Option<string>) {
    selected == Some(ev.chatId) && ev.userId != me
  }

  /** `userTyping`: raise the flag for the peer in view, ignore everything else. */
  function OnUserTyping(isTyping: bool, ev: TypingEvent, selected: Option<string>, me: Option<string>): (r: bool)
    ensures r <==> isTyping || FromPeerInView(ev, selected, me)
  {
    if selected == Some(ev.chatId) && ev.userId != me then true else isTyping
  }

  /** `stopTyping`: lower the flag for the peer in view, ignore everything else. */
  function OnStopTyping(isTyping: bool, ev: TypingEvent, selected: Option<string>, me: Option<string>): (r: bool)
    ensures r <==> isTyping && !FromPeerInView(ev, selected, me)
  {
    if selected == Some(ev.chatId) && ev.userId != me then false else isTyping
  }

  // ---------------------------------------------------------------------------------------
  // The handlers over the whole client state

  /**
   * What the screen holds. `listeners` counts the `newMessage` and `messageSeen` handlers
   * currently registered: they are registered inside the `userTyping` handler, one more pair
   * per typing signal, and all removed when the effect that installs `userTyping` is cleaned up.
   */
  /**
   * `selectedUser`: it starts as `null`, holds a chat id once one is chosen, and becomes
   * `undefined` when it is set from a reply without a `chatId`. React tells `null` and
   * `undefined` apart when deciding whether an effect re-runs.
   */
  datatype Selection = Null | Undefined | Id(chatId: string)

  /** The chat in view, as `selectedUser === chatId` sees it: `null` and `undefined` match no id. */
  function InView(s: Selection): Option<string> {
    if s.Id? then Some(s.chatId) else None
  }

  datatype ClientState = ClientState(
    chats: Option<seq<ChatEntry>>,
    messages: Option<seq<Message>>,
    selected: Selection,
    me: Option<string>,
    draft: string,
    isTyping: bool,
    listeners: nat)

  /**
   * One `newMessage` handler: for the chat in view, append (deduplicated) and move the chat up
   * without counting; for any other chat, only move it up, counting the message as unseen.
   */
  function OnNewMessage(st: ClientState, m: Message, now: string): (r: ClientState)
    ensures r.selected == st.selected && r.me == st.me && r.draft == st.draft
    ensures r.isTyping == st.isTyping && r.listeners == st.listeners
    ensures InView(st.selected) != Some(m.chatId) ==> r.messages == st.messages
    ensures InView(st.selected) == Some(m.chatId) ==> r.messages == Some(AppendMessage(st.messages, m))
    ensures st.chats.None? ==> r.chats.None?
    ensures st.chats.Some? && FindChat(st.chats.value, m.chatId) < 0 ==> r.chats == st.chats
    ensures st.chats.Some? && FindChat(st.chats.value, m.chatId) >= 0 ==>
      var cs, i := st.chats.value, FindChat(st.chats.value, m.chatId);
      && r.chats.Some? && |r.chats.value| == |cs|
      && r.chats.value[0] == Bump(cs[i], Preview(m.text, m.senderId), InView(st.selected) != Some(m.chatId), st.me, now)
      && multiset(r.chats.value) == multiset(cs) - multiset{cs[i]} + multiset{r.chats.value[0]}
  {
    var p := Preview(m.text, m.senderId);
    var r := if InView(st.selected) == Some(m.chatId) then
        st.(messages := Some(AppendMessage(st.messages, m)), chats := MoveToTop(st.chats, m.chatId, p, false, st.me, now))
      else
        st.(chats := MoveToTop(st.chats, m.chatId, p, true, st.me, now));
    if st.chats.Some? && FindChat(st.chats.value, m.chatId) >= 0 then
      MoveToTopPermutes(st.chats.value, m.chatId, p, InView(st.selected) != Some(m.chatId), st.me, now);
      r
    else
      r
  }

  /**
   * The counter after an arrival lands in `unSeenCount`: the old `unseenCount` (absent counts
   * as 0) plus one exactly when the chat is not in view and someone else sent the message;
   * `unseenCount` itself is left as it was.
   */
  lemma NewMessageCounter(st: ClientState, m: Message, now: string)
    requires st.chats.Some? && FindChat(st.chats.value, m.chatId) >= 0
    ensures var r := OnNewMessage(st, m, now);
      var old_ := st.chats.value[FindChat(st.chats.value, m.chatId)];
      && r.chats.Some? && |r.chats.value| == |st.chats.value| && r.chats.value[0].chat.id == m.chatId
      && r.chats.value[0].chat.unSeenCount ==
           Some(Count(old_.chat) + if InView(st.selected) != Some(m.chatId) && Some(m.senderId) != st.me then 1 else 0)
      && r.chats.value[0].chat.unseenCount == old_.chat.unseenCount
  {
  }

  /** A second run of the handler for the same message is a first run at the later time. */
  lemma OnNewMessageTwice(st: ClientState, m: Message, t1: string, t2: string)
    ensures OnNewMessage(OnNewMessage(st, m, t1), m, t2) == OnNewMessage(st, m, t2)
  {
    var counting := InView(st.selected) != Some(m.chatId);
    MoveToTopTwice(st.chats, m.chatId, Preview(m.text, m.senderId), counting, st.me, t1, t2);
    AppendMessageIdempotent(st.messages, m);
  }

  /** `newMessage` handlers run one after another, the i-th reading the clock as `times[i]`. */
  function RunNewMessage(st: ClientState, m: Message, times: seq<string>): (r: ClientState)
    ensures |times| == 0 ==> r == st
    ensures |times| > 0 ==> r == OnNewMessage(st, m, times[|times| - 1])
    decreases |times|
  {
    if |times| == 0 then st
    else
      var next := OnNewMessage(st, m, times[0]);
      if |times| > 1 then
        OnNewMessageTwice(st, m, times[0], times[|times| - 1]);
        RunNewMessage(next, m, times[1..])
      else
        next
  }

  /**
   * A `newMessage` event: each of the `st.listeners` registered handlers runs once, with one
   * clock reading each. With no handler registered the message is dropped; with any number
   * of them the result is that of a single run at the last reading.
   */
  function DeliverNewMessage(st: ClientState, m: Message, times: seq<string>): (r: ClientState)
    requires |times| == st.listeners
    ensures st.listeners == 0 ==> r == st
    ensures st.listeners > 0 ==> r == OnNewMessage(st, m, times[st.listeners - 1])
  {
    RunNewMessage(st, m, times)
  }

  /** A second run of the receipt handler at a later time is one run at that time. */
  lemma OnMessageSeenTwice(prev: Option<seq<Message>>, selected: Option<string>, ev: SeenEvent,
                           me: Option<string>, t1: string, t2: string)
    ensures OnMessageSeen(OnMessageSeen(prev, selected, ev, me, t1), selected, ev, me, t2) ==
            OnMessageSeen(prev, selected, ev, me, t2)
  {
    if selected == Some(ev.chatId) && prev.Some? {
      var once := OnMessageSeen(prev, selected, ev, me, t1).value;
      var twice := OnMessageSeen(Some(once), selected, ev, me, t2).value;
      var direct := OnMessageSeen(prev, selected, ev, me, t2).value;
      forall k | 0 <= k < |prev.value|
        ensures twice[k] == direct[k]
      {
        var m := prev.value[k];
        assert once[k].(seen := m.seen, seenAt := m.seenAt) == m;
        assert once[k].id == m.id && once[k].senderId == m.senderId;
        assert Covers(ev, once[k], me) == Covers(ev, m, me);
        if Covers(ev, m, me) {
          assert twice[k] == MarkSeen(m, t2);
        } else {
          assert twice[k] == m;
        }
      }
      assert twice == direct;
    }
  }

  /** `messageSeen` handlers run one after another, the i-th at `times[i]`. */
  function RunSeen(st: ClientState, ev: SeenEvent, times: seq<string>): (r: ClientState)
    ensures |times| == 0 ==> r == st
    ensures |times| > 0 ==> r == st.(messages := OnMessageSeen(st.messages, InView(st.selected), ev, st.me, times[|times| - 1]))
    decreases |times|
  {
    if |times| == 0 then st
    else
      var next := st.(messages := OnMessageSeen(st.messages, InView(st.selected), ev, st.me, times[0]));
      if |times| > 1 then
        OnMessageSeenTwice(st.messages, InView(st.selected), ev, st.me, times[0], times[|times| - 1]);
        RunSeen(next, ev, times[1..])
      else
        next
  }

  /**
   * A `messageSeen` event: each of the `st.listeners` registered handlers runs once. With none
   * the receipt is dropped; with any number of them it acts as one run at the last reading.
   */
  function DeliverSeen(st: ClientState, ev: SeenEvent, times: seq<string>): (r: ClientState)
    requires |times| == st.listeners
    ensures st.listeners == 0 ==> r == st
    ensures st.listeners > 0 ==> r == st.(messages := OnMessageSeen(st.messages, InView(st.selected), ev, st.me, times[st.listeners - 1]))
  {
    RunSeen(st, ev, times)
  }

  /**
   * The `userTyping` handler: it first registers one more `newMessage` and one more
   * `messageSeen` handler, then raises the typing flag for the peer in view.
   */
  function OnTypingSignal(st: ClientState, ev: TypingEvent): (r: ClientState)
    ensures r.listeners == st.listeners + 1
    ensures r.isTyping <==> st.isTyping || FromPeerInView(ev, InView(st.selected), st.me)
    ensures r.(listeners := st.listeners, isTyping := st.isTyping) == st
  {
    st.(listeners := st.listeners + 1, isTyping := OnUserTyping(st.isTyping, ev, InView(st.selected), st.me))
  }

  /** `if (selectedUser)`: a selection that is a non-empty chat id. */
  predicate Chosen(sel: Selection) {
    sel.Id? && sel.chatId != ""
  }

  /**
   * What the clean-up and re-run of both effects do to the state: no `newMessage` or
   * `messageSeen` handler is left; a previously chosen chat's clean-up empties the message
   * list; a chosen chat then has its typing flag dropped and its counter zeroed. Loading the
   * chat's messages and the `joinChat`/`leaveChat` emits are requests outside the state.
   */
  function Rerun(st: ClientState, before: Selection): (r: ClientState)
    ensures r.selected == st.selected && r.listeners == 0 && r.me == st.me && r.draft == st.draft
    ensures r.messages == (if Chosen(before) then None else st.messages)
    ensures Chosen(st.selected) ==> !r.isTyping && r.chats == ResetUnseenCount(st.chats, st.selected.chatId)
    ensures !Chosen(st.selected) ==> r.isTyping == st.isTyping && r.chats == st.chats
  {
    var cleared := st.(listeners := 0, messages := if Chosen(before) then None else st.messages);
    if Chosen(st.selected) then cleared.(isTyping := false, chats := ResetUnseenCount(st.chats, st.selected.chatId))
    else cleared
  }

  /**
   * `setSelectedUser(sel)`: setting the same value (`Object.is`) re-runs nothing; a new value
   * re-runs both effects, whose dependencies include the selection. Setting `undefined` after
   * `null`, as the first `createChat` does, is such a change.
   */
  function OnSelect(st: ClientState, sel: Selection): (r: ClientState)
    ensures sel == st.selected ==> r == st
    ensures sel != st.selected ==>
      && r.selected == sel && r.listeners == 0 && r.me == st.me && r.draft == st.draft
      && r.messages == (if Chosen(st.selected) then None else st.messages)
    ensures sel != st.selected && Chosen(sel) ==> !r.isTyping && r.chats == ResetUnseenCount(st.chats, sel.chatId)
    ensures sel != st.selected && !Chosen(sel) ==> r.isTyping == st.isTyping && r.chats == st.chats
  {
    if sel == st.selected then st else Rerun(st.(selected := sel), st.selected)
  }

  /** A new socket re-runs both effects, whose dependencies include it, with the selection kept. */
  function OnSocketChange(st: ClientState): (r: ClientState)
    ensures r.selected == st.selected && r.listeners == 0 && r.me == st.me
    ensures r.messages == (if Chosen(st.selected) then None else st.messages)
    ensures Chosen(st.selected) ==> !r.isTyping && r.chats == ResetUnseenCount(st.chats, st.selected.chatId)
    ensures !Chosen(st.selected) ==> r.isTyping == st.isTyping && r.chats == st.chats
  {
    Rerun(st, st.selected)
  }

  /**
   * A change of the logged-in user's id re-runs only the listener effect: every registered
   * handler is removed and the new id is the one the handlers compare with.
   */
  function OnUserChange(st: ClientState, me: Option<string>): (r: ClientState)
    ensures me == st.me ==> r == st
    ensures me != st.me ==> r == st.(me := me, listeners := 0)
  {
    if me == st.me then st else st.(me := me, listeners := 0)
  }

  /** After a change of selection and before any typing signal, incoming messages are dropped. */
  lemma ArrivalAfterSelectIgnored(st: ClientState, sel: Selection, m: Message, times: seq<string>)
    requires sel != st.selected
    requires |times| == OnSelect(st, sel).listeners
    ensures DeliverNewMessage(OnSelect(st, sel), m, times) == OnSelect(st, sel)
  {
  }

  /**
   * However many typing signals have registered handlers, a message is shown once and its
   * chat counter moves by at most one.
   */
  lemma TypingSignalsDoNotMultiply(st: ClientState, signals: seq<TypingEvent>, m: Message, times: seq<string>)
    requires |times| == st.listeners + |signals| && |times| > 0
    ensures var s := ApplySignals(st, signals);
      s.listeners == |times| && DeliverNewMessage(s, m, times) == OnNewMessage(s, m, times[|times| - 1])
  {
  }

  /** Several typing signals in a row. */
  function ApplySignals(st: ClientState, signals: seq<TypingEvent>): (r: ClientState)
    ensures r.listeners == st.listeners + |signals|
    ensures r.chats == st.chats && r.messages == st.messages && r.selected == st.selected
    decreases |signals|
  {
    if |signals| == 0 then st else ApplySignals(OnTypingSignal(st, signals[0]), signals[1..])
  }

  /** After a successful send: append the returned message, clear the draft, move the chat up uncounted. */
  function OnSendSuccess(st: ClientState, chatId: string, draft: string, hadImage: bool,
                         sent: Message, senderId: string, now: string): (r: ClientState)
    ensures r.draft == "" && r.messages == Some(AppendMessage(st.messages, sent))
    ensures r.selected == st.selected && r.me == st.me && r.isTyping == st.isTyping && r.listeners == st.listeners
    ensures r.chats == MoveToTop(st.chats, chatId, Preview(Some(if hadImage then ImagePreview else draft), senderId), false, st.me, now)
    ensures st.chats.None? ==> r.chats.None?
    ensures st.chats.Some? && FindChat(st.chats.value, chatId) < 0 ==> r.chats == st.chats
    ensures st.chats.Some? && FindChat(st.chats.value, chatId) >= 0 ==>
      var cs, i := st.chats.value, FindChat(st.chats.value, chatId);
      && r.chats.Some? && |r.chats.value| == |cs| && r.chats.value[0].chat.id == chatId
      && r.chats.value[0].chat.unSeenCount == Some(Count(cs[i].chat))
      && r.chats.value[0].chat.unseenCount == cs[i].chat.unseenCount
      && r.chats.value[0].chat.latestMessage == LatestMessage(Some(if hadImage then ImagePreview else draft), senderId)
      && r.chats.value[0].chat.updatedAt == now
      && r.chats.value[0].chat.(latestMessage := cs[i].chat.latestMessage, updatedAt := cs[i].chat.updatedAt,
                                unSeenCount := cs[i].chat.unSeenCount) == cs[i].chat
      && (forall k :: 0 <= k < |cs| && k != i ==> r.chats.value[if k < i then k + 1 else k] == cs[k])
      && multiset(r.chats.value) == multiset(cs) - multiset{cs[i]} + multiset{r.chats.value[0]}
  {
    var display := if hadImage then ImagePreview else draft;
    var p := Preview(Some(display), senderId);
    var r := st.(messages := Some(AppendMessage(st.messages, sent)),
                 draft := "",
                 chats := MoveToTop(st.chats, chatId, p, false, st.me, now));
    if st.chats.Some? && FindChat(st.chats.value, chatId) >= 0 then
      MoveToTopKeepsOrder(st.chats.value, chatId, p, false, st.me, now);
      MoveToTopPermutes(st.chats.value, chatId, p, false, st.me, now);
      r
    else
      r
  }

  /** The typing flag moves only on signals from the peer in view; a stop after a start lowers it. */
  lemma TypingThenStop(isTyping: bool, start: TypingEvent, stop: TypingEvent, selected: Option<string>, me: Option<string>)
    requires FromPeerInView(stop, selected, me)
    ensures !OnStopTyping(OnUserTyping(isTyping, start, selected, me), stop, selected, me)
    ensures !FromPeerInView(start, selected, me) ==> OnUserTyping(isTyping, start, selected, me) == isTyping
  {
  }
}
