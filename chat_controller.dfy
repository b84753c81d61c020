/**
 * The chat service's two handlers: `createNewChat`, a find-or-create on the chat collection,
 * and `getAllChats`, which lists a user's chats newest first, each with the other participant
 * (fetched from the user service, or a placeholder when that fails) and the number of
 * messages from others the user has not seen.
 */
module ChatController {
  import opened Wrappers

  const MissingOtherUser: string := "Please provide otherUserId"
  const ChatExists: string := "Chat already exists"
  const ChatCreated: string := "New chat created"
  const NotAuthenticated: string := "User not authenticated"
  const ChatsFetched: string := "Chats fetched successfully"
  const UnknownName: string := "Unknown User"
  const UnknownEmail: string := "Unknown"

  /** A request field tested with `!x`: absent or empty is falsy. */
  predicate Present(x: Option<string>) {
    x.Some? && x.value != ""
  }

  datatype LastMessage = LastMessage(text: Option<string>, sender: Option<string>)

  /** A chat document; the timestamps are opaque instants. */
  datatype ChatDoc = ChatDoc(id: string, users: seq<string>, lastMessage: Option<LastMessage>, createdAt: int, updatedAt: int)

  datatype MessageDoc = MessageDoc(id: string, chatId: string, senderId: string, isSeen: bool)

  // ---------------------------------------------------------------------------------------
  // createNewChat

  /** The query `{ users: { $all: [userId, otherUserId], $size: 2 } }`. */
  predicate PairMatch(c: ChatDoc, userId: string, otherUserId: string) {
    userId in c.users && otherUserId in c.users && |c.users| == 2
  }

  /** `Chat.findOne` with that query: the first matching chat. */
  function FindPair(chats: seq<ChatDoc>, userId: string, otherUserId: string): (k: Option<nat>)
    ensures k.Some? ==> k.value < |chats| && PairMatch(chats[k.value], userId, otherUserId)
    ensures k.Some? ==> forall i :: 0 <= i < k.value ==> !PairMatch(chats[i], userId, otherUserId)
    ensures k.None? ==> forall i :: 0 <= i < |chats| ==> !PairMatch(chats[i], userId, otherUserId)
  {
    if |chats| == 0 then None
    else if PairMatch(chats[0], userId, otherUserId) then Some(0)
    else
      match FindPair(chats[1..], userId, otherUserId)
      case None => None
      case Some(k) => Some(k + 1)
  }

  datatype CreateReply = CreateReply(status: int, message: string, chat: Option<ChatDoc>)

  /**
   * `createNewChat` as a step on the collection: a missing other user is 400, an existing
   * two-person chat holding both ids is 200, and otherwise one chat `[userId, otherUserId]`
   * is inserted under the id and time the database assigns.
   */
  function CreateStep(chats: seq<ChatDoc>, userId: string, otherUserId: Option<string>, freshId: string, now: int)
    : (r: (CreateReply, seq<ChatDoc>))
    ensures !Present(otherUserId) ==> r == (CreateReply(400, MissingOtherUser, None), chats)
    ensures r.0.status == 201 <==>
            Present(otherUserId) && forall i :: 0 <= i < |chats| ==> !PairMatch(chats[i], userId, otherUserId.value)
    ensures Present(otherUserId) && FindPair(chats, userId, otherUserId.value).Some? ==>
            r == (CreateReply(200, ChatExists, None), chats)
    ensures r.0.status != 201 ==> r.1 == chats
    ensures r.0.status == 201 ==> && r.1 == chats + [ChatDoc(freshId, [userId, otherUserId.value], None, now, now)]
                                  && r.0.chat == Some(ChatDoc(freshId, [userId, otherUserId.value], None, now, now))
  {
    if !Present(otherUserId) then (CreateReply(400, MissingOtherUser, None), chats)
    else if FindPair(chats, userId, otherUserId.value).Some? then (CreateReply(200, ChatExists, None), chats)
    else
      var c := ChatDoc(freshId, [userId, otherUserId.value], None, now, now);
      (CreateReply(201, ChatCreated, Some(c)), chats + [c])
  }

  /** Repeating a request finds the chat the first one made: no duplicate is created. */
  lemma CreateTwiceCreatesOnce(chats: seq<ChatDoc>, userId: string, otherUserId: string,
                               id1: string, t1: int, id2: string, t2: int)
    requires otherUserId != ""
    ensures var after := CreateStep(chats, userId, Some(otherUserId), id1, t1).1;
      CreateStep(after, userId, Some(otherUserId), id2, t2) == (CreateReply(200, ChatExists, None), after)
  {
    var (first, after) := CreateStep(chats, userId, Some(otherUserId), id1, t1);
    if first.status == 201 {
      var c := after[|chats|];
      assert c.users == [userId, otherUserId];
      assert c.users[0] == userId && c.users[1] == otherUserId;
      assert PairMatch(c, userId, otherUserId);
    }
  }

  /** The order of the two ids does not matter for finding a chat between two distinct users. */
  lemma PairMatchSymmetric(c: ChatDoc, a: string, b: string)
    ensures PairMatch(c, a, b) <==> PairMatch(c, b, a)
  {
  }

  /** A two-person chat between two distinct users. */
  predicate IsPair(c: ChatDoc) {
    |c.users| == 2 && c.users[0] != c.users[1]
  }

  predicate SamePair(c: ChatDoc, d: ChatDoc) {
    IsPair(c) && IsPair(d) && multiset(c.users) == multiset(d.users)
  }

  /** No two chats hold the same two distinct users. */
  predicate OneChatPerPair(chats: seq<ChatDoc>) {
    forall i, j :: 0 <= i < j < |chats| ==> !SamePair(chats[i], chats[j])
  }

  lemma SamePairMatches(c: ChatDoc, d: ChatDoc)
    requires IsPair(d)
    ensures SamePair(c, d) ==> PairMatch(c, d.users[0], d.users[1])
  {
    if SamePair(c, d) {
      assert d.users[0] in multiset(d.users) && d.users[1] in multiset(d.users);
    }
  }

  /** Creating a chat between distinct users keeps one chat per pair. */
  lemma CreateKeepsOneChatPerPair(chats: seq<ChatDoc>, userId: string, otherUserId: Option<string>, freshId: string, now: int)
    requires OneChatPerPair(chats)
    requires otherUserId.Some? ==> otherUserId.value != userId
    ensures OneChatPerPair(CreateStep(chats, userId, otherUserId, freshId, now).1)
  {
    var (reply, after) := CreateStep(chats, userId, otherUserId, freshId, now);
    if reply.status == 201 {
      var c := after[|chats|];
      assert c.users == [userId, otherUserId.value];
      forall i | 0 <= i < |chats|
        ensures !SamePair(after[i], c)
      {
        SamePairMatches(after[i], c);
        assert after[i] == chats[i];
      }
    }
  }

  class ChatStore {
    var chats: seq<ChatDoc>

    constructor ()
      ensures chats == []
    {
      chats := [];
    }

    /** `createNewChat`: look for the pair, and insert a new chat only when none is found. */
    method CreateNewChat(userId: string, otherUserId: Option<string>, freshId: string, now: int)
      returns (reply: CreateReply)
      modifies this
      ensures (reply, chats) == CreateStep(old(chats), userId, otherUserId, freshId, now)
    {
      if !Present(otherUserId) {
        return CreateReply(400, MissingOtherUser, None);
      }
      var existing := FindPair(chats, userId, otherUserId.value);
      if existing.Some? {
        return CreateReply(200, ChatExists, None);
      }
      var newChat := ChatDoc(freshId, [userId, otherUserId.value], None, now, now);
      chats := chats + [newChat];
      reply := CreateReply(201, ChatCreated, Some(newChat));
    }
  }

  // ---------------------------------------------------------------------------------------
  // getAllChats

  /** `Chat.find({ users: userId })`: the chats the user belongs to, in collection order. */
  function ChatsOf(chats: seq<ChatDoc>, userId: string): (r: seq<ChatDoc>)
    ensures |r| <= |chats|
    ensures forall c :: c in r <==> c in chats && userId in c.users
    ensures forall c :: multiset(r)[c] == if userId in c.users then multiset(chats)[c] else 0
  {
    if chats == [] then []
    else
      assert chats == [chats[0]] + chats[1..];
      (if userId in chats[0].users then [chats[0]] else []) + ChatsOf(chats[1..], userId)
  }

  predicate NewestFirst(s: seq<ChatDoc>) {
    forall i, j :: 0 <= i < j < |s| ==> s[i].updatedAt >= s[j].updatedAt
  }

  /** Insertion into a newest-first list, ahead of the chats no newer than `c`. */
  function Insert(c: ChatDoc, s: seq<ChatDoc>): seq<ChatDoc> {
    if s == [] || s[0].updatedAt <= c.updatedAt then [c] + s else [s[0]] + Insert(c, s[1..])
  }

  /** `.sort({ updatedAt: -1 })`, as a stable insertion sort. */
  function SortNewestFirst(s: seq<ChatDoc>): seq<ChatDoc> {
    if s == [] then [] else Insert(s[0], SortNewestFirst(s[1..]))
  }

  lemma {:induction false} InsertPermutes(c: ChatDoc, s: seq<ChatDoc>)
    ensures multiset(Insert(c, s)) == multiset{c} + multiset(s)
    ensures |Insert(c, s)| == |s| + 1
  {
    if s != [] && s[0].updatedAt > c.updatedAt {
      InsertPermutes(c, s[1..]);
      assert s == [s[0]] + s[1..];
      assert multiset(s) == multiset{s[0]} + multiset(s[1..]);
    }
  }

  lemma {:induction false} InsertSorted(c: ChatDoc, s: seq<ChatDoc>)
    requires NewestFirst(s)
    ensures NewestFirst(Insert(c, s))
    ensures Insert(c, s)[0] == c || (s != [] && Insert(c, s)[0] == s[0])
  {
    if s != [] && s[0].updatedAt > c.updatedAt {
      InsertSorted(c, s[1..]);
      InsertPermutes(c, s[1..]);
      var r := Insert(c, s);
      assert r == [s[0]] + Insert(c, s[1..]);
      forall i, j | 0 <= i < j < |r|
        ensures r[i].updatedAt >= r[j].updatedAt
      {
        if i == 0 {
          assert r[j] == Insert(c, s[1..])[j - 1];
          InsertBound(c, s[1..], s[0].updatedAt, j - 1);
        }
      }
    }
  }

  /** Every element of an insertion is `c` or from `s`, so a common upper bound carries over. */
  lemma {:induction false} InsertBound(c: ChatDoc, s: seq<ChatDoc>, bound: int, k: nat)
    requires c.updatedAt <= bound && forall i :: 0 <= i < |s| ==> s[i].updatedAt <= bound
    requires k < |Insert(c, s)|
    ensures Insert(c, s)[k].updatedAt <= bound
  {
    if s != [] && s[0].updatedAt > c.updatedAt && k > 0 {
      InsertBound(c, s[1..], bound, k - 1);
    }
  }

  /** The sort keeps every chat exactly as often as it occurs. */
  lemma {:induction false} SortPermutes(s: seq<ChatDoc>)
    ensures multiset(SortNewestFirst(s)) == multiset(s)
    ensures |SortNewestFirst(s)| == |s|
  {
    if s != [] {
      SortPermutes(s[1..]);
      InsertPermutes(s[0], SortNewestFirst(s[1..]));
      assert s == [s[0]] + s[1..];
      assert multiset(s) == multiset{s[0]} + multiset(s[1..]);
    }
  }

  /** The sort orders newest first. */
  lemma {:induction false} SortSorted(s: seq<ChatDoc>)
    ensures NewestFirst(SortNewestFirst(s))
  {
    if s != [] {
      SortSorted(s[1..]);
      InsertSorted(s[0], SortNewestFirst(s[1..]));
    }
  }

  lemma SortNewestFirstMeaning(s: seq<ChatDoc>)
    ensures NewestFirst(SortNewestFirst(s))
    ensures multiset(SortNewestFirst(s)) == multiset(s)
    ensures |SortNewestFirst(s)| == |s|
  {
    SortSorted(s);
    SortPermutes(s);
  }

  /** The position of the first participant other than `userId`, or -1. */
  function FirstOtherIndex(users: seq<string>, userId: string): (k: int)
    ensures -1 <= k < |users|
    ensures k < 0 <==> forall i :: 0 <= i < |users| ==> users[i] == userId
    ensures 0 <= k ==> users[k] != userId && forall i :: 0 <= i < k ==> users[i] == userId
  {
    if users == [] then -1
    else if users[0] != userId then 0
    else
      var k := FirstOtherIndex(users[1..], userId);
      if k < 0 then -1 else k + 1
  }

  /** `chat.users.find((id) => id.toString() !== userId)`: the first other participant. */
  function FirstOther(users: seq<string>, userId: string): (r: Option<string>)
    ensures r.None? <==> forall i :: 0 <= i < |users| ==> users[i] == userId
    ensures r.Some? ==> r.value != userId && r.value in users
    ensures r.Some? ==> exists k :: 0 <= k < |users| && users[k] == r.value && forall i :: 0 <= i < k ==> users[i] == userId
  {
    var k := FirstOtherIndex(users, userId);
    if k < 0 then None else Some(users[k])
  }

  /** The `countDocuments` filter: a message of this chat, unseen, from someone else. */
  predicate Unseen(m: MessageDoc, chatId: string, userId: string) {
    m.chatId == chatId && !m.isSeen && m.senderId != userId
  }

  function CountUnseen(ms: seq<MessageDoc>, chatId: string, userId: string): nat {
    if ms == [] then 0
    else CountUnseen(ms[..|ms| - 1], chatId, userId) + (if Unseen(ms[|ms| - 1], chatId, userId) then 1 else 0)
  }

  ghost function UnseenPositions(ms: seq<MessageDoc>, chatId: string, userId: string): set<int> {
    set i | 0 <= i < |ms| && Unseen(ms[i], chatId, userId)
  }

  /** The count is the number of matching messages in the collection. */
  lemma {:induction false} CountUnseenMeaning(ms: seq<MessageDoc>, chatId: string, userId: string)
    ensures CountUnseen(ms, chatId, userId) == |UnseenPositions(ms, chatId, userId)|
  {
    if ms != [] {
      var n := |ms| - 1;
      var front := ms[..n];
      CountUnseenMeaning(front, chatId, userId);
      var before := UnseenPositions(front, chatId, userId);
      assert forall i :: 0 <= i < n ==> front[i] == ms[i];
      if Unseen(ms[n], chatId, userId) {
        assert UnseenPositions(ms, chatId, userId) == before + {n};
      } else {
        assert UnseenPositions(ms, chatId, userId) == before;
      }
    }
  }

  /** The listed participant: the user service's answer, or the placeholder when the call fails. */
  datatype Peer<R> = Known(data: R) | Unknown(id: Option<string>, name: string, email: string)

  /** `{ ...chat.toObject(), lastMessage: chat.lastMessage || {}, unSeenCount }`. */
  datatype ChatView = ChatView(doc: ChatDoc, lastMessage: LastMessage, unSeenCount: nat)

  datatype ChatEntry<R> = ChatEntry(user: Peer<R>, chat: ChatView)

  datatype ChatsReply<R> = Refused(status: int, message: string) | Listed(message: string, entries: seq<ChatEntry<R>>)

  /** One entry: `fetchUser` stands for the user-service request, `None` for a failed one. */
  function EntryFor<R>(c: ChatDoc, ms: seq<MessageDoc>, userId: string, fetchUser: Option<string> -> Option<R>): ChatEntry<R> {
    var other := FirstOther(c.users, userId);
    var view := ChatView(c, c.lastMessage.GetOr(LastMessage(None, None)), CountUnseen(ms, c.id, userId));
    match fetchUser(other)
    case Some(data) => ChatEntry(Known(data), view)
    case None => ChatEntry(Unknown(other, UnknownName, UnknownEmail), view)
  }

  /** `getAllChats`. */
  function GetAllChats<R>(chats: seq<ChatDoc>, ms: seq<MessageDoc>, userId: Option<string>,
                          fetchUser: Option<string> -> Option<R>): (r: ChatsReply<R>)
    ensures !Present(userId) <==> r == Refused(400, NotAuthenticated)
  {
    if !Present(userId) then Refused(400, NotAuthenticated)
    else
      var sorted := SortNewestFirst(ChatsOf(chats, userId.value));
      Listed(ChatsFetched, seq(|sorted|, k requires 0 <= k < |sorted| => EntryFor(sorted[k], ms, userId.value, fetchUser)))
  }

  function Docs<R>(entries: seq<ChatEntry<R>>): (r: seq<ChatDoc>)
    ensures |r| == |entries| && forall k :: 0 <= k < |entries| ==> r[k] == entries[k].chat.doc
  {
    seq(|entries|, k requires 0 <= k < |entries| => entries[k].chat.doc)
  }

  /**
   * The listing holds exactly the user's chats, each as often as in the collection, newest
   * first; each entry names the first other participant, fetched or as the placeholder,
   * carries the chat's last message or an empty one, and counts the unseen messages from others.
   */
  lemma GetAllChatsMeaning<R>(chats: seq<ChatDoc>, ms: seq<MessageDoc>, userId: string,
                              fetchUser: Option<string> -> Option<R>)
    requires userId != ""
    ensures GetAllChats(chats, ms, Some(userId), fetchUser).Listed?
    ensures var es := GetAllChats(chats, ms, Some(userId), fetchUser).entries;
      && multiset(Docs(es)) == multiset(ChatsOf(chats, userId))
      && (forall c :: c in Docs(es) <==> c in chats && userId in c.users)
      && NewestFirst(Docs(es))
    ensures var es := GetAllChats(chats, ms, Some(userId), fetchUser).entries;
      forall k :: 0 <= k < |es| ==>
        var c := es[k].chat.doc;
        var other := FirstOther(c.users, userId);
        && es[k].chat.unSeenCount == |UnseenPositions(ms, c.id, userId)|
        && es[k].chat.lastMessage == (if c.lastMessage.Some? then c.lastMessage.value else LastMessage(None, None))
        && es[k].user == (if fetchUser(other).Some? then Known(fetchUser(other).value) else Unknown(other, UnknownName, UnknownEmail))
  {
    var mine := ChatsOf(chats, userId);
    ListedDocs(chats, ms, userId, fetchUser);
    SortNewestFirstMeaning(mine);
    SameElements(SortNewestFirst(mine), mine);
    ListedEntries(chats, ms, userId, fetchUser);
  }

  /** The listed documents are the user's chats, sorted. */
  lemma ListedDocs<R>(chats: seq<ChatDoc>, ms: seq<MessageDoc>, userId: string, fetchUser: Option<string> -> Option<R>)
    requires userId != ""
    ensures GetAllChats(chats, ms, Some(userId), fetchUser).Listed?
    ensures Docs(GetAllChats(chats, ms, Some(userId), fetchUser).entries) == SortNewestFirst(ChatsOf(chats, userId))
  {
    var sorted := SortNewestFirst(ChatsOf(chats, userId));
    var es := GetAllChats(chats, ms, Some(userId), fetchUser).entries;
    assert |es| == |sorted|;
    assert forall k :: 0 <= k < |es| ==> es[k] == EntryFor(sorted[k], ms, userId, fetchUser);
  }

  lemma SameElements(a: seq<ChatDoc>, b: seq<ChatDoc>)
    requires multiset(a) == multiset(b)
    ensures forall c :: c in a <==> c in b
  {
    forall c
      ensures c in a <==> c in b
    {
      assert c in a <==> c in multiset(a);
      assert c in b <==> c in multiset(b);
    }
  }

  /** Each entry is built from its chat as `EntryFor` says. */
  lemma ListedEntries<R>(chats: seq<ChatDoc>, ms: seq<MessageDoc>, userId: string, fetchUser: Option<string> -> Option<R>)
    requires userId != ""
    ensures var es := GetAllChats(chats, ms, Some(userId), fetchUser).entries;
      forall k :: 0 <= k < |es| ==>
        var c := es[k].chat.doc;
        var other := FirstOther(c.users, userId);
        && es[k].chat.unSeenCount == |UnseenPositions(ms, c.id, userId)|
        && es[k].chat.lastMessage == (if c.lastMessage.Some? then c.lastMessage.value else LastMessage(None, None))
        && es[k].user == (if fetchUser(other).Some? then Known(fetchUser(other).value) else Unknown(other, UnknownName, UnknownEmail))
  {
    var sorted := SortNewestFirst(ChatsOf(chats, userId));
    var es := GetAllChats(chats, ms, Some(userId), fetchUser).entries;
    forall k | 0 <= k < |es|
      ensures var c := es[k].chat.doc;
        var other := FirstOther(c.users, userId);
        && es[k].chat.unSeenCount == |UnseenPositions(ms, c.id, userId)|
        && es[k].chat.lastMessage == (if c.lastMessage.Some? then c.lastMessage.value else LastMessage(None, None))
        && es[k].user == (if fetchUser(other).Some? then Known(fetchUser(other).value) else Unknown(other, UnknownName, UnknownEmail))
    {
      assert es[k] == EntryFor(sorted[k], ms, userId, fetchUser);
      CountUnseenMeaning(ms, sorted[k].id, userId);
    }
  }
}
