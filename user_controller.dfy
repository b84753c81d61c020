/**
 * The user service's handlers: OTP login and verification over a key-value store with expiry
 * (Redis `GET`, `SET … EX`, `DEL`), the mail queue the OTP is published to, and the user
 * table; then the guard chains of the profile, rename and lookup handlers.
 *
 * Each handler is a step function from the backend state before the request to the reply and
 * the state after it; `UserServer` holds that state in fields and its methods perform the
 * same steps one store operation at a time. The clock, the random draw behind the OTP, the
 * id the database assigns to a new user and the token signer are parameters.
 */
module UserController {
  import opened Wrappers
  import opened Text

  const OtpTtl: int := 300
  const RateLimitTtl: int := 60
  const OtpQueue: string := "send-otp"
  const OtpSubject: string := "Your Otp Code"

  const ProvideEmail: string := "Please provide email"
  const RedisDown: string := "Redis client not connected"
  const TooManyRequests: string := "Too many request, Please wait before requestiong new otp"
  const OtpSent: string := "Otp Send to your mail"
  const ProvideEmailAndOtp: string := "Please provide email and otp are required."
  const InvalidOtp: string := "Invalid or expired Otp"
  const TokenFailed: string := "Failed to create token"
  const UserVerified: string := "User verified successfully"
  const MissingUserId: string := "User id is missing in request"
  const UserNotFound: string := "User not found"
  const NameRequired: string := "Name is required"
  const NameUpdated: string := "Name updated successfully"
  const UsersFetched: string := "User fetch Successfully"

  // ---------------------------------------------------------------------------------------
  // The key-value store

  /** A stored value and the instant from which it has expired. */
  datatype Entry = Entry(value: string, expiresAt: int)

  type Store = map<string, Entry>

  /** `GET key` at time `now`: the value while it has not expired. */
  function Get(store: Store, now: int, key: string): Option<string> {
    if key in store && now < store[key].expiresAt then Some(store[key].value) else None
  }

  /** `SET key value EX ttl` at time `now`. */
  function SetEx(store: Store, now: int, key: string, value: string, ttl: int): Store {
    store[key := Entry(value, now + ttl)]
  }

  /** `DEL key`. */
  function Del(store: Store, key: string): Store {
    store - {key}
  }

  /** A request field the handler tests with `!x`: absent or empty is falsy. */
  predicate Present(x: Option<string>) {
    x.Some? && x.value != ""
  }

  function OtpKey(email: string): string {
    "otp:" + email
  }

  function RateLimitKey(email: string): string {
    "otp:ratelimit:" + email
  }

  /** The two keys of one email never coincide. */
  lemma KeysDiffer(email: string)
    ensures OtpKey(email) != RateLimitKey(email)
  {
    assert |OtpKey(email)| != |RateLimitKey(email)|;
  }

  // ---------------------------------------------------------------------------------------
  // Data

  /** `Math.random() * 900000` rounded down: the random part of an OTP. */
  type Draw = d: int | 0 <= d < 900000

  /** `Math.floor(100000 + Math.random() * 900000).toString()`. */
  function OtpOf(draw: Draw): string {
    NatToString(100000 + draw)
  }

  /** Every generated OTP is six decimal digits denoting a number in [100000, 999999]. */
  lemma OtpIsSixDigits(draw: Draw)
    ensures |OtpOf(draw)| == 6 && AllDigits(OtpOf(draw))
    ensures 100000 <= DecimalValue(OtpOf(draw)) <= 999999
  {
    assert Pow10(5) == 100000 && Pow10(6) == 1000000;
    NatToStringLength(100000 + draw, 6);
    DecimalValueOfNatToString(100000 + draw);
  }

  /** The message published for the mail service. */
  datatype Mail = Mail(queue: string, to: string, subject: string, body: string)

  function OtpMail(email: string, otp: string): Mail {
    Mail(OtpQueue, email, OtpSubject, "Your otp is " + otp + ". it is valid for 5 min")
  }

  datatype User = User(id: string, email: string, name: string)

  datatype Body =
    | Message(message: string)
    | Verified(message: string, user: User, token: string)
    | Profile(user: User)
    | Updated(message: string, user: User)
    | OneUser(message: string, user: User)
    | AllUsers(message: string, users: seq<User>)

  /** A status, a JSON body, and the `Authorization` header when the handler sets one. */
  datatype Reply = Reply(status: int, body: Body, authorization: Option<string>)

  function Answer(status: int, body: Body): Reply {
    Reply(status, body, None)
  }

  /**
   * What the handlers read and write: whether the Redis client is open, the store, whether
   * the queue channel was initialised (publishing to a missing channel is silently skipped),
   * the messages published so far, and the user table.
   */
  datatype Backend = Backend(redisOpen: bool, store: Store, channelReady: bool, outbox: seq<Mail>, users: seq<User>)

  datatype Outcome = Outcome(reply: Reply, after: Backend)

  /** `publishToQueue`: a no-op when the channel was never created. */
  function Publish(b: Backend, m: Mail): Backend {
    if b.channelReady then b.(outbox := b.outbox + [m]) else b
  }

  // ---------------------------------------------------------------------------------------
  // The user table

  /** The two keys `findOne` is called with. */
  datatype UserField = ByEmail | ById

  function FieldOf(u: User, f: UserField): string {
    match f
    case ByEmail => u.email
    case ById => u.id
  }

  /** `findOne` / `findById`: the first user whose field `f` equals `value`, or none. */
  function FindBy(users: seq<User>, f: UserField, value: string): (k: Option<nat>)
    ensures k.Some? ==> k.value < |users| && FieldOf(users[k.value], f) == value
    ensures k.Some? ==> forall i :: 0 <= i < k.value ==> FieldOf(users[i], f) != value
    ensures k.None? ==> forall i :: 0 <= i < |users| ==> FieldOf(users[i], f) != value
  {
    if |users| == 0 then None
    else if FieldOf(users[0], f) == value then Some(0)
    else
      match FindBy(users[1..], f, value)
      case None => None
      case Some(k) => Some(k + 1)
  }

  predicate EmailsUnique(users: seq<User>) {
    forall i, j :: 0 <= i < j < |users| ==> users[i].email != users[j].email
  }

  predicate IdsUnique(users: seq<User>) {
    forall i, j :: 0 <= i < j < |users| ==> users[i].id != users[j].id
  }

  function DefaultName(email: string): string {
    Split(email, '@')[0]
  }

  /** `findOne`, then `new User({ email, name: email.split("@")[0] }).save()` when absent. */
  function FindOrCreate(users: seq<User>, email: string, freshId: string): (seq<User>, User) {
    match FindBy(users, ByEmail, email)
    case Some(k) => (users, users[k])
    case None =>
      var u := User(freshId, email, DefaultName(email));
      (users + [u], u)
  }

  /**
   * Find-or-create returns a user with the email; an existing one leaves the table as it is,
   * otherwise exactly one user is appended, named by the part of the email before its first
   * '@'. Distinct emails, and distinct ids given a fresh id, are preserved, so afterwards
   * exactly one user has the email.
   */
  lemma FindOrCreateMeaning(users: seq<User>, email: string, freshId: string)
    ensures var (after, u) := FindOrCreate(users, email, freshId);
      && u.email == email && u in after
      && ((exists i :: 0 <= i < |users| && users[i].email == email) ==> after == users)
      && ((forall i :: 0 <= i < |users| ==> users[i].email != email) ==>
            after == users + [User(freshId, email, DefaultName(email))])
      && (EmailsUnique(users) ==> EmailsUnique(after))
      && (IdsUnique(users) && (forall i :: 0 <= i < |users| ==> users[i].id != freshId) ==> IdsUnique(after))
    ensures var (after, u) := FindOrCreate(users, email, freshId);
      EmailsUnique(users) ==> forall i :: 0 <= i < |after| && after[i].email == email ==> after[i] == u
    ensures DefaultName(email) == if '@' in email then email[..IndexOf(email, '@')] else email
  {
    var (after, u) := FindOrCreate(users, email, freshId);
    match FindBy(users, ByEmail, email)
    case Some(k) =>
      assert after[k] == u;
    case None =>
      assert after[|users|] == u;
  }

  // ---------------------------------------------------------------------------------------
  // loginUser

  /**
   * `loginUser`: a missing email is refused before the store is consulted, then a closed
   * store, then a live rate-limit key; otherwise a new OTP is stored for five minutes, the
   * rate-limit key for one, and the mail is published.
   */
  function LoginStep(b: Backend, email: Option<string>, now: int, draw: Draw): (r: Outcome)
    ensures !Present(email) ==> r == Outcome(Answer(400, Message(ProvideEmail)), b)
    ensures Present(email) && !b.redisOpen ==> r == Outcome(Answer(500, Message(RedisDown)), b)
    ensures Present(email) && b.redisOpen && Present(Get(b.store, now, RateLimitKey(email.value)))
            ==> r == Outcome(Answer(429, Message(TooManyRequests)), b)
    ensures r.reply.status == 200 <==>
            Present(email) && b.redisOpen && !Present(Get(b.store, now, RateLimitKey(email.value)))
    ensures r.after.users == b.users && r.after.redisOpen == b.redisOpen && r.after.channelReady == b.channelReady
  {
    if !Present(email) then Outcome(Answer(400, Message(ProvideEmail)), b)
    else if !b.redisOpen then Outcome(Answer(500, Message(RedisDown)), b)
    else
      var e := email.value;
      if Present(Get(b.store, now, RateLimitKey(e))) then Outcome(Answer(429, Message(TooManyRequests)), b)
      else
        var otp := OtpOf(draw);
        var store := SetEx(SetEx(b.store, now, OtpKey(e), otp, OtpTtl), now, RateLimitKey(e), "true", RateLimitTtl);
        Outcome(Answer(200, Message(OtpSent)), Publish(b.(store := store), OtpMail(e, otp)))
  }

  /**
   * An accepted login makes the OTP readable for exactly 300 seconds and the rate-limit key
   * for exactly 60, touches no other key, and publishes one mail to `send-otp` addressed to
   * the email and carrying the OTP when the channel exists.
   */
  lemma LoginIssuesOtp(b: Backend, email: string, now: int, draw: Draw, t: int)
    requires LoginStep(b, Some(email), now, draw).reply.status == 200
    requires now <= t
    ensures var a := LoginStep(b, Some(email), now, draw).after;
      && Get(a.store, t, OtpKey(email)) == (if t < now + OtpTtl then Some(OtpOf(draw)) else None)
      && Get(a.store, t, RateLimitKey(email)) == (if t < now + RateLimitTtl then Some("true") else None)
      && (forall k :: k != OtpKey(email) && k != RateLimitKey(email) ==> Get(a.store, t, k) == Get(b.store, t, k))
      && a.outbox == if b.channelReady then b.outbox + [OtpMail(email, OtpOf(draw))] else b.outbox
  {
    KeysDiffer(email);
  }

  /** Two logins for one email less than a minute apart: the second one is refused with 429. */
  lemma SecondLoginWithinMinuteRefused(b: Backend, email: string, t1: int, d1: Draw, t2: int, d2: Draw)
    requires LoginStep(b, Some(email), t1, d1).reply.status == 200
    requires t1 <= t2 < t1 + RateLimitTtl
    ensures var a := LoginStep(b, Some(email), t1, d1).after;
      LoginStep(a, Some(email), t2, d2) == Outcome(Answer(429, Message(TooManyRequests)), a)
  {
    LoginIssuesOtp(b, email, t1, d1, t2);
  }

  /** Once the minute has passed the same email may log in again. */
  lemma LoginAgainAfterMinute(b: Backend, email: string, t1: int, d1: Draw, t2: int, d2: Draw)
    requires LoginStep(b, Some(email), t1, d1).reply.status == 200
    requires t2 >= t1 + RateLimitTtl
    ensures var a := LoginStep(b, Some(email), t1, d1).after;
      LoginStep(a, Some(email), t2, d2).reply.status == 200
  {
    LoginIssuesOtp(b, email, t1, d1, t2);
  }

  // ---------------------------------------------------------------------------------------
  // verifyuser

  /**
   * `verifyuser`: missing fields, then a closed store, then a stored OTP that is absent or
   * different; a match deletes the OTP, finds or creates the user and signs a token (`token`
   * is what the signer returned; an empty one answers 500 after the OTP is already spent).
   */
  function VerifyStep(b: Backend, email: Option<string>, entered: Option<string>, now: int,
                      freshId: string, token: Option<string>): (r: Outcome)
    ensures !Present(email) || !Present(entered) ==> r == Outcome(Answer(400, Message(ProvideEmailAndOtp)), b)
    ensures Present(email) && Present(entered) && !b.redisOpen ==> r == Outcome(Answer(500, Message(RedisDown)), b)
    ensures Present(email) && Present(entered) && b.redisOpen && Get(b.store, now, OtpKey(email.value)) != entered
            ==> r == Outcome(Answer(400, Message(InvalidOtp)), b)
    ensures r.reply.status == 200 ==> && Present(email) && Present(entered) && b.redisOpen
                                      && Get(b.store, now, OtpKey(email.value)) == entered
                                      && Present(token)
    ensures Present(email) && Present(entered) && b.redisOpen && Get(b.store, now, OtpKey(email.value)) == entered ==>
      && r.after.store == Del(b.store, OtpKey(email.value))
      && r.after.users == FindOrCreate(b.users, email.value, freshId).0
      && (r.reply.status == 200 <==> Present(token))
      && (!Present(token) ==> r.reply == Answer(500, Message(TokenFailed)))
    ensures r.after.redisOpen == b.redisOpen && r.after.channelReady == b.channelReady && r.after.outbox == b.outbox
  {
    if !Present(email) || !Present(entered) then Outcome(Answer(400, Message(ProvideEmailAndOtp)), b)
    else if !b.redisOpen then Outcome(Answer(500, Message(RedisDown)), b)
    else
      var e := email.value;
      var saved := Get(b.store, now, OtpKey(e));
      if !Present(saved) || saved.value != entered.value then Outcome(Answer(400, Message(InvalidOtp)), b)
      else
        var store := Del(b.store, OtpKey(e));
        var (users, user) := FindOrCreate(b.users, e, freshId);
        var b' := b.(store := store, users := users);
        if !Present(token) then Outcome(Answer(500, Message(TokenFailed)), b')
        else Outcome(Reply(200, Verified(UserVerified, user, token.value), Some("Bearer " + token.value)), b')
  }

  /**
   * An accepted verification spends the OTP, answers with the single user holding the email
   * (found, or created under `freshId`), and carries the token both in the body and as a
   * bearer header.
   */
  lemma VerifyAccepts(b: Backend, email: string, otp: string, now: int, freshId: string, token: string)
    requires VerifyStep(b, Some(email), Some(otp), now, freshId, Some(token)).reply.status == 200
    ensures var r := VerifyStep(b, Some(email), Some(otp), now, freshId, Some(token));
      && r.after.store == Del(b.store, OtpKey(email))
      && r.after.users == FindOrCreate(b.users, email, freshId).0
      && r.reply.body == Verified(UserVerified, FindOrCreate(b.users, email, freshId).1, token)
      && r.reply.body.user.email == email
      && r.reply.authorization == Some("Bearer " + token)
      && (EmailsUnique(b.users) ==> EmailsUnique(r.after.users))
  {
    FindOrCreateMeaning(b.users, email, freshId);
  }

  /** The OTP is single-use: after an accepted verification the same email is refused, whatever is entered. */
  lemma ReplayRefused(b: Backend, email: string, otp: string, t1: int, id1: string, tok1: string,
                      entered: string, t2: int, id2: string, tok2: Option<string>)
    requires VerifyStep(b, Some(email), Some(otp), t1, id1, Some(tok1)).reply.status == 200
    requires entered != ""
    ensures var a := VerifyStep(b, Some(email), Some(otp), t1, id1, Some(tok1)).after;
      VerifyStep(a, Some(email), Some(entered), t2, id2, tok2) == Outcome(Answer(400, Message(InvalidOtp)), a)
  {
    VerifyAccepts(b, email, otp, t1, id1, tok1);
  }

  /** The code a login mails out is accepted within its five minutes. */
  lemma LoginThenVerify(b: Backend, email: string, t1: int, draw: Draw, t2: int, freshId: string, token: string)
    requires LoginStep(b, Some(email), t1, draw).reply.status == 200
    requires t1 <= t2 < t1 + OtpTtl && token != ""
    ensures var a := LoginStep(b, Some(email), t1, draw).after;
      VerifyStep(a, Some(email), Some(OtpOf(draw)), t2, freshId, Some(token)).reply.status == 200
  {
    LoginIssuesOtp(b, email, t1, draw, t2);
    OtpIsSixDigits(draw);
  }

  /** After its five minutes the mailed code is refused. */
  lemma OtpExpires(b: Backend, email: string, t1: int, draw: Draw, t2: int, freshId: string, token: Option<string>)
    requires LoginStep(b, Some(email), t1, draw).reply.status == 200
    requires t2 >= t1 + OtpTtl
    ensures var a := LoginStep(b, Some(email), t1, draw).after;
      VerifyStep(a, Some(email), Some(OtpOf(draw)), t2, freshId, token).reply == Answer(400, Message(InvalidOtp))
  {
    LoginIssuesOtp(b, email, t1, draw, t2);
    OtpIsSixDigits(draw);
  }

  // ---------------------------------------------------------------------------------------
  // myProfile, updateUser, getUsers

  /** `myProfile`: a missing id is 400, an unknown one 404, otherwise the user. */
  function MyProfile(b: Backend, userId: Option<string>): (r: Reply)
    ensures !Present(userId) ==> r == Answer(400, Message(MissingUserId))
    ensures Present(userId) && (forall i :: 0 <= i < |b.users| ==> b.users[i].id != userId.value)
            ==> r == Answer(404, Message(UserNotFound))
    ensures r.status == 200 <==> Present(userId) && exists i :: 0 <= i < |b.users| && b.users[i].id == userId.value
    ensures r.status == 200 ==> r.body.Profile? && r.body.user in b.users && r.body.user.id == userId.value
  {
    if !Present(userId) then Answer(400, Message(MissingUserId))
    else
      match FindBy(b.users, ById, userId.value)
      case None => Answer(404, Message(UserNotFound))
      case Some(k) => Answer(200, Profile(b.users[k]))
  }

  /**
   * `updateUser`: a missing id is checked before a missing name; an unknown id is 404;
   * otherwise that user's name changes and the reply carries the updated user.
   */
  function UpdateStep(b: Backend, userId: Option<string>, name: Option<string>): (r: Outcome)
    ensures !Present(userId) ==> r == Outcome(Answer(400, Message(MissingUserId)), b)
    ensures Present(userId) && !Present(name) ==> r == Outcome(Answer(400, Message(NameRequired)), b)
    ensures r.reply.status != 200 ==> r.after == b
    ensures r.after.store == b.store && r.after.outbox == b.outbox && |r.after.users| == |b.users|
  {
    if !Present(userId) then Outcome(Answer(400, Message(MissingUserId)), b)
    else if !Present(name) then Outcome(Answer(400, Message(NameRequired)), b)
    else
      match FindBy(b.users, ById, userId.value)
      case None => Outcome(Answer(404, Message(UserNotFound)), b)
      case Some(k) =>
        var u := b.users[k].(name := name.value);
        Outcome(Answer(200, Updated(NameUpdated, u)), b.(users := b.users[k := u]))
  }

  /**
   * An accepted rename changes only the name of the one user with the id, and keeps emails
   * and ids distinct; an unknown id is 404.
   */
  lemma UpdateRenamesOne(b: Backend, userId: string, name: string)
    requires userId != "" && name != ""
    ensures var r := UpdateStep(b, Some(userId), Some(name));
      && (r.reply.status == 200 <==> exists i :: 0 <= i < |b.users| && b.users[i].id == userId)
      && (r.reply.status != 200 ==> r.reply == Answer(404, Message(UserNotFound)))
      && (r.reply.status == 200 ==> && r.reply.body.Updated?
                                    && r.reply.body.user.id == userId && r.reply.body.user.name == name
                                    && r.reply.body.user in r.after.users)
      && (forall i :: 0 <= i < |b.users| ==>
            && r.after.users[i].id == b.users[i].id && r.after.users[i].email == b.users[i].email
            && (b.users[i].id != userId ==> r.after.users[i] == b.users[i]))
      && (EmailsUnique(b.users) ==> EmailsUnique(r.after.users))
      && (IdsUnique(b.users) ==> IdsUnique(r.after.users))
  {
    var r := UpdateStep(b, Some(userId), Some(name));
    match FindBy(b.users, ById, userId)
    case None =>
    case Some(k) =>
      assert r.after.users[k] == r.reply.body.user;
      assert forall i :: 0 <= i < |b.users| && i != k ==> r.after.users[i] == b.users[i];
  }

  /** `getUsers`: with an id, that user or 404; without one, every user. */
  function GetUsers(b: Backend, id: Option<string>): (r: Reply)
    ensures !Present(id) ==> r == Answer(200, AllUsers(UsersFetched, b.users))
    ensures Present(id) && (forall i :: 0 <= i < |b.users| ==> b.users[i].id != id.value)
            ==> r == Answer(404, Message(UserNotFound))
    ensures Present(id) && (exists i :: 0 <= i < |b.users| && b.users[i].id == id.value) ==> r.status == 200
    ensures Present(id) && r.status == 200 ==> r.body.OneUser? && r.body.user in b.users && r.body.user.id == id.value
  {
    if Present(id) then
      match FindBy(b.users, ById, id.value)
      case None => Answer(404, Message(UserNotFound))
      case Some(k) => Answer(200, OneUser(UsersFetched, b.users[k]))
    else
      Answer(200, AllUsers(UsersFetched, b.users))
  }

  // ---------------------------------------------------------------------------------------
  // The service object

  class UserServer {
    var redisOpen: bool
    var store: Store
    var channelReady: bool
    var outbox: seq<Mail>
    var users: seq<User>

    function State(): Backend
      reads this
    {
      Backend(redisOpen, store, channelReady, outbox, users)
    }

    constructor (redisOpen: bool, channelReady: bool)
      ensures State() == Backend(redisOpen, map[], channelReady, [], [])
    {
      this.redisOpen := redisOpen;
      this.channelReady := channelReady;
      store := map[];
      outbox := [];
      users := [];
    }

    method LoginUser(email: Option<string>, now: int, draw: Draw) returns (reply: Reply)
      modifies this
      ensures reply == LoginStep(old(State()), email, now, draw).reply
      ensures State() == LoginStep(old(State()), email, now, draw).after
    {
      if !Present(email) {
        return Answer(400, Message(ProvideEmail));
      }
      if !redisOpen {
        return Answer(500, Message(RedisDown));
      }
      var e := email.value;
      var ratelimitKey := RateLimitKey(e);
      var ratelimit := Get(store, now, ratelimitKey);
      if Present(ratelimit) {
        return Answer(429, Message(TooManyRequests));
      }
      var otp := OtpOf(draw);
      store := SetEx(store, now, OtpKey(e), otp, OtpTtl);
      store := SetEx(store, now, ratelimitKey, "true", RateLimitTtl);
      if channelReady {
        outbox := outbox + [OtpMail(e, otp)];
      }
      reply := Answer(200, Message(OtpSent));
    }

    method VerifyUser(email: Option<string>, entered: Option<string>, now: int, freshId: string, token: Option<string>)
      returns (reply: Reply)
      modifies this
      ensures reply == VerifyStep(old(State()), email, entered, now, freshId, token).reply
      ensures State() == VerifyStep(old(State()), email, entered, now, freshId, token).after
    {
      if !Present(email) || !Present(entered) {
        return Answer(400, Message(ProvideEmailAndOtp));
      }
      if !redisOpen {
        return Answer(500, Message(RedisDown));
      }
      var e := email.value;
      var otpKey := OtpKey(e);
      var saved := Get(store, now, otpKey);
      if !Present(saved) || saved.value != entered.value {
        return Answer(400, Message(InvalidOtp));
      }
      store := Del(store, otpKey);
      var found := FindBy(users, ByEmail, e);
      var user;
      if found.Some? {
        user := users[found.value];
      } else {
        user := User(freshId, e, DefaultName(e));
        users := users + [user];
      }
      if !Present(token) {
        return Answer(500, Message(TokenFailed));
      }
      reply := Reply(200, Verified(UserVerified, user, token.value), Some("Bearer " + token.value));
    }

    method UpdateUser(userId: Option<string>, name: Option<string>) returns (reply: Reply)
      modifies this
      ensures reply == UpdateStep(old(State()), userId, name).reply
      ensures State() == UpdateStep(old(State()), userId, name).after
    {
      if !Present(userId) {
        return Answer(400, Message(MissingUserId));
      }
      if !Present(name) {
        return Answer(400, Message(NameRequired));
      }
      var found := FindBy(users, ById, userId.value);
      if found.None? {
        return Answer(404, Message(UserNotFound));
      }
      var u := users[found.value].(name := name.value);
      users := users[found.value := u];
      reply := Answer(200, Updated(NameUpdated, u));
    }
  }
}
