/**
 * The email-verification endpoint (`POST /api/verify-code`): request
 * parsing, code issue with a ten-minute expiry (`resend`) and code checking
 * (`verify`) against the stored account.
 *
 * The clock, the random draw, the outcome of the email send and the outcome
 * of the database write are parameters, so one call is deterministic.
 */
module VerifyCode {
  import opened Wrappers
  import opened Decimal
  import opened Text
  import opened UserModel

  /** `10 * 60 * 1000`: a code is valid for ten minutes after it is issued. */
  const ExpiryWindowMs: int := 600000
  /** The smallest code; `Math.random() * 900000` adds a draw below `CodeSpan`. */
  const CodeLow: nat := 100000
  const CodeSpan: nat := 900000

  /** A field of the JSON body: absent, a string, or any other JSON value (null, number, ...). */
  datatype Json = Missing | Str(s: string) | Other

  /** The JSON object the client posts. */
  datatype Body = Body(userName: Json, code: Json, action: Json)

  datatype Action = Verify | Resend

  /** A body that passed `verifySchema`. */
  datatype Request = Request(userName: string, code: Option<string>, action: Action)

  /** `z.enum(["verify", "resend"]).default("verify")`. */
  function ParseAction(j: Json): (a: Option<Action>)
    ensures a == Some(Resend) <==> j == Str("resend")
    ensures a.None? <==> j.Other? || (j.Str? && j.s != "verify" && j.s != "resend")
  {
    match j
    case Missing => Some(Verify)
    case Str(s) => if s == "verify" then Some(Verify) else if s == "resend" then Some(Resend) else None
    case Other => None
  }

  /** `verifySchema.parse`: a non-empty `userName`, an optional string `code`, an action. */
  function ParseRequest(b: Body): (r: Option<Request>)
    ensures r.Some? ==> r.value.userName != "" && Some(r.value.action) == ParseAction(b.action)
  {
    if !b.userName.Str? || b.userName.s == "" || b.code.Other? then None
    else
      match ParseAction(b.action)
      case None => None
      case Some(a) => Some(Request(b.userName.s, if b.code.Str? then Some(b.code.s) else None, a))
  }

  /** The response bodies the handler can produce. */
  datatype Message =
    | UserNotFound
    | CodeSent
    | DeliveryFailed(text: string)
    | CodeRequired
    | AccountVerified
    | CodeExpired
    | CodeIncorrect
    | ProcessingError

  /** `Response.json({ success, message }, { status })`. */
  datatype Response = Response(status: int, success: bool, message: Message)

  /** The `{ success, message }` that `sendVerificationEmail` resolves to. */
  datatype EmailResult = EmailResult(success: bool, message: string)

  /** The arguments of a call to `sendVerificationEmail`. */
  datatype Outgoing = Outgoing(to: string, userName: string, code: string)

  function Reply(m: Message): (r: Response)
    ensures r.message == m
    ensures r.success <==> m == CodeSent || m == AccountVerified
  {
    match m
    case UserNotFound => Response(404, false, m)
    case CodeSent => Response(200, true, m)
    case DeliveryFailed(_) => Response(500, false, m)
    case CodeRequired => Response(400, false, m)
    case AccountVerified => Response(200, true, m)
    case CodeExpired => Response(400, false, m)
    case CodeIncorrect => Response(400, false, m)
    case ProcessingError => Response(500, false, m)
  }

  /** The text the client shows; a failed delivery passes the email service's own message on. */
  function MessageText(m: Message): string {
    match m
    case UserNotFound => "User not found"
    case CodeSent => "New verification code sent successfully"
    case DeliveryFailed(text) => text
    case CodeRequired => "Verification code is required"
    case AccountVerified => "Account verified successfully"
    case CodeExpired => "Verification code has expired. Please request a new code."
    case CodeIncorrect => "Incorrect verification code"
    case ProcessingError => "Error processing your request"
  }

  /** Six decimal digits, the first of them not zero. */
  predicate IsSixDigitCode(s: string) {
    |s| == 6 && AllDigits(s) && s[0] != '0'
  }

  /** `Math.floor(100000 + Math.random() * 900000).toString()` for the draw `rnd`. */
  function NewCode(rnd: nat): (code: string)
    requires rnd < CodeSpan
    ensures IsSixDigitCode(code)
    ensures DecimalValue(code) == CodeLow + rnd
  {
    assert Pow10(5) == 100000 by {
      assert Pow10(1) == 10 && Pow10(2) == 100 && Pow10(3) == 1000 && Pow10(4) == 10000;
    }
    DecimalStringLength(CodeLow + rnd, 6);
    ValueOfDecimalString(CodeLow + rnd);
    DecimalString(CodeLow + rnd)
  }

  /** Every six-digit code is issued by exactly one draw. */
  lemma NewCodeCovers(code: string)
    requires IsSixDigitCode(code)
    ensures CodeLow <= DecimalValue(code) < CodeLow + CodeSpan
    ensures NewCode(DecimalValue(code) - CodeLow) == code
  {
    DecimalValueLowerBound(code);
    DecimalStringOfValue(code);
  }

  lemma NewCodeInjective(rnd1: nat, rnd2: nat)
    requires rnd1 < CodeSpan && rnd2 < CodeSpan
    ensures NewCode(rnd1) == NewCode(rnd2) <==> rnd1 == rnd2
  {
  }

  /** `user.verificationCode === code`: a stored `null` matches no code. */
  predicate CodeMatches(a: Account, code: string) {
    a.verificationCode == Some(code)
  }

  /** `new Date(user.verificationCodeExpires)` in milliseconds: `new Date(null)` is the epoch. */
  function ExpiryInstant(a: Account): int {
    if a.verificationCodeExpires.Some? then a.verificationCodeExpires.value else 0
  }

  /** `new Date(user.verificationCodeExpires) > new Date()`. */
  predicate NotExpired(a: Account, now: int) {
    ExpiryInstant(a) > now
  }

  /** How a submitted code fares against the stored one. */
  datatype Verdict = NoCode | Accept | Expired | Incorrect

  /** The checks of the `verify` action, in the order the handler makes them. */
  function CheckCode(a: Account, code: Option<string>, now: int): (v: Verdict)
    ensures v == NoCode <==> code.None? || code.value == ""
    ensures v == Accept <==> code.Some? && code.value != "" && CodeMatches(a, code.value) && NotExpired(a, now)
    ensures v == Expired <==> code.Some? && code.value != "" && !NotExpired(a, now)
    ensures v == Incorrect <==> code.Some? && code.value != "" && NotExpired(a, now) && !CodeMatches(a, code.value)
  {
    if code.None? || code.value == "" then NoCode
    else if CodeMatches(a, code.value) && NotExpired(a, now) then Accept
    else if !NotExpired(a, now) then Expired
    else Incorrect
  }

  /** The account after `resend` has issued `code` at `now`. */
  function WithNewCode(a: Account, code: string, now: int): (b: Account)
    ensures b.verificationCode == Some(code)
    ensures b.verificationCodeExpires == Some(now + ExpiryWindowMs)
    ensures b.userName == a.userName && b.email == a.email && b.password == a.password
    ensures b.profilePicture == a.profilePicture && b.role == a.role && b.isVerified == a.isVerified
  {
    a.(verificationCode := Some(code), verificationCodeExpires := Some(now + ExpiryWindowMs))
  }

  /** One request's effect: the store after it, the response, and the email it asked to send. */
  datatype Transition = Transition(users: map<string, Account>, response: Response, sent: Option<Outgoing>)

  /** The fields no request may change, and `isVerified` only ever becoming true. */
  predicate Evolves(a: Account, b: Account) {
    && b.userName == a.userName && b.email == a.email && b.password == a.password
    && b.profilePicture == a.profilePicture && b.role == a.role
    && (a.isVerified ==> b.isVerified)
  }

  /**
   * The name `findOne({ userName })` looks up: Mongoose casts a query value
   * through the path's setters, so the `trim` setter of `userName` applies.
   */
  function LookupName(req: Request): string {
    Trim(req.userName)
  }

  /** The user a body names, when it parses. */
  function Target(body: Option<Body>): Option<string> {
    if body.Some? && ParseRequest(body.value).Some? then Some(LookupName(ParseRequest(body.value).value)) else None
  }

  /**
   * The handler after parsing, for the account looked up as `name`, the
   * submitted `code` and the `action`.
   */
  function Handle(users: map<string, Account>, name: string, code: Option<string>, action: Action,
                  now: int, rnd: nat, email: EmailResult, saveOk: bool): (t: Transition)
    requires rnd < CodeSpan
    ensures t.users.Keys == users.Keys
    ensures forall k :: k in users ==> Evolves(users[k], t.users[k])
    ensures forall k :: k in users && t.users[k] != users[k] ==> k == name
  {
    if name !in users then
      Transition(users, Reply(UserNotFound), None)
    else
      var user := users[name];
      match action
      case Resend =>
        var issued := NewCode(rnd);
        if !saveOk then
          Transition(users, Reply(ProcessingError), None)
        else
          var saved := users[name := WithNewCode(user, issued, now)];
          var sent := Some(Outgoing(user.email, user.userName, issued));
          if email.success then Transition(saved, Reply(CodeSent), sent)
          else Transition(saved, Reply(DeliveryFailed(email.message)), sent)
      case Verify =>
        match CheckCode(user, code, now)
        case NoCode => Transition(users, Reply(CodeRequired), None)
        case Accept =>
          if !saveOk then Transition(users, Reply(ProcessingError), None)
          else Transition(users[name := user.(isVerified := true)], Reply(AccountVerified), None)
        case Expired => Transition(users, Reply(CodeExpired), None)
        case Incorrect => Transition(users, Reply(CodeIncorrect), None)
  }

  /**
   * The handler's effect as a function of the store before it and of its
   * inputs: `body` is `None` when the request is not a JSON object, `rnd` the
   * random draw, `email` what the email service answers, `saveOk` whether the
   * database write succeeds. Any failure inside the `try` becomes a 500.
   */
  function Step(users: map<string, Account>, body: Option<Body>, now: int, rnd: nat,
                email: EmailResult, saveOk: bool): (t: Transition)
    requires rnd < CodeSpan
    ensures t.users.Keys == users.Keys
    ensures forall k :: k in users ==> Evolves(users[k], t.users[k])
    ensures forall k :: k in users && t.users[k] != users[k] ==> Target(body) == Some(k)
  {
    if body.None? || ParseRequest(body.value).None? then
      Transition(users, Reply(ProcessingError), None)
    else
      var req := ParseRequest(body.value).value;
      Handle(users, LookupName(req), req.code, req.action, now, rnd, email, saveOk)
  }

  /** Every outstanding code has an expiry, set with it. */
  predicate CodeHasExpiry(a: Account) {
    a.verificationCode.Some? ==> a.verificationCodeExpires.Some?
  }

  /** What the store keeps true: each account valid and filed under its own name, emails unique. */
  ghost predicate StoreInvariant(users: map<string, Account>) {
    && (forall k :: k in users ==> users[k].userName == k && ValidAccount(users[k]) && CodeHasExpiry(users[k]))
    && EmailsUnique(users)
  }

  /** A request writes either a new code with its expiry or `isVerified := true`, and nothing else. */
  lemma StepWrites(users: map<string, Account>, body: Option<Body>, now: int, rnd: nat,
                   email: EmailResult, saveOk: bool, k: string)
    requires rnd < CodeSpan
    requires k in users
    ensures var b := Step(users, body, now, rnd, email, saveOk).users[k];
            || b == users[k]
            || b == WithNewCode(users[k], NewCode(rnd), now)
            || b == users[k].(isVerified := true)
  {
  }

  /** No request breaks the store invariant. */
  lemma StepPreservesInvariant(users: map<string, Account>, body: Option<Body>, now: int, rnd: nat,
                               email: EmailResult, saveOk: bool)
    requires rnd < CodeSpan
    requires StoreInvariant(users)
    ensures StoreInvariant(Step(users, body, now, rnd, email, saveOk).users)
  {
    var after := Step(users, body, now, rnd, email, saveOk).users;
    forall k | k in after
      ensures after[k].userName == k && ValidAccount(after[k]) && CodeHasExpiry(after[k])
    {
      StepWrites(users, body, now, rnd, email, saveOk, k);
      var a, b := users[k], after[k];
      assert b.userName == a.userName && b.email == a.email && b.password == a.password;
      assert b.profilePicture == a.profilePicture;
    }
    assert EmailsUnique(after) by {
      forall k1, k2 | k1 in after && k2 in after && k1 != k2
        ensures after[k1].email != after[k2].email
      {
        assert Evolves(users[k1], after[k1]) && Evolves(users[k2], after[k2]);
      }
    }
  }

  /** The user collection, with the handler as a method that loads, changes and saves one account. */
  class UserStore {
    var users: map<string, Account>

    constructor (initial: map<string, Account>)
      ensures users == initial
    {
      users := initial;
    }

    /** `user.save()`: writes the loaded document back under its name. */
    method Save(name: string, user: Account)
      modifies this
      ensures users == old(users)[name := user]
    {
      users := users[name := user];
    }

    /** `POST /api/verify-code`. */
    method Post(body: Option<Body>, now: int, rnd: nat, email: EmailResult, saveOk: bool)
      returns (response: Response, sent: Option<Outgoing>)
      requires rnd < CodeSpan
      modifies this
      ensures Step(old(users), body, now, rnd, email, saveOk) == Transition(users, response, sent)
      ensures StoreInvariant(old(users)) ==> StoreInvariant(users)
    {
      if StoreInvariant(users) {
        StepPreservesInvariant(users, body, now, rnd, email, saveOk);
      }
      sent := None;
      if body.None? {
        response := Reply(ProcessingError);
        return;
      }
      var parsed := ParseRequest(body.value);
      if parsed.None? {
        response := Reply(ProcessingError);
        return;
      }
      var req := parsed.value;
      var name := LookupName(req);
      if name !in users {
        response := Reply(UserNotFound);
        return;
      }
      var user := users[name];

      if req.action == Resend {
        var code := NewCode(rnd);
        user := user.(verificationCode := Some(code));
        user := user.(verificationCodeExpires := Some(now + ExpiryWindowMs));
        if !saveOk {
          response := Reply(ProcessingError);
          return;
        }
        Save(name, user);
        sent := Some(Outgoing(user.email, user.userName, code));
        if !email.success {
          response := Reply(DeliveryFailed(email.message));
          return;
        }
        response := Reply(CodeSent);
        return;
      }

      if req.code.None? || req.code.value == "" {
        response := Reply(CodeRequired);
        return;
      }
      var isCodeValid := user.verificationCode == Some(req.code.value);
      var isCodeNotExpired := ExpiryInstant(user) > now;
      if isCodeValid && isCodeNotExpired {
        if !saveOk {
          response := Reply(ProcessingError);
          return;
        }
        user := user.(isVerified := true);
        Save(name, user);
        response := Reply(AccountVerified);
      } else if !isCodeNotExpired {
        response := Reply(CodeExpired);
      } else {
        response := Reply(CodeIncorrect);
      }
    }
  }
}
