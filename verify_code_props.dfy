/**
 * What the verification endpoint promises, stated over `VerifyCode.Step`:
 * the outcome of each branch, which fields it writes, and how `resend` and
 * `verify` interact across two requests.
 */
module VerifyCodeProperties {
  import opened Wrappers
  import opened Decimal
  import opened Text
  import opened UserModel
  import opened VerifyCode

  function ResendBody(name: string): Body {
    Body(Str(name), Missing, Str("resend"))
  }

  function VerifyBody(name: string, code: string): Body {
    Body(Str(name), Str(code), Str("verify"))
  }

  /** `body` parses to a request for the account filed under `name`, with this code and action. */
  predicate Addresses(body: Option<Body>, name: string, code: Option<string>, action: Action) {
    && body.Some? && ParseRequest(body.value).Some?
    && LookupName(ParseRequest(body.value).value) == name
    && ParseRequest(body.value).value.code == code
    && ParseRequest(body.value).value.action == action
  }

  /** The schema accepts exactly a non-empty name, a string or absent code, and an absent, "verify" or "resend" action. */
  lemma ParseRequestExact(b: Body)
    ensures ParseRequest(b).Some? <==>
      && b.userName.Str? && b.userName.s != ""
      && !b.code.Other?
      && (b.action.Missing? || b.action == Str("verify") || b.action == Str("resend"))
    ensures ParseRequest(b).Some? ==>
      && ParseRequest(b).value.userName == b.userName.s
      && ParseRequest(b).value.code == (if b.code.Str? then Some(b.code.s) else None)
      && (ParseRequest(b).value.action == Resend <==> b.action == Str("resend"))
  {
  }

  /** Leaving `action` out is the same request as `action: "verify"`. */
  lemma AbsentActionIsVerify(users: map<string, Account>, userName: Json, code: Json, now: int, rnd: nat,
                             email: EmailResult, saveOk: bool)
    requires rnd < CodeSpan
    ensures Step(users, Some(Body(userName, code, Missing)), now, rnd, email, saveOk)
         == Step(users, Some(Body(userName, code, Str("verify"))), now, rnd, email, saveOk)
  {
  }

  /** A body that is not a JSON object or fails the schema gets a 500 and changes nothing. */
  lemma UnparsableIs500(users: map<string, Account>, body: Option<Body>, now: int, rnd: nat,
                        email: EmailResult, saveOk: bool)
    requires rnd < CodeSpan
    requires body.None? || ParseRequest(body.value).None?
    ensures Step(users, body, now, rnd, email, saveOk)
         == Transition(users, Response(500, false, ProcessingError), None)
  {
  }

  /** An unknown user name gets a 404, whatever the action: nothing changes and no email goes out. */
  lemma UnknownUserIs404(users: map<string, Account>, body: Option<Body>, now: int, rnd: nat,
                         email: EmailResult, saveOk: bool)
    requires rnd < CodeSpan
    requires Target(body).Some? && Target(body).value !in users
    ensures Step(users, body, now, rnd, email, saveOk)
         == Transition(users, Response(404, false, UserNotFound), None)
  {
  }

  /**
   * `resend` stores a fresh six-digit code expiring ten minutes from now,
   * overwriting any earlier one and touching no other field, then mails it.
   * A failed delivery is reported as a 500 but the new code stays stored.
   */
  lemma ResendIssuesCode(users: map<string, Account>, body: Option<Body>, name: string, code: Option<string>,
                         now: int, rnd: nat, email: EmailResult)
    requires rnd < CodeSpan
    requires Addresses(body, name, code, Resend)
    requires name in users
    ensures var t := Step(users, body, now, rnd, email, true);
            var c := NewCode(rnd);
            && IsSixDigitCode(c) && CodeLow <= DecimalValue(c) < CodeLow + CodeSpan
            && t.users == users[name := users[name].(verificationCode := Some(c),
                                                     verificationCodeExpires := Some(now + 600000))]
            && t.sent == Some(Outgoing(users[name].email, users[name].userName, c))
            && (email.success ==> t.response == Response(200, true, CodeSent))
            && (!email.success ==> t.response == Response(500, false, DeliveryFailed(email.message)))
  {
  }

  /** When the write fails, `resend` gets a 500, keeps the old code and sends nothing. */
  lemma ResendSaveFailure(users: map<string, Account>, body: Option<Body>, name: string, code: Option<string>,
                          now: int, rnd: nat, email: EmailResult)
    requires rnd < CodeSpan
    requires Addresses(body, name, code, Resend)
    requires name in users
    ensures Step(users, body, now, rnd, email, false)
         == Transition(users, Response(500, false, ProcessingError), None)
  {
  }

  /** When the write fails, a matching, unexpired code gets a 500 and the account stays unverified. */
  lemma VerifySaveFailure(users: map<string, Account>, body: Option<Body>, name: string, code: string,
                          now: int, rnd: nat, email: EmailResult)
    requires rnd < CodeSpan
    requires Addresses(body, name, Some(code), Verify)
    requires name in users && code != ""
    requires users[name].verificationCode == Some(code) && ExpiryInstant(users[name]) > now
    ensures Step(users, body, now, rnd, email, false)
         == Transition(users, Response(500, false, ProcessingError), None)
  {
  }

  /** `verify` without a code, or with an empty one, gets a 400 and changes nothing. */
  lemma VerifyWithoutCode(users: map<string, Account>, body: Option<Body>, name: string, code: Option<string>,
                          now: int, rnd: nat, email: EmailResult, saveOk: bool)
    requires rnd < CodeSpan
    requires Addresses(body, name, code, Verify)
    requires name in users && (code.None? || code.value == "")
    ensures Step(users, body, now, rnd, email, saveOk)
         == Transition(users, Response(400, false, CodeRequired), None)
  {
  }

  /**
   * `verify` succeeds exactly when the code equals the stored one and the
   * stored expiry lies after `now`; it then writes `isVerified := true` and
   * nothing else: the code and its expiry stay stored.
   */
  lemma VerifySucceedsIff(users: map<string, Account>, body: Option<Body>, name: string, code: string,
                          now: int, rnd: nat, email: EmailResult)
    requires rnd < CodeSpan
    requires Addresses(body, name, Some(code), Verify)
    requires name in users && code != ""
    ensures var t := Step(users, body, now, rnd, email, true);
            && (t.response.success <==> users[name].verificationCode == Some(code) && ExpiryInstant(users[name]) > now)
            && (t.response.success ==> t.response == Response(200, true, AccountVerified)
                                       && t.users == users[name := users[name].(isVerified := true)])
            && t.sent.None?
  {
  }

  /** A code whose expiry is not after `now` is reported expired, even when it matches. */
  lemma VerifyExpired(users: map<string, Account>, body: Option<Body>, name: string, code: string,
                      now: int, rnd: nat, email: EmailResult, saveOk: bool)
    requires rnd < CodeSpan
    requires Addresses(body, name, Some(code), Verify)
    requires name in users && code != "" && ExpiryInstant(users[name]) <= now
    ensures Step(users, body, now, rnd, email, saveOk)
         == Transition(users, Response(400, false, CodeExpired), None)
  {
  }

  /** A stored `null` expiry is the epoch, so it has expired at any time from the epoch on. */
  lemma NullExpiryHasExpired(a: Account, now: int)
    requires a.verificationCodeExpires.None? && now >= 0
    ensures !NotExpired(a, now)
  {
  }

  /** A wrong code that has not expired is reported incorrect. */
  lemma VerifyIncorrect(users: map<string, Account>, body: Option<Body>, name: string, code: string,
                        now: int, rnd: nat, email: EmailResult, saveOk: bool)
    requires rnd < CodeSpan
    requires Addresses(body, name, Some(code), Verify)
    requires name in users && code != ""
    requires ExpiryInstant(users[name]) > now && users[name].verificationCode != Some(code)
    ensures Step(users, body, now, rnd, email, saveOk)
         == Transition(users, Response(400, false, CodeIncorrect), None)
  {
  }

  /**
   * Whitespace around the submitted name does not matter: the lookup trims
   * it, so the padded request has exactly the effect of the bare one.
   */
  lemma PaddedNameSameStep(users: map<string, Account>, w1: string, name: string, w2: string, code: Json,
                           action: Json, now: int, rnd: nat, email: EmailResult, saveOk: bool)
    requires rnd < CodeSpan
    requires AllWhitespace(w1) && AllWhitespace(w2) && IsTrimmed(name) && name != ""
    ensures Step(users, Some(Body(Str(w1 + name + w2), code, action)), now, rnd, email, saveOk)
         == Step(users, Some(Body(Str(name), code, action)), now, rnd, email, saveOk)
  {
    var padded := w1 + name + w2;
    assert |padded| > 0;
    var b1, b2 := Body(Str(padded), code, action), Body(Str(name), code, action);
    if ParseRequest(b2).Some? {
      assert ParseRequest(b1).value == ParseRequest(b2).value.(userName := padded);
      assert LookupName(ParseRequest(b1).value) == LookupName(ParseRequest(b2).value) by {
        TrimPadded(w1, name, w2);
        TrimOfTrimmed(name);
      }
    }
  }

  /** A successful `resend` for `raw` stores a new code in the account `raw` is looked up as. */
  lemma ResendStores(users: map<string, Account>, raw: string, name: string, t1: int, rnd: nat,
                     email: EmailResult)
    requires rnd < CodeSpan
    requires raw != "" && Trim(raw) == name && name in users
    ensures Step(users, Some(ResendBody(raw)), t1, rnd, email, true).users
         == users[name := WithNewCode(users[name], NewCode(rnd), t1)]
  {
    assert Addresses(Some(ResendBody(raw)), name, None, Resend);
    ResendIssuesCode(users, Some(ResendBody(raw)), name, None, t1, rnd, email);
  }

  lemma VerifyBodyAddresses(raw: string, name: string, code: string)
    requires raw != "" && Trim(raw) == name
    ensures Addresses(Some(VerifyBody(raw, code)), name, Some(code), Verify)
  {
  }

  /**
   * The code a `resend` issues verifies the account at any time within the
   * next ten minutes; `raw` is the submitted name, `name` the account it
   * is looked up as.
   */
  lemma ResendThenVerify(users: map<string, Account>, raw: string, name: string, t1: int, rnd: nat,
                         email: EmailResult, t2: int, rnd2: nat, email2: EmailResult)
    requires rnd < CodeSpan && rnd2 < CodeSpan
    requires raw != "" && Trim(raw) == name && name in users
    requires t2 < t1 + ExpiryWindowMs
    ensures var s1 := Step(users, Some(ResendBody(raw)), t1, rnd, email, true);
            var s2 := Step(s1.users, Some(VerifyBody(raw, NewCode(rnd))), t2, rnd2, email2, true);
            s2.response == Response(200, true, AccountVerified) && s2.users[name].isVerified
  {
    ResendStores(users, raw, name, t1, rnd, email);
    var u1 := users[name := WithNewCode(users[name], NewCode(rnd), t1)];
    VerifyBodyAddresses(raw, name, NewCode(rnd));
    VerifySucceedsIff(u1, Some(VerifyBody(raw, NewCode(rnd))), name, NewCode(rnd), t2, rnd2, email2);
  }

  /** After a `resend`, any other code is rejected until the new one expires, and then every code is. */
  lemma ResendSupersedes(users: map<string, Account>, raw: string, name: string, t1: int, rnd: nat,
                         email: EmailResult, code: string, t2: int, rnd2: nat, email2: EmailResult, saveOk: bool)
    requires rnd < CodeSpan && rnd2 < CodeSpan
    requires raw != "" && Trim(raw) == name && name in users && code != ""
    ensures var s1 := Step(users, Some(ResendBody(raw)), t1, rnd, email, true);
            var s2 := Step(s1.users, Some(VerifyBody(raw, code)), t2, rnd2, email2, saveOk);
            && (t2 < t1 + ExpiryWindowMs && code != NewCode(rnd) ==> s2.response.message == CodeIncorrect)
            && (t2 >= t1 + ExpiryWindowMs ==> s2.response.message == CodeExpired)
            && (code != NewCode(rnd) || t2 >= t1 + ExpiryWindowMs ==> s2.users == s1.users)
  {
    ResendStores(users, raw, name, t1, rnd, email);
    var u1 := users[name := WithNewCode(users[name], NewCode(rnd), t1)];
    assert u1[name].verificationCode == Some(NewCode(rnd));
    assert ExpiryInstant(u1[name]) == t1 + ExpiryWindowMs;
    var body := Some(VerifyBody(raw, code));
    VerifyBodyAddresses(raw, name, code);
    if t2 >= t1 + ExpiryWindowMs {
      VerifyExpired(u1, body, name, code, t2, rnd2, email2, saveOk);
    } else if code != NewCode(rnd) {
      VerifyIncorrect(u1, body, name, code, t2, rnd2, email2, saveOk);
    }
  }

  lemma AliceCode()
    ensures NewCode(382913) == "482913"
  {
    assert DecimalString(4) == "4";
    assert DecimalString(48) == "48";
    assert DecimalString(482) == "482";
    assert DecimalString(4829) == "4829";
    assert DecimalString(48291) == "48291";
    assert DecimalString(482913) == "482913";
  }

  lemma AliceTrimmed()
    ensures Trim("alice") == "alice"
  {
    assert "alice"[0] == 'a' && "alice"[|"alice"| - 1] == 'e';
    TrimOfTrimmed("alice");
  }

  /** An example run: the code "482913" is issued to alice at `t` and accepted a minute later. */
  lemma AliceScenario(alice: Account, t: int, email: EmailResult)
    ensures var users := map["alice" := alice];
            var s1 := Step(users, Some(ResendBody("alice")), t, 382913, email, true);
            && s1.sent == Some(Outgoing(alice.email, alice.userName, "482913"))
            && Step(s1.users, Some(VerifyBody("alice", "482913")), t + 60000, 0, email, true).response.message
               == AccountVerified
  {
    var users := map["alice" := alice];
    AliceTrimmed();
    AliceCode();
    assert Addresses(Some(ResendBody("alice")), "alice", None, Resend);
    ResendIssuesCode(users, Some(ResendBody("alice")), "alice", None, t, 382913, email);
    ResendThenVerify(users, "alice", "alice", t, 382913, email, t + 60000, 0, email);
  }

  /**
   * The same run continued: "482913" is reported expired eleven minutes
   * later, and "000000" is reported incorrect a minute later.
   */
  lemma AliceRejected(alice: Account, t: int, email: EmailResult)
    ensures var users := map["alice" := alice];
            var s1 := Step(users, Some(ResendBody("alice")), t, 382913, email, true);
            && Step(s1.users, Some(VerifyBody("alice", "482913")), t + 660000, 0, email, true).response.message
               == CodeExpired
            && Step(s1.users, Some(VerifyBody("alice", "000000")), t + 60000, 0, email, true).response.message
               == CodeIncorrect
  {
    var users := map["alice" := alice];
    AliceTrimmed();
    AliceCode();
    ResendSupersedes(users, "alice", "alice", t, 382913, email, "482913", t + 660000, 0, email, true);
    ResendSupersedes(users, "alice", "alice", t, 382913, email, "000000", t + 60000, 0, email, true);
  }

  /** In the same store, a resend for the unknown "ghost" is a 404 and sends nothing. */
  lemma GhostScenario(alice: Account, t: int, email: EmailResult)
    ensures var users := map["alice" := alice];
            Step(users, Some(ResendBody("ghost")), t, 0, email, true)
            == Transition(users, Response(404, false, UserNotFound), None)
  {
    var users := map["alice" := alice];
    assert "ghost"[0] == 'g' && "ghost"[|"ghost"| - 1] == 't';
    TrimOfTrimmed("ghost");
    assert Target(Some(ResendBody("ghost"))) == Some("ghost");
    UnknownUserIs404(users, Some(ResendBody("ghost")), t, 0, email, true);
  }
}
