/**
 * The user record (`IUser`) and the Mongoose schema that constrains it:
 * the stored `Account`, the field validators and setters, the defaults a
 * new record receives, and the unique index on `email`.
 */
module UserModel {
  import opened Wrappers
  import opened Text

  const UserNameMinLength: nat := 2
  const UserNameMaxLength: nat := 50
  const PasswordMinLength: nat := 6

  /** The `role` enumeration. */
  datatype Role = User | Talent | Admin

  function RoleName(r: Role): string {
    match r
    case User => "user"
    case Talent => "talent"
    case Admin => "admin"
  }

  /** The `enum` validator: the role whose name is exactly `s`, if any. */
  function ParseRole(s: string): (r: Option<Role>)
    ensures r.Some? ==> RoleName(r.value) == s
  {
    if s == "user" then Some(User)
    else if s == "talent" then Some(Talent)
    else if s == "admin" then Some(Admin)
    else None
  }

  /** Every role is accepted under its own name. */
  lemma ParseRoleName(role: Role)
    ensures ParseRole(RoleName(role)) == Some(role)
  {
    match role
    case User =>
    case Talent => assert "talent" != "user";
    case Admin => assert "admin" != "user" && "admin" != "talent";
  }

  /**
   * A stored user document. `verificationCodeExpires` is a point in time in
   * milliseconds since the epoch; `None` stands for the schema's `null`.
   */
  datatype Account = Account(
    userName: string,
    email: string,
    password: string,
    profilePicture: Option<string>,
    role: Role,
    verificationCode: Option<string>,
    verificationCodeExpires: Option<int>,
    isVerified: bool)

  /** The `trim` and `lowercase` setters of the `email` path. */
  function NormalizeEmail(s: string): (r: string)
    ensures IsTrimmed(r) && Lower(r) == r
  {
    var t := Trim(s);
    LowerIdempotent(t);
    if t == [] then Lower(t)
    else
      LowerCharWhitespace(t[0]);
      LowerCharWhitespace(t[|t| - 1]);
      Lower(t)
  }

  /** The position of the first `@` at or after `from`, or `|s|` when there is none. */
  function FirstAt(s: string, from: nat): (r: nat)
    requires from <= |s|
    ensures from <= r <= |s|
    ensures r < |s| ==> s[r] == '@'
    ensures forall k :: from <= k < r ==> s[k] != '@'
    decreases |s| - from
  {
    if from == |s| || s[from] == '@' then from else FirstAt(s, from + 1)
  }

  /** The position of the last `.` before `end`, or -1 when there is none. */
  function LastDot(s: string, end: nat): (r: int)
    requires end <= |s|
    ensures -1 <= r < end
    ensures r >= 0 ==> s[r] == '.'
    ensures forall k :: r < k < end ==> s[k] != '.'
  {
    if end == 0 then -1 else if s[end - 1] == '.' then end - 1 else LastDot(s, end - 1)
  }

  /**
   * What `/^\S+@\S+\.\S+$/` accepts: no whitespace anywhere, an `@` with at
   * least one character before it, then at least one character, then a `.`
   * with at least one character after it.
   */
  ghost predicate MatchesEmailPattern(e: string) {
    && NoWhitespace(e)
    && exists i, j :: 0 < i && i + 1 < j < |e| - 1 && e[i] == '@' && e[j] == '.'
  }

  /** The `match` validator: the first usable `@` must come at least two places before the last usable `.`. */
  predicate IsEmailShape(e: string) {
    NoWhitespace(e) && |e| >= 1 && FirstAt(e, 1) + 2 <= LastDot(e, |e| - 1)
  }

  lemma EmailShapeIsPattern(e: string)
    ensures IsEmailShape(e) <==> MatchesEmailPattern(e)
  {
    if MatchesEmailPattern(e) {
      var i, j :| 0 < i && i + 1 < j < |e| - 1 && e[i] == '@' && e[j] == '.';
      assert FirstAt(e, 1) <= i;
      assert LastDot(e, |e| - 1) >= j;
    }
    if IsEmailShape(e) {
      var i, j := FirstAt(e, 1), LastDot(e, |e| - 1);
      assert 0 < i && i + 1 < j < |e| - 1 && e[i] == '@' && e[j] == '.';
    }
  }

  /** Any `local@domain.tld` whose three parts are non-empty and free of whitespace matches the pattern. */
  lemma EmailOfParts(local: string, domain: string, tld: string)
    requires local != [] && domain != [] && tld != []
    requires NoWhitespace(local) && NoWhitespace(domain) && NoWhitespace(tld)
    ensures MatchesEmailPattern(local + "@" + domain + "." + tld)
  {
    var e := local + "@" + domain + "." + tld;
    var i, j := |local|, |local| + 1 + |domain|;
    assert e[i] == '@' && e[j] == '.';
    forall k | 0 <= k < |e| ensures !IsWhitespace(e[k]) {
      if k < i { assert e[k] == local[k]; }
      else if i < k < j { assert e[k] == domain[k - i - 1]; }
      else if j < k { assert e[k] == tld[k - j - 1]; }
    }
  }

  /** Conversely, every address the pattern accepts splits into such three parts. */
  lemma EmailParts(e: string) returns (local: string, domain: string, tld: string)
    requires MatchesEmailPattern(e)
    ensures e == local + "@" + domain + "." + tld
    ensures local != [] && domain != [] && tld != []
    ensures NoWhitespace(local) && NoWhitespace(domain) && NoWhitespace(tld)
  {
    var i, j :| 0 < i && i + 1 < j < |e| - 1 && e[i] == '@' && e[j] == '.';
    local, domain, tld := e[..i], e[i + 1..j], e[j + 1..];
    assert e == local + "@" + domain + "." + tld;
    assert forall k :: 0 <= k < |domain| ==> domain[k] == e[i + 1 + k];
    assert forall k :: 0 <= k < |tld| ==> tld[k] == e[j + 1 + k];
  }

  ghost predicate ValidUserName(u: string) {
    IsTrimmed(u) && UserNameMinLength <= Utf16Length(u) <= UserNameMaxLength
  }

  ghost predicate ValidEmail(e: string) {
    Lower(e) == e && MatchesEmailPattern(e)
  }

  ghost predicate ValidPassword(p: string) {
    Utf16Length(p) >= PasswordMinLength
  }

  /** The field constraints every stored account satisfies. */
  ghost predicate ValidAccount(a: Account)
    ensures ValidAccount(a) ==> a.userName != "" && a.email != "" && a.password != ""
  {
    && ValidUserName(a.userName)
    && ValidEmail(a.email)
    && ValidPassword(a.password)
    && (a.profilePicture.Some? ==> IsTrimmed(a.profilePicture.value))
  }

  /** The verification fields of a record that has just been created. */
  predicate IsNew(a: Account) {
    a.verificationCode.None? && a.verificationCodeExpires.None? && !a.isVerified
  }

  /** The unique index on `email`; `userName` has none. */
  predicate EmailsUnique(users: map<string, Account>) {
    forall k1, k2 :: k1 in users && k2 in users && k1 != k2 ==> users[k1].email != users[k2].email
  }

  /** The fields a caller supplies when creating a user; `None` is an absent field. */
  datatype Draft = Draft(
    userName: Option<string>,
    email: Option<string>,
    password: Option<string>,
    profilePicture: Option<string>,
    role: Option<string>)

  datatype Path = UserNamePath | EmailPath | PasswordPath | RolePath

  datatype Violation =
    | Required(path: Path)
    | TooShort(path: Path)
    | TooLong(path: Path)
    | NoMatch(path: Path)
    | NotInEnum(path: Path)

  /** `userName`: required, then minlength, then maxlength, on the trimmed value. */
  function UserNameCheck(v: Option<string>): (e: Option<Violation>)
    ensures e.Some? ==> e.value.path == UserNamePath
    ensures e.None? ==> v.Some?
  {
    if v.None? || Trim(v.value) == "" then Some(Required(UserNamePath))
    else if Utf16Length(Trim(v.value)) < UserNameMinLength then Some(TooShort(UserNamePath))
    else if Utf16Length(Trim(v.value)) > UserNameMaxLength then Some(TooLong(UserNamePath))
    else None
  }

  /** `email`: required, then match, on the trimmed and lower-cased value. */
  function EmailCheck(v: Option<string>): (e: Option<Violation>)
    ensures e.Some? ==> e.value.path == EmailPath
    ensures e.None? ==> v.Some?
  {
    if v.None? || NormalizeEmail(v.value) == "" then Some(Required(EmailPath))
    else if !IsEmailShape(NormalizeEmail(v.value)) then Some(NoMatch(EmailPath))
    else None
  }

  /** `password`: required, then minlength; the password is not trimmed. */
  function PasswordCheck(v: Option<string>): (e: Option<Violation>)
    ensures e.Some? ==> e.value.path == PasswordPath
    ensures e.None? ==> v.Some?
  {
    if v.None? || v.value == "" then Some(Required(PasswordPath))
    else if Utf16Length(v.value) < PasswordMinLength then Some(TooShort(PasswordPath))
    else None
  }

  /** `role`: an absent role takes the default, a given one must be in the enumeration. */
  function RoleCheck(v: Option<string>): (e: Option<Violation>)
    ensures e.Some? ==> e.value.path == RolePath
  {
    if v.Some? && ParseRole(v.value).None? then Some(NotInEnum(RolePath)) else None
  }

  /** The `userName` validators pass exactly when the trimmed name satisfies the field constraints. */
  lemma UserNameCheckExact(v: Option<string>)
    ensures UserNameCheck(v).None? <==> v.Some? && ValidUserName(Trim(v.value))
  {
  }

  /** The `email` validators pass exactly when the normalised address satisfies the field constraints. */
  lemma EmailCheckExact(v: Option<string>)
    ensures EmailCheck(v).None? <==> v.Some? && ValidEmail(NormalizeEmail(v.value))
  {
    if v.Some? {
      var e := NormalizeEmail(v.value);
      EmailShapeIsPattern(e);
      LowerIdempotent(Trim(v.value));
    }
  }

  lemma PasswordCheckExact(v: Option<string>)
    ensures PasswordCheck(v).None? <==> v.Some? && ValidPassword(v.value)
  {
  }

  function AsSet(o: Option<Violation>): (s: set<Violation>)
    ensures forall x :: x in s <==> o == Some(x)
  {
    if o.Some? then {o.value} else {}
  }

  /** The validators of one path, in the order Mongoose runs them. */
  function CheckPath(d: Draft, p: Path): Option<Violation> {
    match p
    case UserNamePath => UserNameCheck(d.userName)
    case EmailPath => EmailCheck(d.email)
    case PasswordPath => PasswordCheck(d.password)
    case RolePath => RoleCheck(d.role)
  }

  /**
   * The validation errors of a draft: one for every path whose validators
   * fail, namely the first of them that fails, and nothing else.
   */
  function Violations(d: Draft): (errs: set<Violation>)
    ensures forall v :: v in errs ==> CheckPath(d, v.path) == Some(v)
    ensures forall p :: CheckPath(d, p).Some? ==> CheckPath(d, p).value in errs
    ensures errs == {} ==> d.userName.Some? && d.email.Some? && d.password.Some?
  {
    var u, e, p, r := CheckPath(d, UserNamePath), CheckPath(d, EmailPath),
                      CheckPath(d, PasswordPath), CheckPath(d, RolePath);
    AsSet(u) + AsSet(e) + AsSet(p) + AsSet(r)
  }

  /**
   * Building and validating a new document: setters and defaults applied,
   * then the validators. A created account is valid and carries the defaults.
   */
  function Create(d: Draft): (r: Result<Account, set<Violation>>)
    ensures r.Err? ==> r.error != {} && r.error == Violations(d)
    ensures r.Ok? ==> ValidAccount(r.value) && IsNew(r.value)
    ensures r.Ok? ==> && d.userName.Some? && r.value.userName == Trim(d.userName.value)
                      && d.email.Some? && r.value.email == NormalizeEmail(d.email.value)
                      && d.password.Some? && r.value.password == d.password.value
    ensures r.Ok? && d.profilePicture.None? ==> r.value.profilePicture.None?
    ensures r.Ok? && d.profilePicture.Some? ==> r.value.profilePicture == Some(Trim(d.profilePicture.value))
    ensures r.Ok? && d.role.None? ==> r.value.role == User
    ensures r.Ok? && d.role.Some? ==> Some(r.value.role) == ParseRole(d.role.value)
  {
    var errs := Violations(d);
    if errs != {} then Err(errs)
    else
      assert CheckPath(d, UserNamePath).None? && CheckPath(d, EmailPath).None?;
      assert CheckPath(d, PasswordPath).None? && CheckPath(d, RolePath).None?;
      UserNameCheckExact(d.userName);
      EmailCheckExact(d.email);
      PasswordCheckExact(d.password);
      var email := NormalizeEmail(d.email.value);
      Ok(Account(
        userName := Trim(d.userName.value),
        email := email,
        password := d.password.value,
        profilePicture := if d.profilePicture.Some? then Some(Trim(d.profilePicture.value)) else None,
        role := if d.role.Some? then ParseRole(d.role.value).value else User,
        verificationCode := None,
        verificationCodeExpires := None,
        isVerified := false))
  }

  /** The draft that re-creates an account from its own fields. */
  function DraftOf(a: Account): Draft {
    Draft(Some(a.userName), Some(a.email), Some(a.password), a.profilePicture, Some(RoleName(a.role)))
  }

  lemma ValidUserNamePasses(u: string)
    requires ValidUserName(u)
    ensures UserNameCheck(Some(u)).None?
  {
    TrimOfTrimmed(u);
    UserNameCheckExact(Some(u));
  }

  lemma ValidEmailPasses(e: string)
    requires ValidEmail(e)
    ensures EmailCheck(Some(e)).None?
  {
    assert IsTrimmed(e);
    TrimOfTrimmed(e);
    EmailCheckExact(Some(e));
  }

  /** A valid account's own fields pass every validator. */
  lemma DraftOfPasses(a: Account)
    requires ValidAccount(a)
    ensures Violations(DraftOf(a)) == {}
  {
    ValidUserNamePasses(a.userName);
    ValidEmailPasses(a.email);
    PasswordCheckExact(Some(a.password));
    ParseRoleName(a.role);
  }

  /** Every valid new account is exactly what creating it from its own fields yields. */
  lemma CreateRoundTrip(a: Account)
    requires ValidAccount(a) && IsNew(a)
    ensures Create(DraftOf(a)) == Ok(a)
  {
    var d := DraftOf(a);
    DraftOfPasses(a);
    var r := Create(d);
    assert r.value.userName == a.userName by {
      TrimOfTrimmed(a.userName);
    }
    assert r.value.email == a.email by {
      assert IsTrimmed(a.email);
      TrimOfTrimmed(a.email);
    }
    assert r.value.profilePicture == a.profilePicture by {
      if a.profilePicture.Some? {
        TrimOfTrimmed(a.profilePicture.value);
      }
    }
    assert r.value.role == a.role by {
      ParseRoleName(a.role);
    }
  }

  /** Creation succeeds exactly when the normalised fields satisfy the field constraints. */
  lemma CreateAcceptsExactly(d: Draft)
    ensures Create(d).Ok? <==>
      && d.userName.Some? && ValidUserName(Trim(d.userName.value))
      && d.email.Some? && ValidEmail(NormalizeEmail(d.email.value))
      && d.password.Some? && ValidPassword(d.password.value)
      && (d.role.Some? ==> ParseRole(d.role.value).Some?)
  {
    UserNameCheckExact(d.userName);
    EmailCheckExact(d.email);
    PasswordCheckExact(d.password);
    assert Create(d).Ok? <==> Violations(d) == {};
  }

}
