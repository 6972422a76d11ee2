/** User registration with a custom exception hierarchy: every validator raises a subclass of
    `UserRegistrationError`, and `register_user` runs the checks in a fixed order. */
module CustomExceptions {

  import opened PyValues
  import opened PyStrings
  import opened Errors

  /** A character the email pattern's class `[^@\s]` admits. */
  predicate Plain(c: char) {
    c != '@' && !IsSpace(c)
  }

  predicate AllPlain(s: string) {
    forall i :: 0 <= i < |s| ==> Plain(s[i])
  }

  lemma AllPlainCons(c: char, t: string)
    ensures AllPlain([c] + t) <==> Plain(c) && AllPlain(t)
  {
    var s := [c] + t;
    if Plain(c) && AllPlain(t) {
      forall i | 0 <= i < |s| ensures Plain(s[i]) {
        if i > 0 { assert s[i] == t[i - 1]; }
      }
    }
    if AllPlain(s) {
      assert s[0] == c && Plain(s[0]);
      forall i | 0 <= i < |t| ensures Plain(t[i]) {
        assert t[i] == s[i + 1];
        assert Plain(s[i + 1]);
      }
    }
  }

  /** What `[^@\s]+\.[^@\s]+` matches: only admitted characters, among them a '.' with at
      least one character on each side. */
  predicate DomainShape(d: string) {
    AllPlain(d) && exists k :: 1 <= k < |d| - 1 && d[k] == '.'
  }

  /** What the whole pattern `^[^@\s]+@[^@\s]+\.[^@\s]+$` matches: a non-empty local part
      without '@' or whitespace, one '@', and a domain of the shape above. */
  predicate EmailShape(s: string) {
    exists p :: 0 < p < |s| && s[p] == '@' && AllPlain(s[..p]) && DomainShape(s[p + 1..])
  }

  /** The states of a left-to-right matcher for the email pattern. */
  datatype MatchState =
    | Start       // nothing read
    | LocalPart   // one or more characters before '@'
    | AtSign      // just read the '@'
    | DomainHead  // domain started, no '.' with characters on both sides yet
    | DotSeen     // the last character is a '.' with characters before it
    | Accepting   // some '.' has characters on both sides
    | Rejected

  function Step(st: MatchState, c: char): MatchState {
    if st == LocalPart && c == '@' then AtSign
    else if !Plain(c) then Rejected
    else match st
      case Start => LocalPart
      case LocalPart => LocalPart
      case AtSign => DomainHead
      case DomainHead => if c == '.' then DotSeen else DomainHead
      case DotSeen => Accepting
      case Accepting => Accepting
      case Rejected => Rejected
  }

  /** Runs the matcher over `s` from state `st`. */
  function Run(st: MatchState, s: string): MatchState
    decreases |s|
  {
    if s == [] then st else Run(Step(st, s[0]), s[1..])
  }

  /** `validate_email`: a non-string, or a string the pattern does not match, raises
      InvalidEmailError. */
  function ValidateEmail(email: Value): (r: Outcome)
    ensures !email.VStr? ==> r == Fail(Error(InvalidEmailError, "Email must be a string"))
    ensures r.Fail? ==> r.error.kind == InvalidEmailError
  {
    if !email.VStr? then Fail(Error(InvalidEmailError, "Email must be a string"))
    else if Run(Start, email.s) != Accepting then Fail(Error(InvalidEmailError, "Invalid email format: " + email.s))
    else Pass
  }

  lemma {:induction false} RejectedStays(s: string)
    ensures Run(Rejected, s) == Rejected
    decreases |s|
  {
    if s != [] {
      RejectedStays(s[1..]);
    }
  }

  lemma {:induction false} AcceptingRun(s: string)
    ensures Run(Accepting, s) == Accepting <==> AllPlain(s)
    decreases |s|
  {
    if s != [] {
      if Plain(s[0]) {
        AcceptingRun(s[1..]);
        assert s == [s[0]] + s[1..];
        AllPlainCons(s[0], s[1..]);
      } else {
        RejectedStays(s[1..]);
      }
    }
  }

  lemma DotSeenRun(s: string)
    ensures Run(DotSeen, s) == Accepting <==> |s| >= 1 && AllPlain(s)
  {
    if s != [] {
      if Plain(s[0]) {
        AcceptingRun(s[1..]);
        assert s == [s[0]] + s[1..];
        AllPlainCons(s[0], s[1..]);
      } else {
        RejectedStays(s[1..]);
      }
    }
  }

  /** What the matcher accepts once the domain has started. */
  predicate HeadRest(s: string) {
    AllPlain(s) && exists k :: 0 <= k < |s| - 1 && s[k] == '.'
  }

  lemma {:induction false} DomainHeadRun(s: string)
    ensures Run(DomainHead, s) == Accepting <==> HeadRest(s)
    decreases |s|
  {
    if s != [] {
      var t := s[1..];
      if !Plain(s[0]) {
        RejectedStays(t);
      } else {
        assert s == [s[0]] + t;
        AllPlainCons(s[0], t);
        if s[0] == '.' {
          DotSeenRun(t);
          if HeadRest(s) {
            assert |t| >= 1;
          }
        } else {
          DomainHeadRun(t);
          if HeadRest(s) {
            var k :| 0 <= k < |s| - 1 && s[k] == '.';
            assert t[k - 1] == '.';
          }
          if HeadRest(t) {
            var k :| 0 <= k < |t| - 1 && t[k] == '.';
            assert s[k + 1] == '.';
          }
        }
      }
    }
  }

  lemma AtSignRun(s: string)
    ensures Run(AtSign, s) == Accepting <==> DomainShape(s)
  {
    if s != [] {
      var t := s[1..];
      if !Plain(s[0]) {
        RejectedStays(t);
      } else {
        assert s == [s[0]] + t;
        AllPlainCons(s[0], t);
        DomainHeadRun(t);
        if DomainShape(s) {
          var k :| 1 <= k < |s| - 1 && s[k] == '.';
          assert t[k - 1] == '.';
        }
        if HeadRest(t) {
          var k :| 0 <= k < |t| - 1 && t[k] == '.';
          assert s[k + 1] == '.';
        }
      }
    }
  }

  /** What the matcher accepts while reading the local part. */
  predicate LocalRest(s: string) {
    exists p :: 0 <= p < |s| && s[p] == '@' && AllPlain(s[..p]) && DomainShape(s[p + 1..])
  }

  /** Past a leading admitted character, the '@' can only come later. */
  lemma LocalRestPlainCons(s: string)
    requires |s| > 0 && Plain(s[0])
    ensures LocalRest(s) <==> LocalRest(s[1..])
  {
    if LocalRest(s) {
      LocalRestDropHead(s);
    }
    if LocalRest(s[1..]) {
      LocalRestAddHead(s);
    }
  }

  lemma LocalRestDropHead(s: string)
    requires |s| > 0 && Plain(s[0]) && LocalRest(s)
    ensures LocalRest(s[1..])
  {
    var t := s[1..];
    var p :| 0 <= p < |s| && s[p] == '@' && AllPlain(s[..p]) && DomainShape(s[p + 1..]);
    var q := p - 1;
    forall i | 0 <= i < q ensures Plain(t[..q][i]) {
      assert t[..q][i] == s[..p][i + 1];
    }
    assert t[q + 1..] == s[p + 1..];
    assert t[q] == '@' && AllPlain(t[..q]) && DomainShape(t[q + 1..]);
  }

  /** An admitted first character followed by an admitted run gives an admitted prefix. */
  lemma AllPlainPrefixCons(s: string, p: nat)
    requires 0 < p <= |s| && Plain(s[0]) && AllPlain(s[1..][..p - 1])
    ensures AllPlain(s[..p])
  {
    forall i | 0 < i < p ensures Plain(s[..p][i]) {
      assert s[..p][i] == s[1..][..p - 1][i - 1];
    }
  }

  lemma LocalRestAddHead(s: string)
    requires |s| > 0 && Plain(s[0]) && LocalRest(s[1..])
    ensures LocalRest(s)
  {
    var t := s[1..];
    var q :| 0 <= q < |t| && t[q] == '@' && AllPlain(t[..q]) && DomainShape(t[q + 1..]);
    var p := q + 1;
    AllPlainPrefixCons(s, p);
    assert s[p + 1..] == t[q + 1..];
    assert s[p] == '@' && AllPlain(s[..p]) && DomainShape(s[p + 1..]);
  }

  /** A leading '@' must be the separator, so the rest must be a domain. */
  lemma LocalRestAt(s: string)
    requires |s| > 0 && s[0] == '@'
    ensures LocalRest(s) <==> DomainShape(s[1..])
  {
    assert s[..0] == [];
    forall p | 0 < p < |s| ensures !AllPlain(s[..p]) {
      assert s[..p][0] == '@';
    }
  }

  /** A leading whitespace character rules out a match. */
  lemma LocalRestRejected(s: string)
    requires |s| > 0 && !Plain(s[0]) && s[0] != '@'
    ensures !LocalRest(s)
  {
    forall p | 0 < p < |s| ensures !AllPlain(s[..p]) {
      assert s[..p][0] == s[0];
    }
  }

  /** A whole address is a local-part match that starts with an admitted character. */
  lemma EmailShapeCons(s: string)
    ensures EmailShape(s) <==> |s| > 0 && Plain(s[0]) && LocalRest(s)
  {
    if EmailShape(s) {
      var p :| 0 < p < |s| && s[p] == '@' && AllPlain(s[..p]) && DomainShape(s[p + 1..]);
      assert s[..p][0] == s[0];
    }
  }

  lemma {:induction false} LocalPartRun(s: string)
    ensures Run(LocalPart, s) == Accepting <==> LocalRest(s)
    decreases |s|
  {
    if s != [] {
      var t := s[1..];
      if s[0] == '@' {
        AtSignRun(t);
        LocalRestAt(s);
      } else if !Plain(s[0]) {
        RejectedStays(t);
        LocalRestRejected(s);
      } else {
        LocalPartRun(t);
        LocalRestPlainCons(s);
      }
    }
  }

  /** The matcher accepts exactly the strings of the pattern's shape. */
  lemma StartRun(s: string)
    ensures Run(Start, s) == Accepting <==> EmailShape(s)
  {
    EmailShapeCons(s);
    if s != [] {
      var t := s[1..];
      if !Plain(s[0]) {
        RejectedStays(t);
      } else {
        LocalPartRun(t);
        LocalRestPlainCons(s);
      }
    }
  }


  /** `validate_email` passes exactly the strings of the pattern's shape. */
  lemma ValidateEmailIffShape(email: Value)
    ensures ValidateEmail(email).Pass? <==> email.VStr? && EmailShape(email.s)
  {
    if email.VStr? {
      StartRun(email.s);
    }
  }

  const MinPasswordLength := 8

  predicate HasUpper(s: string) { exists i :: 0 <= i < |s| && IsUpper(s[i]) }
  predicate HasLower(s: string) { exists i :: 0 <= i < |s| && IsLower(s[i]) }
  predicate HasDigit(s: string) { exists i :: 0 <= i < |s| && IsDigit(s[i]) }

  /** `validate_password`: the rules are tried in order and the first one that fails decides
      the message. */
  function ValidatePassword(password: Value): (r: Outcome)
    ensures r.Pass? <==> password.VStr? && |password.s| >= 8
                         && HasUpper(password.s) && HasLower(password.s) && HasDigit(password.s)
    ensures r.Fail? ==> r.error.kind == WeakPasswordError
    ensures !password.VStr? ==> r.error.message == "Password must be a string"
    ensures password.VStr? && |password.s| < 8 ==> r.error.message == "Password must be at least 8 characters long"
    ensures password.VStr? && |password.s| >= 8 && !HasUpper(password.s) ==>
              r.error.message == "Password must contain at least one uppercase letter"
    ensures password.VStr? && |password.s| >= 8 && HasUpper(password.s) && !HasLower(password.s) ==>
              r.error.message == "Password must contain at least one lowercase letter"
    ensures password.VStr? && |password.s| >= 8 && HasUpper(password.s) && HasLower(password.s) && !HasDigit(password.s) ==>
              r.error.message == "Password must contain at least one digit"
  {
    if !password.VStr? then Fail(Error(WeakPasswordError, "Password must be a string"))
    else if |password.s| < MinPasswordLength then Fail(Error(WeakPasswordError, "Password must be at least 8 characters long"))
    else if !HasUpper(password.s) then Fail(Error(WeakPasswordError, "Password must contain at least one uppercase letter"))
    else if !HasLower(password.s) then Fail(Error(WeakPasswordError, "Password must contain at least one lowercase letter"))
    else if !HasDigit(password.s) then Fail(Error(WeakPasswordError, "Password must contain at least one digit"))
    else Pass
  }

  /** `validate_age`: an `int` (a bool counts as one) with 13 <= age < 150; the type check
      comes before the range checks. */
  function ValidateAge(age: Value): (r: Outcome)
    ensures r.Pass? <==> IsInt(age) && 13 <= IntVal(age) < 150
    ensures r.Fail? ==> r.error.kind == InvalidAgeError
    ensures !IsInt(age) ==> r.error.message == "Age must be an integer"
    ensures IsInt(age) && IntVal(age) < 13 ==> r.error.message == "User must be at least 13 years old"
    ensures IsInt(age) && IntVal(age) >= 150 ==> r.error.message == "Age must be less than 150"
  {
    if !IsInt(age) then Fail(Error(InvalidAgeError, "Age must be an integer"))
    else if IntVal(age) < 13 then Fail(Error(InvalidAgeError, "User must be at least 13 years old"))
    else if IntVal(age) >= 150 then Fail(Error(InvalidAgeError, "Age must be less than 150"))
    else Pass
  }

  /** `EXISTING_USERS` */
  const ExistingUsers: set<string> := {"admin", "user123", "testuser", "john_doe"}

  /** The record a successful registration returns: it echoes the inputs and is marked registered. */
  function Registered(username: string, email: Value, age: Value): (m: map<string, Value>)
    ensures m.Keys == {"username", "email", "age", "status", "created_at"}
    ensures m["username"] == VStr(username) && m["email"] == email && m["age"] == age
    ensures m["status"] == VStr("registered")
  {
    map["username" := VStr(username), "email" := email, "age" := age,
        "status" := VStr("registered"), "created_at" := VStr("2024-01-01T00:00:00Z")]
  }

  /** `register_user`: username checks (type, blank, taken), then email, password and age. */
  function RegisterUser(username: Value, email: Value, password: Value, age: Value): (r: Result<map<string, Value>>)
    ensures !username.VStr? ==> r == Err(Error(UserRegistrationError, "Username must be a string"))
    ensures username.VStr? && Strip(username.s) == [] ==> r == Err(Error(UserRegistrationError, "Username cannot be empty"))
    ensures username.VStr? && Strip(username.s) != [] && username.s in ExistingUsers ==>
              r == Err(Error(UsernameUnavailableError, "Username '" + username.s + "' is already taken"))
    ensures username.VStr? && Strip(username.s) != [] && username.s !in ExistingUsers ==>
              && (ValidateEmail(email).Fail? ==> r == Err(ValidateEmail(email).error))
              && (ValidateEmail(email).Pass? && ValidatePassword(password).Fail? ==> r == Err(ValidatePassword(password).error))
              && (ValidateEmail(email).Pass? && ValidatePassword(password).Pass? && ValidateAge(age).Fail? ==>
                    r == Err(ValidateAge(age).error))
    ensures r.Ok? <==> username.VStr? && Strip(username.s) != [] && username.s !in ExistingUsers
                       && ValidateEmail(email).Pass? && ValidatePassword(password).Pass? && ValidateAge(age).Pass?
    ensures r.Ok? ==> r.value == Registered(username.s, email, age)
  {
    if !username.VStr? then Err(Error(UserRegistrationError, "Username must be a string"))
    else if |username.s| == 0 || |Strip(username.s)| == 0 then Err(Error(UserRegistrationError, "Username cannot be empty"))
    else if username.s in ExistingUsers then
      Err(Error(UsernameUnavailableError, "Username '" + username.s + "' is already taken"))
    else if ValidateEmail(email).Fail? then Err(ValidateEmail(email).error)
    else if ValidatePassword(password).Fail? then Err(ValidatePassword(password).error)
    else if ValidateAge(age).Fail? then Err(ValidateAge(age).error)
    else Ok(Registered(username.s, email, age))
  }

  /** The custom registration exceptions all derive from UserRegistrationError. */
  lemma RegistrationErrorsShareBase(k: ErrorKind)
    requires k in {UserRegistrationError, UsernameUnavailableError, InvalidEmailError, WeakPasswordError, InvalidAgeError}
    ensures IsSubclass(k, UserRegistrationError)
  {
    if k != UserRegistrationError {
      assert Parent(k).Some? && Parent(k).value == UserRegistrationError;
    }
  }

  /** Whatever `register_user` raises is a UserRegistrationError, so one handler for the base
      class catches every registration failure. */
  lemma RegisterUserRaisesRegistrationErrors(username: Value, email: Value, password: Value, age: Value)
    ensures RegisterUser(username, email, password, age).Err? ==>
              IsSubclass(RegisterUser(username, email, password, age).error.kind, UserRegistrationError)
  {
    var r := RegisterUser(username, email, password, age);
    if !username.VStr? || Strip(username.s) == [] {
      assert r.error.kind == UserRegistrationError;
    } else if username.s in ExistingUsers {
      RegistrationErrorsShareBase(UsernameUnavailableError);
    } else {
      var e, p, a := ValidateEmail(email), ValidatePassword(password), ValidateAge(age);
      if e.Fail? {
        assert r == Err(e.error);
        RegistrationErrorsShareBase(InvalidEmailError);
      } else if p.Fail? {
        assert r == Err(p.error);
        RegistrationErrorsShareBase(WeakPasswordError);
      } else if a.Fail? {
        assert r == Err(a.error);
        RegistrationErrorsShareBase(InvalidAgeError);
      }
    }
  }

  /** A username is refused as blank exactly when it is empty or all whitespace. */
  lemma BlankUsernames(username: string, email: Value, password: Value, age: Value)
    ensures RegisterUser(VStr(username), email, password, age) == Err(Error(UserRegistrationError, "Username cannot be empty"))
            <==> AllSpace(username)
  {
    StripEmptyIffAllSpace(username);
  }

  lemma ExistingUsersStartLower(name: string)
    requires name in ExistingUsers
    ensures |name| > 0 && IsLower(name[0])
  {
    if name == "admin" {
    } else if name == "user123" {
    } else if name == "testuser" {
    } else {
      assert name == "john_doe";
    }
  }

  /** A string whose first character is a lowercase letter is not blank. */
  lemma LowerHeadNotBlank(s: string)
    requires |s| > 0 && IsLower(s[0])
    ensures Strip(s) != []
  {
    StripEmptyIffAllSpace(s);
    assert !IsSpace(s[0]);
  }

  lemma ExistingUsersNotBlank(name: string)
    requires name in ExistingUsers
    ensures Strip(name) != []
  {
    ExistingUsersStartLower(name);
    LowerHeadNotBlank(name);
  }

  /** A registration is refused as taken exactly when the username is a non-blank member of
      `EXISTING_USERS`, whatever else is supplied. */
  lemma TakenIffExisting(username: string, email: Value, password: Value, age: Value)
    ensures RegisterUser(VStr(username), email, password, age).Err?
            && RegisterUser(VStr(username), email, password, age).error.kind == UsernameUnavailableError
            <==> Strip(username) != [] && username in ExistingUsers
  {
  }

  /** The reserved names are refused whatever else is supplied. */
  lemma ReservedNamesTaken(name: string, email: Value, password: Value, age: Value)
    requires name in ExistingUsers
    ensures RegisterUser(VStr(name), email, password, age).Err?
    ensures RegisterUser(VStr(name), email, password, age).error.kind == UsernameUnavailableError
  {
    ExistingUsersNotBlank(name);
    TakenIffExisting(name, email, password, age);
  }

  /** The membership test is exact: a reserved name with a leading space is not refused as taken. */
  lemma PaddedNameNotTaken(name: string, email: Value, password: Value, age: Value)
    requires name in ExistingUsers
    ensures !(RegisterUser(VStr(" " + name), email, password, age).Err?
              && RegisterUser(VStr(" " + name), email, password, age).error.kind == UsernameUnavailableError)
  {
    TakenIffExisting(" " + name, email, password, age);
    assert (" " + name)[0] == ' ';
    if " " + name in ExistingUsers {
      ExistingUsersStartLower(" " + name);
    }
  }
}
