/** The user entity and its payloads (types/user.go): creation-payload
    validation, the e-mail pattern, the sparse change-set of an update, and
    the construction of a user from a creation payload. */
module UserTypes {
  import opened Common
  import opened Mongo

  const BcryptCost: nat := 12
  const MinFirstNameLen: nat := 2
  const MinLastNameLen: nat := 2
  const MinPasswordLen: nat := 7

  /** `bcrypt.GenerateFromPassword(pw, bcryptCost)`, with `BcryptCost` as
      its work factor: the hash of a password, or the text of the error it
      failed with. The hashing itself is not
      modelled; every operation that hashes takes the function as an argument. */
  type Hasher = GoString -> Result<GoString, GoString>

  datatype UpdateUserParams = UpdateUserParams(
    firstName: GoString,
    lastName: GoString,
    fcmToken: GoString,
    password: GoString)

  datatype CreateUserParams = CreateUserParams(
    firstName: GoString,
    lastName: GoString,
    email: GoString,
    fcmToken: GoString,
    password: GoString)

  /** A stored user. `friends` lists the ids of the users this one has
      added, in the order they were added. */
  datatype User = User(
    id: ObjectId,
    firstName: GoString,
    lastName: GoString,
    email: GoString,
    password: GoString,
    fcmToken: GoString,
    friends: seq<ObjectId>)

  // ---------------------------------------------------------------------
  // The change-set of an update

  /** The change-set value for a new password: the hash as a byte slice, or,
      when hashing fails and its error is dropped, the nil slice, which BSON
      writes as null. */
  function PasswordValue(password: GoString, hash: Hasher): BsonValue
  {
    match hash(password)
    case Ok(h) => BBinary(h)
    case Err(_) => BNull
  }

  /** `UpdateUserParams.ToBSON`: only the non-empty fields of the payload
      enter the change-set, the password as its hash. */
  function ToBson(p: UpdateUserParams, hash: Hasher): (m: ChangeSet)
    ensures "firstName" in m <==> |p.firstName| > 0
    ensures "lastName" in m <==> |p.lastName| > 0
    ensures "password" in m <==> |p.password| > 0
    ensures m.Keys <= {"firstName", "lastName", "password"}
    ensures "fcmToken" !in m
    ensures "firstName" in m ==> m["firstName"] == BString(p.firstName)
    ensures "lastName" in m ==> m["lastName"] == BString(p.lastName)
    ensures "password" in m ==> m["password"] == PasswordValue(p.password, hash)
    ensures "password" in m && hash(p.password).Ok? ==> m["password"] == BBinary(hash(p.password).value)
    ensures p.firstName == p.lastName == p.password == "" ==> m == map[]
  {
    var m0: ChangeSet := map[];
    var m1 := if |p.firstName| > 0 then m0["firstName" := BString(p.firstName)] else m0;
    var m2 := if |p.lastName| > 0 then m1["lastName" := BString(p.lastName)] else m1;
    if |p.password| > 0 then m2["password" := PasswordValue(p.password, hash)] else m2
  }

  // ---------------------------------------------------------------------
  // The e-mail pattern ^[a-z0-9._%+\-]+@[a-z0-9.\-]+\.[a-z]{2,4}$

  predicate IsLocalChar(c: char) {
    'a' <= c <= 'z' || '0' <= c <= '9' || c == '.' || c == '_' || c == '%' || c == '+' || c == '-'
  }

  predicate IsDomainChar(c: char) {
    'a' <= c <= 'z' || '0' <= c <= '9' || c == '.' || c == '-'
  }

  predicate IsLower(c: char) {
    'a' <= c <= 'z'
  }

  /** `e` reads L@D.T with the '@' at `at` and the '.' before T at `dot`:
      L is one or more local characters, D one or more domain characters,
      T two to four lower-case letters. */
  predicate SplitsAt(e: GoString, at: int, dot: int)
  {
    && 0 < at && at + 1 < dot && dot < |e|
    && e[at] == '@' && e[dot] == '.'
    && 2 <= |e| - dot - 1 <= 4
    && (forall k | 0 <= k < at :: IsLocalChar(e[k]))
    && (forall k | at < k < dot :: IsDomainChar(e[k]))
    && (forall k | dot < k < |e| :: IsLower(e[k]))
  }

  /** The language of the pattern: some split of `e` fits it. */
  ghost predicate InEmailLanguage(e: GoString)
  {
    exists at, dot :: SplitsAt(e, at, dot)
  }

  /** The position of the first `c` in `s`. */
  function FirstIndexOf(s: GoString, c: char): (r: Option<nat>)
    ensures r.Some? ==> r.value < |s| && s[r.value] == c && forall k | 0 <= k < r.value :: s[k] != c
    ensures r.None? ==> forall k | 0 <= k < |s| :: s[k] != c
    decreases |s|
  {
    if s == [] then None
    else if s[0] == c then Some(0)
    else match FirstIndexOf(s[1..], c)
      case None => None
      case Some(i) => Some(i + 1)
  }

  /** The position of the last `c` in `s`. */
  function LastIndexOf(s: GoString, c: char): (r: Option<nat>)
    ensures r.Some? ==> r.value < |s| && s[r.value] == c && forall k | r.value < k < |s| :: s[k] != c
    ensures r.None? ==> forall k | 0 <= k < |s| :: s[k] != c
    decreases |s|
  {
    if s == [] then None
    else if s[|s| - 1] == c then Some(|s| - 1)
    else LastIndexOf(s[..|s| - 1], c)
  }

  /** `isEmailValid`: neither L nor D contains '@' and T contains no '.',
      so the only split that can fit is at the first '@' and the last '.';
      the matcher finds those two and checks that split. */
  function IsEmailValid(e: GoString): bool
  {
    match (FirstIndexOf(e, '@'), LastIndexOf(e, '.'))
    case (Some(at), Some(dot)) => SplitsAt(e, at, dot)
    case _ => false
  }

  lemma EmailMatcherCorrect(e: GoString)
    ensures IsEmailValid(e) <==> InEmailLanguage(e)
  {
    if InEmailLanguage(e) {
      var at, dot :| SplitsAt(e, at, dot);
      var first, last := FirstIndexOf(e, '@'), LastIndexOf(e, '.');
      assert first.Some? && first.value == at by {
        assert e[at] == '@';
        forall k | 0 <= k < at ensures e[k] != '@' {
          assert IsLocalChar(e[k]);
        }
      }
      assert last.Some? && last.value == dot by {
        assert e[dot] == '.';
        forall k | dot < k < |e| ensures e[k] != '.' {
          assert IsLower(e[k]);
        }
      }
    }
  }

  /** A valid e-mail address has exactly one '@'. */
  lemma EmailHasOneAt(e: GoString)
    requires IsEmailValid(e)
    ensures exists at | 0 <= at < |e| :: e[at] == '@'
    ensures forall k, l | 0 <= k < l < |e| :: !(e[k] == '@' && e[l] == '@')
  {
    EmailMatcherCorrect(e);
    var at, dot :| SplitsAt(e, at, dot);
    forall k | 0 <= k < |e| && k != at ensures e[k] != '@' {
      assert k < at ==> IsLocalChar(e[k]);
      assert at < k < dot ==> IsDomainChar(e[k]);
      assert dot < k ==> IsLower(e[k]);
    }
  }

  /** The pattern is case-sensitive: an upper-case letter anywhere rejects. */
  lemma EmailRejectsUpperCase(e: GoString, k: nat)
    requires k < |e| && 'A' <= e[k] <= 'Z'
    ensures !IsEmailValid(e)
  {
    EmailMatcherCorrect(e);
    if InEmailLanguage(e) {
      var at, dot :| SplitsAt(e, at, dot);
      assert false;
    }
  }

  /** An address the pattern accepts. */
  lemma EmailAcceptedExamples()
    ensures IsEmailValid("a@b.com")
  {
    var e := "a@b.com";
    assert SplitsAt(e, 1, 3);
    EmailMatcherCorrect(e);
  }

  /** The domain may itself contain dots: only the last '.' starts the
      top-level part. */
  lemma EmailAcceptsDottedDomain()
    ensures IsEmailValid("a@b.co.uk")
  {
    var e := "a@b.co.uk";
    assert SplitsAt(e, 1, 6);
    EmailMatcherCorrect(e);
  }

  /** Addresses the pattern rejects: an upper-case letter, and a second '@'. */
  lemma EmailRejectedExamples()
    ensures !IsEmailValid("Jo@b.com")
    ensures !IsEmailValid("a@b@c.com")
  {
    EmailRejectsUpperCase("Jo@b.com", 0);
    EmailRejectsSecondAt("a@b@c.com", 1, 3);
  }

  /** A string with two '@' is rejected. */
  lemma EmailRejectsSecondAt(e: GoString, k: nat, l: nat)
    requires k < l < |e| && e[k] == '@' && e[l] == '@'
    ensures !IsEmailValid(e)
  {
    if IsEmailValid(e) {
      EmailHasOneAt(e);
    }
  }

  // ---------------------------------------------------------------------
  // Validation of a creation payload

  /** The message `fmt.Sprintf("<field> length should be at least %d characters", min)`. */
  function LengthViolation(field: GoString, min: nat): GoString
  {
    field + " length should be at least " + Decimal(min) + " characters"
  }

  /** The password message as the user reads it. */
  lemma PasswordMessage()
    ensures LengthViolation("password", MinPasswordLen) == "password length should be at least 7 characters"
  {
    var head := "password" + " length should be at least ";
    assert head == "password length should be at least ";
    assert Decimal(7) == "7";
    assert head + "7" + " characters" == "password length should be at least 7 characters";
  }

  /** The message `fmt.Sprintf("email %s is invalid", email)`. */
  function EmailViolation(email: GoString): GoString
  {
    "email " + email + " is invalid"
  }

  /** All four creation rules hold. */
  ghost predicate AcceptsUser(p: CreateUserParams)
  {
    && |p.firstName| >= MinFirstNameLen
    && |p.lastName| >= MinLastNameLen
    && |p.password| >= MinPasswordLen
    && InEmailLanguage(p.email)
  }

  /** `CreateUserParams.Validate`: each rule that fails adds its own field
      to the violation map; an empty map means the payload is valid. */
  method Validate(p: CreateUserParams) returns (errors: map<string, GoString>)
    ensures "firstName" in errors <==> |p.firstName| < MinFirstNameLen
    ensures "lastName" in errors <==> |p.lastName| < MinLastNameLen
    ensures "password" in errors <==> |p.password| < MinPasswordLen
    ensures "email" in errors <==> !InEmailLanguage(p.email)
    ensures errors.Keys <= {"firstName", "lastName", "password", "email"}
    ensures "firstName" in errors ==> errors["firstName"] == LengthViolation("firstName", MinFirstNameLen)
    ensures "lastName" in errors ==> errors["lastName"] == LengthViolation("lastName", MinLastNameLen)
    ensures "password" in errors ==> errors["password"] == LengthViolation("password", MinPasswordLen)
    ensures "email" in errors ==> errors["email"] == EmailViolation(p.email)
    ensures forall k | k in errors :: |errors[k]| > 0
    ensures errors == map[] <==> AcceptsUser(p)
  {
    errors := map[];
    if |p.firstName| < MinFirstNameLen {
      errors := errors["firstName" := LengthViolation("firstName", MinFirstNameLen)];
    }
    if |p.lastName| < MinLastNameLen {
      errors := errors["lastName" := LengthViolation("lastName", MinLastNameLen)];
    }
    if |p.password| < MinPasswordLen {
      errors := errors["password" := LengthViolation("password", MinPasswordLen)];
    }
    EmailMatcherCorrect(p.email);
    if !IsEmailValid(p.email) {
      errors := errors["email" := EmailViolation(p.email)];
    }
    if errors == map[] {
      assert "firstName" !in errors && "lastName" !in errors;
    }
  }

  /** A typical creation payload (Jo / Do / a@b.com / longenough) passes
      every rule. */
  lemma SampleUserIsAccepted()
    ensures AcceptsUser(CreateUserParams("Jo", "Do", "a@b.com", "", "longenough"))
  {
    assert SplitsAt("a@b.com", 1, 3);
  }

  // ---------------------------------------------------------------------
  // Construction

  /** `NewUserFromParams`: the user a creation payload describes, with the
      password replaced by its hash, no friends and the zero id; when
      hashing fails, its error and no user. */
  function NewUserFromParams(p: CreateUserParams, hash: Hasher): (r: Result<User, GoString>)
    ensures r.Ok? <==> hash(p.password).Ok?
    ensures r.Err? ==> r.error == hash(p.password).error
    ensures r.Ok? ==> r.value.password == hash(p.password).value
    ensures r.Ok? ==> && r.value.firstName == p.firstName && r.value.lastName == p.lastName
                      && r.value.email == p.email && r.value.fcmToken == p.fcmToken
    ensures r.Ok? ==> r.value.friends == [] && r.value.id == Nil
  {
    match hash(p.password)
    case Err(e) => Err(e)
    case Ok(h) => Ok(User(Nil, p.firstName, p.lastName, p.email, h, p.fcmToken, []))
  }
}
