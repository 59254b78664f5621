/**
 * The contact-form validator: six checks on `name`, `email` and `message`
 * in a fixed order, every failing check contributing its message; when none
 * fails the three fields are trimmed (and the email lower-cased) in place.
 */
module Validation {
  import opened Wrappers
  import opened JsText
  import opened Schema
  import opened ApiErrors

  /** A property of `req.body` as the validator sees it. */
  datatype JsValue =
    | Undefined
    | Str(s: JsString)
      /** Any non-string JSON value: its truthiness and its `length` property, if any. */
    | NonString(truthy: bool, length: Option<int>)

  predicate Truthy(v: JsValue) {
    match v
    case Undefined => false
    case Str(s) => |s| != 0
    case NonString(truthy, _) => truthy
  }

  /** `v.length > max`; an absent `length` is `undefined`, which compares false. */
  predicate LengthExceeds(v: JsValue, max: int) {
    match v
    case Undefined => false
    case Str(s) => |s| > max
    case NonString(_, length) => length.Some? && length.value > max
  }

  const NAME_MIN: nat := 2
  const NAME_MAX: nat := 100
  const EMAIL_MAX: nat := 254
  const MESSAGE_MIN: nat := 10
  const MESSAGE_MAX: nat := 5000

  // ---------------------------------------------------------------------------
  // The email pattern  ^[^\s@]+@[^\s@]+\.[^\s@]+$

  /** A code unit of the class `[^\s@]`. */
  predicate IsAtomChar(c: CodeUnit) {
    !IsWhiteSpace(c) && c != AT
  }

  /** A match of `[^\s@]+`. */
  ghost predicate IsAtom(x: JsString) {
    |x| > 0 && forall i :: 0 <= i < |x| ==> IsAtomChar(x[i])
  }

  /** The pattern, read as its definition: three runs split by `@` and a dot. */
  ghost predicate MatchesEmailRegex(s: JsString) {
    exists a, b, c :: IsAtom(a) && IsAtom(b) && IsAtom(c) && s == a + [AT] + b + [DOT] + c
  }

  predicate NoWhiteSpace(s: JsString) {
    forall i | 0 <= i < |s| :: !IsWhiteSpace(s[i])
  }

  /** What follows the `@`: no further `@`, and a dot with at least one code unit on each side. */
  predicate DomainShape(d: JsString) {
    3 <= |d| && AT !in d && DOT in d[1..|d| - 1]
  }

  /**
   * The pattern as a test: no whitespace, and a first `@` that is not the
   * first code unit and is followed by a domain of the right shape.
   */
  predicate EmailShape(s: JsString) {
    && NoWhiteSpace(s)
    && match IndexOf(s, AT)
       case None => false
       case Some(at) => 0 < at && DomainShape(s[at + 1..])
  }

  /** A non-empty run without whitespace and without `@` matches `[^\s@]+`. */
  lemma AtomOf(x: JsString)
    requires |x| > 0 && NoWhiteSpace(x) && AT !in x
    ensures IsAtom(x)
  {
    forall i | 0 <= i < |x| ensures IsAtomChar(x[i]) {
      assert x[i] in x;
    }
  }

  /** Every run of a string without whitespace is without whitespace. */
  lemma NoWhiteSpaceSlice(s: JsString, i: nat, j: nat)
    requires i <= j <= |s| && NoWhiteSpace(s)
    ensures NoWhiteSpace(s[i..j])
  {
    forall k | 0 <= k < j - i ensures !IsWhiteSpace(s[i..j][k]) {
      assert s[i..j][k] == s[i + k];
    }
  }

  /** A run of a string holds no code unit the string does not hold. */
  lemma SliceKeepsOut(s: JsString, i: nat, j: nat, c: CodeUnit)
    requires i <= j <= |s| && c !in s
    ensures c !in s[i..j]
  {
    forall k | 0 <= k < j - i ensures s[i..j][k] != c {
      assert s[i..j][k] == s[i + k];
    }
  }

  /** A domain of the right shape splits at a dot into two runs without `@` or whitespace. */
  lemma DomainParts(d: JsString) returns (b: JsString, c: JsString)
    requires DomainShape(d) && NoWhiteSpace(d)
    ensures d == b + [DOT] + c
    ensures |b| > 0 && NoWhiteSpace(b) && AT !in b
    ensures |c| > 0 && NoWhiteSpace(c) && AT !in c
  {
    var k :| 0 <= k < |d[1..|d| - 1]| && d[1..|d| - 1][k] == DOT;
    var dot := k + 1;
    assert d[dot] == DOT;
    b, c := d[..dot], d[dot + 1..];
    assert d == b + [d[dot]] + c;
    NoWhiteSpaceSlice(d, 0, dot);
    NoWhiteSpaceSlice(d, dot + 1, |d|);
    SliceKeepsOut(d, 0, dot, AT);
    SliceKeepsOut(d, dot + 1, |d|, AT);
    assert d[dot + 1..|d|] == c;
  }

  /** A string that passes the test splits at its `@` into a local part and a domain. */
  lemma EmailParts(s: JsString) returns (a: JsString, d: JsString)
    requires EmailShape(s)
    ensures s == a + [AT] + d
    ensures |a| > 0 && NoWhiteSpace(a) && AT !in a
    ensures DomainShape(d) && NoWhiteSpace(d)
  {
    var at := IndexOf(s, AT).value;
    a, d := s[..at], s[at + 1..];
    assert s == a + [s[at]] + d;
    NoWhiteSpaceSlice(s, 0, at);
    NoWhiteSpaceSlice(s, at + 1, |s|);
    assert s[at + 1..|s|] == d;
  }

  /** A string that passes the test matches the pattern. */
  lemma EmailShapeMatches(s: JsString)
    requires EmailShape(s)
    ensures MatchesEmailRegex(s)
  {
    var a, d := EmailParts(s);
    var b, c := DomainParts(d);
    assert s == a + [AT] + b + [DOT] + c;
    AtomOf(a);
    AtomOf(b);
    AtomOf(c);
  }

  /** A match of `[^\s@]+` holds neither `@` nor whitespace. */
  lemma AtomFacts(x: JsString)
    requires IsAtom(x)
    ensures AT !in x && NoWhiteSpace(x)
  {
    forall i | 0 <= i < |x| ensures x[i] != AT && !IsWhiteSpace(x[i]) {
      assert IsAtomChar(x[i]);
    }
  }

  lemma NoWhiteSpaceConcat(x: JsString, y: JsString)
    requires NoWhiteSpace(x) && NoWhiteSpace(y)
    ensures NoWhiteSpace(x + y)
  {
    forall i | 0 <= i < |x + y| ensures !IsWhiteSpace((x + y)[i]) {
      if i >= |x| {
        assert (x + y)[i] == y[i - |x|];
      }
    }
  }

  /** A string that matches the pattern passes the test. */
  lemma PatternHasShape(a: JsString, b: JsString, c: JsString)
    requires IsAtom(a) && IsAtom(b) && IsAtom(c)
    ensures EmailShape(a + [AT] + b + [DOT] + c)
  {
    AtomFacts(a);
    AtomFacts(b);
    AtomFacts(c);
    var d := b + [DOT] + c;
    var s := a + [AT] + d;
    assert s == a + [AT] + b + [DOT] + c;
    assert AT !in d;
    NoWhiteSpaceConcat(b, [DOT]);
    NoWhiteSpaceConcat(b + [DOT], c);
    NoWhiteSpaceConcat(a, [AT]);
    NoWhiteSpaceConcat(a + [AT], d);
    IndexOfAfter(a, AT, d);
    assert s[|a| + 1..] == d;
    assert d[1..|d| - 1][|b| - 1] == DOT;
  }

  /** The test accepts exactly the strings the pattern matches. */
  lemma EmailShapeIsPattern(s: JsString)
    ensures EmailShape(s) <==> MatchesEmailRegex(s)
  {
    if EmailShape(s) {
      EmailShapeMatches(s);
    }
    if MatchesEmailRegex(s) {
      var a, b, c :| IsAtom(a) && IsAtom(b) && IsAtom(c) && s == a + [AT] + b + [DOT] + c;
      PatternHasShape(a, b, c);
    }
  }

  /** Lower-casing keeps the shape of a domain. */
  lemma LowerKeepsDomain(d: JsString)
    requires DomainShape(d)
    ensures DomainShape(ToLowerAscii(d))
  {
    var u := ToLowerAscii(d);
    LowerKeepsClasses(d);
    assert AT !in u by {
      forall i | 0 <= i < |u| ensures u[i] != AT {
        assert d[i] in d;
      }
    }
    var k :| 0 <= k < |d[1..|d| - 1]| && d[1..|d| - 1][k] == DOT;
    assert d[k + 1] == DOT;
    assert u[1..|u| - 1][k] == DOT;
  }

  /** Lower-casing keeps an email's shape. */
  lemma LowerKeepsShape(t: JsString)
    requires EmailShape(t)
    ensures EmailShape(ToLowerAscii(t))
  {
    var u := ToLowerAscii(t);
    LowerKeepsClasses(t);
    var at := IndexOf(t, AT).value;
    assert u == u[..at] + [AT] + u[at + 1..];
    assert AT !in u[..at] by {
      forall i | 0 <= i < at ensures u[..at][i] != AT {
        assert t[..at][i] == t[i];
      }
    }
    IndexOfAfter(u[..at], AT, u[at + 1..]);
    assert u[at + 1..] == ToLowerAscii(t[at + 1..]);
    LowerKeepsDomain(t[at + 1..]);
  }

  // ---------------------------------------------------------------------------
  // The six checks

  datatype Rule = NameRequired | EmailValid | MessageRequired | NameTooLong | EmailTooLong | MessageTooLong

  /** The message each check pushes. */
  function RuleMessage(r: Rule): JsString {
    Lit(RuleText(r))
  }

  function RuleText(r: Rule): string {
    match r
    case NameRequired => "Name is required and must be at least 2 characters."
    case EmailValid => "A valid email address is required."
    case MessageRequired => "Message is required and must be at least 10 characters."
    case NameTooLong => "Name must not exceed 100 characters."
    case EmailTooLong => "Email must not exceed 254 characters."
    case MessageTooLong => "Message must not exceed 5000 characters."
  }

  /** The three properties of `req.body` the validator reads. */
  datatype Fields = Fields(name: JsValue, email: JsValue, message: JsValue)

  /** `!v || typeof v !== "string" || v.trim().length < min` */
  predicate MissingOrShort(v: JsValue, min: nat) {
    !Truthy(v) || !v.Str? || |Trim(v.s)| < min
  }

  /** `!v || typeof v !== "string" || !EMAIL_REGEX.test(v.trim())` */
  predicate NotAnEmail(v: JsValue) {
    !Truthy(v) || !v.Str? || !EmailShape(Trim(v.s))
  }

  /** `v && v.length > max` */
  predicate TooLong(v: JsValue, max: nat) {
    Truthy(v) && LengthExceeds(v, max)
  }

  /** Whether check `r` fails on `f`. */
  predicate Violates(f: Fields, r: Rule) {
    match r
    case NameRequired => MissingOrShort(f.name, NAME_MIN)
    case EmailValid => NotAnEmail(f.email)
    case MessageRequired => MissingOrShort(f.message, MESSAGE_MIN)
    case NameTooLong => TooLong(f.name, NAME_MAX)
    case EmailTooLong => TooLong(f.email, EMAIL_MAX)
    case MessageTooLong => TooLong(f.message, MESSAGE_MAX)
  }

  /** `[r]` when check `r` fails, and `[]` otherwise. */
  function Flag(fails: bool, r: Rule): seq<Rule> {
    if fails then [r] else []
  }

  /** The checks that fail on `f`, in the order they run. */
  function Violations(f: Fields): seq<Rule> {
    Flag(MissingOrShort(f.name, NAME_MIN), NameRequired) + Flag(NotAnEmail(f.email), EmailValid) +
    Flag(MissingOrShort(f.message, MESSAGE_MIN), MessageRequired) + Flag(TooLong(f.name, NAME_MAX), NameTooLong) +
    Flag(TooLong(f.email, EMAIL_MAX), EmailTooLong) + Flag(TooLong(f.message, MESSAGE_MAX), MessageTooLong)
  }

  /** The messages of `rules`, one each, in the same order. */
  function Messages(rules: seq<Rule>): (m: seq<JsString>)
    ensures |m| == |rules|
  {
    if rules == [] then [] else Messages(rules[..|rules| - 1]) + [RuleMessage(rules[|rules| - 1])]
  }

  /** The `errors` array once all six checks have run. */
  function Errors(f: Fields): seq<JsString> {
    Messages(Violations(f))
  }

  const SEPARATOR: JsString := [SPACE]

  /** What the validator leaves in the body when it accepts. */
  function Normalize(name: JsString, email: JsString, message: JsString): Submission {
    Submission(Trim(name), ToLowerAscii(Trim(email)), Trim(message))
  }

  /** All six checks pass. */
  predicate Passes(f: Fields) {
    && !MissingOrShort(f.name, NAME_MIN) && !NotAnEmail(f.email) && !MissingOrShort(f.message, MESSAGE_MIN)
    && !TooLong(f.name, NAME_MAX) && !TooLong(f.email, EMAIL_MAX) && !TooLong(f.message, MESSAGE_MAX)
  }

  /** The validator as a function: the 400 error it passes on, or the normalised fields. */
  function Validate(f: Fields): Result<Submission, ApiError> {
    if |Errors(f)| > 0 then
      Failure(BadRequest(Some(Join(Errors(f), SEPARATOR))))
    else
      NoViolationsIff(f);
      Success(Normalize(f.name.s, f.email.s, f.message.s))
  }

  // ---------------------------------------------------------------------------
  // Properties of the checks

  /** No check is listed exactly when all of them pass. */
  lemma NoViolationsIff(f: Fields)
    ensures Violations(f) == [] <==> Passes(f)
  {
    var a, b, c := Flag(MissingOrShort(f.name, NAME_MIN), NameRequired), Flag(NotAnEmail(f.email), EmailValid),
      Flag(MissingOrShort(f.message, MESSAGE_MIN), MessageRequired);
    var d, e, g := Flag(TooLong(f.name, NAME_MAX), NameTooLong), Flag(TooLong(f.email, EMAIL_MAX), EmailTooLong),
      Flag(TooLong(f.message, MESSAGE_MAX), MessageTooLong);
    assert |Violations(f)| == |a| + |b| + |c| + |d| + |e| + |g|;
  }

  /** `Passes` is "no check fails", rule by rule. */
  lemma PassesIff(f: Fields)
    ensures Passes(f) <==> forall r :: !Violates(f, r)
  {
    if !Passes(f) {
      if MissingOrShort(f.name, NAME_MIN) {
        assert Violates(f, NameRequired);
      } else if NotAnEmail(f.email) {
        assert Violates(f, EmailValid);
      } else if MissingOrShort(f.message, MESSAGE_MIN) {
        assert Violates(f, MessageRequired);
      } else if TooLong(f.name, NAME_MAX) {
        assert Violates(f, NameTooLong);
      } else if TooLong(f.email, EMAIL_MAX) {
        assert Violates(f, EmailTooLong);
      } else {
        assert Violates(f, MessageTooLong);
      }
    }
  }

  /** The checks listed are exactly the failing ones. */
  lemma ViolationsAreFailingChecks(f: Fields, r: Rule)
    ensures r in Violations(f) <==> Violates(f, r)
  {
    var a, b, c := Flag(MissingOrShort(f.name, NAME_MIN), NameRequired), Flag(NotAnEmail(f.email), EmailValid),
      Flag(MissingOrShort(f.message, MESSAGE_MIN), MessageRequired);
    var d, e, g := Flag(TooLong(f.name, NAME_MAX), NameTooLong), Flag(TooLong(f.email, EMAIL_MAX), EmailTooLong),
      Flag(TooLong(f.message, MESSAGE_MAX), MessageTooLong);
    assert r in Violations(f) <==> r in a || r in b || r in c || r in d || r in e || r in g;
  }

  /** Appending a rule appends its message. */
  lemma MessagesSnoc(rules: seq<Rule>, r: Rule)
    ensures Messages(rules + [r]) == Messages(rules) + [RuleMessage(r)]
  {
    assert (rules + [r])[..|rules|] == rules;
  }

  /** The messages of a concatenation are the concatenated messages. */
  lemma {:induction false} MessagesAppend(a: seq<Rule>, b: seq<Rule>)
    ensures Messages(a + b) == Messages(a) + Messages(b)
    decreases |b|
  {
    if b == [] {
      assert a + b == a;
    } else {
      var b' := b[..|b| - 1];
      assert (a + b)[..|a + b| - 1] == a + b';
      MessagesAppend(a, b');
    }
  }

  /** `Errors` is what pushing each check's message in turn onto an empty array gives. */
  lemma ErrorsInOrder(f: Fields)
    ensures Errors(f) == [] + Messages(Flag(MissingOrShort(f.name, NAME_MIN), NameRequired))
      + Messages(Flag(NotAnEmail(f.email), EmailValid))
      + Messages(Flag(MissingOrShort(f.message, MESSAGE_MIN), MessageRequired))
      + Messages(Flag(TooLong(f.name, NAME_MAX), NameTooLong))
      + Messages(Flag(TooLong(f.email, EMAIL_MAX), EmailTooLong))
      + Messages(Flag(TooLong(f.message, MESSAGE_MAX), MessageTooLong))
  {
    var a, b, c := Flag(MissingOrShort(f.name, NAME_MIN), NameRequired), Flag(NotAnEmail(f.email), EmailValid),
      Flag(MissingOrShort(f.message, MESSAGE_MIN), MessageRequired);
    var d, e, g := Flag(TooLong(f.name, NAME_MAX), NameTooLong), Flag(TooLong(f.email, EMAIL_MAX), EmailTooLong),
      Flag(TooLong(f.message, MESSAGE_MAX), MessageTooLong);
    MessagesAppend(a + b + c + d + e, g);
    MessagesAppend(a + b + c + d, e);
    MessagesAppend(a + b + c, d);
    MessagesAppend(a + b, c);
    MessagesAppend(a, b);
    assert [] + Messages(a) == Messages(a);
  }

  /** When `Validate` accepts, and what it then returns. */
  lemma ValidateCases(f: Fields)
    ensures Validate(f).Success? <==> Passes(f)
    ensures Validate(f).Success? ==>
      && f.name.Str? && f.email.Str? && f.message.Str?
      && Validate(f).value == Normalize(f.name.s, f.email.s, f.message.s)
    ensures Validate(f).Failure? ==> Validate(f).error == ApiError(400, Join(Errors(f), SEPARATOR))
  {
    NoViolationsIff(f);
  }

  /**
   * A body is accepted exactly when no check fails; a rejection is a 400
   * whose message joins, with single spaces, the messages of the failing
   * checks in the order they run.
   */
  lemma RejectionReportsEveryViolation(f: Fields)
    ensures Validate(f).Success? <==> forall r :: !Violates(f, r)
    ensures Validate(f).Failure? ==>
      Validate(f).error == ApiError(400, Join(Messages(Violations(f)), SEPARATOR))
  {
    ValidateCases(f);
    PassesIff(f);
  }

  /** A name or message passes both of its checks exactly when it is a string within bounds. */
  lemma LengthChecks(v: JsValue, min: nat, max: nat)
    requires 1 <= min
    ensures !MissingOrShort(v, min) && !TooLong(v, max) <==> v.Str? && |Trim(v.s)| >= min && |v.s| <= max
  {
  }

  /** An email passes both of its checks exactly when it is a string of the right shape within bounds. */
  lemma EmailChecks(v: JsValue)
    ensures !NotAnEmail(v) && !TooLong(v, EMAIL_MAX) <==> v.Str? && EmailShape(Trim(v.s)) && |v.s| <= 254
  {
    if v.Str? && EmailShape(Trim(v.s)) {
      assert |Trim(v.s)| > 0;
    }
  }

  /** All checks pass exactly when the three fields are strings within bounds. */
  lemma PassesWithinBounds(f: Fields)
    ensures Passes(f) <==>
      && f.name.Str? && |Trim(f.name.s)| >= 2 && |f.name.s| <= 100
      && f.email.Str? && EmailShape(Trim(f.email.s)) && |f.email.s| <= 254
      && f.message.Str? && |Trim(f.message.s)| >= 10 && |f.message.s| <= 5000
  {
    LengthChecks(f.name, NAME_MIN, NAME_MAX);
    LengthChecks(f.message, MESSAGE_MIN, MESSAGE_MAX);
    EmailChecks(f.email);
  }

  /** The validator accepts exactly the bodies whose three fields are strings within bounds. */
  lemma AcceptedIff(f: Fields)
    ensures Validate(f).Success? <==>
      && f.name.Str? && |Trim(f.name.s)| >= 2 && |f.name.s| <= 100
      && f.email.Str? && EmailShape(Trim(f.email.s)) && |f.email.s| <= 254
      && f.message.Str? && |Trim(f.message.s)| >= 10 && |f.message.s| <= 5000
  {
    ValidateCases(f);
    PassesWithinBounds(f);
  }

  /**
   * What an accepted body holds: trimmed fields within the bounds, and an
   * email in lower case that has the required shape.
   */
  lemma NormalizedBounds(f: Fields)
    requires Validate(f).Success?
    ensures var n := Validate(f).value;
      && 2 <= |n.name| <= 100 && IsTrimmed(n.name)
      && 10 <= |n.message| <= 5000 && IsTrimmed(n.message)
      && |n.email| <= 254 && IsTrimmed(n.email) && EmailShape(n.email)
      && ToLowerAscii(n.email) == n.email
  {
    ValidateCases(f);
    PassesWithinBounds(f);
    var t := Trim(f.email.s);
    LowerKeepsTrimmed(t);
    LowerIdempotent(t);
    LowerKeepsShape(t);
  }

  /** A normalised submission passes every check again. */
  lemma NormalizedPasses(n: Submission)
    requires 2 <= |n.name| <= 100 && IsTrimmed(n.name)
    requires 10 <= |n.message| <= 5000 && IsTrimmed(n.message)
    requires |n.email| <= 254 && IsTrimmed(n.email) && EmailShape(n.email)
    ensures Passes(Fields(Str(n.name), Str(n.email), Str(n.message)))
  {
    TrimOfTrimmed(n.name);
    TrimOfTrimmed(n.email);
    TrimOfTrimmed(n.message);
  }

  /** Validating what the validator accepted accepts it again, unchanged. */
  lemma ValidateIdempotent(f: Fields)
    requires Validate(f).Success?
    ensures var n := Validate(f).value;
      Validate(Fields(Str(n.name), Str(n.email), Str(n.message))) == Success(n)
  {
    var n := Validate(f).value;
    NormalizedBounds(f);
    NormalizedPasses(n);
    var g := Fields(Str(n.name), Str(n.email), Str(n.message));
    ValidateCases(g);
    TrimOfTrimmed(n.name);
    TrimOfTrimmed(n.email);
    TrimOfTrimmed(n.message);
  }

  /**
   * The name limits are inclusive: with the other fields acceptable, a
   * trimmed name of 2 or 100 code units passes, and one of 1 or 101 fails
   * that name check alone.
   */
  lemma NameBoundaries(f: Fields, s: JsString)
    requires Validate(f).Success? && IsTrimmed(s)
    ensures |s| == 2 || |s| == 100 ==> Validate(f.(name := Str(s))).Success?
    ensures |s| == 1 ==> Violations(f.(name := Str(s))) == [NameRequired]
    ensures |s| == 101 ==> Violations(f.(name := Str(s))) == [NameTooLong]
  {
    ValidateCases(f);
    TrimOfTrimmed(s);
    var g := f.(name := Str(s));
    ValidateCases(g);
    assert Violations(g) == Flag(MissingOrShort(g.name, NAME_MIN), NameRequired) + [] + [] +
      Flag(TooLong(g.name, NAME_MAX), NameTooLong) + [] + [];
  }

  /**
   * The message limits are inclusive: with the other fields acceptable, a
   * trimmed message of 10 or 5000 code units passes, and one of 9 or 5001
   * fails that message check alone.
   */
  lemma MessageBoundaries(f: Fields, s: JsString)
    requires Validate(f).Success? && IsTrimmed(s)
    ensures |s| == 10 || |s| == 5000 ==> Validate(f.(message := Str(s))).Success?
    ensures |s| == 9 ==> Violations(f.(message := Str(s))) == [MessageRequired]
    ensures |s| == 5001 ==> Violations(f.(message := Str(s))) == [MessageTooLong]
  {
    ValidateCases(f);
    TrimOfTrimmed(s);
    var g := f.(message := Str(s));
    ValidateCases(g);
    assert Violations(g) == [] + [] + Flag(MissingOrShort(g.message, MESSAGE_MIN), MessageRequired) +
      [] + [] + Flag(TooLong(g.message, MESSAGE_MAX), MessageTooLong);
  }

  /** The body `{"name": "a", "email": "bad", "message": "short"}`. */
  function ExampleBody(): Fields {
    Fields(Str(Lit("a")), Str(Lit("bad")), Str(Lit("short")))
  }

  /** Trimming keeps out a code unit the string does not hold. */
  lemma TrimKeepsOut(s: JsString, c: CodeUnit)
    requires c !in s
    ensures c !in Trim(s)
  {
    var t := Trim(s);
    TrimCutsWhiteSpace(s);
    forall i | 0 <= i < |t| ensures t[i] != c {
      assert t[i] == s[TrimOffset(s) + i];
    }
  }

  /**
   * A name under two code units, an email without `@` of at most 254 code
   * units and a message under ten code units fail the three first checks and
   * no other.
   */
  lemma FirstThreeViolated(name: JsString, email: JsString, message: JsString)
    requires |name| < NAME_MIN && AT !in email && |email| <= EMAIL_MAX && |message| < MESSAGE_MIN
    ensures Violations(Fields(Str(name), Str(email), Str(message))) == [NameRequired, EmailValid, MessageRequired]
  {
    var f := Fields(Str(name), Str(email), Str(message));
    TrimKeepsOut(email, AT);
    assert IndexOf(Trim(email), AT) == None;
    assert NotAnEmail(f.email);
    assert Violations(f) == [NameRequired] + [EmailValid] + [MessageRequired] + [] + [] + [];
  }

  /** The example body fails the three first checks and no other. */
  lemma ExampleViolations()
    ensures Violations(ExampleBody()) == [NameRequired, EmailValid, MessageRequired]
  {
    LitExcludes("bad", '@');
    FirstThreeViolated(Lit("a"), Lit("bad"), Lit("short"));
  }

  /** A body failing exactly the three first checks is told so in that order. */
  lemma RejectionOfFirstThree(f: Fields)
    requires Violations(f) == [NameRequired, EmailValid, MessageRequired]
    ensures Validate(f) == Failure(ApiError(400, Join(
      [RuleMessage(NameRequired), RuleMessage(EmailValid), RuleMessage(MessageRequired)], SEPARATOR)))
  {
    MessagesSnoc([], NameRequired);
    MessagesSnoc([NameRequired], EmailValid);
    MessagesSnoc([NameRequired, EmailValid], MessageRequired);
    assert [NameRequired, EmailValid] + [MessageRequired] == Violations(f);
    ValidateCases(f);
  }

  /** The example body is rejected with the three messages, in the order the checks run. */
  lemma ExampleRejection()
    ensures Validate(ExampleBody()) == Failure(ApiError(400, Join(
      [RuleMessage(NameRequired), RuleMessage(EmailValid), RuleMessage(MessageRequired)], SEPARATOR)))
  {
    ExampleViolations();
    RejectionOfFirstThree(ExampleBody());
  }
  // ---------------------------------------------------------------------------
  // The middleware, changing the request body in place

  /** `req.body`: the three validated properties and whatever else the client sent. */
  class RequestBody {
    var name: JsValue
    var email: JsValue
    var message: JsValue
    var others: map<JsString, JsValue>

    constructor (name: JsValue, email: JsValue, message: JsValue, others: map<JsString, JsValue>)
      ensures this.name == name && this.email == email && this.message == message
      ensures this.others == others
    {
      this.name := name;
      this.email := email;
      this.message := message;
      this.others := others;
    }

    function Values(): Fields
      reads this
    {
      Fields(name, email, message)
    }
  }

  /** `if (fails) errors.push(message of r)` */
  method Push(errors: seq<JsString>, fails: bool, r: Rule) returns (errors': seq<JsString>)
    ensures errors' == errors + Messages(Flag(fails, r))
  {
    errors' := errors;
    if fails {
      errors' := errors + [RuleMessage(r)];
    }
  }

  /** The six checks on the three values, in source order, each pushing its message when it fails. */
  method CollectErrors(name: JsValue, email: JsValue, message: JsValue) returns (errors: seq<JsString>)
    ensures errors == Errors(Fields(name, email, message))
  {
    errors := [];
    errors := Push(errors, MissingOrShort(name, NAME_MIN), NameRequired);
    errors := Push(errors, NotAnEmail(email), EmailValid);
    errors := Push(errors, MissingOrShort(message, MESSAGE_MIN), MessageRequired);
    errors := Push(errors, TooLong(name, NAME_MAX), NameTooLong);
    errors := Push(errors, TooLong(email, EMAIL_MAX), EmailTooLong);
    errors := Push(errors, TooLong(message, MESSAGE_MAX), MessageTooLong);
    ErrorsInOrder(Fields(name, email, message));
  }

  /**
   * `validateContact`: runs the checks; passes on a 400 if any failed, and
   * otherwise writes the normalised fields back into the body.
   */
  method ValidateContact(body: RequestBody) returns (err: Option<ApiError>)
    modifies body`name, body`email, body`message
    ensures body.others == old(body.others)
    ensures match Validate(old(body.Values()))
      case Failure(e) => err == Some(e) && body.Values() == old(body.Values())
      case Success(n) => err == None && body.Values() == Fields(Str(n.name), Str(n.email), Str(n.message))
  {
    var name, email, message := body.name, body.email, body.message;
    var errors := CollectErrors(name, email, message);

    if |errors| > 0 {
      return Some(BadRequest(Some(Join(errors, SEPARATOR))));
    }

    ValidateCases(body.Values());
    body.name := Str(Trim(name.s));
    body.email := Str(ToLowerAscii(Trim(email.s)));
    body.message := Str(Trim(message.s));
    return None;
  }
}
