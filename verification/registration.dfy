/** Client-side registration: the field schema, the outcome of
    `registerUser`, and the table that turns auth error codes into messages. */
module Registration {
  import opened Common

  /** JavaScript's `\s`: the ECMAScript white space and line terminators. */
  predicate IsSpace(c: char)
  {
    || c == '\t' || c == '\n' || c == '\U{000B}' || c == '\U{000C}' || c == '\r' || c == ' '
    || c == '\U{00A0}' || c == '\U{1680}' || ('\U{2000}' <= c <= '\U{200A}')
    || c == '\U{2028}' || c == '\U{2029}' || c == '\U{202F}' || c == '\U{205F}'
    || c == '\U{3000}' || c == '\U{FEFF}'
  }

  /** Every character matches `[^\s@]`. */
  predicate Plain(s: string)
  {
    forall k :: 0 <= k < |s| ==> !IsSpace(s[k]) && s[k] != '@'
  }

  /** What `/^[^\s@]+@[^\s@]+\.[^\s@]+$/` accepts, read off the pattern: s
      splits at an '@' (index i) and a later '.' (index j) into three
      non-empty runs of `[^\s@]`. */
  ghost predicate MatchesEmailPattern(s: string)
  {
    exists i, j :: 0 < i && i + 1 < j && j + 1 < |s| && s[i] == '@' && s[j] == '.' &&
                   Plain(s[..i]) && Plain(s[i + 1..j]) && Plain(s[j + 1..])
  }

  /** Index of the first c in s. */
  function IndexOf(s: string, c: char): (r: nat)
    requires c in s
    ensures r < |s| && s[r] == c
    ensures forall k :: 0 <= k < r ==> s[k] != c
  {
    if s[0] == c then 0
    else
      assert c in s[1..] by { assert s == [s[0]] + s[1..]; }
      1 + IndexOf(s[1..], c)
  }

  /** The email check as the fields' shape: no white space, exactly one '@'
      with something before it, and a '.' after the '@' that has at least
      one character on each side. */
  predicate EmailShape(s: string)
  {
    && (forall k :: 0 <= k < |s| ==> !IsSpace(s[k]))
    && '@' in s
    && var at := IndexOf(s, '@');
       && 0 < at
       && '@' !in s[at + 1..]
       && at + 2 < |s|
       && '.' in s[at + 2..|s| - 1]
  }

  /** The first occurrence is found where nothing earlier matches. */
  lemma IndexOfAt(s: string, c: char, i: nat)
    requires i < |s| && s[i] == c && c !in s[..i]
    ensures IndexOf(s, c) == i
  {
    assert forall k :: 0 <= k < i ==> s[k] != c by {
      forall k | 0 <= k < i ensures s[k] != c { assert s[k] == s[..i][k]; }
    }
  }

  /** The three runs of a pattern match hold no white space, and the only
      '@' is the separator. */
  lemma PatternRuns(s: string, i: nat, j: nat)
    requires 0 < i && i + 1 < j && j + 1 < |s| && s[i] == '@' && s[j] == '.'
    requires Plain(s[..i]) && Plain(s[i + 1..j]) && Plain(s[j + 1..])
    ensures forall k :: 0 <= k < |s| ==> !IsSpace(s[k]) && (s[k] == '@' ==> k == i)
  {
    forall k | 0 <= k < |s| ensures !IsSpace(s[k]) && (s[k] == '@' ==> k == i) {
      if k < i { assert s[k] == s[..i][k]; }
      else if i < k < j { assert s[k] == s[i + 1..j][k - i - 1]; }
      else if j < k { assert s[k] == s[j + 1..][k - j - 1]; }
    }
  }

  /** Every string the pattern matches passes the shape test. */
  lemma PatternImpliesShape(s: string)
    requires MatchesEmailPattern(s)
    ensures EmailShape(s)
  {
    var i, j :| 0 < i && i + 1 < j && j + 1 < |s| && s[i] == '@' && s[j] == '.' &&
                Plain(s[..i]) && Plain(s[i + 1..j]) && Plain(s[j + 1..]);
    PatternRuns(s, i, j);
    assert '@' !in s[..i];
    IndexOfAt(s, '@', i);
    assert '@' !in s[i + 1..];
    assert s[i + 2..|s| - 1][j - i - 2] == '.';
  }

  /** Every string that passes the shape test matches the pattern. */
  lemma ShapeImpliesPattern(s: string)
    requires EmailShape(s)
    ensures MatchesEmailPattern(s)
  {
    var at := IndexOf(s, '@');
    var tail := s[at + 2..|s| - 1];
    var d :| 0 <= d < |tail| && tail[d] == '.';
    var j := at + 2 + d;
    assert s[j] == '.';
    forall k | 0 <= k < |s| && k != at ensures s[k] != '@' {
      if k < at { assert s[..at][k] == s[k]; }
      else { assert s[at + 1..][k - at - 1] == s[k]; }
    }
    assert Plain(s[..at]);
    assert Plain(s[at + 1..j]);
    assert Plain(s[j + 1..]);
  }

  /** The shape test accepts exactly the strings the pattern matches. */
  lemma EmailShapeMatchesPattern(s: string)
    ensures EmailShape(s) <==> MatchesEmailPattern(s)
  {
    if MatchesEmailPattern(s) { PatternImpliesShape(s); }
    if EmailShape(s) { ShapeImpliesPattern(s); }
  }

  /** Length as JavaScript counts it: UTF-16 code units, so a character
      beyond the Basic Multilingual Plane counts twice. */
  function Utf16Length(s: string): (n: nat)
    ensures |s| <= n <= 2 * |s|
    ensures (forall k :: 0 <= k < |s| ==> s[k] as int <= 0xFFFF) ==> n == |s|
  {
    if s == [] then 0
    else (if s[0] as int > 0xFFFF then 2 else 1) + Utf16Length(s[1..])
  }

  /** `fieldErrors` of a failed parse: the messages of each field, in the
      order the schema checks them. An empty list means no entry. */
  datatype FieldErrors = FieldErrors(email: seq<string>, password: seq<string>, confirmPassword: seq<string>)

  const NoErrors := FieldErrors([], [], [])

  const EmailRequired := "Email address is required."
  const EmailInvalid := "Invalid email address"
  const PasswordTooShort := "Password must be a min length of 8."
  const ConfirmRequired := "Please re-enter password."
  const PasswordsDiffer := "Passwords don't match. Please try again."

  /** Messages for `email`: its minimum first, then the pattern refinement. */
  function EmailErrors(email: string): (m: seq<string>)
    ensures EmailRequired in m <==> email == []
    ensures EmailInvalid in m <==> !EmailShape(email)
    ensures m == [] <==> email != [] && EmailShape(email)
  {
    (if Utf16Length(email) < 1 then [EmailRequired] else [])
      + (if EmailShape(email) then [] else [EmailInvalid])
  }

  /** Messages for `password`: its minimum length of 8 UTF-16 units. */
  function PasswordErrors(password: string): (m: seq<string>)
    ensures PasswordTooShort in m <==> Utf16Length(password) < 8
    ensures m == [] <==> Utf16Length(password) >= 8
  {
    if Utf16Length(password) < 8 then [PasswordTooShort] else []
  }

  /** Messages for `confirmPassword`: its minimum, then the equality
      refinement, whose error the schema attaches to this field. */
  function ConfirmErrors(password: string, confirmPassword: string): (m: seq<string>)
    ensures ConfirmRequired in m <==> confirmPassword == []
    ensures PasswordsDiffer in m <==> password != confirmPassword
    ensures m == [] <==> confirmPassword != [] && password == confirmPassword
  {
    (if Utf16Length(confirmPassword) < 1 then [ConfirmRequired] else [])
      + (if password == confirmPassword then [] else [PasswordsDiffer])
  }

  /** The schema's `fieldErrors`. */
  function Validate(email: string, password: string, confirmPassword: string): (e: FieldErrors)
    ensures e == NoErrors <==>
              email != [] && EmailShape(email) && Utf16Length(password) >= 8 &&
              confirmPassword != [] && password == confirmPassword
  {
    FieldErrors(EmailErrors(email), PasswordErrors(password), ConfirmErrors(password, confirmPassword))
  }

  /** The five conditions registration needs. */
  ghost predicate Acceptable(email: string, password: string, confirmPassword: string)
  {
    && email != []
    && Utf16Length(password) >= 8
    && confirmPassword != []
    && password == confirmPassword
    && MatchesEmailPattern(email)
  }

  /** The schema passes exactly when all five conditions hold. */
  lemma ValidateAcceptsExactly(email: string, password: string, confirmPassword: string)
    ensures Validate(email, password, confirmPassword) == NoErrors <==> Acceptable(email, password, confirmPassword)
  {
    EmailShapeMatchesPattern(email);
  }

  /** What the sign-up attempt after validation does: it completes, or
      throws an error that may carry an auth error code. */
  datatype SignUpAttempt = SignedUp | Threw(code: Option<string>)

  datatype RegisterResult =
    | Invalid(errors: FieldErrors, message: string)
    | Registered
    | Failed(message: string)

  const UnknownError := "An unknown error occurred. Please try again."

  /** The `errorMessages` table. */
  const AuthErrorMessages: map<string, string> := map[
    "auth/invalid-credential" := "Invalid credential provided. Please try again.",
    "auth/user-not-found" := "No user found with this email. Please check your email or sign up.",
    "auth/wrong-password" := "Incorrect password. Please try again.",
    "auth/email-already-in-use" := "Email already exists, please log in or verify."]

  /** The table lookup with its fallback: a code in the table gets its own
      message, any other or absent code the unknown-error message. */
  function ErrorMessage(code: Option<string>): (m: string)
    ensures code.Some? && code.value in AuthErrorMessages ==> m == AuthErrorMessages[code.value]
    ensures m == UnknownError <==> code.None? || code.value !in AuthErrorMessages
  {
    assert UnknownError !in AuthErrorMessages.Values;
    if code.Some? && code.value in AuthErrorMessages then AuthErrorMessages[code.value] else UnknownError
  }

  /** The four codes the table knows, and nothing else. */
  lemma ErrorTable()
    ensures AuthErrorMessages.Keys == {"auth/invalid-credential", "auth/user-not-found",
                                       "auth/wrong-password", "auth/email-already-in-use"}
    ensures ErrorMessage(Some("auth/wrong-password")) == "Incorrect password. Please try again."
    ensures ErrorMessage(Some("auth/user-not-found")) ==
              "No user found with this email. Please check your email or sign up."
    ensures ErrorMessage(Some("auth/too-many-requests")) == UnknownError
  {
  }

  /** `registerUser`: validate, and only when validation passes make the
      sign-up attempt. */
  function RegisterUser(email: string, password: string, confirmPassword: string, attempt: SignUpAttempt)
    : (r: RegisterResult)
    ensures r.Invalid? <==> Validate(email, password, confirmPassword) != NoErrors
    ensures r.Invalid? ==> r.errors == Validate(email, password, confirmPassword) &&
                           r.message == "Missing/Invalid Fields. Failed to sign up."
    ensures r.Registered? <==> Validate(email, password, confirmPassword) == NoErrors && attempt.SignedUp?
    ensures r.Failed? ==> r.message == ErrorMessage(attempt.code)
  {
    var errors := Validate(email, password, confirmPassword);
    if errors != NoErrors then Invalid(errors, "Missing/Invalid Fields. Failed to sign up.")
    else match attempt
      case SignedUp => Registered
      case Threw(code) => Failed(ErrorMessage(code))
  }

  /** Invalid fields never reach the auth provider: the result does not
      depend on what a sign-up attempt would have done. */
  lemma InvalidNeverSignsUp(email: string, password: string, confirmPassword: string, a: SignUpAttempt, b: SignUpAttempt)
    requires !Acceptable(email, password, confirmPassword)
    ensures RegisterUser(email, password, confirmPassword, a) == RegisterUser(email, password, confirmPassword, b)
    ensures RegisterUser(email, password, confirmPassword, a).Invalid?
  {
    ValidateAcceptsExactly(email, password, confirmPassword);
  }
}
