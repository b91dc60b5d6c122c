/**
 * The sign-up form's checks before it is sent (a required email matching
 * the email pattern, a required password of at least six characters, a
 * required account type) and the message shown when sign-up fails.
 */
module RegisterPage {
  import opened Common
  import opened TextMatch
  import AuthService

  const EMAIL_REQUIRED := "Vui lòng nhập email"
  const EMAIL_INVALID := "Email không hợp lệ"
  const PASSWORD_REQUIRED := "Vui lòng nhập mật khẩu"
  const PASSWORD_TOO_SHORT := "Mật khẩu phải có ít nhất 6 ký tự"
  const USER_TYPE_REQUIRED := "Vui lòng chọn loại tài khoản"
  const SUBMIT_FAILED := "Đăng ký thất bại. Vui lòng thử lại."
  const MIN_PASSWORD_LENGTH := 6

  /** The account types the form offers. */
  const USER_TYPES := ["student", "professional", "organizer"]

  /** A character of the part before '@': letters (either case), digits and . _ % + - */
  predicate IsLocalChar(c: char)
  {
    IsAsciiLetter(c) || IsDigit(c) || c == '.' || c == '_' || c == '%' || c == '+' || c == '-'
  }

  /** A character of the domain before its last dot: letters, digits, '.' and '-'. */
  predicate IsDomainChar(c: char)
  {
    IsAsciiLetter(c) || IsDigit(c) || c == '.' || c == '-'
  }

  /**
   * One way s matches the pattern `^[A-Z0-9._%+-]+@[A-Z0-9.-]+\.[A-Z]{2,}$`
   * with the `i` flag: '@' at `at`, the final '.' at `dot`, and each part
   * drawn from its class.
   */
  ghost predicate EmailSplit(s: string, at: int, dot: int)
  {
    && 0 < at && at + 1 < dot && dot + 2 < |s|
    && s[at] == '@' && s[dot] == '.'
    && PartsInClass(s, at, dot)
  }

  /** Before `at` local characters, between `at` and `dot` domain characters, after `dot` letters. */
  predicate PartsInClass(s: string, at: int, dot: int)
    requires 0 <= at <= dot < |s|
  {
    && (forall k :: 0 <= k < at ==> IsLocalChar(s[k]))
    && (forall k :: at < k < dot ==> IsDomainChar(s[k]))
    && (forall k :: dot < k < |s| ==> IsAsciiLetter(s[k]))
  }

  ghost predicate MatchesEmailPattern(s: string)
  {
    exists at, dot :: EmailSplit(s, at, dot)
  }

  /** The position of the first c in s, or |s| when there is none. */
  function FirstIndex(s: string, c: char): (r: nat)
    ensures r <= |s|
    ensures r < |s| ==> s[r] == c
    ensures forall k :: 0 <= k < r ==> s[k] != c
  {
    if s == [] then 0
    else if s[0] == c then 0
    else 1 + FirstIndex(s[1..], c)
  }

  /** The position of the last c in s, or -1 when there is none. */
  function LastIndex(s: string, c: char): (r: int)
    ensures -1 <= r < |s|
    ensures r >= 0 ==> s[r] == c
    ensures forall k :: r < k < |s| ==> s[k] != c
  {
    if s == [] then -1
    else if s[|s| - 1] == c then |s| - 1
    else LastIndex(s[..|s| - 1], c)
  }

  /** The pattern test, computed: the '@' is the first one and the dot is the last one. */
  predicate EmailMatches(s: string)
  {
    var at := FirstIndex(s, '@');
    var dot := LastIndex(s, '.');
    && 0 < at < |s| && at + 1 < dot && dot + 2 < |s|
    && PartsInClass(s, at, dot)
  }

  /** The computed test accepts exactly the texts the pattern matches. */
  lemma EmailMatchesPattern(s: string)
    ensures EmailMatches(s) <==> MatchesEmailPattern(s)
  {
    var at := FirstIndex(s, '@');
    var dot := LastIndex(s, '.');
    if EmailMatches(s) {
      assert EmailSplit(s, at, dot);
    }
    if MatchesEmailPattern(s) {
      var a, d :| EmailSplit(s, a, d);
      assert at == a;
      assert dot == d;
    }
  }

  /**
   * An accepted email has exactly one '@', preceded by a non-empty run of
   * local characters, and ends with '.' and at least two letters.
   */
  lemma AcceptedEmailShape(s: string)
    requires EmailMatches(s)
    ensures var at := FirstIndex(s, '@');
            && 0 < at < |s|
            && (forall k :: 0 <= k < |s| && s[k] == '@' ==> k == at)
            && (forall k :: 0 <= k < at ==> IsLocalChar(s[k]))
    ensures var dot := LastIndex(s, '.');
            && 0 <= dot && dot + 2 < |s|
            && (forall k :: dot < k < |s| ==> IsAsciiLetter(s[k]))
  {
    var at := FirstIndex(s, '@');
    var dot := LastIndex(s, '.');
    NoAtAfter(s, at, dot);
  }

  lemma NoAtAfter(s: string, at: int, dot: int)
    requires 0 <= at < dot < |s| && s[dot] == '.'
    requires PartsInClass(s, at, dot)
    ensures forall k :: at < k < |s| ==> s[k] != '@'
  {
    forall k | at < k < |s| ensures s[k] != '@' {
      if k < dot {
        assert IsDomainChar(s[k]);
      } else if dot < k {
        assert IsAsciiLetter(s[k]);
      }
    }
  }

  /** Lower-casing keeps '@', '.' and every character class of the pattern. */
  lemma EmailSplitLower(s: string, at: int, dot: int)
    ensures EmailSplit(s, at, dot) <==> EmailSplit(LowerAscii(s), at, dot)
  {
    var t := LowerAscii(s);
    if 0 < at && at + 1 < dot && dot + 2 < |s| {
      forall k | 0 <= k < |s|
        ensures (IsLocalChar(s[k]) <==> IsLocalChar(t[k]))
        ensures (IsDomainChar(s[k]) <==> IsDomainChar(t[k]))
        ensures (IsAsciiLetter(s[k]) <==> IsAsciiLetter(t[k]))
        ensures (s[k] == '@' <==> t[k] == '@') && (s[k] == '.' <==> t[k] == '.')
      {
      }
      assert PartsInClass(s, at, dot) <==> PartsInClass(t, at, dot);
    }
  }

  /** Because of the `i` flag, whether an email is accepted does not depend on letter case. */
  lemma EmailIgnoresCase(s: string)
    ensures EmailMatches(LowerAscii(s)) <==> EmailMatches(s)
  {
    EmailMatchesPattern(s);
    EmailMatchesPattern(LowerAscii(s));
    if MatchesEmailPattern(s) {
      var a, d :| EmailSplit(s, a, d);
      EmailSplitLower(s, a, d);
    }
    if MatchesEmailPattern(LowerAscii(s)) {
      var a, d :| EmailSplit(LowerAscii(s), a, d);
      EmailSplitLower(s, a, d);
    }
  }

  /** The email field's error, if any: required first, then the pattern. */
  function ValidateEmail(email: string): (error: Option<string>)
    ensures email == "" <==> error == Some(EMAIL_REQUIRED)
    ensures email != "" && !EmailMatches(email) <==> error == Some(EMAIL_INVALID)
    ensures error.None? <==> EmailMatches(email)
  {
    if email == "" then Some(EMAIL_REQUIRED)
    else if !EmailMatches(email) then Some(EMAIL_INVALID)
    else None
  }

  /** The length JavaScript reports for a text: characters outside the Basic Multilingual Plane count twice. */
  function Utf16Length(s: string): (n: nat)
    ensures |s| <= n <= 2 * |s|
  {
    if s == [] then 0 else (if (s[0] as int) < 0x1_0000 then 1 else 2) + Utf16Length(s[1..])
  }

  /** The password field's error, if any: required first, then at least six UTF-16 code units. */
  function ValidatePassword(password: string): (error: Option<string>)
    ensures password == "" <==> error == Some(PASSWORD_REQUIRED)
    ensures password != "" && Utf16Length(password) < MIN_PASSWORD_LENGTH <==> error == Some(PASSWORD_TOO_SHORT)
    ensures error.None? <==> Utf16Length(password) >= MIN_PASSWORD_LENGTH
  {
    if password == "" then Some(PASSWORD_REQUIRED)
    else if Utf16Length(password) < MIN_PASSWORD_LENGTH then Some(PASSWORD_TOO_SHORT)
    else None
  }

  /** A password of six characters or more always passes; one of fewer than three always fails. */
  lemma PasswordLengthBounds(password: string)
    ensures |password| >= MIN_PASSWORD_LENGTH ==> ValidatePassword(password).None?
    ensures |password| < 3 ==> ValidatePassword(password).Some?
  {
  }

  /** The account type's error, if any: nothing chosen is the empty value. */
  function ValidateUserType(userType: string): (error: Option<string>)
    ensures error.None? <==> userType != ""
    ensures error.Some? ==> error.value == USER_TYPE_REQUIRED
  {
    if userType == "" then Some(USER_TYPE_REQUIRED) else None
  }

  /** Of the offered account types, only organizer is stored as anything but a plain user. */
  lemma OfferedUserTypesRoles()
    ensures forall t :: t in USER_TYPES ==>
              AuthService.StoredRole(Some(t)) == (if t == "organizer" then AuthService.ORGANIZER else AuthService.USER)
  {
  }

  /** The message shown when sign-up fails: the server's, when it sent a non-empty one, else the fallback. */
  function SubmitErrorMessage(serverMessage: Option<string>): (m: string)
    ensures Truthy(serverMessage) ==> m == serverMessage.value
    ensures !Truthy(serverMessage) ==> m == SUBMIT_FAILED
    ensures m != ""
  {
    if Truthy(serverMessage) then serverMessage.value else SUBMIT_FAILED
  }

  /** Signing up with a taken email shows the server's reason. */
  lemma TakenEmailMessage()
    ensures SubmitErrorMessage(Some(AuthService.EMAIL_TAKEN)) == AuthService.EMAIL_TAKEN
  {
  }
}
