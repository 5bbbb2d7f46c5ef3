/** The form schemas of lib/validations/auth.ts. Each string field runs all of
    its checks and reports every one that fails, in declaration order; a form
    is accepted when no field reports an issue. Lengths are JavaScript
    `length`s, that is UTF-16 code units. */
module AuthValidation {
  import Villages

  predicate IsWordChar(c: char)
  {
    ('a' <= c <= 'z') || ('A' <= c <= 'Z') || ('0' <= c <= '9') || c == '_'
  }

  predicate IsUpper(c: char)
  {
    'A' <= c <= 'Z'
  }

  predicate IsDigit(c: char)
  {
    '0' <= c <= '9'
  }

  /** A string of characters outside the astral planes has as many UTF-16 units as characters. */
  lemma {:induction false} BmpLength(s: string)
    requires forall i :: 0 <= i < |s| ==> s[i] as int <= 0xFFFF
    ensures Villages.Utf16Length(s) == |s|
  {
    if s != [] {
      BmpLength(s[1..]);
    }
  }

  datatype UsernameIssue = UsernameTooShort | UsernameTooLong | UsernameBadCharacters

  /** The username checks, shared word for word by `signUpSchema` and `usernameSchema`:
      at least 3 and at most 20 units, and `^[a-zA-Z0-9_]+$`. */
  function UsernameIssues(username: string): (r: seq<UsernameIssue>)
    ensures (UsernameTooShort in r) <==> Villages.Utf16Length(username) < 3
    ensures (UsernameTooLong in r) <==> Villages.Utf16Length(username) > 20
    ensures (UsernameBadCharacters in r) <==>
      (username == [] || exists i :: 0 <= i < |username| && !IsWordChar(username[i]))
  {
    var n := Villages.Utf16Length(username);
    (if n < 3 then [UsernameTooShort] else [])
    + (if n > 20 then [UsernameTooLong] else [])
    + (if username != [] && forall i :: 0 <= i < |username| ==> IsWordChar(username[i])
       then [] else [UsernameBadCharacters])
  }

  /** Accepted usernames are exactly the words of 3 to 20 letters, digits and underscores. */
  lemma UsernameAccepted(username: string)
    ensures UsernameIssues(username) == [] <==>
      3 <= |username| <= 20 && forall i :: 0 <= i < |username| ==> IsWordChar(username[i])
  {
    if forall i :: 0 <= i < |username| ==> IsWordChar(username[i]) {
      BmpLength(username);
    } else {
      var i :| 0 <= i < |username| && !IsWordChar(username[i]);
      assert UsernameBadCharacters in UsernameIssues(username);
    }
  }

  datatype PasswordIssue = PasswordTooShort | PasswordNoUppercase | PasswordNoDigit | PasswordRequired

  /** The sign-up password checks: at least 8 units, an upper-case letter, a digit. */
  function SignUpPasswordIssues(password: string): (r: seq<PasswordIssue>)
    ensures (PasswordTooShort in r) <==> Villages.Utf16Length(password) < 8
    ensures (PasswordNoUppercase in r) <==> !exists i :: 0 <= i < |password| && IsUpper(password[i])
    ensures (PasswordNoDigit in r) <==> !exists i :: 0 <= i < |password| && IsDigit(password[i])
    ensures PasswordRequired !in r
  {
    (if Villages.Utf16Length(password) < 8 then [PasswordTooShort] else [])
    + (if exists i :: 0 <= i < |password| && IsUpper(password[i]) then [] else [PasswordNoUppercase])
    + (if exists i :: 0 <= i < |password| && IsDigit(password[i]) then [] else [PasswordNoDigit])
  }

  /** The sign-in password check: at least one unit. */
  function SignInPasswordIssues(password: string): (r: seq<PasswordIssue>)
    ensures r == [] <==> password != []
    ensures r != [] ==> r == [PasswordRequired]
  {
    if Villages.Utf16Length(password) < 1 then [PasswordRequired] else []
  }

  /** Any password accepted at sign-up is accepted at sign-in. */
  lemma SignUpPasswordSignsIn(password: string)
    requires SignUpPasswordIssues(password) == []
    ensures SignInPasswordIssues(password) == []
    ensures |password| >= 4
  {
  }

  /** The issues of one submitted form, field by field. `emailValid` stands for
      zod's e-mail check, which is not part of this model. */
  datatype FormIssues = FormIssues(username: seq<UsernameIssue>, email: bool, password: seq<PasswordIssue>)

  function SignUp(username: string, emailValid: bool, password: string): (r: FormIssues)
    ensures r.username == [] <==>
      3 <= |username| <= 20 && forall i :: 0 <= i < |username| ==> IsWordChar(username[i])
    ensures r.password == [] <==>
      Villages.Utf16Length(password) >= 8
      && (exists i :: 0 <= i < |password| && IsUpper(password[i]))
      && (exists i :: 0 <= i < |password| && IsDigit(password[i]))
    ensures r.email == !emailValid
  {
    UsernameAccepted(username);
    FormIssues(UsernameIssues(username), !emailValid, SignUpPasswordIssues(password))
  }

  function SignIn(emailValid: bool, password: string): (r: FormIssues)
    ensures r.username == [] && r.email == !emailValid
    ensures r.password == [] <==> password != []
  {
    FormIssues([], !emailValid, SignInPasswordIssues(password))
  }

  function UsernameForm(username: string): (r: seq<UsernameIssue>)
    ensures r == [] <==>
      3 <= |username| <= 20 && forall i :: 0 <= i < |username| ==> IsWordChar(username[i])
  {
    UsernameAccepted(username);
    UsernameIssues(username)
  }

  predicate Accepted(f: FormIssues)
  {
    f.username == [] && !f.email && f.password == []
  }

  /** A username the profile form accepts is accepted by the sign-up form, and back. */
  lemma UsernameFormsAgree(username: string, password: string)
    ensures UsernameForm(username) == SignUp(username, true, password).username
  {
  }

  /** Whoever could sign up can sign in with the same e-mail and password. */
  lemma SignUpThenSignIn(username: string, emailValid: bool, password: string)
    requires Accepted(SignUp(username, emailValid, password))
    ensures Accepted(SignIn(emailValid, password))
  {
  }

  lemma GoodUsername()
    ensures UsernameIssues("bob_42") == []
  {
    var u := "bob_42";
    BmpLength(u);
    forall i | 0 <= i < |u| ensures IsWordChar(u[i]) {
      assert i == 0 || i == 1 || i == 2 || i == 3 || i == 4 || i == 5;
    }
  }

  lemma GoodPassword()
    ensures SignUpPasswordIssues("Secret123") == []
  {
    BmpLength("Secret123");
    assert IsUpper("Secret123"[0]) && IsDigit("Secret123"[6]);
  }

  /** A well-formed sign-up. */
  lemma SignUpExample()
    ensures Accepted(SignUp("bob_42", true, "Secret123"))
  {
    GoodUsername();
    GoodPassword();
  }

  /** A short all-lower-case password fails all three checks, reported in order. */
  lemma WeakPasswordExample()
    ensures SignUpPasswordIssues("secret") == [PasswordTooShort, PasswordNoUppercase, PasswordNoDigit]
  {
    BmpLength("secret");
    assert !exists i :: 0 <= i < |"secret"| && IsUpper("secret"[i]);
    assert !exists i :: 0 <= i < |"secret"| && IsDigit("secret"[i]);
    var expected := [PasswordTooShort, PasswordNoUppercase, PasswordNoDigit];
    assert [PasswordTooShort] + [PasswordNoUppercase] + [PasswordNoDigit] == expected;
  }

  /** The empty username is both too short and not matched by the pattern. */
  lemma EmptyUsernameExample()
    ensures UsernameIssues("") == [UsernameTooShort, UsernameBadCharacters]
  {
    var expected := [UsernameTooShort, UsernameBadCharacters];
    assert [UsernameTooShort] + [] + [UsernameBadCharacters] == expected;
  }
}
