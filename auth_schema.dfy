/**
 * The zod schemas of the sign-up, login, password-reset and new-password
 * forms. A form is accepted, or rejected with the issues zod reports, each
 * attached to the field it concerns. The e-mail format check is a predicate
 * given as a parameter.
 */
module AuthSchema {
  import opened Strings

  /** A validation issue: the path of the field and the message shown under it. */
  datatype Issue = Issue(path: seq<string>, message: string)

  datatype Outcome<T> = Accepted(value: T) | Rejected(issues: seq<Issue>)

  datatype SignupForm = SignupForm(email: string, password: string, confirmPassword: string)
  datatype LoginForm = LoginForm(email: string, password: string)
  datatype ResetForm = ResetForm(email: string)
  datatype NewPasswordForm = NewPasswordForm(password: string, confirmPassword: string)

  const EmailRequired := "L'email est requis"
  const EmailInvalid := "Email invalide"
  const PasswordTooShort := "Le mot de passe doit contenir au moins 8 caractères"
  const PasswordTooWeak := "Le mot de passe doit contenir au moins une majuscule, une minuscule et un chiffre"
  const PasswordRequired := "Le mot de passe est requis"
  const ConfirmRequired := "Veuillez confirmer votre mot de passe"
  const PasswordsDiffer := "Les mots de passe ne correspondent pas"

  /** The minimum length of a new password. */
  const MinPassword := 8

  // ---------------------------------------------------------------------------
  // The strength pattern
  // ---------------------------------------------------------------------------

  /** The text before the first line terminator: what `.*` can reach from the start. */
  function FirstLine(s: string): (r: string)
    ensures r <= s
    ensures forall i :: 0 <= i < |r| ==> !LineTerminator(r[i])
    ensures |r| < |s| ==> LineTerminator(s[|r|])
  {
    if s == [] || LineTerminator(s[0]) then "" else [s[0]] + FirstLine(s[1..])
  }

  predicate HasLower(s: string) {
    exists i :: 0 <= i < |s| && 'a' <= s[i] <= 'z'
  }

  predicate HasUpper(s: string) {
    exists i :: 0 <= i < |s| && 'A' <= s[i] <= 'Z'
  }

  predicate HasDigit(s: string) {
    exists i :: 0 <= i < |s| && '0' <= s[i] <= '9'
  }

  /**
   * `/^(?=.*[a-z])(?=.*[A-Z])(?=.*\d)/`: each lookahead scans from the
   * start with `.*`, so it only sees the first line.
   */
  predicate StrongPattern(p: string) {
    var line := FirstLine(p);
    HasLower(line) && HasUpper(line) && HasDigit(line)
  }

  // ---------------------------------------------------------------------------
  // Field checks
  // ---------------------------------------------------------------------------

  /** `z.string().min(1, ...).email(...)`: every failing check reports its issue. */
  function EmailIssues(email: string, isEmail: string -> bool): (r: seq<Issue>)
    ensures r == [] <==> |email| >= 1 && isEmail(email)
  {
    (if |email| < 1 then [Issue(["email"], EmailRequired)] else [])
    + (if !isEmail(email) then [Issue(["email"], EmailInvalid)] else [])
  }

  /** `z.string().min(8, ...).regex(...)`. */
  function PasswordIssues(password: string): (r: seq<Issue>)
    ensures r == [] <==> |password| >= MinPassword && StrongPattern(password)
  {
    (if |password| < MinPassword then [Issue(["password"], PasswordTooShort)] else [])
    + (if !StrongPattern(password) then [Issue(["password"], PasswordTooWeak)] else [])
  }

  /** `z.string().min(1, ...)` with the given message. */
  function RequiredIssues(field: string, value: string, message: string): (r: seq<Issue>)
    ensures r == [] <==> |value| >= 1
  {
    if |value| < 1 then [Issue([field], message)] else []
  }

  /** The `.refine` of both password forms, reported on `confirmPassword`. */
  function MatchIssues(password: string, confirm: string): (r: seq<Issue>)
    ensures r == [] <==> password == confirm
  {
    if password == confirm then [] else [Issue(["confirmPassword"], PasswordsDiffer)]
  }

  // ---------------------------------------------------------------------------
  // The four schemas
  // ---------------------------------------------------------------------------

  /**
   * `signupSchema.safeParse(f)`: acceptance needs both the fields and the
   * matching-passwords refinement.
   */
  function Signup(f: SignupForm, isEmail: string -> bool): (o: Outcome<SignupForm>)
    ensures o.Accepted? <==>
      && |f.email| >= 1 && isEmail(f.email)
      && |f.password| >= MinPassword && StrongPattern(f.password)
      && |f.confirmPassword| >= 1
      && f.password == f.confirmPassword
    ensures o.Accepted? ==> o.value == f
    ensures o.Rejected? ==> o.issues != []
  {
    var fields := EmailIssues(f.email, isEmail) + PasswordIssues(f.password)
      + RequiredIssues("confirmPassword", f.confirmPassword, ConfirmRequired);
    if fields != [] then Rejected(fields)
    else if f.password != f.confirmPassword then Rejected(MatchIssues(f.password, f.confirmPassword))
    else Accepted(f)
  }

  /** `loginSchema.safeParse(f)`: any non-empty password. */
  function Login(f: LoginForm, isEmail: string -> bool): (o: Outcome<LoginForm>)
    ensures o.Accepted? <==> |f.email| >= 1 && isEmail(f.email) && |f.password| >= 1
    ensures o.Accepted? ==> o.value == f
    ensures o.Rejected? ==> o.issues != []
  {
    var fields := EmailIssues(f.email, isEmail) + RequiredIssues("password", f.password, PasswordRequired);
    if fields != [] then Rejected(fields) else Accepted(f)
  }

  /** `resetPasswordSchema.safeParse(f)`. */
  function Reset(f: ResetForm, isEmail: string -> bool): (o: Outcome<ResetForm>)
    ensures o.Accepted? <==> |f.email| >= 1 && isEmail(f.email)
    ensures o.Rejected? ==> o.issues != [] && forall k :: 0 <= k < |o.issues| ==> o.issues[k].path == ["email"]
  {
    var fields := EmailIssues(f.email, isEmail);
    if fields != [] then Rejected(fields) else Accepted(f)
  }

  /** `newPasswordSchema.safeParse(f)`. */
  function NewPassword(f: NewPasswordForm): (o: Outcome<NewPasswordForm>)
    ensures o.Accepted? <==>
      && |f.password| >= MinPassword && StrongPattern(f.password)
      && |f.confirmPassword| >= 1
      && f.password == f.confirmPassword
    ensures o.Accepted? ==> o.value == f
    ensures o.Rejected? ==> o.issues != []
  {
    var fields := PasswordIssues(f.password) + RequiredIssues("confirmPassword", f.confirmPassword, ConfirmRequired);
    if fields != [] then Rejected(fields)
    else if f.password != f.confirmPassword then Rejected(MatchIssues(f.password, f.confirmPassword))
    else Accepted(f)
  }

  // ---------------------------------------------------------------------------
  // Properties
  // ---------------------------------------------------------------------------

  /**
   * A well-formed sign-up whose confirmation differs from the password is
   * rejected with exactly one issue, on the `confirmPassword` field.
   */
  lemma MismatchOnConfirm(f: SignupForm, isEmail: string -> bool)
    requires |f.email| >= 1 && isEmail(f.email)
    requires |f.password| >= MinPassword && StrongPattern(f.password)
    requires |f.confirmPassword| >= 1 && f.password != f.confirmPassword
    ensures Signup(f, isEmail) == Rejected([Issue(["confirmPassword"], PasswordsDiffer)])
  {
    assert EmailIssues(f.email, isEmail) == [];
    assert PasswordIssues(f.password) == [];
  }

  /** Whoever can sign up with a password can log in with it: login has no strength rule. */
  lemma SignupThenLogin(f: SignupForm, isEmail: string -> bool)
    requires Signup(f, isEmail).Accepted?
    ensures Login(LoginForm(f.email, f.password), isEmail).Accepted?
  {
  }

  /** The new-password form applies the sign-up rules on the password, for any valid e-mail. */
  lemma NewPasswordAsSignup(email: string, f: NewPasswordForm, isEmail: string -> bool)
    requires |email| >= 1 && isEmail(email)
    ensures NewPassword(f).Accepted? <==> Signup(SignupForm(email, f.password, f.confirmPassword), isEmail).Accepted?
    ensures NewPassword(f).Rejected? ==>
      NewPassword(f).issues == Signup(SignupForm(email, f.password, f.confirmPassword), isEmail).issues
  {
    assert EmailIssues(email, isEmail) == [];
  }

  /** On a one-line password the pattern asks for a lower-case letter, a capital and a digit anywhere. */
  lemma OneLineStrength(p: string)
    requires forall i :: 0 <= i < |p| ==> !LineTerminator(p[i])
    ensures StrongPattern(p) <==> HasLower(p) && HasUpper(p) && HasDigit(p)
  {
    FirstLineWhole(p);
  }

  lemma {:induction false} FirstLineWhole(p: string)
    requires forall i :: 0 <= i < |p| ==> !LineTerminator(p[i])
    ensures FirstLine(p) == p
  {
    if p != [] {
      FirstLineWhole(p[1..]);
    }
  }

  /**
   * The lookaheads stop at the first line break: a password whose first line
   * has no lower-case letter is refused, whatever follows the break.
   */
  lemma SecondLineUnseen(a: string, b: string)
    requires forall i :: 0 <= i < |a| ==> !LineTerminator(a[i]) && !('a' <= a[i] <= 'z')
    ensures !StrongPattern(a + "\n" + b)
  {
    FirstLineStops(a, b);
  }

  lemma {:induction false} FirstLineStops(a: string, b: string)
    requires forall i :: 0 <= i < |a| ==> !LineTerminator(a[i])
    ensures FirstLine(a + "\n" + b) == a
  {
    if a != [] {
      assert (a + "\n" + b)[1..] == a[1..] + "\n" + b;
      FirstLineStops(a[1..], b);
    }
  }

  /** Eight characters with a capital, a lower-case letter and a digit pass. */
  lemma StrongExample()
    ensures PasswordIssues("Cuisine1") == []
  {
    var p := "Cuisine1";
    OneLineStrength(p);
    assert 'A' <= p[0] <= 'Z' && 'a' <= p[1] <= 'z' && '0' <= p[7] <= '9';
  }

  /** A password without any capital letter is refused, whatever its lines. */
  lemma NoCapitalRefused(p: string)
    requires !HasUpper(p)
    ensures !StrongPattern(p)
  {
    var line := FirstLine(p);
    forall i | 0 <= i < |line| ensures !('A' <= line[i] <= 'Z') {
      assert line[i] == p[i];
    }
  }

  /** Without a capital the same length is not enough. */
  lemma WeakExample()
    ensures PasswordIssues("cuisine1") == [Issue(["password"], PasswordTooWeak)]
  {
    var p := "cuisine1";
    assert !HasUpper(p) by {
      forall i | 0 <= i < |p| ensures !('A' <= p[i] <= 'Z') {
      }
    }
    NoCapitalRefused(p);
  }
}
