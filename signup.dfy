/**
 * The registration form: the rule objects handed to the form library for the
 * name, email and password inputs, which rules a value violates, the message
 * rendered for each violated rule, and the rule that enables the submit button.
 */
module SignUp {
  import opened Wrappers
  import opened CharClasses
  import opened Patterns

  /** The values the form submits. */
  datatype FormRegistration = FormRegistration(name: string, email: string, password: string)

  datatype Field = Name | Email | Password

  function Value(form: FormRegistration, f: Field): string {
    match f
    case Name => form.name
    case Email => form.email
    case Password => form.password
  }

  /** The kinds of rule the form library can report as an error type. */
  datatype RuleKind = Required | MinLength | MaxLength | Pattern

  /** The three regular-expression literals of the form. */
  datatype Regex = NameRe | EmailRe | PasswordRe

  /** `regex.test(s)` */
  predicate Test(re: Regex, s: string) {
    match re
    case NameRe => NamePattern(s)
    case EmailRe => EmailRegex(s)
    case PasswordRe => PasswordPattern(s)
  }

  /** A pattern rule: a bare regular expression has no message of its own. */
  datatype PatternRule = PatternRule(regex: Regex, message: string)

  /**
   * The options object passed to `register`: `required` carries its message,
   * absent options are `None`.
   */
  datatype Rules = Rules(
    required: Option<string>,
    minLength: Option<nat>,
    maxLength: Option<nat>,
    pattern: Option<PatternRule>)

  const NameRules := Rules(Some("Please enter your name"), Some(3), Some(30), Some(PatternRule(NameRe, "")))

  const EmailRules := Rules(Some("Please enter email"), None, None,
                            Some(PatternRule(EmailRe, "Entered value does not match email format")))

  const PasswordRules := Rules(Some("Please enter password"), Some(8), Some(19), Some(PatternRule(PasswordRe, "")))

  /** Every field is required and pattern-checked; only name and password have length bounds. */
  function RulesOf(f: Field): (r: Rules)
    ensures r.required.Some? && r.pattern.Some?
    ensures r.minLength.Some? <==> f != Email
    ensures r.maxLength.Some? <==> f != Email
    ensures r.minLength.Some? && r.maxLength.Some? ==> 0 < r.minLength.value < r.maxLength.value
  {
    match f
    case Name => NameRules
    case Email => EmailRules
    case Password => PasswordRules
  }

  /** The options object sets rule `k`. */
  predicate HasRule(rules: Rules, k: RuleKind) {
    match k
    case Required => rules.required.Some?
    case MinLength => rules.minLength.Some?
    case MaxLength => rules.maxLength.Some?
    case Pattern => rules.pattern.Some?
  }

  /**
   * Rule `k` of `rules` rejects the value `s`. The form library applies the
   * length and pattern rules to non-empty values only, so an empty value can
   * break `required` and nothing else.
   */
  predicate Fails(rules: Rules, s: string, k: RuleKind): (r: bool)
    ensures r ==> HasRule(rules, k)
    ensures r ==> (k == Required <==> s == [])
  {
    match k
    case Required => rules.required.Some? && s == []
    case MinLength => rules.minLength.Some? && s != [] && |s| < rules.minLength.value
    case MaxLength => rules.maxLength.Some? && s != [] && |s| > rules.maxLength.value
    case Pattern => rules.pattern.Some? && s != [] && !Test(rules.pattern.value.regex, s)
  }

  /** Every rule of field `f` that the value `s` violates. */
  function Violations(f: Field, s: string): (v: set<RuleKind>)
    ensures forall k :: k in v ==> HasRule(RulesOf(f), k)
    ensures Required in v <==> s == []
    ensures s == [] ==> v == {Required}
  {
    var r := RulesOf(f);
    (if Fails(r, s, Required) then {Required} else {})
    + (if Fails(r, s, MinLength) then {MinLength} else {})
    + (if Fails(r, s, MaxLength) then {MaxLength} else {})
    + (if Fails(r, s, Pattern) then {Pattern} else {})
  }

  predicate Accepted(f: Field, s: string) {
    Violations(f, s) == {}
  }

  /** The fields of `form` with at least one violated rule. */
  function InvalidFields(form: FormRegistration): set<Field> {
    (if Accepted(Name, form.name) then {} else {Name})
    + (if Accepted(Email, form.email) then {} else {Email})
    + (if Accepted(Password, form.password) then {} else {Password})
  }

  predicate FormAccepted(form: FormRegistration) {
    InvalidFields(form) == {}
  }

  // ---------------------------------------------------------------------------
  // What each field accepts
  // ---------------------------------------------------------------------------

  /** A value is accepted exactly when each of the four rules of its field lets it through. */
  lemma AcceptedIffNoRuleFails(f: Field, s: string)
    ensures Accepted(f, s) <==>
      var r := RulesOf(f);
      !Fails(r, s, Required) && !Fails(r, s, MinLength) && !Fails(r, s, MaxLength) && !Fails(r, s, Pattern)
  {
    var r := RulesOf(f);
    if Accepted(f, s) {
      assert Required !in Violations(f, s) && MinLength !in Violations(f, s);
      assert MaxLength !in Violations(f, s) && Pattern !in Violations(f, s);
    }
  }

  /** A name is accepted iff it has 3 to 30 characters, an upper-case first and a lower-case second. */
  lemma NameAcceptedIff(s: string)
    ensures Accepted(Name, s) <==>
      3 <= |s| <= 30 && IsAsciiUpper(s[0]) && IsAsciiLower(s[1])
  {
    AcceptedIffNoRuleFails(Name, s);
  }

  /** A non-empty name failing `/^[A-Z][a-z]/` carries a pattern error, and only such a name does. */
  lemma NamePatternError(s: string)
    ensures Pattern in Violations(Name, s) <==> s != [] && !NamePattern(s)
  {
  }

  /** An email is accepted iff the positional reading of `/\S+@\S+\.\S+/` finds an `@` and a `.`. */
  lemma EmailAcceptedIff(s: string)
    ensures Accepted(Email, s) <==>
      exists a, b | 0 <= a < b < |s| :: EmailAt(s, a, b)
  {
    EmailRegexIff(s);
    AcceptedIffNoRuleFails(Email, s);
  }

  /** The email rules never report a length error: the email input has no length rule. */
  lemma EmailHasNoLengthErrors(s: string)
    ensures Violations(Email, s) <= {Required, Pattern}
  {
  }

  /** A password is accepted iff it has 8 to 19 characters and its first line holds a letter, a digit and a symbol. */
  lemma PasswordAcceptedIff(s: string)
    ensures Accepted(Password, s) <==>
      8 <= |s| <= 19
      && var l := FirstLine(s); Occurs(l, Letter) && Occurs(l, Digit) && Occurs(l, Symbol)
  {
    assert Accepted(Password, s) <==> 8 <= |s| <= 19 && PasswordPattern(s) by {
      AcceptedIffNoRuleFails(Password, s);
    }
    PasswordPatternIff(s);
  }

  /** A non-empty password outside 8..19 characters carries a length error; no such password is accepted. */
  lemma PasswordLengthErrors(s: string)
    ensures MinLength in Violations(Password, s) <==> 0 < |s| < 8
    ensures MaxLength in Violations(Password, s) <==> |s| > 19
    ensures (|s| < 8 || |s| > 19) ==> !Accepted(Password, s)
  {
  }

  /** The empty value fails the `required` rule of every field, and no other rule. */
  lemma EmptyRejected(f: Field)
    ensures Violations(f, []) == {Required}
    ensures !Accepted(f, [])
  {
  }

  /** A value that the `required` rule rejects is exactly the empty one. */
  lemma RequiredOnlyForEmpty(f: Field, s: string)
    ensures Required in Violations(f, s) <==> s == []
  {
  }

  // ---------------------------------------------------------------------------
  // Concrete values
  // ---------------------------------------------------------------------------

  /** "abc12345" has a letter and a digit but no symbol, so only the pattern rule fails. */
  lemma PasswordWithoutSymbol()
    ensures Violations(Password, "abc12345") == {Pattern}
  {
    var weak := "abc12345";
    assert !Lookahead(weak, Symbol) by {
      forall i | 0 <= i < |weak|
        ensures !IsPasswordSymbol(weak[i])
      {
        assert IsAsciiLetter(weak[i]) || IsDigit(weak[i]);
      }
    }
    assert !Fails(PasswordRules, weak, MinLength) && !Fails(PasswordRules, weak, MaxLength);
  }

  /** "abc123!@" passes the length rules and every lookahead of the password pattern. */
  lemma PasswordWithSymbol()
    ensures Accepted(Password, "abc123!@")
  {
    var strong := "abc123!@";
    assert InClass(strong[0], Letter) && NoLineTerminatorBefore(strong, 0);
    assert InClass(strong[3], Digit) && NoLineTerminatorBefore(strong, 3);
    assert InClass(strong[6], Symbol) && NoLineTerminatorBefore(strong, 6);
    assert PasswordPattern(strong);
    AcceptedIffNoRuleFails(Password, strong);
  }

  /** Only the first two characters are pattern-checked: "Ab1!" is a valid name; "Ab" is too short; "abc" fails the pattern. */
  lemma NameExamples()
    ensures Accepted(Name, "Ab1!")
    ensures Violations(Name, "Ab") == {MinLength}
    ensures Violations(Name, "abc") == {Pattern}
  {
  }

  /** The email pattern is unanchored and tolerates white space outside the match. */
  lemma EmailAcceptedExamples()
    ensures Accepted(Email, "x y@c.d")
    ensures Accepted(Email, "a@b.c")
  {
    EmailAcceptedIff("x y@c.d");
    assert EmailAt("x y@c.d", 3, 5);
    EmailAcceptedIff("a@b.c");
    assert EmailAt("a@b.c", 1, 3);
  }

  /** No dot after the `@`, nothing before the `@`, or nothing between `@` and `.`: rejected. */
  lemma EmailRejectedExamples()
    ensures !Accepted(Email, "a@b")
    ensures !Accepted(Email, "@b.c")
    ensures !Accepted(Email, "a@.c")
  {
    EmailAcceptedIff("a@b");
    EmailAcceptedIff("@b.c");
    var s := "@b.c";
    forall a, b | 0 <= a < b < |s| ensures !EmailAt(s, a, b) {
      assert a == 0 || s[a] != '@';
    }
    EmailAcceptedIff("a@.c");
    var u := "a@.c";
    forall a, b | 0 <= a < b < |u| ensures !EmailAt(u, a, b) {
      assert a != 1 || b < a + 2 || u[b] != '.';
    }
  }

  // ---------------------------------------------------------------------------
  // Messages rendered for each error type
  // ---------------------------------------------------------------------------

  /**
   * The text rendered under field `f` for an error of type `k`, or `None` when the
   * field has no such rule. The name's `required` error and every email error show
   * the rule's own message; the others show fixed text.
   */
  function DisplayedMessage(f: Field, k: RuleKind): (r: Option<string>)
    ensures r.Some? <==> HasRule(RulesOf(f), k)
    ensures (f == Name && k == Required) || f == Email ==>
      r == (if k == Required then RulesOf(f).required
            else if k == Pattern then Some(RulesOf(f).pattern.value.message) else None)
  {
    match (f, k)
    case (Name, Required) => Some(NameRules.required.value)
    case (Name, Pattern) => Some("First letter must be uppercase!")
    case (Name, MinLength) => Some("Name must be at least 3 characters long")
    case (Name, MaxLength) => Some("Name must be no more than 30 characters long")
    case (Email, Required) => Some(EmailRules.required.value)
    case (Email, Pattern) => Some(EmailRules.pattern.value.message)
    case (Email, _) => None
    case (Password, Required) => Some("This field is required")
    case (Password, Pattern) => Some("Password must contain at least one letter, one digit, and one special character")
    case (Password, MinLength) => Some("Password must be at least 8 characters long")
    case (Password, MaxLength) => Some("Password must be no more than 19 characters long")
  }

  /** Whatever rule a value violates, its field has a message to show for it. */
  lemma EveryViolationHasMessage(f: Field, s: string, k: RuleKind)
    requires k in Violations(f, s)
    ensures DisplayedMessage(f, k).Some?
  {
  }

  /** Within one field, different error types never show the same message. */
  lemma MessagesDistinct(f: Field, k1: RuleKind, k2: RuleKind)
    requires DisplayedMessage(f, k1).Some?
    requires DisplayedMessage(f, k1) == DisplayedMessage(f, k2)
    ensures k1 == k2
  {
    if f != Email {
      match k1 {
        case Required =>
        case MinLength =>
        case MaxLength =>
        case Pattern =>
      }
    }
  }

  /** The messages rendered for some error types, as the form shows them. */
  lemma MessageExamples()
    ensures DisplayedMessage(Name, Pattern) == Some("First letter must be uppercase!")
    ensures DisplayedMessage(Name, Required) == Some("Please enter your name")
    ensures DisplayedMessage(Email, Pattern) == Some("Entered value does not match email format")
    ensures DisplayedMessage(Password, MaxLength) == Some("Password must be no more than 19 characters long")
    ensures DisplayedMessage(Password, Required) == Some("This field is required")
  {
  }

  // ---------------------------------------------------------------------------
  // Submit button
  // ---------------------------------------------------------------------------

  /**
   * The value the effect writes: a form that is not dirty, or any reported error,
   * keeps the button disabled; a dirty form with no errors enables it.
   */
  function ShouldDisable(isDirty: bool, errors: map<Field, RuleKind>): (r: bool)
    ensures !isDirty ==> r
    ensures forall f :: f in errors ==> r
    ensures isDirty && errors.Keys == {} ==> !r
  {
    !(isDirty && |errors| == 0)
  }

  /** `errors` holds one reported rule for exactly the fields that currently violate a rule. */
  predicate ErrorsReflect(form: FormRegistration, errors: map<Field, RuleKind>) {
    errors.Keys == InvalidFields(form)
    && forall f :: f in errors ==> errors[f] in Violations(f, Value(form, f))
  }

  /** With errors reported for every invalid field, the button is enabled iff the form is dirty and valid. */
  lemma ButtonEnabledIff(form: FormRegistration, isDirty: bool, errors: map<Field, RuleKind>)
    requires ErrorsReflect(form, errors)
    ensures !ShouldDisable(isDirty, errors) <==> isDirty && FormAccepted(form)
  {
    if |errors| == 0 {
      assert errors.Keys == {};
    } else {
      var f :| f in errors;
      assert f in InvalidFields(form);
    }
  }

  /** The `isDisabled` state cell of the form and the effect that keeps it up to date. */
  class SubmitButton {
    var isDisabled: bool

    /** The state starts disabled, before the effect has run. */
    constructor ()
      ensures isDisabled
    {
      isDisabled := true;
    }

    /** The effect that runs whenever `errors` or `isDirty` changes. */
    method SyncWithFormState(isDirty: bool, errors: map<Field, RuleKind>)
      modifies this
      ensures isDisabled == ShouldDisable(isDirty, errors)
    {
      isDisabled := !(isDirty && |errors| == 0);
    }
  }
}
