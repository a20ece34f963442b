# graphiql-app: registration rules and route guard

This project models the decision logic of a small browser front end. The front end lets a user
register or sign in through an external identity provider and then use an embedded GraphQL IDE.
Two parts are modelled:

- **Registration form** (`graphiql/src/Pages/SignUp.tsx`). The rule objects passed to the form
  library for the `name`, `email` and `password` inputs (`required`, `minLength`, `maxLength`,
  `pattern`) are modelled as data (`SignUp.NameRules`, `SignUp.EmailRules`,
  `SignUp.PasswordRules`, selected by `SignUp.RulesOf`). The submitted values form the datatype
  `SignUp.FormRegistration`, the record declared at graphiql/src/helpers/types.tsx:6-10. The three regular-expression literals are written out as predicates over
  character positions (module `Patterns`). The module also covers the set of rules a value
  violates, the message rendered under a field for each error type, and the effect that keeps the
  submit button's `isDisabled` state in step with `isDirty` and `errors`.
- **Application shell** (`graphiql/src/App.tsx`). It covers the route guard (spelled `ReguireAuth`
  in the source, `RequireAuth` here), the light/dark `toggleColorScheme` over its state cell, and
  the route table, including which route the guard wraps.

Files:

- `char_classes.dfy`: the character classes used by the regexes. Regex `\s` is the ECMAScript
  white-space set, `.` excludes ECMAScript line terminators, and `[A-Z]`, `[a-z]`, `\d` and the
  password symbol class are ASCII.
- `patterns.dfy`: `/^[A-Z][a-z]/`, the password lookaheads and `/\S+@\S+\.\S+/`. The password and
  email patterns each come with an independent description of what they accept and a proof that
  the two agree. The name pattern is stated by its anchored-prefix reading.
- `signup.dfy`: the form's rules, violations, messages and submit-button rule.
- `app.dfy`: the guard, the colour scheme and the routes.
- `wrappers.dfy`: `Option`, which stands in for `undefined`/`null`.

A field is accepted when it violates none of its rules. The acceptance lemmas state each field's
accepted values in closed form:

- A name needs 3 to 30 characters, an upper-case first character and a lower-case second one. The
  characters after the first two are never inspected, so `"Ab1!"` is a valid name.
- An email needs an `@` with a non-space character before it. Between the `@` and a later `.`
  there must be at least one character, and none of them may be white space. A non-space character
  must follow the `.`. The pattern is unanchored, so `"x y@c.d"` is accepted.
- A password needs 8 to 19 characters. Its *first line* must contain an ASCII letter, an ASCII
  digit and one of ``!@#$%^&*()_+-=[]{};':"\|,.<>/?``. The first line matters because `.*` in a
  lookahead cannot cross a line terminator.

## Model

| member | source | states |
|---|---|---|
| `CharClasses.LineTerminatorIsSpaceAndClassless` | graphiql/src/Pages/SignUp.tsx:64 | a line terminator is white space for `\S`, and it is never a letter, a digit or a password symbol |
| `CharClasses.SymbolExclusions` | graphiql/src/Pages/SignUp.tsx:64 | `~`, backtick and space are not password symbols; no symbol is a letter, a digit or white space |
| `Patterns.NamePattern` | graphiql/src/Pages/SignUp.tsx:65 | `/^[A-Z][a-z]/` holds iff some two-character prefix of s is an ASCII upper-case letter followed by an ASCII lower-case letter |
| `Patterns.NamePatternIgnoresTail` | graphiql/src/Pages/SignUp.tsx:65 | the name pattern depends only on the first two characters |
| `Patterns.Lookahead` | graphiql/src/Pages/SignUp.tsx:64 | `(?=.*C)` at position 0: success implies class C occurs in s, and on input without line terminators it succeeds iff C occurs |
| `Patterns.PasswordPattern` | graphiql/src/Pages/SignUp.tsx:64 | a password matching the three lookaheads contains a letter, a digit and a symbol |
| `Patterns.FirstLine` | graphiql/src/Pages/SignUp.tsx:64 | the result is the longest prefix free of line terminators: a prefix of the input with no terminator, stopped only by a terminator or the end |
| `Patterns.LookaheadOnFirstLine` | graphiql/src/Pages/SignUp.tsx:64 | `(?=.*C)` at the start succeeds iff class C occurs before the first line terminator |
| `Patterns.PasswordPatternIff` | graphiql/src/Pages/SignUp.tsx:64 | the password pattern holds iff the first line contains a letter, a digit and a symbol |
| `Patterns.PasswordPatternSingleLine` | graphiql/src/Pages/SignUp.tsx:64 | for a password without line terminators, the pattern holds iff it contains a letter, a digit and a symbol |
| `Patterns.EmailRegex` | graphiql/src/Pages/SignUp.tsx:110 | `/\S+@\S+\.\S+/.test(s)` as an unanchored piecewise match; a matching string has at least five characters and contains `@` and `.` |
| `Patterns.EmailRegexIff` | graphiql/src/Pages/SignUp.tsx:110 | a piece-by-piece match of `\S+@\S+\.\S+` somewhere in s exists iff there are positions a, b with `@` at a, `.` at b, a non-space before a, only non-spaces strictly between, b ≥ a+2 and a non-space after b |
| `Patterns.EmailUnanchored` | graphiql/src/Pages/SignUp.tsx:110 | any text before and after an accepted email keeps it accepted |
| `SignUp.RulesOf` | graphiql/src/Pages/SignUp.tsx:79-134 | the options passed to `register`: every field is required and pattern-checked; only name and password have length bounds, with min below max (3/30 and 8/19) |
| `SignUp.Fails` | graphiql/src/Pages/SignUp.tsx:79-134 | a rule fails only if the field sets it; `required` fails only on the empty value, every other rule only on a non-empty one |
| `SignUp.Violations` | graphiql/src/Pages/SignUp.tsx:79-134 | the set of failing rules: only rules the field sets, `required` in it iff the value is empty, and exactly `{required}` for the empty value |
| `SignUp.AcceptedIffNoRuleFails` | graphiql/src/Pages/SignUp.tsx:79-134 | a value is accepted iff none of its field's required, minLength, maxLength and pattern rules rejects it |
| `SignUp.NameAcceptedIff` | graphiql/src/Pages/SignUp.tsx:79-84 | a name passes every rule iff 3 ≤ length ≤ 30, s[0] is in A–Z and s[1] is in a–z |
| `SignUp.NamePatternError` | graphiql/src/Pages/SignUp.tsx:83 | a name reports a pattern error iff it is non-empty and fails `/^[A-Z][a-z]/` |
| `SignUp.EmailAcceptedIff` | graphiql/src/Pages/SignUp.tsx:107-113 | an email passes every rule iff the positional `@`/`.` condition holds (this also rules out the empty string) |
| `SignUp.EmailHasNoLengthErrors` | graphiql/src/Pages/SignUp.tsx:107-113 | the email can fail only `required` and `pattern` |
| `SignUp.PasswordAcceptedIff` | graphiql/src/Pages/SignUp.tsx:129-134 | a password passes every rule iff 8 ≤ length ≤ 19 and its first line has a letter, a digit and a symbol |
| `SignUp.PasswordLengthErrors` | graphiql/src/Pages/SignUp.tsx:131-132 | minLength fails iff 0 < length < 8, maxLength fails iff length > 19, and no password outside 8..19 is accepted |
| `SignUp.EmptyRejected` | graphiql/src/Pages/SignUp.tsx:79-134 | the empty value violates exactly `required`, and is rejected, for every field |
| `SignUp.RequiredOnlyForEmpty` | graphiql/src/Pages/SignUp.tsx:79-134 | `required` fails exactly on the empty value, for every field |
| `SignUp.PasswordWithoutSymbol` | graphiql/src/Pages/SignUp.tsx:129-134 | "abc12345" violates only the pattern rule |
| `SignUp.PasswordWithSymbol` | graphiql/src/Pages/SignUp.tsx:129-134 | "abc123!@" passes every password rule |
| `SignUp.NameExamples` | graphiql/src/Pages/SignUp.tsx:79-84 | "Ab1!" is accepted, "Ab" fails only minLength, "abc" fails only the pattern |
| `SignUp.EmailAcceptedExamples` | graphiql/src/Pages/SignUp.tsx:107-113 | "x y@c.d" and "a@b.c" are accepted |
| `SignUp.EmailRejectedExamples` | graphiql/src/Pages/SignUp.tsx:107-113 | "a@b", "@b.c" and "a@.c" are rejected |
| `SignUp.DisplayedMessage` | graphiql/src/Pages/SignUp.tsx:87-150 | a message exists exactly for the rules the field sets; the name's required error and every email error show the rule's own message |
| `SignUp.EveryViolationHasMessage` | graphiql/src/Pages/SignUp.tsx:87-150 | every rule a value can violate has a message rendered under its field |
| `SignUp.MessagesDistinct` | graphiql/src/Pages/SignUp.tsx:87-150 | within a field, distinct error types render distinct messages |
| `SignUp.MessageExamples` | graphiql/src/Pages/SignUp.tsx:87-150 | the texts shown for name pattern and required, email pattern, password maxLength and required |
| `SignUp.ShouldDisable` | graphiql/src/Pages/SignUp.tsx:29 | a form that is not dirty, or any entry in the error map, disables the button; a dirty form with an empty error map enables it |
| `SignUp.ButtonEnabledIff` | graphiql/src/Pages/SignUp.tsx:28-30 | when the error map names exactly the invalid fields, the button is enabled iff the form is dirty and every field is accepted |
| `SignUp.SubmitButton.constructor` | graphiql/src/Pages/SignUp.tsx:25 | the button starts disabled |
| `SignUp.SubmitButton.SyncWithFormState` | graphiql/src/Pages/SignUp.tsx:28-30 | after the effect, disabled iff not (dirty and no errors) |
| `App.RequireAuth` | graphiql/src/App.tsx:25-37 | loader iff loading; an alert only with an error and carrying its message; children only with a user and unchanged; a redirect only without a user and to `/signin` |
| `App.GuardWhileLoading` | graphiql/src/App.tsx:26-28 | while loading, the guard renders the loader whatever the error and user |
| `App.GuardOnError` | graphiql/src/App.tsx:29-35 | loaded with an error, the guard renders an alert carrying that error's message, even with a user |
| `App.GuardWithUser` | graphiql/src/App.tsx:36 | loaded, no error, a user: exactly the wrapped children |
| `App.GuardWithoutUser` | graphiql/src/App.tsx:36 | loaded, no error, no user: a redirect to `/signin` |
| `App.GuardClassification` | graphiql/src/App.tsx:25-37 | each of the four outcomes occurs iff its own condition holds, so the guard is total and its outcomes disjoint |
| `App.ChildrenOnlyForUser` | graphiql/src/App.tsx:36 | the children are rendered only when a user is present, and unchanged |
| `App.NextScheme` | graphiql/src/App.tsx:40-41 | an explicit value is taken as is; without one the scheme changes |
| `App.ExplicitSchemeWins` | graphiql/src/App.tsx:40-41 | with an explicit value the new scheme is that value |
| `App.ToggleFlips` | graphiql/src/App.tsx:40-41 | without a value the scheme changes, and two toggles restore it |
| `App.ColorSchemeState.constructor` | graphiql/src/App.tsx:39 | the scheme starts light |
| `App.ColorSchemeState.ToggleColorScheme` | graphiql/src/App.tsx:40-41 | the new scheme is the toggle rule applied to the old scheme and the argument |
| `App.Route` | graphiql/src/App.tsx:80-94 | a guarded element is the IDE page inside the layout; a route is outside the layout iff it is the NotFound catch-all |
| `App.Render` | graphiql/src/App.tsx:80-94 | the session changes the rendered outcome only at `/graphi`; a redirect goes to `/signin`; the IDE page is shown only to a user |
| `App.OnlyGraphiGuarded` | graphiql/src/App.tsx:85-92 | a route's element is guarded iff the path is `/graphi` |
| `App.UnguardedIgnoresSession` | graphiql/src/App.tsx:80-94 | every other path renders its page whatever the session |
| `App.UnknownPathNotFound` | graphiql/src/App.tsx:94 | a path outside the table renders NotFound, outside the layout |
| `App.GraphiAccess` | graphiql/src/App.tsx:85-92 | once loaded without error, `/graphi` redirects to `/signin` without a user and shows the IDE page with one |

## Left out

- The asynchronous submit handler (`onFormSubmit`, graphiql/src/Pages/SignUp.tsx:32-62) and the
  `isValid` flag it sets are left out. The handler is a sequence of calls into the identity
  provider, the document store, the store dispatcher, navigation, `alert` and a one-second timer.
  Lines 57-61 sit outside the `try`/`catch`, so the success banner and the one-second reset also
  run after a failed registration. No rule about resets is modelled.
- The form library's reporting is left out. It picks which of several failing rules is reported,
  and it decides when `errors` and `isDirty` update (validation mode). `Violations` lists every rule
  a value fails. As in the form library, an empty value is checked only by `required`; every other
  rule is judged on its own for a non-empty value. `ButtonEnabledIff` takes the error map as an input and
  assumes it names exactly the invalid fields.
- Lengths count Dafny characters (Unicode scalar values). JavaScript counts UTF-16 code units, so
  the two differ for characters outside the Basic Multilingual Plane.
- Path matching by the routing library is left out: trailing slashes, case and nested-route
  resolution. `Route` compares exact path strings.
- The session hook over the identity provider is left out. `(user, loading, error)` is a plain
  input, and a user is reduced to its uid.
- The theme object, global styles, i18n strings and all JSX layout are left out
  (graphiql/src/App.tsx:44-79). So is the bootstrap in graphiql/src/main.tsx, which only mounts
  providers.
- `UserState` and `FormLogin` (graphiql/src/helpers/types.tsx) are only used by the submit handler
  and the sign-in page. They are not part of this model. `FormRegistration` is the datatype
  `SignUp.FormRegistration`.
