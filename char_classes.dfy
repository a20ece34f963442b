/**
 * The character classes that the registration form's regular expressions use,
 * written out as predicates on single characters. The regular expressions carry
 * no `i` or `u` flag, so the ranges `[A-Z]`, `[a-z]` and `\d` are ASCII only,
 * and `\s` is the ECMAScript white-space set.
 */
module CharClasses {

  /** `\s` of an ECMAScript regular expression: WhiteSpace plus LineTerminator. */
  predicate IsSpace(c: char) {
    c == '\t' || c == '\n' || c == '\U{000B}' || c == '\U{000C}' || c == '\r' || c == ' '
    || c == '\U{00A0}' || c == '\U{1680}' || ('\U{2000}' <= c <= '\U{200A}')
    || c == '\U{2028}' || c == '\U{2029}' || c == '\U{202F}' || c == '\U{205F}'
    || c == '\U{3000}' || c == '\U{FEFF}'
  }

  /** The characters `.` refuses to match: ECMAScript's LineTerminator. */
  predicate IsLineTerminator(c: char) {
    c == '\n' || c == '\r' || c == '\U{2028}' || c == '\U{2029}'
  }

  /** `[A-Z]` */
  predicate IsAsciiUpper(c: char) { 'A' <= c <= 'Z' }

  /** `[a-z]` */
  predicate IsAsciiLower(c: char) { 'a' <= c <= 'z' }

  /** `[a-zA-Z]` */
  predicate IsAsciiLetter(c: char) { IsAsciiUpper(c) || IsAsciiLower(c) }

  /** `\d` */
  predicate IsDigit(c: char) { '0' <= c <= '9' }

  /** The bracket class ``[!@#$%^&*()_+\-=\[\]{};':"\\|,.<>\/?]`` of the password pattern. */
  predicate IsPasswordSymbol(c: char) {
    c == '!' || c == '@' || c == '#' || c == '$' || c == '%' || c == '^' || c == '&'
    || c == '*' || c == '(' || c == ')' || c == '_' || c == '+' || c == '-' || c == '='
    || c == '[' || c == ']' || c == '{' || c == '}' || c == ';' || c == '\'' || c == ':'
    || c == '"' || c == '\\' || c == '|' || c == ',' || c == '.' || c == '<' || c == '>'
    || c == '/' || c == '?'
  }

  /** The three classes the password's lookaheads search for. */
  datatype PasswordClass = Letter | Digit | Symbol

  predicate InClass(c: char, k: PasswordClass) {
    match k
    case Letter => IsAsciiLetter(c)
    case Digit => IsDigit(c)
    case Symbol => IsPasswordSymbol(c)
  }

  /** Line terminators are white space, and no class a lookahead searches for holds one. */
  lemma LineTerminatorIsSpaceAndClassless(c: char, k: PasswordClass)
    requires IsLineTerminator(c)
    ensures IsSpace(c) && !InClass(c, k)
  {
  }

  /** The symbol set leaves out the tilde, the backtick and the space. */
  lemma SymbolExclusions()
    ensures !IsPasswordSymbol('~') && !IsPasswordSymbol('`') && !IsPasswordSymbol(' ')
    ensures forall c :: IsPasswordSymbol(c) ==> !IsAsciiLetter(c) && !IsDigit(c) && !IsSpace(c)
  {
  }
}
