/**
  Character classes used by the profiler's and the citation checker's
  regular expressions.  The Turkish letter classes are written out in the
  expressions themselves, so they are concrete here; Python's Unicode `\w`,
  `\s` (the same set as `str.isspace`, used by `split` and `strip`), `\d`
  and `str.lower` come from Unicode tables and are a parameter, `CharRules`.
*/
module Chars {

  /** The Unicode-dependent parts of Python's string and regex behaviour. */
  datatype CharRules = CharRules(
    isWord: char -> bool,     // regex `\w`
    isSpace: char -> bool,    // regex `\s`, `str.split()`, `str.strip()`
    isDigit: char -> bool,    // regex `\d`
    lower: string -> string)  // `str.lower()`

  /** The class `[A-ZÇĞİÖŞÜ]`. */
  predicate IsUpperTr(c: char) {
    ('A' <= c <= 'Z') || c == 'Ç' || c == 'Ğ' || c == 'İ' || c == 'Ö' || c == 'Ş' || c == 'Ü'
  }

  /** The class `[a-zçğıöşü]`. */
  predicate IsLowerTr(c: char) {
    ('a' <= c <= 'z') || c == 'ç' || c == 'ğ' || c == 'ı' || c == 'ö' || c == 'ş' || c == 'ü'
  }

  /** The class `[.!?]` that separates sentences. */
  predicate IsTerminator(c: char) {
    c == '.' || c == '!' || c == '?'
  }

  /** No character is in two of the three classes; a terminator is not a word character of `Basic`. */
  lemma ClassesApart(c: char)
    ensures !(IsUpperTr(c) && IsLowerTr(c))
    ensures IsTerminator(c) ==> !IsUpperTr(c) && !IsLowerTr(c) && !BasicWord(c)
  {
  }

  // One concrete instance of the rules: ASCII whitespace and digits, the
  // Turkish alphabet, and the lower-casing of those letters.

  predicate BasicSpace(c: char) {
    c == ' ' || c == '\t' || c == '\n' || c == '\r' || c == '\U{000B}' || c == '\U{000C}'
  }

  predicate BasicDigit(c: char) {
    '0' <= c <= '9'
  }

  predicate BasicWord(c: char) {
    IsUpperTr(c) || IsLowerTr(c) || BasicDigit(c) || c == '_'
  }

  function BasicLowerChar(c: char): string {
    if 'A' <= c <= 'Z' then [(c as int + 32) as char]
    else if c == 'Ç' then "ç"
    else if c == 'Ğ' then "ğ"
    else if c == 'İ' then "i\U{0307}"
    else if c == 'Ö' then "ö"
    else if c == 'Ş' then "ş"
    else if c == 'Ü' then "ü"
    else [c]
  }

  function BasicLower(s: string): string {
    if s == [] then [] else BasicLowerChar(s[0]) + BasicLower(s[1..])
  }

  const Basic: CharRules := CharRules(BasicWord, BasicSpace, BasicDigit, BasicLower)

  /**
    The separations on which greedy matching relies.  In every pattern, a
    run of blanks is followed by a digit, a letter, `,`, `s` or `&`; a run
    of digits by `.`, `,`, `)` or `-`; a run of lower-case letters by a
    blank, `,` or a word boundary.  When none of these characters can
    extend the run before it, taking each run to its longest gives what
    Python's backtracking engine gives.
  */
  predicate Apart(rules: CharRules) {
    (forall c :: rules.isSpace(c) ==> !rules.isDigit(c) && !IsUpperTr(c) && !IsLowerTr(c)) &&
    (forall c :: IsLowerTr(c) ==> rules.isWord(c)) &&
    !rules.isSpace(',') && !rules.isSpace('&') &&
    !rules.isDigit('.') && !rules.isDigit(',') && !rules.isDigit(')') && !rules.isDigit('-')
  }

  /** The concrete rules keep these separations. */
  lemma BasicApart()
    ensures Apart(Basic)
  {
  }
}
