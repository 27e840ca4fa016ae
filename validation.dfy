/** The request-validation rules the routes use: express-validator chains
    on the body (`notEmpty`, `isLength`, `isEmail`, `optional`) and the
    first-error reporting of `validationResult(req).array()[0].msg`; and the
    Sequelize column validator `notEmpty`, which the models declare. */
module Validation {
  import opened Http

  /** express-validator reads a body key as a string; `undefined` and
      `null` read as "". */
  function AsString(f: Field<string>): string {
    if f.Given? then f.value else ""
  }

  /** `body(k).notEmpty()`: the string read is not "". */
  predicate NotEmpty(f: Field<string>) {
    AsString(f) != ""
  }

  /** `body(k).isLength({ min: n })`. */
  predicate MinLength(f: Field<string>, n: nat) {
    |AsString(f)| >= n
  }

  /** `body(k).isEmail()`, with the address syntax left to an oracle. */
  predicate IsEmail(f: Field<string>, isEmail: string -> bool) {
    isEmail(AsString(f))
  }

  /** `body(k).optional().<rule>`: a missing key passes; any other value,
      `null` included, must satisfy the rule. */
  predicate Optional(f: Field<string>, rule: bool) {
    f.Undefined? || rule
  }

  /** A validation chain: whether the rule held, and its `withMessage`. */
  datatype Check = Check(passed: bool, message: string)

  /** The message of the first failing check, in declaration order, or None
      when every check passed. */
  function FirstError(checks: seq<Check>): (r: Option<string>)
    ensures r.None? <==> forall i :: 0 <= i < |checks| ==> checks[i].passed
    ensures r.Some? ==> exists i :: 0 <= i < |checks| && !checks[i].passed && checks[i].message == r.value &&
                                    forall j :: 0 <= j < i ==> checks[j].passed
  {
    if checks == [] then None
    else if !checks[0].passed then Some(checks[0].message)
    else
      var r := FirstError(checks[1..]);
      if r.Some? then
        var i :| 0 <= i < |checks| - 1 && !checks[1..][i].passed && checks[1..][i].message == r.value &&
                 forall j :: 0 <= j < i ==> checks[1..][j].passed;
        assert !checks[i + 1].passed && forall j :: 0 <= j < i + 1 ==> checks[j].passed;
        r
      else r
  }

  /** The chains run in order: a failing first check reports its message,
      otherwise the rest decide. */
  lemma FirstErrorStep(checks: seq<Check>)
    requires checks != []
    ensures FirstError(checks) == if !checks[0].passed then Some(checks[0].message) else FirstError(checks[1..])
  {
  }

  /** JavaScript's `\s` class: the characters a regular expression treats as
      white space. */
  predicate IsJsSpace(c: char) {
    || c == '\t' || c == '\n' || c == '\U{000B}' || c == '\U{000C}' || c == '\r' || c == ' '
    || c == '\U{00A0}' || c == '\U{1680}' || ('\U{2000}' <= c <= '\U{200A}')
    || c == '\U{2028}' || c == '\U{2029}' || c == '\U{202F}' || c == '\U{205F}'
    || c == '\U{3000}' || c == '\U{FEFF}'
  }

  /** Sequelize's `validate: { notEmpty: true }` rejects a string matching
      `/^[\s\t\r\n]*$/`, that is, one made only of white space. */
  predicate Blank(s: string) {
    forall i :: 0 <= i < |s| ==> IsJsSpace(s[i])
  }
}
