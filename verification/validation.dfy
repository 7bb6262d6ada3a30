/** The registration form's input schema (`userAuthSchema`): a well-formed
    email, a password of at least eight characters, and a confirmation field
    that is only required to be a string. The email-format test belongs to
    the schema library and is passed in as the predicate `isEmail`. */
module Validation {
  import opened Values

  datatype FormData = FormData(email: string, password: string, confirmPassword: string)

  datatype Field = Email | Password | ConfirmPassword

  datatype IssueKind = InvalidEmail | TooShort(minimum: nat)

  /** One schema failure, attached to the field it concerns. */
  datatype Issue = Issue(path: Field, kind: IssueKind)

  const MinPasswordLength: nat := 8

  /** The assumption made of the abstract email check: whatever it accepts
      contains an `@`. */
  ghost predicate EmailFormatHasAt(isEmail: string -> bool) {
    forall s :: isEmail(s) ==> '@' in s
  }

  /** The fields that carry at least one issue. */
  function Paths(issues: seq<Issue>): set<Field> {
    set i | 0 <= i < |issues| :: issues[i].path
  }

  lemma PathsAppend(a: seq<Issue>, b: seq<Issue>)
    ensures Paths(a + b) == Paths(a) + Paths(b)
    ensures |a| == 1 ==> Paths(a) == {a[0].path}
    ensures |b| == 1 ==> Paths(b) == {b[0].path}
  {
    forall f | f in Paths(a) + Paths(b) ensures f in Paths(a + b) {
      if f in Paths(a) {
        var i :| 0 <= i < |a| && a[i].path == f;
        assert (a + b)[i] == a[i];
      } else {
        var i :| 0 <= i < |b| && b[i].path == f;
        assert (a + b)[|a| + i] == b[i];
      }
    }
  }

  /** Parses the form in the schema's field order, collecting every issue. */
  function Validate(input: FormData, isEmail: string -> bool): (r: Result<FormData, seq<Issue>>)
    ensures r.Ok? <==> isEmail(input.email) && |input.password| >= MinPasswordLength
    ensures r.Ok? ==> r.value == input
    ensures r.Err? ==> (Email in Paths(r.error) <==> !isEmail(input.email))
    ensures r.Err? ==> (Password in Paths(r.error) <==> |input.password| < MinPasswordLength)
    ensures r.Err? ==> ConfirmPassword !in Paths(r.error)
  {
    var emailIssues := if isEmail(input.email) then [] else [Issue(Email, InvalidEmail)];
    var passwordIssues :=
      if |input.password| >= MinPasswordLength then [] else [Issue(Password, TooShort(MinPasswordLength))];
    var issues := emailIssues + passwordIssues;
    PathsAppend(emailIssues, passwordIssues);
    if issues == [] then Ok(input) else Err(issues)
  }

  /** The confirmation field never influences the schema's verdict nor the
      issues it reports: checking it against the password is left to the
      caller. */
  lemma ConfirmPasswordUnchecked(input: FormData, other: string, isEmail: string -> bool)
    ensures Validate(input.(confirmPassword := other), isEmail).Ok? == Validate(input, isEmail).Ok?
    ensures Validate(input.(confirmPassword := other), isEmail).Err? ==>
              Validate(input.(confirmPassword := other), isEmail).error == Validate(input, isEmail).error
  {
  }

  /** A form the schema accepts has an `@` in its email, under the
      assumption made of the email check. */
  lemma AcceptedEmailHasAt(input: FormData, isEmail: string -> bool)
    requires EmailFormatHasAt(isEmail)
    requires Validate(input, isEmail).Ok?
    ensures '@' in input.email
  {
  }
}
