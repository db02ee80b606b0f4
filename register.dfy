/**
  The registration page: the role selector decides which form is shown, and each
  form field carries react-hook-form rules. React-hook-form runs a field's rules in
  the order required, minLength, pattern, validate, and reports the first one that fails;
  the submit handler is called only when no field has an error.
*/
module Register {
  import opened Common
  import opened Text

  /** Which rule of a field failed first. */
  datatype FieldError = Required | TooShort | BadPattern | OnlySpaces | NoUpper | NoLower | NoSpecial

  datatype Check = Valid | Invalid(error: FieldError)

  /** The character class `[A-Za-z\s]`. */
  predicate IsNameChar(c: char)
  {
    IsAsciiLetter(c) || IsSpace(c)
  }

  /**
    The rule of the company-name field, also used unchanged by the HR and the employee
    full-name fields: required, at least 3 characters, only letters and white space
    (`/^[A-Za-z\s]+$/`), and not white space only (`v.trim().length > 0`).
  */
  function CheckName(v: string): (r: Check)
    ensures r == Valid <==> |v| >= 3 && (forall i :: 0 <= i < |v| ==> IsNameChar(v[i])) && !AllSpace(v)
    ensures r == Invalid(OnlySpaces) <==> |v| >= 3 && AllSpace(v)
  {
    if v == "" then Invalid(Required)
    else if |v| < 3 then Invalid(TooShort)
    else if !(forall i | 0 <= i < |v| :: IsNameChar(v[i])) then Invalid(BadPattern)
    else if Trim(v) == "" then Invalid(OnlySpaces)
    else Valid
  }

  /** The local-part class `[a-zA-Z0-9._%+-]`. */
  predicate IsLocalChar(c: char)
  {
    IsAsciiLetter(c) || IsDigit(c) || c == '.' || c == '_' || c == '%' || c == '+' || c == '-'
  }

  /** The domain class `[a-zA-Z0-9.-]`. */
  predicate IsDomainChar(c: char)
  {
    IsAsciiLetter(c) || IsDigit(c) || c == '.' || c == '-'
  }

  /**
    `s` splits as `local@domain.tld` at the `@` at index `at` and the `.` at index `dot`:
    a non-empty local part, a non-empty domain, and a top-level domain of two or more ASCII letters.
  */
  predicate EmailSplit(s: string, at: int, dot: int)
    requires 0 <= at < dot < |s|
  {
    && 0 < at && at + 1 < dot && dot + 2 < |s|
    && s[at] == '@' && s[dot] == '.'
    && (forall i :: 0 <= i < at ==> IsLocalChar(s[i]))
    && (forall i :: at < i < dot ==> IsDomainChar(s[i]))
    && (forall i :: dot < i < |s| ==> IsAsciiLetter(s[i]))
  }

  /** The whole of `s` matches `/^[a-zA-Z0-9._%+-]+@[a-zA-Z0-9.-]+\.[a-zA-Z]{2,}$/`. */
  predicate MatchesEmail(s: string)
  {
    exists at, dot | 0 <= at < dot < |s| :: EmailSplit(s, at, dot)
  }

  /** The email rule of both registration forms: required, then the pattern. */
  function CheckEmail(v: string): (r: Check)
    ensures r == Valid <==> MatchesEmail(v)
    ensures r == Invalid(Required) <==> v == ""
  {
    if v == "" then Invalid(Required)
    else if !MatchesEmail(v) then Invalid(BadPattern)
    else Valid
  }

  /** The characters of `/[!@#$%^&*()_+{}[\]:;<>,.?~\\/-]/`. */
  const SpecialChars: string := "!@#$%^&*()_+{}[]:;<>,.?~\\/-"

  predicate HasUpper(v: string)
  {
    exists i | 0 <= i < |v| :: 'A' <= v[i] <= 'Z'
  }

  predicate HasLower(v: string)
  {
    exists i | 0 <= i < |v| :: 'a' <= v[i] <= 'z'
  }

  predicate HasSpecial(v: string)
  {
    exists i | 0 <= i < |v| :: v[i] in SpecialChars
  }

  /**
    The password rule of both registration forms: required, then the validators
    minLength (6), hasUpper, hasLower and hasSpecial, in that order.
  */
  function CheckPassword(v: string): (r: Check)
    ensures r == Valid <==> |v| >= 6 && HasUpper(v) && HasLower(v) && HasSpecial(v)
    ensures r == Invalid(Required) <==> v == ""
  {
    if v == "" then Invalid(Required)
    else if |v| < 6 then Invalid(TooShort)
    else if !HasUpper(v) then Invalid(NoUpper)
    else if !HasLower(v) then Invalid(NoLower)
    else if !HasSpecial(v) then Invalid(NoSpecial)
    else Valid
  }

  /** The form the page renders for the value of the role selector. */
  datatype Form = HrForm | EmployeeForm | NoForm

  function FormFor(role: string): (f: Form)
    ensures f == HrForm <==> role == "hr"
    ensures f == EmployeeForm <==> role == "employee"
  {
    if role == "hr" then HrForm else if role == "employee" then EmployeeForm else NoForm
  }

  /** What the HR form holds when it is submitted. */
  datatype HrRegistration = HrRegistration(companyName: string, name: string, email: string, password: string)

  /** The HR form's field errors, keyed by field name. */
  function HrErrors(f: HrRegistration): (errors: map<string, FieldError>)
    ensures errors.Keys <= {"companyName", "name", "email", "password"}
    ensures "companyName" in errors <==> CheckName(f.companyName) != Valid
    ensures "name" in errors <==> CheckName(f.name) != Valid
    ensures "email" in errors <==> !MatchesEmail(f.email)
    ensures "password" in errors <==> CheckPassword(f.password) != Valid
  {
    var e0: map<string, FieldError> := map[];
    var e1 := if CheckName(f.companyName).Invalid? then e0["companyName" := CheckName(f.companyName).error] else e0;
    var e2 := if CheckName(f.name).Invalid? then e1["name" := CheckName(f.name).error] else e1;
    var e3 := if CheckEmail(f.email).Invalid? then e2["email" := CheckEmail(f.email).error] else e2;
    if CheckPassword(f.password).Invalid? then e3["password" := CheckPassword(f.password).error] else e3
  }

  /** `handleSubmit`: the HR handler receives the form data only when no field has an error. */
  function SubmitHr(f: HrRegistration): (data: Option<HrRegistration>)
    ensures data.Some? <==> CheckName(f.companyName) == Valid && CheckName(f.name) == Valid
                            && MatchesEmail(f.email) && CheckPassword(f.password) == Valid
    ensures data.Some? ==> data.value == f
  {
    if HrErrors(f) == map[] then Some(f) else None
  }

  /**
    What the employee form holds. The profile-image input is not registered with
    the form, so it carries no rule and is not part of the submitted data.
  */
  datatype EmployeeInput = EmployeeInput(name: string, photoUrl: string, email: string, password: string)

  datatype EmployeeRegistration = EmployeeRegistration(name: string, email: string, password: string)

  /** The employee form's field errors, keyed by field name. */
  function EmployeeErrors(f: EmployeeInput): (errors: map<string, FieldError>)
    ensures errors.Keys <= {"name", "email", "password"}
    ensures "name" in errors <==> CheckName(f.name) != Valid
    ensures "email" in errors <==> !MatchesEmail(f.email)
    ensures "password" in errors <==> CheckPassword(f.password) != Valid
  {
    var e0: map<string, FieldError> := map[];
    var e1 := if CheckName(f.name).Invalid? then e0["name" := CheckName(f.name).error] else e0;
    var e2 := if CheckEmail(f.email).Invalid? then e1["email" := CheckEmail(f.email).error] else e1;
    if CheckPassword(f.password).Invalid? then e2["password" := CheckPassword(f.password).error] else e2
  }

  /** `handleSubmit`: the employee handler receives name, email and password only when no field has an error. */
  function SubmitEmployee(f: EmployeeInput): (data: Option<EmployeeRegistration>)
    ensures data.Some? <==> CheckName(f.name) == Valid && MatchesEmail(f.email) && CheckPassword(f.password) == Valid
    ensures data.Some? ==> data.value == EmployeeRegistration(f.name, f.email, f.password)
  {
    if EmployeeErrors(f) == map[] then Some(EmployeeRegistration(f.name, f.email, f.password)) else None
  }

  /** The profile image does not influence validation or submission. */
  lemma PhotoCarriesNoRule(f: EmployeeInput, photoUrl: string)
    ensures EmployeeErrors(f.(photoUrl := photoUrl)) == EmployeeErrors(f)
    ensures SubmitEmployee(f.(photoUrl := photoUrl)) == SubmitEmployee(f)
  {
  }

  /** The number of occurrences of `c` in `s`. */
  function Count(s: string, c: char): nat
    decreases |s|
  {
    if s == [] then 0 else (if s[0] == c then 1 else 0) + Count(s[1..], c)
  }

  lemma {:induction false} CountAppend(a: string, b: string, c: char)
    ensures Count(a + b, c) == Count(a, c) + Count(b, c)
    decreases |a|
  {
    if a != [] {
      assert (a + b)[0] == a[0] && (a + b)[1..] == a[1..] + b;
      CountAppend(a[1..], b, c);
    } else {
      assert a + b == b;
    }
  }

  lemma {:induction false} CountAbsent(s: string, c: char)
    requires forall i :: 0 <= i < |s| ==> s[i] != c
    ensures Count(s, c) == 0
    decreases |s|
  {
    if s != [] {
      CountAbsent(s[1..], c);
    }
  }

  /** An address the pattern accepts contains exactly one `@`. */
  lemma {:induction false} EmailHasOneAt(s: string)
    requires MatchesEmail(s)
    ensures Count(s, '@') == 1
  {
    var at, dot :| 0 <= at < dot < |s| && EmailSplit(s, at, dot);
    var local, rest := s[..at], s[at + 1..];
    assert s == local + [s[at]] + rest;
    CountAbsent(local, '@');
    forall i | 0 <= i < |rest|
      ensures rest[i] != '@'
    {
      assert rest[i] == s[at + 1 + i];
    }
    CountAbsent(rest, '@');
    CountAppend(local, [s[at]], '@');
    CountAppend(local + [s[at]], rest, '@');
  }
}
