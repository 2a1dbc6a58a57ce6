/** The pure part of the job-posting form (src/components/JobForm.tsx): the form's
    values, the validation rules registered for each field, the border-highlight
    test `hasValue`, and the projection of the values into the request body.

    Validation follows react-hook-form: a field's rules are tried in the fixed
    order required, minLength, pattern, validate, and the first that fails gives
    the field's one message. That order is an assumption about the library, not
    something the form's own code states. */
module JobFormRules {
  import opened Wrappers
  import opened Strings

  /** The form's values. The deadline is an instant in milliseconds since the
      epoch, or `None` for `null`. */
  datatype FormData = FormData(
    jobTitle: string,
    companyName: string,
    location: string,
    jobType: string,
    minSalary: string,
    maxSalary: string,
    applicationDeadline: Option<int>,
    jobDescription: string)

  /** The values the form starts with and `reset()` returns to. */
  const DefaultValues: FormData := FormData("", "", "", "", "", "", None, "")

  const LocationOptions: seq<string> := ["Remote", "Banglore", "Hyderabad", "Chennai", "Kochi"]
  const JobTypeOptions: seq<string> := ["Full-time", "Part-time", "Internship", "Remote"]

  /** The names of the form's fields, as `keyof FormData`. */
  datatype Field =
    | JobTitle | CompanyName | Location | JobType
    | MinSalary | MaxSalary | ApplicationDeadline | JobDescription

  /** The text held by a field other than the deadline. */
  function TextOf(v: FormData, f: Field): string
    requires f != ApplicationDeadline
  {
    match f
    case JobTitle => v.jobTitle
    case CompanyName => v.companyName
    case Location => v.location
    case JobType => v.jobType
    case MinSalary => v.minSalary
    case MaxSalary => v.maxSalary
    case JobDescription => v.jobDescription
  }

  // ---------------------------------------------------------------- rules

  /** A field's validation outcome: no error, or the message shown under it. */
  datatype Check = Ok | Error(message: string)

  /** The two anchored patterns the form uses: `/^[A-Za-z\s]+$/` and `/^\d+$/`. */
  datatype Pattern = LettersOrWhitespace | Digits

  predicate InClass(p: Pattern, c: char) {
    match p
    case LettersOrWhitespace => IsAsciiLetter(c) || IsWhitespace(c)
    case Digits => IsDigit(c)
  }

  /** The whole string is one or more characters of the class. */
  predicate Matches(p: Pattern, s: string) {
    |s| >= 1 && forall i :: 0 <= i < |s| ==> InClass(p, s[i])
  }

  /** The options passed to `register` or to a `Controller`'s `rules`; `validate`
      holds what the field's validate callback returns for the current values. */
  datatype Rules = Rules(
    required: Option<string>,
    minLength: Option<(nat, string)>,
    pattern: Option<(Pattern, string)>,
    validate: Option<Check>)

  /** One text field checked against its rules. `required` fails on the empty
      string; `minLength` and `pattern` are only tried on a non-empty value. */
  function CheckText(value: string, rules: Rules): (r: Check)
    ensures r == Ok <==>
      && (rules.required.Some? ==> value != "")
      && (value != "" && rules.minLength.Some? ==> |value| >= rules.minLength.value.0)
      && (value != "" && rules.pattern.Some? ==> Matches(rules.pattern.value.0, value))
      && (rules.validate.Some? ==> rules.validate.value == Ok)
  {
    if rules.required.Some? && value == "" then Error(rules.required.value)
    else if rules.minLength.Some? && value != "" && |value| < rules.minLength.value.0 then
      Error(rules.minLength.value.1)
    else if rules.pattern.Some? && value != "" && !Matches(rules.pattern.value.0, value) then
      Error(rules.pattern.value.1)
    else if rules.validate.Some? && rules.validate.value.Error? then rules.validate.value
    else Ok
  }

  const JobTitleRules: Rules :=
    Rules(Some("Job title is required"), Some((3, "Min 3 characters")),
          Some((LettersOrWhitespace, "Only letters allowed")), None)

  /** A title is accepted exactly when it has at least three characters, all ASCII
      letters or white space; each other case has its own message. */
  function CheckJobTitle(s: string): (r: Check)
    ensures r == Ok <==> |s| >= 3 && forall i :: 0 <= i < |s| ==> IsAsciiLetter(s[i]) || IsWhitespace(s[i])
    ensures r == Error("Job title is required") <==> s == ""
    ensures r == Error("Min 3 characters") <==> 0 < |s| < 3
    ensures r == Error("Only letters allowed") <==>
      |s| >= 3 && exists i :: 0 <= i < |s| && !(IsAsciiLetter(s[i]) || IsWhitespace(s[i]))
  {
    CheckText(s, JobTitleRules)
  }

  const CompanyNameRules: Rules :=
    Rules(Some("Company name is required"), Some((2, "Min 2 characters")), None, None)

  function CheckCompanyName(s: string): (r: Check)
    ensures r == Ok <==> |s| >= 2
    ensures r == Error("Company name is required") <==> s == ""
    ensures r == Error("Min 2 characters") <==> |s| == 1
  {
    CheckText(s, CompanyNameRules)
  }

  /** Location is only required: any non-empty text passes, in the option list or not. */
  function CheckLocation(s: string): (r: Check)
    ensures r == Ok <==> s != ""
    ensures r.Error? ==> r.message == "Location is required"
  {
    CheckText(s, Rules(Some("Location is required"), None, None, None))
  }

  /** Job type is only required, like location. */
  function CheckJobType(s: string): (r: Check)
    ensures r == Ok <==> s != ""
    ensures r.Error? ==> r.message == "Job type is required"
  {
    CheckText(s, Rules(Some("Job type is required"), None, None, None))
  }

  function CheckMinSalary(s: string): (r: Check)
    ensures r == Ok <==> s != "" && IsDigits(s)
    ensures r == Error("Min salary is required") <==> s == ""
    ensures r == Error("Only numbers allowed") <==> s != "" && !IsDigits(s)
  {
    CheckText(s, Rules(Some("Min salary is required"), None, Some((Digits, "Only numbers allowed")), None))
  }

  /** What `Number.parseInt(max) > Number.parseInt(min)` evaluates to; a NaN on
      either side makes it false. */
  predicate ParsedGreater(max: string, min: string) {
    match (ParseInt(max), ParseInt(min))
    case (Some(a), Some(b)) => a > b
    case _ => false
  }

  /** Max salary: required, digits only, and then its value must exceed what
      `parseInt` reads from the current min salary (nothing, for an empty or
      non-numeric min, which then always fails). */
  function CheckMaxSalary(max: string, min: string): (r: Check)
    ensures r == Ok <==>
      max != "" && IsDigits(max) && ParseInt(min).Some? && DecimalValue(max) > ParseInt(min).value
    ensures r == Error("Max salary is required") <==> max == ""
    ensures r == Error("Only numbers allowed") <==> max != "" && !IsDigits(max)
    ensures r == Error("Max salary must be greater than min salary") <==>
      max != "" && IsDigits(max) && !(ParseInt(min).Some? && DecimalValue(max) > ParseInt(min).value)
  {
    var validate := if ParsedGreater(max, min) then Ok
                    else Error("Max salary must be greater than min salary");
    assert max != "" && IsDigits(max) ==> ParseInt(max) == Some(DecimalValue(max)) by {
      if max != "" && IsDigits(max) {
        ParseIntOfDigits(max);
      }
    }
    CheckText(max, Rules(Some("Max salary is required"), None,
                         Some((Digits, "Only numbers allowed")), Some(validate)))
  }

  /** The deadline is only required: any instant passes, past ones included. */
  function CheckDeadline(d: Option<int>): (r: Check)
    ensures r == Ok <==> d.Some?
    ensures r.Error? ==> r.message == "Application deadline is required"
  {
    if d.None? then Error("Application deadline is required") else Ok
  }

  function CheckDescription(s: string): (r: Check)
    ensures r == Ok <==> |s| >= 10
    ensures r == Error("Job description is required") <==> s == ""
    ensures r == Error("Min 10 characters required") <==> 0 < |s| < 10
  {
    CheckText(s, Rules(Some("Job description is required"),
                       Some((10, "Min 10 characters required")), None, None))
  }

  // ---------------------------------------------------------------- the whole form

  /** Each field's own outcome; no field's error hides another's. */
  datatype FormErrors = FormErrors(
    jobTitle: Check,
    companyName: Check,
    location: Check,
    jobType: Check,
    minSalary: Check,
    maxSalary: Check,
    applicationDeadline: Check,
    jobDescription: Check)

  function Validate(v: FormData): FormErrors {
    FormErrors(
      CheckJobTitle(v.jobTitle),
      CheckCompanyName(v.companyName),
      CheckLocation(v.location),
      CheckJobType(v.jobType),
      CheckMinSalary(v.minSalary),
      CheckMaxSalary(v.maxSalary, v.minSalary),
      CheckDeadline(v.applicationDeadline),
      CheckDescription(v.jobDescription))
  }

  predicate NoErrors(e: FormErrors) {
    e.jobTitle == Ok && e.companyName == Ok && e.location == Ok && e.jobType == Ok
    && e.minSalary == Ok && e.maxSalary == Ok && e.applicationDeadline == Ok
    && e.jobDescription == Ok
  }

  /** The form may be submitted. */
  predicate FormValid(v: FormData) {
    NoErrors(Validate(v))
  }

  /** Submission is permitted exactly when every field meets its rule, stated
      without the rule machinery; in particular equal salaries are refused. */
  lemma FormValidIff(v: FormData)
    ensures FormValid(v) <==>
      && |v.jobTitle| >= 3
      && (forall i :: 0 <= i < |v.jobTitle| ==> IsAsciiLetter(v.jobTitle[i]) || IsWhitespace(v.jobTitle[i]))
      && |v.companyName| >= 2
      && v.location != ""
      && v.jobType != ""
      && v.minSalary != "" && IsDigits(v.minSalary)
      && v.maxSalary != "" && IsDigits(v.maxSalary)
      && DecimalValue(v.maxSalary) > DecimalValue(v.minSalary)
      && v.applicationDeadline.Some?
      && |v.jobDescription| >= 10
  {
    if v.minSalary != "" && IsDigits(v.minSalary) {
      ParseIntOfDigits(v.minSalary);
    }
  }

  /** For two salaries that pass the digits pattern, max is accepted exactly when
      its value is strictly greater than min's. */
  lemma MaxSalaryStrictlyGreater(max: string, min: string)
    requires max != "" && IsDigits(max) && min != "" && IsDigits(min)
    ensures CheckMaxSalary(max, min) == Ok <==> DecimalValue(max) > DecimalValue(min)
  {
    ParseIntOfDigits(min);
  }

  lemma FiftyThousand()
    ensures IsDigits("50000") && DecimalValue("50000") == 50000
    ensures IsDigits("50001") && DecimalValue("50001") == 50001
  {
    DecimalValueSnoc("", 5);
    assert "" + [DigitChar(5)] == "5";
    DecimalValueSnoc("5", 0);
    assert "5" + [DigitChar(0)] == "50";
    DecimalValueSnoc("50", 0);
    assert "50" + [DigitChar(0)] == "500";
    DecimalValueSnoc("500", 0);
    assert "500" + [DigitChar(0)] == "5000";
    DecimalValueSnoc("5000", 0);
    assert "5000" + [DigitChar(0)] == "50000";
    DecimalValueSnoc("5000", 1);
    assert "5000" + [DigitChar(1)] == "50001";
  }

  /** The worked example: min "50000" with max "50000" is refused, max "50001" passes. */
  lemma SalaryExample()
    ensures CheckMaxSalary("50000", "50000") == Error("Max salary must be greater than min salary")
    ensures CheckMaxSalary("50001", "50000") == Ok
  {
    FiftyThousand();
    MaxSalaryStrictlyGreater("50000", "50000");
    MaxSalaryStrictlyGreater("50001", "50000");
  }

  /** The single line under the two salary inputs: min's message when min has
      one, else max's, and nothing when both pass. */
  function SalaryMessage(e: FormErrors): (r: Option<string>)
    ensures r.None? <==> e.minSalary == Ok && e.maxSalary == Ok
    ensures e.minSalary.Error? ==> r == Some(e.minSalary.message)
    ensures e.minSalary == Ok && e.maxSalary.Error? ==> r == Some(e.maxSalary.message)
  {
    match (e.minSalary, e.maxSalary)
    case (Error(m), _) => Some(m)
    case (Ok, Error(m)) => Some(m)
    case (Ok, Ok) => None
  }

  // ---------------------------------------------------------------- border highlight

  /** `hasValue`: the deadline is set when it is not null; a text field when some
      character of it is not white space. */
  function HasValue(v: FormData, f: Field): (r: bool)
    ensures f == ApplicationDeadline ==> (r <==> v.applicationDeadline.Some?)
    ensures f != ApplicationDeadline ==>
      (r <==> exists i :: 0 <= i < |TextOf(v, f)| && !IsWhitespace(TextOf(v, f)[i]))
  {
    if f == ApplicationDeadline then v.applicationDeadline.Some?
    else TextOf(v, f) != "" && Trim(TextOf(v, f)) != ""
  }

  // ---------------------------------------------------------------- the request body

  /** The body posted to create a job: field names as the server expects them. */
  datatype JobPostingRequest = JobPostingRequest(
    title: string,
    company_name: string,
    location: string,
    job_type: string,
    salary_range: int,
    description: string,
    application_deadline: Option<int>)

  /** `convertJobType`: the same length, no lower-case letter left, and equal to
      `t` up to case. */
  function ConvertJobType(t: string): (r: string)
    ensures |r| == |t|
    ensures forall i :: 0 <= i < |r| ==> !IsAsciiLower(r[i]) && LowerChar(r[i]) == LowerChar(t[i])
  {
    ToUpper(t)
  }

  lemma ConvertJobTypeExample()
    ensures ConvertJobType("Full-time") == "FULL-TIME"
    ensures ConvertJobType("full-time") == "FULL-TIME"
  {
  }

  /** `transformedData` in `onSubmit`. The job type is case-insensitively the form's
      and has no lower-case letter left; the salary is the number written in max
      salary, which validation has made a digit string. */
  function Transform(d: FormData): (r: JobPostingRequest)
    requires d.maxSalary != "" && IsDigits(d.maxSalary)
    ensures r.title == d.jobTitle && r.company_name == d.companyName
    ensures r.location == d.location && r.description == d.jobDescription
    ensures r.application_deadline == d.applicationDeadline
    ensures |r.job_type| == |d.jobType|
    ensures forall i :: 0 <= i < |r.job_type| ==>
      !IsAsciiLower(r.job_type[i]) && LowerChar(r.job_type[i]) == LowerChar(d.jobType[i])
    ensures ParseInt(d.maxSalary) == Some(r.salary_range)
  {
    ParseIntOfDigits(d.maxSalary);
    JobPostingRequest(d.jobTitle, d.companyName, d.location, ConvertJobType(d.jobType),
                      DecimalValue(d.maxSalary), d.jobDescription, d.applicationDeadline)
  }

  /** The min salary never reaches the request. */
  lemma TransformIgnoresMinSalary(d: FormData, min: string)
    requires d.maxSalary != "" && IsDigits(d.maxSalary)
    ensures Transform(d.(minSalary := min)) == Transform(d)
  {
  }

  /** The salary sent for a valid form is strictly above the min salary typed. */
  lemma {:induction false} SubmittedSalaryAboveMin(d: FormData)
    requires FormValid(d)
    ensures Transform(d).salary_range > DecimalValue(d.minSalary)
  {
    FormValidIff(d);
    ParseIntOfDigits(d.maxSalary);
  }
}
