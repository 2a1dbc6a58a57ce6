/** The stateful part of the job-posting form (src/components/JobForm.tsx): the
    form's values, the one persisted draft slot (`localStorage` key "jobDraft"),
    the "Draft Saved" flag and the two dropdown flags, with the handlers that
    change them. The network call of `onSubmit` is replaced by its outcome,
    passed in as `success`. */
module JobForm {
  import opened Wrappers
  import opened JobFormRules

  /** The persisted draft as `JSON.parse` returns it: one entry per field, `None`
      where the key is absent. The deadline's entry is `Some(None)` for a stored
      `null` and `Some(Some(ms))` for a stored date; JSON keeps that date as an ISO
      string, and `new Date` reads it back as the same millisecond instant. */
  datatype Draft = Draft(
    jobTitle: Option<string>,
    companyName: Option<string>,
    location: Option<string>,
    jobType: Option<string>,
    minSalary: Option<string>,
    maxSalary: Option<string>,
    applicationDeadline: Option<Option<int>>,
    jobDescription: Option<string>)

  const NoEntries: Draft := Draft(None, None, None, None, None, None, None, None)

  predicate Present(d: Draft, f: Field) {
    match f
    case JobTitle => d.jobTitle.Some?
    case CompanyName => d.companyName.Some?
    case Location => d.location.Some?
    case JobType => d.jobType.Some?
    case MinSalary => d.minSalary.Some?
    case MaxSalary => d.maxSalary.Some?
    case ApplicationDeadline => d.applicationDeadline.Some?
    case JobDescription => d.jobDescription.Some?
  }

  /** The form's fields in the order `watch()` lists them. */
  const AllFields: seq<Field> :=
    [JobTitle, CompanyName, Location, JobType, MinSalary, MaxSalary, ApplicationDeadline, JobDescription]

  lemma AllFieldsListed()
    ensures forall f :: f in AllFields
  {
    forall f ensures f in AllFields {
      match f
      case JobTitle => assert AllFields[0] == f;
      case CompanyName => assert AllFields[1] == f;
      case Location => assert AllFields[2] == f;
      case JobType => assert AllFields[3] == f;
      case MinSalary => assert AllFields[4] == f;
      case MaxSalary => assert AllFields[5] == f;
      case ApplicationDeadline => assert AllFields[6] == f;
      case JobDescription => assert AllFields[7] == f;
    }
  }

  /** The fields of `fs` that the draft holds, in the order of `fs`. */
  function PresentAmong(d: Draft, fs: seq<Field>): (ks: seq<Field>)
    ensures forall f :: f in ks <==> f in fs && Present(d, f)
  {
    if fs == [] then []
    else (if Present(d, fs[0]) then [fs[0]] else []) + PresentAmong(d, fs[1..])
  }

  /** `Object.keys(parsedDraft)`: the fields the draft holds. */
  function Keys(d: Draft): (ks: seq<Field>)
    ensures forall f :: f in ks <==> Present(d, f)
  {
    AllFieldsListed();
    PresentAmong(d, AllFields)
  }

  /** What `saveDraft` stores: `JSON.stringify(watch())` writes every field. */
  function DraftOf(v: FormData): (d: Draft)
    ensures forall f :: Present(d, f)
  {
    Draft(Some(v.jobTitle), Some(v.companyName), Some(v.location), Some(v.jobType),
          Some(v.minSalary), Some(v.maxSalary), Some(v.applicationDeadline), Some(v.jobDescription))
  }

  /** The values once every entry of the draft has been set: a field the draft
      holds takes the draft's value, any other keeps the one it had. */
  function Restored(base: FormData, d: Draft): FormData {
    FormData(
      d.jobTitle.GetOr(base.jobTitle),
      d.companyName.GetOr(base.companyName),
      d.location.GetOr(base.location),
      d.jobType.GetOr(base.jobType),
      d.minSalary.GetOr(base.minSalary),
      d.maxSalary.GetOr(base.maxSalary),
      d.applicationDeadline.GetOr(base.applicationDeadline),
      d.jobDescription.GetOr(base.jobDescription))
  }

  /** The entries of `d` whose field is among `ks`. */
  function Only(d: Draft, ks: seq<Field>): Draft {
    Draft(
      if JobTitle in ks then d.jobTitle else None,
      if CompanyName in ks then d.companyName else None,
      if Location in ks then d.location else None,
      if JobType in ks then d.jobType else None,
      if MinSalary in ks then d.minSalary else None,
      if MaxSalary in ks then d.maxSalary else None,
      if ApplicationDeadline in ks then d.applicationDeadline else None,
      if JobDescription in ks then d.jobDescription else None)
  }

  /** One `setValue(key, ...)` call of the restore loop. */
  function SetFromDraft(v: FormData, d: Draft, f: Field): FormData
    requires Present(d, f)
  {
    match f
    case JobTitle => v.(jobTitle := d.jobTitle.value)
    case CompanyName => v.(companyName := d.companyName.value)
    case Location => v.(location := d.location.value)
    case JobType => v.(jobType := d.jobType.value)
    case MinSalary => v.(minSalary := d.minSalary.value)
    case MaxSalary => v.(maxSalary := d.maxSalary.value)
    case ApplicationDeadline => v.(applicationDeadline := d.applicationDeadline.value)
    case JobDescription => v.(jobDescription := d.jobDescription.value)
  }

  /** The restore loop: `setValue` for each key of the parsed draft in turn. */
  method ApplyDraft(base: FormData, d: Draft) returns (v: FormData)
    ensures v == Restored(base, d)
  {
    var keys := Keys(d);
    v := base;
    assert Only(d, keys[..0]) == NoEntries;
    for i := 0 to |keys|
      invariant v == Restored(base, Only(d, keys[..i]))
    {
      var f := keys[i];
      assert f in keys;
      assert keys[..i + 1] == keys[..i] + [f];
      OnlyOneMore(base, d, keys[..i], f);
      v := SetFromDraft(v, d, f);
    }
    assert keys[..|keys|] == keys;
    OnlyAllKeys(d);
  }

  lemma OnlyOneMore(base: FormData, d: Draft, ks: seq<Field>, f: Field)
    requires Present(d, f)
    ensures Restored(base, Only(d, ks + [f])) == SetFromDraft(Restored(base, Only(d, ks)), d, f)
  {
    forall g ensures g in ks + [f] <==> g in ks || g == f {
    }
  }

  lemma OnlyAllKeys(d: Draft)
    ensures Only(d, Keys(d)) == d
  {
  }

  /** A saved draft restored over the defaults gives back every value saved,
      the deadline as the same instant. */
  lemma RestoreRoundTrip(v: FormData)
    ensures Restored(DefaultValues, DraftOf(v)) == v
  {
  }

  /** The draft's entry for a text field. */
  function TextEntry(d: Draft, f: Field): Option<string>
    requires f != ApplicationDeadline
  {
    match f
    case JobTitle => d.jobTitle
    case CompanyName => d.companyName
    case Location => d.location
    case JobType => d.jobType
    case MinSalary => d.minSalary
    case MaxSalary => d.maxSalary
    case JobDescription => d.jobDescription
  }

  /** Field by field, a restored value is the draft's entry when the draft holds
      the field and the value it had otherwise. */
  lemma RestoreFieldwise(base: FormData, d: Draft)
    ensures forall f :: f != ApplicationDeadline ==>
      TextOf(Restored(base, d), f) == if Present(d, f) then TextEntry(d, f).value else TextOf(base, f)
    ensures Restored(base, d).applicationDeadline ==
      if Present(d, ApplicationDeadline) then d.applicationDeadline.value else base.applicationDeadline
    ensures Restored(base, NoEntries) == base
  {
  }

  /** How a submission ended: blocked by validation (the request is never built),
      or sent, and then acknowledged as created or not. */
  datatype SubmitOutcome =
    | NotSubmitted(errors: FormErrors)
    | Created(request: JobPostingRequest)
    | Failed(request: JobPostingRequest)

  class JobFormController {
    var values: FormData
    /** The "jobDraft" entry of local storage. */
    var draftSlot: Option<Draft>
    var isSaved: bool
    var locationDropdownOpen: bool
    var jobTypeDropdownOpen: bool

    /** The form as mounted: default values, closed dropdowns, and the slot as
        storage holds it. */
    constructor (stored: Option<Draft>)
      ensures values == DefaultValues && draftSlot == stored
      ensures !isSaved && !locationDropdownOpen && !jobTypeDropdownOpen
    {
      values := DefaultValues;
      draftSlot := stored;
      isSaved := false;
      locationDropdownOpen := false;
      jobTypeDropdownOpen := false;
    }

    /** The effect run when the form opens: every entry of a stored draft is set,
        and nothing else changes. */
    method RestoreOnOpen()
      modifies this`values
      ensures values == if draftSlot.Some? then Restored(old(values), draftSlot.value) else old(values)
    {
      if draftSlot.Some? {
        values := ApplyDraft(values, draftSlot.value);
      }
    }

    /** `saveDraft`: the slot is overwritten with the current values and the
        saved flag is raised; the values stay as they are. */
    method SaveDraft()
      modifies this`draftSlot, this`isSaved
      ensures draftSlot == Some(DraftOf(values)) && isSaved
    {
      draftSlot := Some(DraftOf(values));
      isSaved := true;
    }

    /** The two-second timer started by `saveDraft` fires. */
    method SavedTimerFires()
      modifies this`isSaved
      ensures !isSaved
    {
      isSaved := false;
    }

    /** react-hook-form's `reset()`: back to the default values. */
    method Reset()
      modifies this`values
      ensures values == DefaultValues
    {
      values := DefaultValues;
    }

    /** The form's `onSubmit` behind `handleSubmit`. Invalid values are not sent.
        Valid values are projected into the request; a successful creation resets
        the values, removes the slot and asks the host to close the form; a
        failure (a response without success, or a thrown error) leaves the values
        and the slot as they were. */
    method Submit(success: bool) returns (outcome: SubmitOutcome, closeForm: bool)
      modifies this`values, this`draftSlot
      ensures !FormValid(old(values)) ==>
        outcome == NotSubmitted(Validate(old(values)))
        && values == old(values) && draftSlot == old(draftSlot)
      ensures FormValid(old(values)) && success ==>
        outcome == Created(Transform(old(values))) && values == DefaultValues && draftSlot == None
      ensures FormValid(old(values)) && !success ==>
        outcome == Failed(Transform(old(values)))
        && values == old(values) && draftSlot == old(draftSlot)
      ensures closeForm <==> outcome.Created?
    {
      var errors := Validate(values);
      if !NoErrors(errors) {
        return NotSubmitted(errors), false;
      }
      var request := Transform(values);
      if success {
        Reset();
        draftSlot := None;
        return Created(request), true;
      }
      return Failed(request), false;
    }

    /** A keystroke in one of the five text inputs; location and job type have
        none and change only through their dropdowns, a restore or a reset. */
    method TypeText(f: Field, s: string)
      requires f != ApplicationDeadline && f != Location && f != JobType
      modifies this`values
      ensures TextOf(values, f) == s
      ensures forall g :: g != f && g != ApplicationDeadline ==> TextOf(values, g) == TextOf(old(values), g)
      ensures values.applicationDeadline == old(values).applicationDeadline
    {
      values := match f
        case JobTitle => values.(jobTitle := s)
        case CompanyName => values.(companyName := s)
        case Location => values.(location := s)
        case JobType => values.(jobType := s)
        case MinSalary => values.(minSalary := s)
        case MaxSalary => values.(maxSalary := s)
        case JobDescription => values.(jobDescription := s);
    }

    /** The date picker's `onChange`; `None` when the picker is cleared. */
    method PickDeadline(d: Option<int>)
      modifies this`values
      ensures values == old(values).(applicationDeadline := d)
    {
      values := values.(applicationDeadline := d);
    }

    /** A click on the location header flips only its own flag. */
    method ToggleLocationDropdown()
      modifies this`locationDropdownOpen
      ensures locationDropdownOpen == !old(locationDropdownOpen)
    {
      locationDropdownOpen := !locationDropdownOpen;
    }

    /** Choosing the `i`-th location, which is listed only while the dropdown is
        open: the field takes that option, and only the location dropdown closes. */
    method SelectLocation(i: nat)
      requires locationDropdownOpen && i < |LocationOptions|
      modifies this`values, this`locationDropdownOpen
      ensures values == old(values).(location := LocationOptions[i])
      ensures values.location in LocationOptions && !locationDropdownOpen
    {
      values := values.(location := LocationOptions[i]);
      locationDropdownOpen := false;
    }

    method ToggleJobTypeDropdown()
      modifies this`jobTypeDropdownOpen
      ensures jobTypeDropdownOpen == !old(jobTypeDropdownOpen)
    {
      jobTypeDropdownOpen := !jobTypeDropdownOpen;
    }

    /** Choosing the `i`-th job type from the open list, as for locations. */
    method SelectJobType(i: nat)
      requires jobTypeDropdownOpen && i < |JobTypeOptions|
      modifies this`values, this`jobTypeDropdownOpen
      ensures values == old(values).(jobType := JobTypeOptions[i])
      ensures values.jobType in JobTypeOptions && !jobTypeDropdownOpen
    {
      values := values.(jobType := JobTypeOptions[i]);
      jobTypeDropdownOpen := false;
    }
  }

  /** Saving, closing and opening the form again restores every value saved. */
  method SaveAndReopen(form: JobFormController) returns (reopened: JobFormController)
    modifies form
    ensures fresh(reopened)
    ensures reopened.values == old(form.values) && reopened.draftSlot == form.draftSlot
  {
    form.SaveDraft();
    reopened := new JobFormController(form.draftSlot);
    reopened.RestoreOnOpen();
    RestoreRoundTrip(form.values);
  }

  /** Saving twice leaves the slot as saving once does. */
  method SaveDraftTwice(form: JobFormController)
    modifies form
    ensures form.draftSlot == Some(DraftOf(old(form.values))) && form.values == old(form.values)
  {
    form.SaveDraft();
    var once := form.draftSlot;
    form.SaveDraft();
    assert form.draftSlot == once;
  }

  /** A restored draft can put any text in location, and validation lets it
      through: option membership is not one of its rules. */
  lemma RestoredLocationNeedNotBeAnOption()
    ensures var v := Restored(DefaultValues, NoEntries.(location := Some("Mars")));
      v.location !in LocationOptions && CheckLocation(v.location) == Ok
  {
  }
}
