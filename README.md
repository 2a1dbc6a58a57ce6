# Job board: form, card and listing logic in Dafny

This project models the logic of a small React job board, taken from three components.

- **The job-posting form** (`JobForm.tsx`):
  - the validation rule of each field;
  - the border-highlight test `hasValue`;
  - `convertJobType` and the request body built in `onSubmit`;
  - the form's state: its eight values, the one `localStorage` draft slot, the "Draft Saved" flag and the two dropdown flags, with their handlers.
- **The job card** (`JobCard.tsx`): the values it derives from a job record. These are the non-blank description lines, the logo letter and colour, the "posted" label and the Remote/Onsite tag.
- **The job list** (`JobListing.tsx`): the query parameters `fetchJobs` appends for a filter record and the URL it requests, plus the list's `jobs`/`loading` state.

Modules:

| module | file | what it holds |
|---|---|---|
| `Wrappers` | wrappers.dfy | `Option` |
| `Strings` | strings.dfy | JavaScript `trim`, `\s`, ASCII `toUpperCase`/`toLowerCase`, `split`, `parseInt`, `String(n)` |
| `UrlEncoding` | url_encoding.dfy | UTF-8, and the application/x-www-form-urlencoded serializer of the WHATWG URL Standard that `URLSearchParams.toString()` uses, with its parser |
| `JobFormRules` | job_form_rules.dfy | The form's values, the field rules, `hasValue` and the request body, all as functions |
| `JobForm` | job_form.dfy | The draft record and its restore loop; the class `JobFormController` with the form's state and handlers |
| `JobCard` | job_card.dfy | The card's derivations, as functions of the job and an injected `now` |
| `JobListing` | job_listing.dfy | The filter record; the parameter list built step by step; the request URL; the class `JobListingState` |

Modelling choices:

- **Dates.** A date is an integer number of milliseconds since the epoch. A null deadline is `None`.
- **"Now".** The current time is a parameter of the card functions.
- **Draft slot.** The draft as `JSON.parse` returns it is a record with one `Option` per field. An absent key is `None`. For the deadline's entry, `Some(None)` is a stored `null`.
- **Network outcomes.** A submission's outcome is a `success` parameter. A fetch's response is a parameter: the job array, or `None` when the request fails.
- **Validation order.** Validation assumes react-hook-form's order: required, then minLength, then pattern, then validate. The first rule that fails gives the field's message. `onSubmit` runs only when every field passes.

Two rules are looser than the form's controls suggest:

- **Location and job type** are offered from fixed lists (`JobForm.tsx:28-29`), but their rules (`:178`, `:225`) only require a value. `RestoredLocationNeedNotBeAnOption` shows a restored draft putting "Mars" in location, and validation accepts it.
- **The deadline's** picker refuses past days (`minDate`, `:339`), but its rule (`:326`) only requires a value, so a restored past date passes.

## Model

| member | source | states |
|---|---|---|
| Strings.Trim | src/components/JobForm.tsx:67 | `trim` gives a slice of the input with only white space cut off either end. The result is empty exactly when every character is JavaScript white space, and otherwise neither starts nor ends with white space |
| Strings.Split | src/components/JobCard.tsx:19 | `split('\n')` gives at least one piece; no piece holds the separator; joining the pieces with it gives back the original string |
| Strings.SplitJoin | src/components/JobCard.tsx:19 | Splitting undoes joining for pieces without the separator |
| Strings.ToUpper | src/components/JobForm.tsx:30 | `toUpperCase` keeps the length, leaves no lower-case letter, and each character equals the input's once both are lower-cased |
| Strings.ToLower | src/components/JobCard.tsx:62 | `toLowerCase` keeps the length, leaves no upper-case letter, and matches the input up to case |
| Strings.DigitPrefix | src/components/JobForm.tsx:308-309 | The digit run `parseInt` reads is the longest prefix of digits of the radix |
| Strings.NatToDecimal | src/components/JobCard.tsx:46 | A number's text in a template literal is digits only, has no leading zero and denotes the number |
| Strings.ParseInt | src/components/JobForm.tsx:308-309 | `parseInt` without a radix. It has no contract of its own; `ParseIntOfDigits` and `IntToString` pin what it reads |
| Strings.ParseIntOfDigits | src/components/JobForm.tsx:308-309 | `parseInt` of a non-empty digit string is its decimal value |
| Strings.IntToString | src/components/JobListing.tsx:32-33 | `String(i)` starts with `-` exactly for a negative `i`, and `parseInt` reads it back as `i` for every integer |
| UrlEncoding.Utf8RoundTrip | src/components/JobListing.tsx:36 | The UTF-8 bytes of any string decode back to it |
| UrlEncoding.Encode | src/components/JobListing.tsx:36 | A name or value as serialized holds only unreserved characters, `+` and `%`, and never `&` or `=` |
| UrlEncoding.EncodeRoundTrip | src/components/JobListing.tsx:36 | Decoding an encoded component gives back the component |
| UrlEncoding.Serialize | src/components/JobListing.tsx:36 | `queryParams.toString()` parses back to exactly the list of pairs, in order |
| JobFormRules.CheckText | src/components/JobForm.tsx:139-146 | A value passes its rules exactly when it is non-empty if required, long enough and matching the pattern when non-empty, and its validate callback holds |
| JobFormRules.CheckJobTitle | src/components/JobForm.tsx:139-146 | A title passes exactly when it has at least 3 characters, all ASCII letters or white space; "Job title is required" exactly for the empty title, "Min 3 characters" exactly for 1–2 characters, "Only letters allowed" exactly for a longer title with another character |
| JobFormRules.CheckCompanyName | src/components/JobForm.tsx:162-165 | A company name passes exactly when it has at least 2 characters; each failure has its message |
| JobFormRules.CheckLocation | src/components/JobForm.tsx:178 | A location passes exactly when it is non-empty; there is no option-list check |
| JobFormRules.CheckJobType | src/components/JobForm.tsx:225 | A job type passes exactly when it is non-empty; there is no option-list check |
| JobFormRules.CheckMinSalary | src/components/JobForm.tsx:281-287 | Min salary passes exactly when it is a non-empty digit string; each failure has its message |
| JobFormRules.CheckMaxSalary | src/components/JobForm.tsx:301-311 | Max salary passes exactly when it is a non-empty digit string whose value exceeds what `parseInt` reads from min; each of the three failures has its message |
| JobFormRules.CheckDeadline | src/components/JobForm.tsx:326 | The deadline passes exactly when it is set; past instants pass |
| JobFormRules.CheckDescription | src/components/JobForm.tsx:367-370 | A description passes exactly when it has at least 10 characters; each failure has its message |
| JobFormRules.Validate | src/components/JobForm.tsx:126 | Each field's outcome under its own rule, as `handleSubmit` collects them. It has no contract of its own; `FormValidIff` characterises its all-pass case |
| JobFormRules.FormValid | src/components/JobForm.tsx:126 | The `handleSubmit` gate: no field has an error. It has no contract of its own; `FormValidIff` states it without the rules |
| JobFormRules.FormValidIff | src/components/JobForm.tsx:139-370 | The form may be submitted exactly when every field meets its rule, stated without the rule machinery, with max strictly above min |
| JobFormRules.MaxSalaryStrictlyGreater | src/components/JobForm.tsx:307-310 | For two digit strings, max passes exactly when its value is strictly greater than min's |
| JobFormRules.SalaryExample | src/components/JobForm.tsx:307-310 | Min "50000" with max "50000" is refused with the "greater than" message; max "50001" passes |
| JobFormRules.SalaryMessage | src/components/JobForm.tsx:316-317 | The one salary message is min's when min has one, else max's, and there is none exactly when both pass |
| JobFormRules.HasValue | src/components/JobForm.tsx:62-68 | The deadline counts as filled exactly when it is non-null; a text field exactly when it holds a character that is not white space |
| JobFormRules.ConvertJobType | src/components/JobForm.tsx:30 | `convertJobType` keeps the length, leaves no lower-case letter, and equals the input up to case |
| JobFormRules.ConvertJobTypeExample | src/components/JobForm.tsx:30 | "Full-time" and "full-time" both become "FULL-TIME" |
| JobFormRules.Transform | src/components/JobForm.tsx:92-100 | The request copies title, company, location, description and deadline; its job type is the form's up to case with no lower-case letter; its salary is the value `parseInt` reads from max salary |
| JobFormRules.TransformIgnoresMinSalary | src/components/JobForm.tsx:92-100 | Changing min salary never changes the request |
| JobFormRules.SubmittedSalaryAboveMin | src/components/JobForm.tsx:97 | For a valid form, the salary sent is strictly above the min salary typed |
| JobForm.Keys | src/components/JobForm.tsx:74 | `Object.keys` of the draft lists exactly the fields the draft holds |
| JobForm.DraftOf | src/components/JobForm.tsx:85-86 | The saved draft holds every field |
| JobForm.Restored | src/components/JobForm.tsx:74-80 | What the restore effect leaves behind. It has no contract of its own; `RestoreFieldwise` states it field by field and `ApplyDraft` proves the loop reaches it |
| JobForm.ApplyDraft | src/components/JobForm.tsx:74-80 | The `forEach`/`setValue` loop ends with the values `Restored` describes |
| JobForm.RestoreFieldwise | src/components/JobForm.tsx:74-80 | Each restored field takes the draft's entry when the draft holds it and keeps its value otherwise; an empty draft changes nothing |
| JobForm.RestoreRoundTrip | src/components/JobForm.tsx:70-89 | A saved draft restored over the defaults gives back every saved value, the deadline as the same instant |
| JobForm.RestoredLocationNeedNotBeAnOption | src/components/JobForm.tsx:78 | A restored location outside the option list still passes validation |
| JobForm.JobFormController.constructor | src/components/JobForm.tsx:42-56 | The form opens with the default values, both dropdowns closed, the flag down and the slot as stored |
| JobForm.JobFormController.RestoreOnOpen | src/components/JobForm.tsx:70-82 | With a stored draft the values become `Restored(old values, draft)`; otherwise nothing changes |
| JobForm.JobFormController.SaveDraft | src/components/JobForm.tsx:84-87 | The slot becomes the draft of the current values and the saved flag rises; nothing else changes |
| JobForm.JobFormController.SavedTimerFires | src/components/JobForm.tsx:88 | The timer's callback lowers the saved flag |
| JobForm.JobFormController.Reset | src/components/JobForm.tsx:42-51 | `reset()` puts back the default values |
| JobForm.JobFormController.Submit | src/components/JobForm.tsx:91-118 | Invalid values are not sent and nothing changes. On success the request is the transform of the values, the values reset, the slot is cleared and the form closes. On failure the values and the slot are unchanged. |
| JobForm.JobFormController.TypeText | src/components/JobForm.tsx:139 | Typing sets one of the five text inputs and leaves every other field unchanged. Location and job type have no text input |
| JobForm.JobFormController.PickDeadline | src/components/JobForm.tsx:338 | The date picker sets only the deadline |
| JobForm.JobFormController.ToggleLocationDropdown | src/components/JobForm.tsx:189 | A header click flips only the location flag |
| JobForm.JobFormController.SelectLocation | src/components/JobForm.tsx:196-205 | An option can be chosen only while the list is open. Choosing it sets location to it, so it is in the option list, and closes only the location dropdown |
| JobForm.JobFormController.ToggleJobTypeDropdown | src/components/JobForm.tsx:236 | A header click flips only the job-type flag |
| JobForm.JobFormController.SelectJobType | src/components/JobForm.tsx:243-252 | An option can be chosen only while the list is open. Choosing it sets the job type to it and closes only the job-type dropdown |
| JobForm.SaveAndReopen | src/components/JobForm.tsx:70-89 | Saving, then opening a new form on the same slot, restores every value saved |
| JobForm.SaveDraftTwice | src/components/JobForm.tsx:84-87 | Saving twice leaves the slot as saving once does |
| JobCard.NonBlankLines | src/components/JobCard.tsx:20 | The filter never adds lines and keeps no blank line |
| JobCard.NonBlankLinesMembers | src/components/JobCard.tsx:20 | The filter keeps exactly the lines that are not blank, and never adds lines |
| JobCard.NonBlankLinesAppend | src/components/JobCard.tsx:20 | The filter keeps order: filtering a concatenation is the concatenation of the filtered parts |
| JobCard.DescriptionLines | src/components/JobCard.tsx:18-20 | Every kept line is a whole piece between line feeds and not blank; every non-blank piece is kept |
| JobCard.BlankLinesDropped | src/components/JobCard.tsx:18-20 | An empty line and a white-space line between two lines of text both disappear, and the two lines keep their order |
| JobCard.LogoLetter | src/components/JobCard.tsx:21 | The letter is empty for an empty name; otherwise it is one character, the first of the upper-cased name |
| JobCard.LogoColorIndex | src/components/JobCard.tsx:31 | The colour index is below 6 and equals the name's length up to a multiple of 6 |
| JobCard.LogoBackground | src/components/JobCard.tsx:22-33 | The background is always one of the six colours |
| JobCard.LogoBackgroundPeriodic | src/components/JobCard.tsx:31-32 | Names whose lengths agree mod 6 get the same colour |
| JobCard.ElapsedHours | src/components/JobCard.tsx:39-41 | The hour count is the floor of the elapsed time in hours, negative times included |
| JobCard.Bucket | src/components/JobCard.tsx:43-49 | Exactly one branch applies: "Recently" for under an hour (future times included), 1–23 whole hours for under a day, otherwise a positive whole number of days; each number brackets the elapsed milliseconds |
| JobCard.Label | src/components/JobCard.tsx:44-49 | Every label reads back as its branch and number, so different branches or counts never print the same label |
| JobCard.PostedTime | src/components/JobCard.tsx:35-50 | The label is `Label(Bucket(..))`: it reads back as the branch `Bucket` picks, and it is "Recently" exactly under one elapsed hour. `Bucket`, `FutureIsRecently` and `PostedTimeExamples` pin it further |
| JobCard.FutureIsRecently | src/components/JobCard.tsx:39-44 | A creation time after `now` shows "Recently" |
| JobCard.PostedTimeExamples | src/components/JobCard.tsx:35-50 | 90 minutes shows "1h Ago"; 50 hours shows "2d Ago" |
| JobCard.LocationTypeDisplay | src/components/JobCard.tsx:61-62 | "Remote" exactly when the location is the six letters of "remote" in any case, else "Onsite" |
| JobCard.LocationTypeExamples | src/components/JobCard.tsx:61-62 | "REMOTE" is Remote; "Remote " with a trailing space and "Hyderabad" are Onsite |
| JobListing.QueryParams | src/components/JobListing.tsx:27-34 | The names come in the order searchQuery, location, jobType, minSalary, maxSalary, each at most once. A text filter is sent exactly when it is present and non-empty, with its value. The salary is sent exactly when present, as `String` of each bound, adjacent and last. |
| JobListing.InKeyOrderDistinct | src/components/JobListing.tsx:27-34 | Names in key order are distinct |
| JobListing.BuildQueryParams | src/components/JobListing.tsx:23-34 | The successive conditional `append` calls build exactly `QueryParams` |
| JobListing.RequestUrl | src/components/JobListing.tsx:35-36 | The request URL starts with the backend address followed by "/jobs?" |
| JobListing.RequestQueryDecodes | src/components/JobListing.tsx:36 | The query part of the request URL parses back to exactly the parameters the filters give |
| JobListing.NoFiltersUrl | src/components/JobListing.tsx:16 | The default, empty filters request "https://job-management-nest-server.onrender.com/jobs?" |
| JobListing.JobListingState.constructor | src/components/JobListing.tsx:17-18 | The list starts with no jobs and not loading |
| JobListing.JobListingState.FetchJobs | src/components/JobListing.tsx:21-45 | A fetch requests `RequestUrl(QueryParams(filters))`; the jobs become the response data, or stay as they were when the request fails; loading ends false |
| JobListing.FetchAll | src/components/JobListing.tsx:43 | Loading is false after any sequence of fetches, since nothing sets it true |

## Left out

- Rendering, CSS class names and the other JSX are not modelled. `Navbar.tsx` and `pages/index.tsx` are not part of this model.
- Network calls are parameters: `axios.post` is the `success` flag and `axios.get` is the response. `toast` and `console.log` have no effect in the model.
- `localStorage` and `JSON.stringify`/`JSON.parse` are one `Option<Draft>` slot. A draft whose entries hold other JSON types, such as a number in a text field, is not modelled.
- `SavedTimerFires` is the timer's callback as an event. The two-second delay and the timer's scheduling are not modelled.
- `formattedSalary` is not modelled: it is floating-point division by 100000.
- A `created_at` that is not a valid date is not modelled. In JavaScript it makes the label "NaNd Ago" rather than reaching the `catch`, so the `catch` branch is not modelled either.
- Case mapping and the letter class are limited to ASCII. JavaScript's full Unicode case mapping is not modelled.
- Lengths are counted in code points, not UTF-16 units. A `minLength` on text outside the Basic Multilingual Plane can differ from JavaScript's.
- Numbers are unbounded integers. `parseInt` and `Number` losing precision above 2^53 are not modelled, and neither is `String(n)` switching to exponent form at 10^21.
- Filter salary bounds are integers. `String` of a fractional bound is not modelled.
- UTF-8 decoding inside `UrlEncoding` is strict. Invalid byte sequences, which the URL Standard replaces with U+FFFD, decode to `None`. The serializer never produces them.
- JavaScript strings holding lone surrogates, which UTF-8 encoding would replace, are not modelled.
- Transform: it is defined only for a max salary of digits. That is the only case `onSubmit` receives, because react-hook-form calls it only after validation passes. `Number(data.maxSalary)` is taken as the digits' decimal value.
- react-hook-form internals are not modelled: when validation runs, error display timing, and the rule order stated above, which is an assumption. The date picker's `minDate` is a UI behaviour and is not modelled.
- Submitting twice while a request is in flight is not modelled. The race it involves needs concurrency.
