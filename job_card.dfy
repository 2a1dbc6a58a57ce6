/** What a job card derives from a job record (src/components/JobCard.tsx): the
    description's non-blank lines, the logo letter and colour, the posted-time
    label and the Remote/Onsite tag. The current time is a parameter. */
module JobCard {
  import opened Wrappers
  import opened Strings

  /** A job as the server returns it. `created_at` is taken as a valid instant in
      milliseconds since the epoch. */
  datatype Job = Job(
    id: int,
    title: string,
    company_name: string,
    location: string,
    job_type: string,
    salary_range: string,
    description: string,
    application_deadline: string,
    created_at: int,
    updated_at: string)

  // ---------------------------------------------------------------- description

  /** `lines.filter(line => line.trim() !== '')`. A line trims to the empty
      string exactly when it is blank (the contract of `Strings.Trim`), so the
      test is written as `!IsBlank`. */
  function NonBlankLines(lines: seq<string>): (r: seq<string>)
    ensures |r| <= |lines|
    ensures forall i :: 0 <= i < |r| ==> !IsBlank(r[i])
  {
    if lines == [] then []
    else
      (if !IsBlank(lines[0]) then [lines[0]] else []) + NonBlankLines(lines[1..])
  }

  /** The filter keeps exactly the lines of `lines` that are not blank. */
  lemma {:induction false} NonBlankLinesMembers(lines: seq<string>)
    ensures forall x :: x in NonBlankLines(lines) <==> x in lines && !IsBlank(x)
  {
    if lines != [] {
      NonBlankLinesMembers(lines[1..]);
      assert lines == [lines[0]] + lines[1..];
    }
  }

  /** Filtering keeps order: what is kept from an earlier stretch of lines comes
      before what is kept from a later one. */
  lemma {:induction false} NonBlankLinesAppend(a: seq<string>, b: seq<string>)
    ensures NonBlankLines(a + b) == NonBlankLines(a) + NonBlankLines(b)
  {
    if a == [] {
      assert a + b == b;
    } else {
      assert (a + b)[1..] == a[1..] + b;
      NonBlankLinesAppend(a[1..], b);
    }
  }

  /** `descriptionLines`: the description cut at each line feed, blank pieces
      dropped. Every line kept is a whole piece and not blank, and every piece
      that is not blank is kept. */
  function DescriptionLines(description: string): (r: seq<string>)
    ensures forall i :: 0 <= i < |r| ==> '\n' !in r[i] && !IsBlank(r[i])
    ensures forall i :: 0 <= i < |r| ==> r[i] in Split(description, '\n')
    ensures forall x :: x in Split(description, '\n') && !IsBlank(x) ==> x in r
  {
    NonBlankLinesMembers(Split(description, '\n'));
    NonBlankLines(Split(description, '\n'))
  }

  lemma NonBlankLinesCons(x: string, rest: seq<string>)
    ensures NonBlankLines([x] + rest) == (if IsBlank(x) then [] else [x]) + NonBlankLines(rest)
  {
    assert ([x] + rest)[1..] == rest;
  }

  lemma JoinFour(a: string, w: string, b: string)
    ensures Join([a, [], w, b], '\n') == a + "\n\n" + w + "\n" + b
  {
    var pieces := [a, [], w, b];
    assert pieces[1..][1..][1..] == [b];
    assert Join(pieces[1..][1..][1..], '\n') == b;
    assert pieces[1..][1..] == [w, b];
    assert Join(pieces[1..][1..], '\n') == w + "\n" + b;
    assert pieces[1..] == [[], w, b];
    assert Join(pieces[1..], '\n') == [] + "\n" + (w + "\n" + b);
  }

  lemma NonBlankFour(a: string, w: string, b: string)
    requires !IsBlank(a) && IsBlank(w) && !IsBlank(b)
    ensures NonBlankLines([a, [], w, b]) == [a, b]
  {
    NonBlankLinesCons(b, []);
    assert [b] + [] == [b];
    NonBlankLinesCons(w, [b]);
    assert [w] + [b] == [w, b];
    NonBlankLinesCons([], [w, b]);
    assert [[]] + [w, b] == [[], w, b];
    NonBlankLinesCons(a, [[], w, b]);
    assert [a] + [[], w, b] == [a, [], w, b];
  }

  /** An empty line and a line of white space between two lines of text are
      both dropped, and the two lines keep their order. */
  lemma BlankLinesDropped(a: string, w: string, b: string)
    requires '\n' !in a && '\n' !in w && '\n' !in b
    requires !IsBlank(a) && IsBlank(w) && !IsBlank(b)
    ensures DescriptionLines(a + "\n\n" + w + "\n" + b) == [a, b]
  {
    JoinFour(a, w, b);
    SplitJoin([a, [], w, b], '\n');
    NonBlankFour(a, w, b);
  }

  // ---------------------------------------------------------------- logo

  /** `company_name.charAt(0).toUpperCase()`: nothing for an empty name, else one
      letter, the first of the name in upper case. */
  function LogoLetter(companyName: string): (r: string)
    ensures companyName == "" ==> r == ""
    ensures companyName != "" ==> |r| == 1 && r == ToUpper(companyName)[..1]
    ensures forall i :: 0 <= i < |r| ==> !IsAsciiLower(r[i])
  {
    ToUpper(if companyName == "" then "" else [companyName[0]])
  }

  const LogoColors: seq<string> :=
    ["bg-blue-500", "bg-green-500", "bg-red-500", "bg-purple-500", "bg-orange-500", "bg-black"]

  /** `company_name.length % colors.length`: a valid index, equal to the length
      up to a multiple of six. */
  function LogoColorIndex(companyName: string): (i: nat)
    ensures i < |LogoColors|
    ensures (|companyName| - i) % 6 == 0
  {
    |companyName| % |LogoColors|
  }

  function LogoBackground(companyName: string): (r: string)
    ensures r in LogoColors
  {
    LogoColors[LogoColorIndex(companyName)]
  }

  /** Names whose lengths differ by a multiple of six get the same colour. */
  lemma LogoBackgroundPeriodic(a: string, b: string)
    requires |a| % 6 == |b| % 6
    ensures LogoBackground(a) == LogoBackground(b)
  {
  }

  // ---------------------------------------------------------------- posted time

  const MsPerHour: nat := 3600000
  const MsPerDay: nat := 86400000

  /** `Math.floor((now - created) / 3600000)`: whole hours elapsed, rounded down
      (so negative for a creation time in the future). */
  function ElapsedHours(createdAt: int, now: int): (h: int)
    ensures h * MsPerHour <= now - createdAt < (h + 1) * MsPerHour
  {
    (now - createdAt) / MsPerHour
  }

  /** The three branches of `postedTime`. */
  datatype Posted = Recently | HoursAgo(hours: nat) | DaysAgo(days: nat)

  /** Which branch applies, and what its number means in elapsed milliseconds:
      under an hour (or a future creation time) is "recently", under a day is a
      whole number of hours from 1 to 23, and anything longer is a whole,
      positive number of days. */
  function Bucket(createdAt: int, now: int): (p: Posted)
    ensures p == Recently <==> now - createdAt < MsPerHour
    ensures p.HoursAgo? <==> MsPerHour <= now - createdAt < MsPerDay
    ensures p.DaysAgo? <==> MsPerDay <= now - createdAt
    ensures p.HoursAgo? ==>
      1 <= p.hours < 24 && p.hours * MsPerHour <= now - createdAt < (p.hours + 1) * MsPerHour
    ensures p.DaysAgo? ==>
      p.days >= 1 && p.days * MsPerDay <= now - createdAt < (p.days + 1) * MsPerDay
  {
    var h := ElapsedHours(createdAt, now);
    if h < 1 then Recently
    else if h < 24 then HoursAgo(h)
    else
      var d := h / 24;
      assert d * 24 <= h < (d + 1) * 24;
      assert d * MsPerDay == (d * 24) * MsPerHour;
      assert (d + 1) * MsPerDay == ((d + 1) * 24) * MsPerHour;
      assert (d * 24) * MsPerHour <= h * MsPerHour;
      assert (h + 1) * MsPerHour <= ((d + 1) * 24) * MsPerHour;
      DaysAgo(d)
  }

  /** The text of a branch. Every label reads back as its branch and number,
      so no two of them print alike. */
  function Label(p: Posted): (r: string)
    ensures ParseLabel(r) == Some(p)
  {
    match p
    case Recently => "Recently"
    case HoursAgo(h) =>
      var n := NatToDecimal(h);
      var s := n + "h Ago";
      assert s[..|s| - 5] == n && s[|s| - 5..] == "h Ago";
      assert s[0] == n[0];
      s
    case DaysAgo(d) =>
      var n := NatToDecimal(d);
      var s := n + "d Ago";
      assert s[..|s| - 5] == n && s[|s| - 5..] == "d Ago";
      assert s[0] == n[0];
      s
  }

  /** `postedTime`: the label of the branch `Bucket` picks, so it reads back as
      that branch; it is "Recently" exactly under one elapsed hour. */
  function PostedTime(createdAt: int, now: int): (r: string)
    ensures ParseLabel(r) == Some(Bucket(createdAt, now))
    ensures r == "Recently" <==> now - createdAt < MsPerHour
  {
    Label(Bucket(createdAt, now))
  }

  /** Reads a label back into its branch and number. */
  function ParseLabel(s: string): Option<Posted> {
    if s == "Recently" then Some(Recently)
    else if |s| > 5 && IsDigits(s[..|s| - 5]) && s[|s| - 5..] == "h Ago" then
      Some(HoursAgo(DecimalValue(s[..|s| - 5])))
    else if |s| > 5 && IsDigits(s[..|s| - 5]) && s[|s| - 5..] == "d Ago" then
      Some(DaysAgo(DecimalValue(s[..|s| - 5])))
    else None
  }

  /** A job created after `now` shows as "Recently". */
  lemma FutureIsRecently(createdAt: int, now: int)
    requires createdAt > now
    ensures PostedTime(createdAt, now) == "Recently"
  {
  }

  /** Ninety minutes is "1h Ago"; fifty hours is "2d Ago". */
  lemma PostedTimeExamples()
    ensures PostedTime(0, 5400000) == "1h Ago"
    ensures PostedTime(0, 180000000) == "2d Ago"
  {
  }

  // ---------------------------------------------------------------- location tag

  /** `location.toLowerCase() === 'remote'`: "Remote" exactly for the six letters
      of "remote" in any mix of cases, with nothing around them. */
  function LocationTypeDisplay(location: string): (r: string)
    ensures r == "Remote" || r == "Onsite"
    ensures r == "Remote" <==>
      |location| == 6 && forall i :: 0 <= i < 6 ==> LowerChar(location[i]) == "remote"[i]
  {
    if ToLower(location) == "remote" then "Remote" else "Onsite"
  }

  lemma LocationTypeExamples()
    ensures LocationTypeDisplay("REMOTE") == "Remote"
    ensures LocationTypeDisplay("Remote ") == "Onsite"
    ensures LocationTypeDisplay("Hyderabad") == "Onsite"
  {
  }
}
