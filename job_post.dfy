/** The job board (JobPost.jsx): the experience field written as "Fresher",
    "L years" or "L - R years" and read back into the two number inputs,
    the skill and qualification lists kept as newline-separated text while
    editing, the preview's short experience label, the search over serial,
    title and designation, the ten-per-page listing, and the list updates
    made after the server answers a delete, an edit or a create. */
module JobPost {
  import opened Text
  import Listing

  // ---------------------------------------------------------------------
  // Experience

  /** The three ways an experience range is told apart. */
  datatype Band = NoExperience | AtLeast(years: nat) | Between(low: nat, high: nat)

  /** The rule shared by `buildExperience` and the preview: both zero is a
      fresher; a missing or smaller right-hand number leaves only the left
      one; otherwise the range. A one-number band never reads "0", and a
      range never runs backwards. */
  function Classify(l: nat, r: nat): (b: Band)
    ensures b == NoExperience <==> l == 0 && r == 0
    ensures b.AtLeast? ==> b.years == l && l > 0
    ensures b.Between? ==> b.low == l && b.high == r && 0 < r && l <= r
  {
    if l == 0 && r == 0 then NoExperience
    else if r == 0 || r < l then AtLeast(l)
    else Between(l, r)
  }

  /** `buildExperience`, on the two numbers the inputs hold. */
  function BuildExperience(l: nat, r: nat): string {
    match Classify(l, r)
    case NoExperience => "Fresher"
    case AtLeast(y) => NatToString(y) + " years"
    case Between(a, b) => RangeText(NatToString(a), NatToString(b))
  }

  /** `Number(formData.leftExp)`, `Number(formData.rightExp)`: the inputs
      hold digits only, and an empty input counts as 0. */
  function FormExperience(leftExp: string, rightExp: string): string
    requires AllDigits(leftExp) && AllDigits(rightExp)
  {
    BuildExperience(Value(leftExp), Value(rightExp))
  }

  /** A right-hand number below the left one is dropped when the text is
      built, so the saved text cannot tell it apart from no right number. */
  lemma SmallerRightIsLost(l: nat, r: nat)
    requires 0 < r < l
    ensures BuildExperience(l, r) == BuildExperience(l, 0)
    ensures BuildExperience(l, r) == NatToString(l) + " years"
  {
  }

  /** The text of two different bands never coincides. */
  lemma {:induction false} BuildSeparatesBands(l: nat, r: nat, l': nat, r': nat)
    requires BuildExperience(l, r) == BuildExperience(l', r')
    ensures Classify(l, r) == Classify(l', r')
  {
    ParseBuilt(l, r);
    ParseBuilt(l', r');
    var b, b' := Classify(l, r), Classify(l', r');
    var r0 := if 0 < r < l then 0 else r;
    var r0' := if 0 < r' < l' then 0 else r';
    assert Value(Pad2(l)) == Value(Pad2(l'));
    assert Value(Pad2(r0)) == Value(Pad2(r0'));
  }

  /** A dash between the two numbers: hyphen or en dash. */
  predicate IsDash(c: char) { c == '-' || c == '\U{2013}' }

  /** The white space at the front of s. */
  function LeadingSpaces(s: string): (r: string)
    ensures IsPrefix(r, s)
    ensures |r| < |s| ==> !IsSpace(s[|r|])
  {
    if s != [] && IsSpace(s[0]) then [s[0]] + LeadingSpaces(s[1..]) else []
  }

  /** s after its leading white space. */
  function SkipSpaces(s: string): (r: string)
    ensures |r| <= |s|
  {
    s[|LeadingSpaces(s)|..]
  }

  /** `/(\d+)\s*[-–]\s*(\d+)/` tried at the start of t: both digit groups
      are maximal, since a digit is neither white space nor a dash. */
  function RangeAt(t: string): (r: Option<(string, string)>)
    ensures r.Some? ==> r.value.0 != [] && AllDigits(r.value.0) && r.value.1 != [] && AllDigits(r.value.1)
  {
    var d1 := LeadingDigits(t);
    if d1 == [] then None
    else match DashThenNumber(SkipSpaces(t[|d1|..]))
      case None => None
      case Some(d2) => Some((d1, d2))
  }

  /** The rest of the range pattern: a dash, white space and a number. */
  function DashThenNumber(v: string): (r: Option<string>)
    ensures r.Some? ==> r.value != [] && AllDigits(r.value)
  {
    if v == [] || !IsDash(v[0]) then None
    else
      var d := LeadingDigits(SkipSpaces(v[1..]));
      if d == [] then None else Some(d)
  }

  /** The leftmost match of the range pattern in s. */
  function FindRange(s: string): (r: Option<(string, string)>)
    ensures r.Some? ==> r.value.0 != [] && AllDigits(r.value.0) && r.value.1 != [] && AllDigits(r.value.1)
  {
    if s == [] then None
    else match RangeAt(s)
      case Some(p) => Some(p)
      case None => FindRange(s[1..])
  }

  /** `/^\d+ years?$/`. */
  predicate YearsOnly(s: string) {
    var d := LeadingDigits(s);
    d != [] && (s[|d|..] == " year" || s[|d|..] == " years")
  }

  /** The two number inputs of the edit form. */
  datatype ExpInputs = ExpInputs(left: string, right: string)

  /** The experience parsing of the edit form's effect: a missing text and
      "Fresher" give "00" and "00"; "N year(s)" gives N padded and "00";
      otherwise the first "L - R" range, both padded; "00" and "00" when
      there is none. The inputs always hold digits. */
  function ParseExperience(experience: string): (r: ExpInputs)
    ensures AllDigits(r.left) && AllDigits(r.right)
  {
    if experience == [] || experience == "Fresher" then ExpInputs("00", "00")
    else if YearsOnly(experience) then
      var d := LeadingDigits(experience);
      ValuePadZeros(d, 2);
      ExpInputs(PadStart(d, 2, '0'), "00")
    else match FindRange(experience)
      case Some(p) =>
        ValuePadZeros(p.0, 2);
        ValuePadZeros(p.1, 2);
        ExpInputs(PadStart(p.0, 2, '0'), PadStart(p.1, 2, '0'))
      case None => ExpInputs("00", "00")
  }

  lemma PadZero()
    ensures Pad2(0) == "00"
  {
    Pad2OneDigit(0);
  }

  lemma SkipOneSpace(rest: string)
    requires rest == [] || !IsSpace(rest[0])
    ensures SkipSpaces([' '] + rest) == rest
  {
    assert ([' '] + rest)[1..] == rest;
    assert LeadingSpaces(rest) == [];
    assert LeadingSpaces([' '] + rest) == [' '];
  }

  /** The digits of l followed by text that starts with something else. */
  lemma DigitsThen(l: nat, rest: string)
    requires rest == [] || !IsDigit(rest[0])
    ensures LeadingDigits(NatToString(l) + rest) == NatToString(l)
  {
    LeadingDigitsOfDigits(NatToString(l), rest);
  }

  /** "L years" is read back by the one-number pattern. */
  lemma ParseYears(l: nat)
    ensures ParseExperience(NatToString(l) + " years") == ExpInputs(Pad2(l), "00")
  {
    var s := NatToString(l) + " years";
    DigitsThen(l, " years");
    assert s[|NatToString(l)|..] == " years";
    assert s[0] != 'F';
  }

  /** The text `buildExperience` writes for a range. */
  function RangeText(a: string, b: string): string {
    a + " - " + b + " years"
  }

  lemma DashThenRange(b: string)
    requires b != [] && AllDigits(b)
    ensures DashThenNumber(['-', ' '] + (b + " years")) == Some(b)
  {
    var rest := b + " years";
    assert (['-', ' '] + rest)[1..] == [' '] + rest;
    SkipOneSpace(rest);
    LeadingDigitsOfDigits(b, " years");
  }

  /** The range pattern matches a range text at its start, with the two
      numbers as its groups. */
  lemma RangeAtStart(a: string, b: string)
    requires a != [] && AllDigits(a) && b != [] && AllDigits(b)
    ensures RangeAt(RangeText(a, b)) == Some((a, b))
  {
    var rest := ['-', ' '] + (b + " years");
    var after := [' '] + rest;
    assert RangeText(a, b) == a + after;
    LeadingDigitsOfDigits(a, after);
    assert (a + after)[|a|..] == after;
    SkipOneSpace(rest);
    DashThenRange(b);
  }

  /** A range text is not read by the one-number pattern. */
  lemma RangeNotYearsOnly(a: string, b: string)
    requires a != [] && AllDigits(a) && AllDigits(b)
    ensures !YearsOnly(RangeText(a, b))
  {
    var s := RangeText(a, b);
    assert s == a + (" - " + b + " years");
    LeadingDigitsOfDigits(a, " - " + b + " years");
    assert s[|a|..][1] == '-';
  }

  /** "L - R years" is read by the range pattern. */
  lemma ParseRange(l: nat, r: nat)
    ensures ParseExperience(RangeText(NatToString(l), NatToString(r))) == ExpInputs(Pad2(l), Pad2(r))
  {
    var a, b := NatToString(l), NatToString(r);
    var s := RangeText(a, b);
    RangeNotYearsOnly(a, b);
    RangeAtStart(a, b);
    assert s[0] != 'F' && s != [];
  }

  /** Reading a built text back gives the two numbers padded to two places,
      except that a right-hand number below the left one comes back as 0. */
  lemma ParseBuilt(l: nat, r: nat)
    ensures ParseExperience(BuildExperience(l, r)) ==
              ExpInputs(Pad2(l), Pad2(if 0 < r < l then 0 else r))
  {
    PadZero();
    match Classify(l, r)
    case NoExperience =>
    case AtLeast(_) => ParseYears(l);
    case Between(_, _) => ParseRange(l, r);
  }

  /** For two-digit inputs with no smaller right-hand number, the edit form
      shows exactly the numbers the text was built from. */
  lemma ExperienceRoundTrip(l: nat, r: nat)
    requires l < 100 && r < 100 && (r == 0 || r >= l)
    ensures ParseExperience(BuildExperience(l, r)) == ExpInputs(Pad2(l), Pad2(r))
    ensures |Pad2(l)| == 2 && |Pad2(r)| == 2
  {
    ParseBuilt(l, r);
  }

  /** Opening a saved job and uploading it without touching the inputs
      writes the same experience text again. */
  lemma BuiltExperienceIsStable(l: nat, r: nat)
    ensures var f := ParseExperience(BuildExperience(l, r));
      FormExperience(f.left, f.right) == BuildExperience(l, r)
  {
    ParseBuilt(l, r);
  }

  /** `job.experience?.match(/(\d+)/g)`: the maximal digit runs, in order. */
  function DigitRuns(s: string): (r: seq<string>)
    ensures forall k | 0 <= k < |r| :: r[k] != [] && AllDigits(r[k])
    decreases |s|
  {
    if s == [] then []
    else if IsDigit(s[0]) then
      var d := LeadingDigits(s);
      [d] + DigitRuns(s[|d|..])
    else DigitRuns(s[1..])
  }

  /** `Number(match[k] || 0)`. */
  function RunValue(runs: seq<string>, k: nat): nat
    requires forall i | 0 <= i < |runs| :: AllDigits(runs[i])
  {
    if k < |runs| then Value(runs[k]) else 0
  }

  /** The short label the preview shows for a band. */
  function ShortLabel(b: Band): string {
    match b
    case NoExperience => "Fresher"
    case AtLeast(y) => NatToString(y) + " yrs"
    case Between(a, c) => NatToString(a) + "-" + NatToString(c) + " yrs"
  }

  /** The preview's experience line: the first two digit runs of the saved
      text, missing ones counting as 0, put through the same rule. */
  function PreviewExperience(experience: string): string {
    var runs := DigitRuns(experience);
    ShortLabel(Classify(RunValue(runs, 0), RunValue(runs, 1)))
  }

  /** Text without digits adds no run. */
  lemma {:induction false} SkipNonDigits(p: string, rest: string)
    requires forall i | 0 <= i < |p| :: !IsDigit(p[i])
    ensures DigitRuns(p + rest) == DigitRuns(rest)
    decreases |p|
  {
    if p != [] {
      assert (p + rest)[1..] == p[1..] + rest;
      SkipNonDigits(p[1..], rest);
    } else {
      assert p + rest == rest;
    }
  }

  /** The runs of a number followed by text that starts with a non-digit. */
  lemma RunsAfterDigits(d: string, rest: string)
    requires d != [] && AllDigits(d)
    requires rest == [] || !IsDigit(rest[0])
    ensures DigitRuns(d + rest) == [d] + DigitRuns(rest)
  {
    LeadingDigitsOfDigits(d, rest);
    assert (d + rest)[|d|..] == rest;
  }

  lemma RunsOfYears(d: string)
    requires d != [] && AllDigits(d)
    ensures DigitRuns(d + " years") == [d]
  {
    var e: string := [];
    SkipNonDigits(" years", e);
    assert " years" + e == " years";
    RunsAfterDigits(d, " years");
  }

  lemma RunsOfRange(a: string, b: string)
    requires a != [] && AllDigits(a) && b != [] && AllDigits(b)
    ensures DigitRuns(RangeText(a, b)) == [a, b]
  {
    var rest := b + " years";
    var after := [' ', '-', ' '] + rest;
    assert RangeText(a, b) == a + after;
    RunsOfYears(b);
    SkipNonDigits([' ', '-', ' '], rest);
    RunsAfterDigits(a, after);
  }

  /** The preview shows the band the text was built from. */
  lemma PreviewOfBuilt(l: nat, r: nat)
    ensures PreviewExperience(BuildExperience(l, r)) == ShortLabel(Classify(l, r))
  {
    ValueOfNatToString(l);
    ValueOfNatToString(r);
    match Classify(l, r)
    case NoExperience =>
      var e: string := [];
      SkipNonDigits("Fresher", e);
      assert "Fresher" + e == "Fresher";
    case AtLeast(_) =>
      RunsOfYears(NatToString(l));
    case Between(_, _) =>
      RunsOfRange(NatToString(l), NatToString(r));
  }

  // ---------------------------------------------------------------------
  // Skill and qualification lists

  /** A stored list field: an array, or text from an older record (an
      absent field is empty text). */
  datatype ListField = Listed(items: seq<string>) | Typed(text: string)

  /** What the edit form's text area shows: an array joined with newlines,
      text as it is. */
  function EditText(f: ListField): string {
    match f
    case Listed(xs) => Join(xs, '\n')
    case Typed(t) => t
  }

  /** `toList` of the preview: nothing for empty text, an array as it is,
      text split into trimmed non-empty lines. */
  function ToList(f: ListField): (r: seq<string>)
    ensures f.Typed? ==> r == Lines(f.text)
    ensures f.Listed? ==> r == f.items
  {
    match f
    case Listed(xs) => xs
    case Typed(t) => if t == [] then (assert Split(t, '\n') == [[]]; []) else Lines(t)
  }

  /** Entries as `handleSubmit` stores them. */
  predicate CleanEntries(xs: seq<string>) {
    forall k | 0 <= k < |xs| :: xs[k] != [] && IsTrimmed(xs[k]) && '\n' !in xs[k]
  }

  /** A list of clean entries survives being shown for editing and saved
      again. */
  lemma ListRoundTrip(xs: seq<string>)
    requires CleanEntries(xs)
    ensures Lines(EditText(Listed(xs))) == xs
  {
    LinesOfJoin(xs);
  }

  /** Whatever was typed, the saved list is clean, reopening and saving it
      changes nothing, and the preview lists the same entries whether it
      reads the saved array or the typed text. */
  lemma SavedListIsStable(typed: string)
    ensures CleanEntries(Lines(typed))
    ensures Lines(EditText(Listed(Lines(typed)))) == Lines(typed)
    ensures ToList(Listed(Lines(typed))) == ToList(Typed(typed))
  {
    LinesOfJoin(Lines(typed));
  }

  // ---------------------------------------------------------------------
  // The edit form and what it uploads

  /** A job as the server returns it. */
  datatype Job = Job(
    id: string, jobTitle: string, designation: string, experience: string,
    jobType: string, location: string, jobSummary: string,
    preferredSkills: ListField, requiredQualifications: ListField,
    responsibilities: string, status: string, postedOn: string)

  /** The form's state. */
  datatype JobForm = JobForm(
    jobTitle: string, designation: string, leftExp: string, rightExp: string,
    jobType: string, location: string, jobSummary: string,
    preferredSkills: string, requiredQualifications: string,
    responsibilities: string, status: string)

  /** The number inputs hold digits only. */
  predicate ValidForm(f: JobForm) {
    AllDigits(f.leftExp) && AllDigits(f.rightExp)
  }

  /** The form of "Add New Job". */
  function BlankForm(): (f: JobForm)
    ensures ValidForm(f) && FormExperience(f.leftExp, f.rightExp) == "Fresher"
  {
    JobForm([], [], [], [], [], [], [], [], [], [], "Active")
  }

  /** The form filled from a job being edited. */
  function FormOf(job: Job): (f: JobForm)
    ensures ValidForm(f)
    ensures f.status != []
  {
    var exp := ParseExperience(job.experience);
    JobForm(job.jobTitle, job.designation, exp.left, exp.right, job.jobType,
            job.location, job.jobSummary, EditText(job.preferredSkills),
            EditText(job.requiredQualifications), job.responsibilities,
            if job.status == [] then "Active" else job.status)
  }

  /** Typing into a number input keeps its digits only. */
  function TypeExperience(f: JobForm, left: bool, typed: string): (g: JobForm)
    requires ValidForm(f)
    ensures ValidForm(g)
    ensures left ==> g == f.(leftExp := DigitsOnly(typed))
    ensures !left ==> g == f.(rightExp := DigitsOnly(typed))
  {
    if left then f.(leftExp := DigitsOnly(typed)) else f.(rightExp := DigitsOnly(typed))
  }

  /** What "Upload" sends. */
  datatype JobData = JobData(
    jobTitle: string, designation: string, experience: string,
    jobType: string, location: string, jobSummary: string,
    preferredSkills: seq<string>, requiredQualifications: seq<string>,
    responsibilities: string, status: string, postedOn: string)

  /** `handleSubmit`: the experience text, the two lists split into clean
      entries, and the posting date kept from an edited job or today's. */
  function Submission(f: JobForm, editing: Option<Job>, today: string): JobData
    requires ValidForm(f)
  {
    JobData(f.jobTitle, f.designation, FormExperience(f.leftExp, f.rightExp),
            f.jobType, f.location, f.jobSummary,
            Lines(f.preferredSkills), Lines(f.requiredQualifications),
            f.responsibilities, f.status,
            if editing.Some? && editing.value.postedOn != [] then editing.value.postedOn else today)
  }

  /** The job the server stores for posted data. */
  function Stored(id: string, d: JobData): Job {
    Job(id, d.jobTitle, d.designation, d.experience, d.jobType, d.location, d.jobSummary,
        Listed(d.preferredSkills), Listed(d.requiredQualifications),
        d.responsibilities, d.status, d.postedOn)
  }

  /** Opening an uploaded job for editing and uploading it again unchanged
      posts the same data (a blank status comes back as "Active"). */
  lemma ReuploadUnchanged(f: JobForm, id: string, today: string, later: string)
    requires ValidForm(f) && today != []
    ensures var d := Submission(f, None, today);
      var job := Stored(id, d);
      Submission(FormOf(job), Some(job), later) ==
        d.(status := if d.status == [] then "Active" else d.status)
  {
    var d := Submission(f, None, today);
    var l, r := Value(f.leftExp), Value(f.rightExp);
    BuiltExperienceIsStable(l, r);
    SavedListIsStable(f.preferredSkills);
    SavedListIsStable(f.requiredQualifications);
  }

  // ---------------------------------------------------------------------
  // The list of jobs

  const JobsPerPage: nat := 10

  /** The search test of `handleSearch` for the job at position i: its
      two-digit serial, title or designation contains the term, ignoring
      ASCII case. */
  predicate JobMatches(job: Job, i: nat, term: string) {
    var t := Lower(term);
    Contains(Pad2(i + 1), t) || Contains(Lower(job.jobTitle), t) || Contains(Lower(job.designation), t)
  }

  /** The jobs a non-blank search keeps, in list order. */
  function SearchJobs(jobs: seq<Job>, term: string): (r: seq<Job>)
    ensures Listing.SubsequenceOf(r, jobs)
    ensures forall x | x in r :: exists i | 0 <= i < |jobs| :: jobs[i] == x && JobMatches(x, i, term)
    ensures forall i | 0 <= i < |jobs| && JobMatches(jobs[i], i, term) :: jobs[i] in r
  {
    Listing.FilterIndexedIsSubsequence(jobs, 0, (j, i) => JobMatches(j, i, term));
    Listing.FilterIndexed(jobs, 0, (j, i) => JobMatches(j, i, term))
  }

  lemma {:induction false} LowerOfDigits(s: string)
    requires AllDigits(s)
    ensures Lower(s) == s
    decreases |s|
  {
    if s != [] {
      LowerOfDigits(s[1..]);
      assert [s[0]] + s[1..] == s;
    }
  }

  /** Typing the serial a job has in the full list finds that job. */
  lemma SearchBySerial(jobs: seq<Job>, i: nat)
    requires i < |jobs|
    ensures jobs[i] in SearchJobs(jobs, Pad2(i + 1))
  {
    LowerOfDigits(Pad2(i + 1));
    assert IsPrefix(Pad2(i + 1), Pad2(i + 1));
  }

  /** Jobs whose id differs from the deleted one, in order. */
  function Removed(jobs: seq<Job>, id: string): (r: seq<Job>)
    ensures forall x | x in r :: x in jobs && x.id != id
    ensures forall i | 0 <= i < |jobs| && jobs[i].id != id :: jobs[i] in r
    ensures Listing.SubsequenceOf(r, jobs)
  {
    Listing.FilterIsSubsequence(jobs, (j: Job) => j.id != id);
    Listing.Filter(jobs, (j: Job) => j.id != id)
  }

  /** Deleting twice is deleting once. */
  lemma RemovedIdempotent(jobs: seq<Job>, id: string)
    ensures Removed(Removed(jobs, id), id) == Removed(jobs, id)
  {
    Listing.FilterIdempotent(jobs, (j: Job) => j.id != id);
  }

  /** The edited job the server returns takes the place of every job with
      its id. */
  function Replaced(jobs: seq<Job>, updated: Job): (r: seq<Job>)
    ensures |r| == |jobs|
    ensures forall i | 0 <= i < |jobs| :: r[i] == if jobs[i].id == updated.id then updated else jobs[i]
  {
    seq(|jobs|, i requires 0 <= i < |jobs| => if jobs[i].id == updated.id then updated else jobs[i])
  }

  /** The list screen's state. */
  datatype Board = Board(jobs: seq<Job>, filtered: Option<seq<Job>>, searchTerm: string, currentPage: nat)

  /** `filteredJobs || jobs`: a search's result, even an empty one, or the
      whole list. */
  function DisplayJobs(b: Board): seq<Job> {
    if b.filtered.Some? then b.filtered.value else b.jobs
  }

  /** `handleSearch`. */
  function AfterSearch(b: Board, term: string): Board {
    if Trim(term) == [] then b.(searchTerm := term, filtered := None, currentPage := 1)
    else b.(searchTerm := term, filtered := Some(SearchJobs(b.jobs, term)), currentPage := 1)
  }

  /** `handleDelete` as written: only the full list loses the job. */
  function AfterDeleteAsWritten(b: Board, id: string): Board {
    b.(jobs := Removed(b.jobs, id))
  }

  /** `handleDelete` with the search result updated as well. */
  function AfterDelete(b: Board, id: string): Board {
    b.(jobs := Removed(b.jobs, id),
       filtered := if b.filtered.Some? then Some(Removed(b.filtered.value, id)) else None)
  }

  /** While a search is shown, a deleted job stays on screen. */
  lemma DeletedJobStillShown(b: Board, id: string, k: nat)
    requires b.filtered.Some? && k < |b.filtered.value| && b.filtered.value[k].id == id
    ensures b.filtered.value[k] in DisplayJobs(AfterDeleteAsWritten(b, id))
    ensures b.filtered.value[k] !in AfterDeleteAsWritten(b, id).jobs
  {
  }

  /** After the corrected delete no shown job has the deleted id, every
      other shown job is still shown in the same order, and the full list
      loses exactly that id. */
  lemma DeleteHidesJob(b: Board, id: string)
    ensures forall x | x in DisplayJobs(AfterDelete(b, id)) :: x.id != id
    ensures DisplayJobs(AfterDelete(b, id)) == Removed(DisplayJobs(b), id)
    ensures AfterDelete(b, id).jobs == Removed(b.jobs, id)
  {
  }

  /** The rows of the current page. */
  function CurrentJobs(b: Board): seq<Job> {
    Listing.PageSlice(DisplayJobs(b), b.currentPage, JobsPerPage)
  }

  function TotalPages(b: Board): (n: nat)
    ensures n >= 1
  {
    Listing.TotalPages(|DisplayJobs(b)|, JobsPerPage)
  }

  /** The serial shown on row k of the current page,
      `indexOfFirstJob + index + 1` padded to two digits. */
  function RowSerial(b: Board, k: nat): string
    requires k < |CurrentJobs(b)|
  {
    Pad2((Listing.PageStart(b.currentPage, JobsPerPage) + k) as nat + 1)
  }

  /** Row k of the current page shows the job at that position of the
      displayed list, and its serial reads that position counted from 1. */
  lemma RowSerialIsPosition(b: Board, k: nat)
    requires k < |CurrentJobs(b)|
    ensures var i := Listing.PageStart(b.currentPage, JobsPerPage) + k;
      0 <= i < |DisplayJobs(b)| && CurrentJobs(b)[k] == DisplayJobs(b)[i] &&
      Value(RowSerial(b, k)) == i + 1
  {
  }

  /** The screen: the loaded jobs, the search result, the search text and
      the page shown. */
  class JobBoard {
    var jobs: seq<Job>
    var filtered: Option<seq<Job>>
    var searchTerm: string
    var currentPage: nat

    function State(): Board
      reads this
    {
      Board(jobs, filtered, searchTerm, currentPage)
    }

    predicate Valid()
      reads this
    {
      currentPage >= 1
    }

    constructor ()
      ensures Valid() && State() == Board([], None, [], 1)
    {
      jobs, filtered, searchTerm, currentPage := [], None, [], 1;
    }

    /** The first load: the fetched list, or nothing when the request fails. */
    method Load(fetched: Option<seq<Job>>)
      requires Valid()
      modifies this
      ensures Valid()
      ensures State() == old(State()).(jobs := if fetched.Some? then fetched.value else [])
    {
      jobs := if fetched.Some? then fetched.value else [];
    }

    /** `handleSearch`: a blank term shows the whole list again; either way
        the first page is shown. */
    method HandleSearch(term: string)
      requires Valid()
      modifies this
      ensures Valid() && State() == AfterSearch(old(State()), term)
    {
      searchTerm := term;
      if Trim(term) == [] {
        filtered := None;
        currentPage := 1;
        return;
      }
      filtered := Some(SearchJobs(jobs, term));
      currentPage := 1;
    }

    /** `handleDelete` as written, once the request has been sent; a request
        that throws changes nothing. */
    method DeleteAsWritten(id: string, sent: bool)
      requires Valid()
      modifies this
      ensures Valid()
      ensures State() == if sent then AfterDeleteAsWritten(old(State()), id) else old(State())
    {
      if sent {
        jobs := Removed(jobs, id);
      }
    }

    /** `handleDelete`, removing the job from the search result too. */
    method Delete(id: string, sent: bool)
      requires Valid()
      modifies this
      ensures Valid()
      ensures State() == if sent then AfterDelete(old(State()), id) else old(State())
    {
      if sent {
        jobs := Removed(jobs, id);
        if filtered.Some? {
          filtered := Some(Removed(filtered.value, id));
        }
      }
    }

    /** `handleSaveJob` for an edit, with the job the server returns (None
        when the request fails). */
    method SaveEdited(updated: Option<Job>)
      requires Valid()
      modifies this
      ensures Valid()
      ensures State() == if updated.Some? then old(State()).(jobs := Replaced(old(jobs), updated.value))
                         else old(State())
    {
      if updated.Some? {
        jobs := Replaced(jobs, updated.value);
      }
    }

    /** `handleSaveJob` for a new job: the created job goes first. */
    method Create(created: Option<Job>)
      requires Valid()
      modifies this
      ensures Valid()
      ensures State() == if created.Some? then old(State()).(jobs := [created.value] + old(jobs))
                         else old(State())
    {
      if created.Some? {
        jobs := [created.value] + jobs;
      }
    }

    /** "Previous": never below the first page. */
    method PreviousPage()
      requires Valid()
      modifies this
      ensures Valid() && State() == old(State()).(currentPage := if old(currentPage) > 1 then old(currentPage) - 1 else 1)
    {
      currentPage := if currentPage > 1 then currentPage - 1 else 1;
    }

    /** "Next": never beyond the last page. */
    method NextPage()
      requires Valid()
      modifies this
      ensures Valid()
      ensures currentPage <= TotalPages(State())
      ensures State() == old(State()).(currentPage := Listing.Min(TotalPages(old(State())), old(currentPage) + 1))
    {
      var total := TotalPages(State());
      currentPage := Listing.Min(total, currentPage + 1);
    }
  }

  /** After "Next" the page shown is never empty unless the list is. */
  lemma NextPageShowsRows(b: Board)
    requires b.currentPage >= 1 && DisplayJobs(b) != []
    ensures var p := Listing.Min(TotalPages(b), b.currentPage + 1);
      CurrentJobs(b.(currentPage := p)) != []
  {
    var n := |DisplayJobs(b)|;
    var p := Listing.Min(TotalPages(b), b.currentPage + 1);
    Listing.CeilDivBounds(n, JobsPerPage);
    var c := Listing.CeilDiv(n, JobsPerPage);
    assert 1 <= p <= c;
    Listing.PageStartNext(p - 1, JobsPerPage);
    assert Listing.PageStart(p, JobsPerPage) == (p - 1) * JobsPerPage;
    Listing.MulMono(p - 1, c - 1, JobsPerPage);
  }
}
