/** The public careers page (Web.jsx): which jobs are listed and which
    can be applied for, the job's lists shown in the modal, the
    application form's input rules, validation and submission, and the
    word limit on blog titles. */
module WebForm {
  import opened Text
  import JobPost
  import Listing

  // ---------------------------------------------------------------------
  // Listed jobs

  /** The test of `visibleJobs`: only "Inactive" jobs are hidden. */
  predicate Listed(job: JobPost.Job) {
    job.status != "Inactive"
  }

  /** `visibleJobs`: every job except the "Inactive" ones, in order. */
  function VisibleJobs(jobs: seq<JobPost.Job>): (r: seq<JobPost.Job>)
    ensures forall x | x in r :: x in jobs && x.status != "Inactive"
    ensures forall i | 0 <= i < |jobs| && jobs[i].status != "Inactive" :: jobs[i] in r
    ensures Listing.SubsequenceOf(r, jobs)
  {
    Listing.FilterIsSubsequence(jobs, Listed);
    Listing.Filter(jobs, Listed)
  }

  /** The modal's button for a job. */
  datatype ApplyButton = ApplyNow | NotAvailable

  function ButtonFor(job: JobPost.Job): ApplyButton {
    if job.status == "Active" then ApplyNow else NotAvailable
  }

  /** Every job that can be applied for is listed, and a listed job that
      is not "Active" ("On Hold", say) shows "NOT AVAILABLE". */
  lemma ApplyOnlyWhenActive(jobs: seq<JobPost.Job>, i: nat)
    requires i < |jobs|
    ensures ButtonFor(jobs[i]) == ApplyNow <==> jobs[i].status == "Active"
    ensures ButtonFor(jobs[i]) == ApplyNow ==> jobs[i] in VisibleJobs(jobs)
    ensures jobs[i] in VisibleJobs(jobs) && jobs[i].status != "Active" ==> ButtonFor(jobs[i]) == NotAvailable
  {
  }

  /** The three lists of the modal: `toList` of each field, a missing one
      being empty text. */
  function ModalLists(job: JobPost.Job): (r: (seq<string>, seq<string>, seq<string>))
    ensures r.2 == Lines(job.responsibilities)
    ensures job.preferredSkills.Listed? ==> r.0 == job.preferredSkills.items
    ensures job.preferredSkills.Typed? ==> r.0 == Lines(job.preferredSkills.text)
    ensures job.requiredQualifications.Listed? ==> r.1 == job.requiredQualifications.items
    ensures job.requiredQualifications.Typed? ==> r.1 == Lines(job.requiredQualifications.text)
  {
    (JobPost.ToList(job.preferredSkills), JobPost.ToList(job.requiredQualifications),
     JobPost.ToList(JobPost.Typed(job.responsibilities)))
  }

  /** A job saved by the job board shows the public visitor the same skill
      and qualification entries the editor typed. */
  lemma PublishedListsMatch(f: JobPost.JobForm, editing: Option<JobPost.Job>, today: string, id: string)
    requires JobPost.ValidForm(f)
    ensures var job := JobPost.Stored(id, JobPost.Submission(f, editing, today));
      ModalLists(job).0 == JobPost.ToList(JobPost.Typed(f.preferredSkills)) &&
      ModalLists(job).1 == JobPost.ToList(JobPost.Typed(f.requiredQualifications))
  {
  }

  // ---------------------------------------------------------------------
  // The application form

  /** The resume picked in the file input. */
  datatype ResumeFile = ResumeFile(name: string, mimeType: string)

  /** The form's fields. */
  datatype Field = YourName | YourEmail | MobileNumber | Skills | ExperienceYears
                 | SalaryExpectation | Description | Resume

  datatype Form = Form(
    yourName: string, yourEmail: string, mobileNumber: string, skills: string,
    experienceYears: string, salaryExpectation: string, description: string,
    resume: Option<ResumeFile>)

  function EmptyForm(): Form {
    Form([], [], [], [], [], [], [], None)
  }

  /** The text of one of the form's text fields. */
  function FieldText(f: Form, field: Field): string
    requires field != Resume
  {
    match field
    case YourName => f.yourName
    case YourEmail => f.yourEmail
    case MobileNumber => f.mobileNumber
    case Skills => f.skills
    case ExperienceYears => f.experienceYears
    case SalaryExpectation => f.salaryExpectation
    case Description => f.description
  }

  /** The form after editing a text field: as in `handleChange`, the
      mobile number keeps its first ten digits, the e-mail is lower-cased,
      anything else is kept as typed (the description's own `onChange`
      stores it as typed too). No other field changes. */
  function Changed(f: Form, field: Field, value: string): (g: Form)
    requires field != Resume
    ensures g.resume == f.resume
    ensures forall h | h != Resume && h != field :: FieldText(g, h) == FieldText(f, h)
    ensures field != MobileNumber && field != YourEmail ==> FieldText(g, field) == value
    ensures field == MobileNumber ==>
      && AllDigits(g.mobileNumber)
      && IsPrefix(g.mobileNumber, DigitsOnly(value))
      && |g.mobileNumber| == (if |DigitsOnly(value)| <= 10 then |DigitsOnly(value)| else 10)
    ensures field == YourEmail ==>
      && |g.yourEmail| == |value|
      && (forall i | 0 <= i < |value| :: g.yourEmail[i] == LowerChar(value[i]))
      && (forall i | 0 <= i < |value| :: !IsUpper(g.yourEmail[i]))
  {
    match field
    case YourName => f.(yourName := value)
    case YourEmail => f.(yourEmail := Lower(value))
    case MobileNumber => f.(mobileNumber := Take(DigitsOnly(value), 10))
    case Skills => f.(skills := value)
    case ExperienceYears => f.(experienceYears := value)
    case SalaryExpectation => f.(salaryExpectation := value)
    case Description => f.(description := value)
  }

  /** A shown error for a field is cleared once the field is edited. */
  function ClearedError(errors: map<Field, string>, field: Field): (e: map<Field, string>)
    ensures field in errors ==> e == errors[field := []]
    ensures field !in errors ==> e == errors
  {
    if field in errors && errors[field] != [] then errors[field := []] else errors
  }

  /** `validateEmail`: one or more of a-z, 0-9, '.', '_', '%', '+', '-',
      followed by exactly "@gmail.com". */
  predicate EmailChar(c: char) {
    IsLower(c) || IsDigit(c) || c == '.' || c == '_' || c == '%' || c == '+' || c == '-'
  }

  predicate ValidEmail(e: string) {
    |e| > 10 && e[|e| - 10..] == "@gmail.com" && forall i | 0 <= i < |e| - 10 :: EmailChar(e[i])
  }

  /** The address pattern in terms of its two parts. */
  lemma ValidEmailParts(local: string)
    ensures ValidEmail(local + "@gmail.com") <==> local != [] && forall i | 0 <= i < |local| :: EmailChar(local[i])
  {
    var e := local + "@gmail.com";
    assert e[|e| - 10..] == "@gmail.com";
    assert forall i | 0 <= i < |local| :: e[i] == local[i];
  }

  /** `validateMobile`: exactly ten digits. */
  predicate ValidMobile(m: string) {
    |m| == 10 && AllDigits(m)
  }

  /** Whatever is typed into the mobile field, it then holds a valid
      number exactly when the typed text had at least ten digits. */
  lemma TypedMobileValid(f: Form, value: string)
    ensures ValidMobile(Changed(f, MobileNumber, value).mobileNumber) <==> |DigitsOnly(value)| >= 10
  {
    var d := DigitsOnly(value);
    var m := Take(d, 10);
    assert forall i | 0 <= i < |m| :: m[i] == d[i];
  }

  lemma LowerOfNoCapitals(s: string)
    requires forall i | 0 <= i < |s| :: !IsUpper(s[i])
    ensures Lower(s) == s
  {
  }

  /** The address pattern holds no capitals, so lower-casing a valid
      address leaves it as it is. */
  lemma ValidEmailIsLower(e: string)
    requires ValidEmail(e)
    ensures Lower(e) == e
  {
    var n := |e| - 10;
    var suffix := e[n..];
    assert forall j | 0 <= j < 10 :: !IsUpper(suffix[j]);
    forall i | 0 <= i < |e|
      ensures !IsUpper(e[i])
    {
      if i >= n {
        assert e[i] == suffix[i - n];
      }
    }
    LowerOfNoCapitals(e);
  }

  /** `submit`'s check of one field, stated on its own. */
  predicate FieldOk(f: Form, field: Field) {
    match field
    case YourName => Trim(f.yourName) != []
    case YourEmail => Trim(f.yourEmail) != [] && ValidEmail(f.yourEmail)
    case MobileNumber => Trim(f.mobileNumber) != [] && ValidMobile(f.mobileNumber)
    case Skills => Trim(f.skills) != []
    case ExperienceYears => Trim(f.experienceYears) != []
    case SalaryExpectation => Trim(f.salaryExpectation) != []
    case Description => Trim(f.description) != []
    case Resume => f.resume.Some?
  }

  const AllFields: set<Field> := {YourName, YourEmail, MobileNumber, Skills, ExperienceYears,
                                  SalaryExpectation, Description, Resume}

  /** `submit`'s message for one field: "required" for a blank field, a
      format message for a malformed address or number. */
  function FieldError(f: Form, field: Field): Option<string> {
    match field
    case YourName => if Trim(f.yourName) == [] then Some("Name is required") else None
    case YourEmail =>
      if Trim(f.yourEmail) == [] then Some("Email is required")
      else if !ValidEmail(f.yourEmail) then Some("Email must end with @gmail.com")
      else None
    case MobileNumber =>
      if Trim(f.mobileNumber) == [] then Some("Mobile is required")
      else if !ValidMobile(f.mobileNumber) then Some("Mobile must be 10 digits")
      else None
    case Skills => if Trim(f.skills) == [] then Some("Skills required") else None
    case ExperienceYears => if Trim(f.experienceYears) == [] then Some("Experience required") else None
    case SalaryExpectation => if Trim(f.salaryExpectation) == [] then Some("Salary required") else None
    case Description => if Trim(f.description) == [] then Some("Description required") else None
    case Resume => if f.resume.None? then Some("Resume required") else None
  }

  /** `submit`'s error object. */
  function Errors(f: Form): map<Field, string> {
    map field | field in AllFields && FieldError(f, field).Some? :: FieldError(f, field).value
  }

  /** The error object names exactly the fields that fail their check, so
      the form is posted exactly when every field passes. */
  lemma ErrorsAreFailedFields(f: Form, field: Field)
    ensures field in Errors(f) <==> !FieldOk(f, field)
    ensures field in Errors(f) ==> Errors(f)[field] != []
  {
    assert field in AllFields;
  }

  lemma NoErrorsWhenComplete(f: Form)
    ensures Errors(f) == map[] <==> forall field: Field :: FieldOk(f, field)
  {
    if Errors(f) != map[] {
      var field :| field in Errors(f);
      ErrorsAreFailedFields(f, field);
    } else {
      forall field: Field
        ensures FieldOk(f, field)
      {
        ErrorsAreFailedFields(f, field);
      }
    }
  }

  /** `handleResume`'s accepted file types. */
  predicate AcceptedResume(mimeType: string) {
    mimeType == "application/pdf" || mimeType == "image/jpeg" || mimeType == "image/jpg"
    || mimeType == "image/png" || mimeType == "image/gif"
  }

  /** What is posted: the form's fields and the job applied for. */
  datatype Posted = Posted(form: Form, jobId: string, jobTitle: string, designation: string)

  /** Every posted form had no error. */
  predicate AllPassed(posted: seq<Posted>) {
    forall k | 0 <= k < |posted| :: Errors(posted[k].form) == map[]
  }

  /** The modal's form as a stateful object: the fields, the shown errors,
      whether the form is shown, and what has been posted. */
  class ApplyModal {
    const job: JobPost.Job
    var form: Form
    var errors: map<Field, string>
    var showApply: bool
    var posted: seq<Posted>

    /** Only forms without errors are ever posted. */
    predicate Valid()
      reads this
    {
      AllPassed(posted)
    }

    constructor (j: JobPost.Job)
      ensures Valid()
      ensures job == j && form == EmptyForm() && errors == map[] && !showApply && posted == []
    {
      job := j;
      form, errors, showApply, posted := EmptyForm(), map[], false, [];
    }

    /** "APPLY NOW", offered only for an active job. */
    method OpenForm()
      requires ButtonFor(job) == ApplyNow
      requires Valid()
      modifies this
      ensures Valid()
      ensures showApply && form == old(form) && errors == old(errors) && posted == old(posted)
    {
      showApply := true;
    }

    /** Editing a text field. Every field but the description goes through
        `handleChange`, which clears that field's shown error; the
        description's own `onChange` only stores the text, so its error
        stays until the next submit. */
    method Change(field: Field, value: string)
      requires field != Resume
      requires Valid()
      modifies this
      ensures Valid()
      ensures form == Changed(old(form), field, value)
      ensures errors == if field == Description then old(errors) else ClearedError(old(errors), field)
      ensures showApply == old(showApply) && posted == old(posted)
    {
      form := Changed(form, field, value);
      if field != Description {
        errors := ClearedError(errors, field);
      }
    }

    /** `handleResume`: no file clears the resume; a file of another type
        shows an error and is not stored, leaving any earlier file in place;
        an accepted file is stored and its error cleared. */
    method PickResume(file: Option<ResumeFile>)
      requires Valid()
      modifies this
      ensures Valid()
      ensures file.None? ==> form == old(form).(resume := None) && errors == old(errors)
      ensures file.Some? && !AcceptedResume(file.value.mimeType) ==>
                form == old(form) && errors == old(errors)[Resume := "Only PDF, JPG, JPEG, PNG, GIF allowed"]
      ensures file.Some? && AcceptedResume(file.value.mimeType) ==>
                form == old(form).(resume := file) && errors == old(errors)[Resume := []]
      ensures form.resume.Some? ==> AcceptedResume(form.resume.value.mimeType) || form.resume == old(form.resume)
      ensures showApply == old(showApply) && posted == old(posted)
    {
      if file.None? {
        form := form.(resume := None);
        return;
      }
      if !AcceptedResume(file.value.mimeType) {
        errors := errors[Resume := "Only PDF, JPG, JPEG, PNG, GIF allowed"];
        return;
      }
      errors := errors[Resume := []];
      form := form.(resume := file);
    }

    /** `submit`: with any error the errors are shown and nothing is posted;
        otherwise the application is posted, and the form closes when the
        server accepts it. */
    method Submit(accepted: bool)
      requires Valid()
      modifies this
      ensures Valid()
      ensures form == old(form)
      ensures Errors(old(form)) != map[] ==>
                errors == Errors(old(form)) && posted == old(posted) && showApply == old(showApply)
      ensures Errors(old(form)) == map[] ==>
                errors == old(errors)
                && posted == old(posted) + [Posted(old(form), job.id, job.jobTitle, job.designation)]
                && showApply == (old(showApply) && !accepted)
    {
      var err := Errors(form);
      if err != map[] {
        errors := err;
        return;
      }
      posted := posted + [Posted(form, job.id, job.jobTitle, job.designation)];
      if accepted {
        showApply := false;
      }
    }
  }

  /** Every posted application passed every check: in particular its
      address and number are valid and it carries a resume. */
  lemma PostedFormsAreComplete(posted: seq<Posted>)
    requires AllPassed(posted)
    ensures forall k, field | 0 <= k < |posted| :: FieldOk(posted[k].form, field)
    ensures forall k | 0 <= k < |posted| ::
      ValidEmail(posted[k].form.yourEmail) && ValidMobile(posted[k].form.mobileNumber) && posted[k].form.resume.Some?
  {
    forall k | 0 <= k < |posted|
      ensures forall field :: FieldOk(posted[k].form, field)
      ensures ValidEmail(posted[k].form.yourEmail) && ValidMobile(posted[k].form.mobileNumber) && posted[k].form.resume.Some?
    {
      var f := posted[k].form;
      NoErrorsWhenComplete(f);
      assert FieldOk(f, YourEmail) && FieldOk(f, MobileNumber) && FieldOk(f, Resume);
    }
  }

  // ---------------------------------------------------------------------
  // Word limit

  predicate NoSpace(w: string) {
    forall i | 0 <= i < |w| :: !IsSpace(w[i])
  }

  /** The non-space characters at the front of s. */
  function LeadingWord(s: string): (r: string)
    ensures IsPrefix(r, s) && NoSpace(r)
    ensures |r| < |s| ==> IsSpace(s[|r|])
  {
    if s != [] && !IsSpace(s[0]) then [s[0]] + LeadingWord(s[1..]) else []
  }

  /** The words of s: its maximal runs of non-space characters. */
  function WordRuns(s: string): (r: seq<string>)
    ensures forall k | 0 <= k < |r| :: r[k] != [] && NoSpace(r[k])
    decreases |s|
  {
    if s == [] then []
    else if IsSpace(s[0]) then WordRuns(s[1..])
    else
      var w := LeadingWord(s);
      [w] + WordRuns(s[|w|..])
  }

  /** `text.trim().split(/\s+/)`: the words, or one empty piece for blank
      text. */
  function Words(text: string): (r: seq<string>)
    ensures |r| >= 1
  {
    var t := Trim(text);
    if t == [] then [[]]
    else
      var ws := WordRuns(t);
      assert ws != [] by { assert !IsSpace(t[0]); }
      ws
  }

  /** `limitWords`: text of at most `limit` words is returned as it is;
      longer text keeps its first `limit` words, joined by single spaces,
      followed by "...". */
  function LimitWords(text: string, limit: nat): string {
    if text == [] then []
    else
      var ws := Words(text);
      if |ws| > limit then Join(ws[..limit], ' ') + "..." else text
  }

  lemma {:induction false} LeadingWordOf(w: string, rest: string)
    requires NoSpace(w)
    requires rest == [] || IsSpace(rest[0])
    ensures LeadingWord(w + rest) == w
    decreases |w|
  {
    if w != [] {
      assert (w + rest)[1..] == w[1..] + rest;
      LeadingWordOf(w[1..], rest);
      assert [w[0]] + w[1..] == w;
    } else {
      assert w + rest == rest;
    }
  }

  /** Words joined by single spaces split back into the same words. */
  lemma {:induction false} WordRunsOfJoin(ws: seq<string>)
    requires forall k | 0 <= k < |ws| :: ws[k] != [] && NoSpace(ws[k])
    ensures WordRuns(Join(ws, ' ')) == ws
    decreases |ws|
  {
    if |ws| == 1 {
      var e: string := [];
      LeadingWordOf(ws[0], e);
      assert ws[0] + e == ws[0];
      assert ws[0][|ws[0]|..] == [];
    } else if |ws| > 1 {
      var w, rest := ws[0], Join(ws[1..], ' ');
      var s := w + [' '] + rest;
      assert Join(ws, ' ') == s;
      WordRunsOfJoin(ws[1..]);
      LeadingWordOf(w, [' '] + rest);
      assert s == w + ([' '] + rest);
      assert s[|w|..] == [' '] + rest;
      assert ([' '] + rest)[1..] == rest;
      assert [w] + ws[1..] == ws;
    }
  }

  /** A join of words starts and ends with a word character. */
  lemma {:induction false} JoinIsTrimmed(ws: seq<string>)
    requires ws != []
    requires forall k | 0 <= k < |ws| :: ws[k] != [] && NoSpace(ws[k])
    ensures Join(ws, ' ') != [] && IsTrimmed(Join(ws, ' '))
    ensures Join(ws, ' ')[0] == ws[0][0]
    decreases |ws|
  {
    if |ws| > 1 {
      JoinIsTrimmed(ws[1..]);
      var s := ws[0] + [' '] + Join(ws[1..], ' ');
      assert s[0] == ws[0][0];
      assert s[|s| - 1] == Join(ws[1..], ' ')[|Join(ws[1..], ' ')| - 1];
    }
  }

  /** A shortened title ends in "..." after exactly the first `limit`
      words of the original. */
  lemma ShortenedWords(text: string, limit: nat)
    requires text != [] && limit > 0 && |Words(text)| > limit
    ensures var r := LimitWords(text, limit);
      EndsWith(r, "...") && Words(r[..|r| - 3]) == Words(text)[..limit]
  {
    var ws := Words(text)[..limit];
    var j := Join(ws, ' ');
    var r := j + "...";
    assert LimitWords(text, limit) == r;
    assert r[..|r| - 3] == j;
    JoinIsTrimmed(ws);
    TrimOfTrimmed(j);
    WordRunsOfJoin(ws);
  }

  /** A title within the limit is shown unchanged. */
  lemma ShortTitleUnchanged(text: string, limit: nat)
    requires |Words(text)| <= limit
    ensures LimitWords(text, limit) == text
  {
  }
}
