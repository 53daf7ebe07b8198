/** The applicants screen (Applicants.jsx): the loaded applications with
    their status made uniform, the search and status filter, the status
    update after the server accepts it, ten rows per page, and the detail
    page that marks a new application as viewed and sends a chosen status
    when "Done" is pressed. */
module Applicants {
  import opened Text
  import Listing

  const RecordsPerPage: nat := 10

  /** An application as the server returns it; an absent field is None. */
  datatype Applicant = Applicant(
    id: string, yourName: Option<string>, designation: Option<string>,
    skills: Option<string>, status: Option<string>)

  /** The status shown for a loaded application: "new" and a missing or
      empty status read "view"; any other status is kept. */
  function NormalStatus(status: Option<string>): (r: string)
    ensures r != [] && r != "new"
    ensures status.Some? && status.value != [] && status.value != "new" ==> r == status.value
    ensures (status.None? || status.value == [] || status.value == "new") ==> r == "view"
  {
    if status == Some("new") then "view"
    else if status.None? || status.value == [] then "view"
    else status.value
  }

  /** Every loaded application with its status made uniform, nothing else
      changed. */
  function Normalised(data: seq<Applicant>): (r: seq<Applicant>)
    ensures |r| == |data|
    ensures forall i | 0 <= i < |data| :: r[i] == data[i].(status := Some(NormalStatus(data[i].status)))
  {
    seq(|data|, i requires 0 <= i < |data| => data[i].(status := Some(NormalStatus(data[i].status))))
  }

  /** Loading an already loaded list again changes nothing. */
  lemma NormalisedIdempotent(data: seq<Applicant>)
    ensures Normalised(Normalised(data)) == Normalised(data)
  {
    var once := Normalised(data);
    forall i | 0 <= i < |data|
      ensures Normalised(once)[i] == once[i]
    {
      assert NormalStatus(Some(NormalStatus(data[i].status))) == NormalStatus(data[i].status);
    }
  }

  /** A template literal shows an absent field as "undefined". A field
      stored as null would show as "null"; the model does not tell the two
      apart and writes "undefined" for both. */
  function Shown(field: Option<string>): string {
    if field.Some? then field.value else "undefined"
  }

  /** The text a search looks in: name, designation and skills. */
  function SearchText(a: Applicant): string {
    Shown(a.yourName) + " " + Shown(a.designation) + " " + Shown(a.skills)
  }

  /** The query (lower-cased but not trimmed) occurs in the lower-cased
      search text. */
  predicate MatchesSearch(a: Applicant, term: string) {
    Contains(Lower(SearchText(a)), Lower(term))
  }

  /** The status filter passes the applicant. */
  predicate MatchesStatus(a: Applicant, statusFilter: string) {
    a.status == Some(statusFilter)
  }

  function BySearch(xs: seq<Applicant>, term: string): (r: seq<Applicant>)
    ensures Listing.SubsequenceOf(r, xs)
    ensures forall x | x in r :: x in xs && MatchesSearch(x, term)
    ensures forall i | 0 <= i < |xs| && MatchesSearch(xs[i], term) :: xs[i] in r
  {
    Listing.FilterIsSubsequence(xs, (a: Applicant) => MatchesSearch(a, term));
    Listing.Filter(xs, (a: Applicant) => MatchesSearch(a, term))
  }

  function ByStatus(xs: seq<Applicant>, statusFilter: string): (r: seq<Applicant>)
    ensures Listing.SubsequenceOf(r, xs)
    ensures forall x | x in r :: x in xs && MatchesStatus(x, statusFilter)
    ensures forall i | 0 <= i < |xs| && MatchesStatus(xs[i], statusFilter) :: xs[i] in r
  {
    Listing.FilterIsSubsequence(xs, (a: Applicant) => MatchesStatus(a, statusFilter));
    Listing.Filter(xs, (a: Applicant) => MatchesStatus(a, statusFilter))
  }

  /** The filtering effect: no filter at all (None) for a blank search with
      "all" statuses; otherwise the applicants passing the search when it
      is not blank and the status filter when it is not "all", in order. */
  function Filtered(applicants: seq<Applicant>, term: string, statusFilter: string): (r: Option<seq<Applicant>>)
    ensures r.None? <==> Trim(term) == [] && statusFilter == "all"
  {
    if Trim(term) == [] && statusFilter == "all" then None
    else
      var bySearch := if Trim(term) != [] then BySearch(applicants, term) else applicants;
      Some(if statusFilter != "all" then ByStatus(bySearch, statusFilter) else bySearch)
  }

  /** What the filter keeps: exactly the applicants that pass both tests,
      in their order. */
  lemma FilteredMembers(applicants: seq<Applicant>, term: string, statusFilter: string, x: Applicant)
    requires Trim(term) != [] || statusFilter != "all"
    ensures var r := Filtered(applicants, term, statusFilter).value;
      x in r <==> x in applicants
                  && (Trim(term) != [] ==> MatchesSearch(x, term))
                  && (statusFilter != "all" ==> MatchesStatus(x, statusFilter))
  {
    var bySearch := if Trim(term) != [] then BySearch(applicants, term) else applicants;
    if x in applicants && (Trim(term) != [] ==> MatchesSearch(x, term)) {
      var i :| 0 <= i < |applicants| && applicants[i] == x;
      assert x in bySearch;
      if statusFilter != "all" && MatchesStatus(x, statusFilter) {
        var j :| 0 <= j < |bySearch| && bySearch[j] == x;
        assert x in ByStatus(bySearch, statusFilter);
      }
    }
  }

  lemma FilteredIsSubsequence(applicants: seq<Applicant>, term: string, statusFilter: string)
    requires Trim(term) != [] || statusFilter != "all"
    ensures Listing.SubsequenceOf(Filtered(applicants, term, statusFilter).value, applicants)
  {
    if Trim(term) != [] && statusFilter != "all" {
      Listing.SubsequenceTrans(ByStatus(BySearch(applicants, term), statusFilter), BySearch(applicants, term), applicants);
    } else if Trim(term) == [] {
      Listing.SubsequenceOfSelf(applicants);
    }
  }

  /** `handleStatusChange` once the server has accepted it: the applicant
      with that id takes the new status; every other one is unchanged. */
  function WithStatus(applicants: seq<Applicant>, id: string, status: string): (r: seq<Applicant>)
    ensures |r| == |applicants|
    ensures forall i | 0 <= i < |applicants| ::
              r[i] == if applicants[i].id == id then applicants[i].(status := Some(status)) else applicants[i]
  {
    seq(|applicants|, i requires 0 <= i < |applicants| =>
      if applicants[i].id == id then applicants[i].(status := Some(status)) else applicants[i])
  }

  /** Setting the same status twice is setting it once, and the ids keep
      their order. */
  lemma WithStatusIdempotent(applicants: seq<Applicant>, id: string, status: string)
    ensures WithStatus(WithStatus(applicants, id, status), id, status) == WithStatus(applicants, id, status)
    ensures forall i | 0 <= i < |applicants| :: WithStatus(applicants, id, status)[i].id == applicants[i].id
  {
  }

  /** `Math.ceil(list.length / 10)`: no page for an empty list, otherwise
      the fewest pages that hold every row. */
  function TotalPages(n: nat): (r: nat)
    ensures r == 0 <==> n == 0
    ensures n > 0 ==> (r - 1) * RecordsPerPage < n <= r * RecordsPerPage
  {
    Listing.CeilDivBounds(n, RecordsPerPage);
    Listing.CeilDiv(n, RecordsPerPage)
  }

  /** The list screen's state. */
  datatype Screen = Screen(
    applicants: seq<Applicant>, searchTerm: string, statusFilter: string,
    filtered: Option<seq<Applicant>>, currentPage: nat)

  /** `filteredApplicants || applicants`. */
  function List(s: Screen): seq<Applicant> {
    if s.filtered.Some? then s.filtered.value else s.applicants
  }

  /** The rows of the current page. */
  function Current(s: Screen): seq<Applicant> {
    Listing.PageSlice(List(s), s.currentPage, RecordsPerPage)
  }

  /** Every row of the list is on one of the pages the pager counts, at
      its place within that page. */
  lemma EveryRowOnAPage(s: Screen, i: nat)
    requires i < |List(s)|
    ensures var p := i / RecordsPerPage + 1;
      p <= TotalPages(|List(s)|) &&
      i % RecordsPerPage < |Current(s.(currentPage := p))| &&
      Current(s.(currentPage := p))[i % RecordsPerPage] == List(s)[i]
  {
    Listing.PageOfIndex(List(s), i, RecordsPerPage);
    assert List(s.(currentPage := i / RecordsPerPage + 1)) == List(s);
  }

  /** The filtering effect, run whenever the list, the search or the
      status filter changes: clearing both filters keeps the page number;
      any filter goes back to the first page. */
  function Refiltered(s: Screen): (t: Screen)
    ensures t.applicants == s.applicants && t.searchTerm == s.searchTerm && t.statusFilter == s.statusFilter
    ensures t.filtered == Filtered(s.applicants, s.searchTerm, s.statusFilter)
    ensures t.filtered.Some? ==> t.currentPage == 1
    ensures t.filtered.None? ==> t.currentPage == s.currentPage
  {
    var f := Filtered(s.applicants, s.searchTerm, s.statusFilter);
    if f.None? then s.(filtered := None) else s.(filtered := f, currentPage := 1)
  }

  /** The applicants page. */
  class ApplicantsPage {
    var applicants: seq<Applicant>
    var searchTerm: string
    var statusFilter: string
    var filtered: Option<seq<Applicant>>
    var currentPage: nat

    function State(): Screen
      reads this
    {
      Screen(applicants, searchTerm, statusFilter, filtered, currentPage)
    }

    /** The shown list always agrees with the filters. */
    predicate Valid()
      reads this
    {
      currentPage >= 1 && filtered == Filtered(applicants, searchTerm, statusFilter)
    }

    constructor ()
      ensures Valid() && State() == Screen([], [], "all", None, 1)
    {
      applicants, searchTerm, statusFilter, filtered, currentPage := [], [], "all", None, 1;
    }

    /** The filtering effect. */
    method Refilter()
      requires currentPage >= 1
      modifies this
      ensures Valid() && State() == Refiltered(old(State()))
    {
      var f := Filtered(applicants, searchTerm, statusFilter);
      filtered := f;
      if f.Some? {
        currentPage := 1;
      }
    }

    /** `fetchApplicants`: the fetched list with uniform statuses, or no
        change when the request fails. */
    method Load(data: Option<seq<Applicant>>)
      requires Valid()
      modifies this
      ensures Valid()
      ensures State() == if data.Some? then Refiltered(old(State()).(applicants := Normalised(data.value)))
                         else old(State())
    {
      if data.Some? {
        applicants := Normalised(data.value);
        Refilter();
      }
    }

    /** Typing in the search box. The effect runs only when the term
        differs from the one held; the same term changes nothing. */
    method Search(term: string)
      requires Valid()
      modifies this
      ensures Valid()
      ensures State() == if term == old(searchTerm) then old(State())
                         else Refiltered(old(State()).(searchTerm := term))
    {
      if term != searchTerm {
        searchTerm := term;
        Refilter();
      }
    }

    /** Picking a status in the drop-down. Choosing the option already
        selected leaves the effect's inputs unchanged, so it does not run
        and the page stays where it is. */
    method ChooseStatus(option: string)
      requires Valid()
      modifies this
      ensures Valid()
      ensures State() == if option == old(statusFilter) then old(State())
                         else Refiltered(old(State()).(statusFilter := option))
    {
      if option != statusFilter {
        statusFilter := option;
        Refilter();
      }
    }

    /** `handleStatusChange`: the list changes only when the server
        accepted the update; the result says whether it did. */
    method StatusChange(id: string, status: string, accepted: bool) returns (ok: bool)
      requires Valid()
      modifies this
      ensures Valid() && ok == accepted
      ensures State() == if accepted then Refiltered(old(State()).(applicants := WithStatus(old(applicants), id, status)))
                         else old(State())
    {
      if accepted {
        applicants := WithStatus(applicants, id, status);
        Refilter();
      }
      ok := accepted;
    }

    /** "<": never below the first page. */
    method PreviousPage()
      requires Valid()
      modifies this
      ensures Valid() && State() == old(State()).(currentPage := if old(currentPage) > 1 then old(currentPage) - 1 else 1)
    {
      currentPage := if currentPage > 1 then currentPage - 1 else 1;
    }

    /** ">": shown only when the list is longer than a page, never beyond
        the last page. */
    method NextPage()
      requires Valid() && |List(State())| > RecordsPerPage
      modifies this
      ensures Valid() && currentPage <= TotalPages(|List(State())|)
      ensures State() == old(State()).(currentPage := Listing.Min(TotalPages(|List(old(State()))|), old(currentPage) + 1))
    {
      var total := TotalPages(|List(State())|);
      currentPage := Listing.Min(total, currentPage + 1);
    }
  }

  /** A blank search with all statuses lists every applicant. */
  lemma NoFilterListsAll(s: Screen)
    requires s.filtered == Filtered(s.applicants, s.searchTerm, s.statusFilter)
    requires Trim(s.searchTerm) == [] && s.statusFilter == "all"
    ensures List(s) == s.applicants
  {
  }

  // ---------------------------------------------------------------------
  // The detail page

  /** The detail page's state: the applicant opened, the status chosen on
      the page, whether one was clicked, whether the automatic "viewed"
      update was made, and the status updates sent so far. */
  datatype Detail = Detail(
    applicant: Applicant, currentStatus: string, statusChanged: bool,
    hasUpdatedToViewed: bool, sent: seq<(string, string)>)

  /** `applicant.status || "view"`. */
  function Opened(a: Applicant): (d: Detail)
    ensures d.currentStatus != [] && d.sent == [] && !d.statusChanged && !d.hasUpdatedToViewed
  {
    Detail(a, if a.status.Some? && a.status.value != [] then a.status.value else "view", false, false, [])
  }

  /** The effect that marks a "view" application as viewed, once. */
  function AfterAutoView(d: Detail): Detail {
    if d.applicant.status == Some("view") && !d.hasUpdatedToViewed then
      d.(currentStatus := "viewed", hasUpdatedToViewed := true, sent := d.sent + [(d.applicant.id, "viewed")])
    else d
  }

  /** Clicking one of the status buttons. */
  function AfterChoose(d: Detail, status: string): Detail {
    d.(currentStatus := status, statusChanged := true)
  }

  /** "Done": the chosen status is sent only when a button was clicked and
      it differs from the status the page was opened with. */
  function AfterDone(d: Detail): Detail {
    if d.statusChanged && Some(d.currentStatus) != d.applicant.status then
      d.(sent := d.sent + [(d.applicant.id, d.currentStatus)])
    else d
  }

  /** Running the effect again sends nothing more, and a page opened on a
      "view" application sends exactly one "viewed" update. */
  lemma AutoViewOnce(a: Applicant)
    ensures AfterAutoView(AfterAutoView(Opened(a))) == AfterAutoView(Opened(a))
    ensures a.status == Some("view") ==> AfterAutoView(Opened(a)).sent == [(a.id, "viewed")]
    ensures a.status != Some("view") ==> AfterAutoView(Opened(a)).sent == []
  {
  }

  /** "Done" sends at most one update, for this applicant, with a status
      that was clicked and differs from the one it was opened with; pressing
      it with no click sends nothing. */
  lemma DoneSendsOnlyChanges(d: Detail)
    ensures var e := AfterDone(d);
      (e.sent == d.sent) || (e.sent == d.sent + [(d.applicant.id, d.currentStatus)]
                             && d.statusChanged && Some(d.currentStatus) != d.applicant.status)
    ensures !d.statusChanged ==> AfterDone(d) == d
  {
  }

  /** The detail page as a stateful object. */
  class ApplicantDetail {
    var applicant: Applicant
    var currentStatus: string
    var statusChanged: bool
    var hasUpdatedToViewed: bool
    var sent: seq<(string, string)>

    function State(): Detail
      reads this
    {
      Detail(applicant, currentStatus, statusChanged, hasUpdatedToViewed, sent)
    }

    constructor (a: Applicant)
      ensures State() == Opened(a)
    {
      applicant := a;
      currentStatus := if a.status.Some? && a.status.value != [] then a.status.value else "view";
      statusChanged, hasUpdatedToViewed, sent := false, false, [];
    }

    method AutoView()
      modifies this
      ensures State() == AfterAutoView(old(State()))
    {
      if applicant.status == Some("view") && !hasUpdatedToViewed {
        currentStatus := "viewed";
        hasUpdatedToViewed := true;
        sent := sent + [(applicant.id, "viewed")];
      }
    }

    method Choose(status: string)
      modifies this
      ensures State() == AfterChoose(old(State()), status)
    {
      currentStatus := status;
      statusChanged := true;
    }

    method Done()
      modifies this
      ensures State() == AfterDone(old(State()))
    {
      if statusChanged && Some(currentStatus) != applicant.status {
        sent := sent + [(applicant.id, currentStatus)];
      }
    }
  }
}
