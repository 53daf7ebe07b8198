/** The user-access screen: the six feature keys, the all-false and
    all-true access tables, the "Full Access" label, the add-user form with
    its role switch, access checkboxes and phone input, the payload sent on
    "Set Access", and the user-list search. */
module UserAccess {
  import opened Text
  import Listing

  datatype Feature = Job | Blogs | Gallery | Applicants | Invoice | Quotation

  /** `ACCESS_LIST`, in display order. */
  const AccessList: seq<Feature> := [Job, Blogs, Gallery, Applicants, Invoice, Quotation]

  lemma AllInAccessList()
    ensures forall f: Feature :: f in AccessList
  {
    forall f: Feature ensures f in AccessList {
      assert AccessList[Position(f)] == f;
    }
  }

  /** The display label of each key in `ACCESS_LIST`. */
  function Label(f: Feature): string {
    match f
    case Job => "Job Post"
    case Blogs => "Blogs"
    case Gallery => "Gallery"
    case Applicants => "Applicants"
    case Invoice => "Invoice"
    case Quotation => "Quotation"
  }

  /** A user's `access` object: one flag per feature. */
  datatype Access = Access(
    job: bool, blogs: bool, gallery: bool,
    applicants: bool, invoice: bool, quotation: bool)

  /** `access[key]`. */
  function Granted(a: Access, f: Feature): bool {
    match f
    case Job => a.job
    case Blogs => a.blogs
    case Gallery => a.gallery
    case Applicants => a.applicants
    case Invoice => a.invoice
    case Quotation => a.quotation
  }

  /** `{ ...access, [key]: value }`: only that one flag changes. */
  function SetFlag(a: Access, f: Feature, value: bool): (r: Access)
    ensures Granted(r, f) == value
    ensures forall g | g != f :: Granted(r, g) == Granted(a, g)
  {
    match f
    case Job => a.(job := value)
    case Blogs => a.(blogs := value)
    case Gallery => a.(gallery := value)
    case Applicants => a.(applicants := value)
    case Invoice => a.(invoice := value)
    case Quotation => a.(quotation := value)
  }

  const EmptyAccess: Access := Access(false, false, false, false, false, false)
  const FullAccess: Access := Access(true, true, true, true, true, true)

  lemma EmptyAndFull(f: Feature)
    ensures !Granted(EmptyAccess, f) && Granted(FullAccess, f)
  {
  }

  /** `ACCESS_LIST.every(a => access?.[a.key])` over the keys in fs. */
  function Every(a: Access, fs: seq<Feature>): (r: bool)
    ensures r <==> forall i | 0 <= i < |fs| :: Granted(a, fs[i])
    decreases |fs|
  {
    if fs == [] then true else Granted(a, fs[0]) && Every(a, fs[1..])
  }

  /** `isFullAccess`: a missing access object has no flag set. */
  function IsFullAccess(access: Option<Access>): (r: bool)
    ensures r <==> access.Some? && forall f: Feature :: Granted(access.value, f)
    ensures r ==> access == Some(FullAccess)
  {
    if access.None? then false
    else
      AllInAccessList();
      Every(access.value, AccessList)
  }

  /** The access column of the list and the view: "Full Access" for an
      administrator or a user holding every flag. */
  function AccessLabel(role: string, access: Option<Access>): (r: string)
    ensures r == "Full Access" <==> role == "admin" || access == Some(FullAccess)
    ensures r == "Full Access" || r == "Limited Access"
  {
    if role == "admin" || IsFullAccess(access) then "Full Access" else "Limited Access"
  }

  /** The "Access To" list of the view, in `ACCESS_LIST` order: every
      feature for an administrator, the granted ones otherwise. */
  function ShownFeatures(role: string, access: Option<Access>): (r: seq<Feature>)
    ensures forall f: Feature :: f in r <==> Shown(role, access, f)
    ensures Listing.SubsequenceOf(r, AccessList)
    ensures role == "admin" ==> r == AccessList
  {
    var shown := (f: Feature) => Shown(role, access, f);
    var r := Listing.Filter(AccessList, shown);
    Listing.FilterIsSubsequence(AccessList, shown);
    ShownFeaturesMembers(role, access, r);
    r
  }

  /** An entry of the view's "Access To" list is shown. */
  predicate Shown(role: string, access: Option<Access>, f: Feature) {
    role == "admin" || (access.Some? && Granted(access.value, f))
  }

  lemma ShownFeaturesMembers(role: string, access: Option<Access>, r: seq<Feature>)
    requires r == Listing.Filter(AccessList, (f: Feature) => Shown(role, access, f))
    ensures forall f: Feature :: f in r <==> Shown(role, access, f)
  {
    var shown := (f: Feature) => Shown(role, access, f);
    forall f: Feature | Shown(role, access, f) ensures f in r {
      var i := Position(f);
      assert shown(AccessList[i]);
    }
  }

  /** Where a feature sits in `ACCESS_LIST`. */
  function Position(f: Feature): (i: nat)
    ensures i < |AccessList| && AccessList[i] == f
  {
    match f
    case Job => 0
    case Blogs => 1
    case Gallery => 2
    case Applicants => 3
    case Invoice => 4
    case Quotation => 5
  }

  /** A user as listed by the server. */
  datatype UserRow = UserRow(
    id: string, name: string, phone: string, username: string,
    role: string, access: Option<Access>)

  /** The search test of `filteredUsers`: name or username contains the
      search text, ignoring ASCII case. */
  predicate UserMatches(u: UserRow, search: string) {
    Contains(Lower(u.name), Lower(search)) || Contains(Lower(u.username), Lower(search))
  }

  /** `filteredUsers`. */
  function FilteredUsers(users: seq<UserRow>, search: string): (r: seq<UserRow>)
    ensures forall u | u in r :: u in users && UserMatches(u, search)
    ensures forall i | 0 <= i < |users| && UserMatches(users[i], search) :: users[i] in r
    ensures Listing.SubsequenceOf(r, users)
  {
    Listing.FilterIsSubsequence(users, u => UserMatches(u, search));
    Listing.Filter(users, u => UserMatches(u, search))
  }

  /** An empty search lists every user. */
  lemma EmptySearchListsAll(users: seq<UserRow>)
    ensures FilteredUsers(users, "") == users
  {
    forall i | 0 <= i < |users| ensures UserMatches(users[i], "") {
      EmptyContained(Lower(users[i].name));
    }
  }

  /** What "Set Access" posts. */
  datatype NewUser = NewUser(
    name: string, phone: string, username: string, password: string,
    role: string, access: Access)

  /** The add-user form. */
  class UserForm {
    var name: string
    var phone: string
    var username: string
    var password: string
    var role: string
    var access: Access

    /** The form as opened by "New User". */
    constructor ()
      ensures name == "" && phone == "" && username == "" && password == ""
      ensures role == "user" && access == EmptyAccess
    {
      name, phone, username, password := "", "", "", "";
      role, access := "user", EmptyAccess;
    }

    /** The "User" side of the role switch: every flag cleared. */
    method ChooseUser()
      modifies this
      ensures role == "user" && access == EmptyAccess
      ensures name == old(name) && phone == old(phone)
      ensures username == old(username) && password == old(password)
    {
      role, access := "user", EmptyAccess;
    }

    /** The "Admin" side of the role switch: every flag set. */
    method ChooseAdmin()
      modifies this
      ensures role == "admin" && access == FullAccess
      ensures name == old(name) && phone == old(phone)
      ensures username == old(username) && password == old(password)
    {
      role, access := "admin", FullAccess;
    }

    /** A checkbox: only the clicked feature's flag changes. */
    method Check(f: Feature, checked: bool)
      modifies this
      ensures Granted(access, f) == checked
      ensures forall g | g != f :: Granted(access, g) == Granted(old(access), g)
      ensures role == old(role) && name == old(name) && phone == old(phone)
      ensures username == old(username) && password == old(password)
    {
      access := SetFlag(access, f, checked);
    }

    /** `handlePhoneChange`: non-digits are dropped, and the input is taken
        only while it holds at most ten digits. */
    method PhoneChange(value: string)
      modifies this
      ensures AllDigits(DigitsOnly(value)) && |DigitsOnly(value)| <= 10 ==> phone == DigitsOnly(value)
      ensures |DigitsOnly(value)| > 10 ==> phone == old(phone)
      ensures AllDigits(old(phone)) ==> AllDigits(phone)
      ensures |old(phone)| <= 10 ==> |phone| <= 10
      ensures role == old(role) && access == old(access) && name == old(name)
      ensures username == old(username) && password == old(password)
    {
      var digits := DigitsOnly(value);
      if |digits| <= 10 {
        phone := digits;
      }
    }

    /** The `handleAddUser` payload: an administrator is always sent with
        every flag set, whatever the checkboxes say. */
    function Payload(): (p: NewUser)
      reads this
      ensures p.role == "admin" ==> p.access == FullAccess
      ensures p.role != "admin" ==> p.access == access
      ensures p.name == name && p.phone == phone && p.username == username
      ensures p.password == password && p.role == role
    {
      NewUser(name, phone, username, password, role,
              if role == "admin" then FullAccess else access)
    }
  }

  /** Unticking a box while "Admin" is chosen does not reach the payload.
      The page disables the boxes while the role is "admin", so this state
      is not reachable through it; the payload would ignore the box even if
      it were. */
  method AdminPayloadIgnoresCheckboxes(f: Feature) returns (p: NewUser)
    ensures p.role == "admin" && p.access == FullAccess
  {
    var form := new UserForm();
    form.ChooseAdmin();
    form.Check(f, false);
    p := form.Payload();
  }
}
