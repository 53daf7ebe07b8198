/** The invoice and quotation records of the billing screen: the first page
    a signed-in user lands on, document numbering (`IN###` / `QU###`), the
    blank record, the two validators, the phone-digit filter, the item-list
    editing of the open form, saving into the local lists, and the search
    and paging of the record table. */
module BillRecords {
  import opened Text
  import opened BillMath
  import UA = UserAccess
  import Listing

  // ---------------------------------------------------------------------
  // Landing page
  // ---------------------------------------------------------------------

  /** The signed-in user as the screen sees it. */
  datatype SessionUser = SessionUser(role: string, access: Option<UA.Access>)

  /** The order in which `getFirstAllowedPage` tries the features. */
  const PageOrder: seq<UA.Feature> :=
    [UA.Applicants, UA.Blogs, UA.Gallery, UA.Job, UA.Invoice, UA.Quotation]

  /** `getFirstAllowedPage`: None is `null`, no page to open. */
  function FirstAllowedPage(user: Option<SessionUser>): (r: Option<UA.Feature>)
    ensures user.None? ==> r.None?
    ensures user.Some? && user.value.role == "admin" ==> r == Some(UA.Applicants)
    ensures user.Some? && user.value.role != "admin" ==>
      (r.Some? <==> user.value.access.Some? && exists f :: UA.Granted(user.value.access.value, f))
    ensures user.Some? && user.value.role != "admin" && r.Some? ==>
      exists i | 0 <= i < |PageOrder| :: PageOrder[i] == r.value
        && UA.Granted(user.value.access.value, PageOrder[i])
        && forall j | 0 <= j < i :: !UA.Granted(user.value.access.value, PageOrder[j])
  {
    if user.None? then None
    else if user.value.role == "admin" then Some(UA.Applicants)
    else if user.value.access.None? then None
    else
      var a := user.value.access.value;
      if a.applicants then (assert PageOrder[0] == UA.Applicants && UA.Granted(a, UA.Applicants); Some(UA.Applicants))
      else if a.blogs then (assert PageOrder[1] == UA.Blogs && UA.Granted(a, UA.Blogs); Some(UA.Blogs))
      else if a.gallery then (assert PageOrder[2] == UA.Gallery && UA.Granted(a, UA.Gallery); Some(UA.Gallery))
      else if a.job then (assert PageOrder[3] == UA.Job && UA.Granted(a, UA.Job); Some(UA.Job))
      else if a.invoice then (assert PageOrder[4] == UA.Invoice && UA.Granted(a, UA.Invoice); Some(UA.Invoice))
      else if a.quotation then (assert PageOrder[5] == UA.Quotation && UA.Granted(a, UA.Quotation); Some(UA.Quotation))
      else (assert forall f :: !UA.Granted(a, f); None)
  }

  // ---------------------------------------------------------------------
  // Records
  // ---------------------------------------------------------------------

  datatype DocKind = Quotation | Invoice

  datatype Party = Party(name: string, email: string, phone: string, address: string, pincode: string)

  /** A quotation or invoice as held by the screen. `dbId` is `_id` (None
      before the server has stored it), `number` None is a missing number. */
  datatype Record = Record(
    kind: DocKind,
    dbId: Option<string>,
    localId: string,
    number: Option<string>,
    date: string,
    from: Party,
    to: Party,
    items: seq<LineItem>,
    discountPercent: Option<real>,
    showDiscount: bool,
    roundOff: bool,
    showAdditionalInfo: bool,
    additionalInfo: string)

  function OrEmpty(s: Option<string>): string {
    if s.Some? then s.value else ""
  }

  /** "QU" for quotations, "IN" for everything else. */
  function Prefix(kind: DocKind): (p: string)
    ensures |p| == 2
  {
    if kind == Quotation then "QU" else "IN"
  }

  /** The number a document number stands for:
      `parseInt((number || "").replace(prefix, ""), 10)`, None for NaN. */
  function NumberValue(number: Option<string>, prefix: string): Option<int> {
    ParseInt(RemoveFirst(OrEmpty(number), prefix))
  }

  /** The map/filter step of `getNextNumber`: the parsable numbers, in order. */
  function ParsedNumbers(records: seq<Record>, prefix: string): seq<int>
    decreases |records|
  {
    if records == [] then []
    else
      var rest := ParsedNumbers(records[1..], prefix);
      match NumberValue(records[0].number, prefix)
      case None => rest
      case Some(n) => [n] + rest
  }

  /** The parsed numbers are exactly the parsable counters of the records. */
  lemma {:induction false} ParsedNumbersMembers(records: seq<Record>, prefix: string)
    ensures var ns := ParsedNumbers(records, prefix);
      && (forall i | 0 <= i < |records| && NumberValue(records[i].number, prefix).Some? ::
            NumberValue(records[i].number, prefix).value in ns)
      && (forall n | n in ns :: exists i | 0 <= i < |records| :: NumberValue(records[i].number, prefix) == Some(n))
    decreases |records|
  {
    if records != [] {
      var rest := records[1..];
      ParsedNumbersMembers(rest, prefix);
      assert forall i | 1 <= i < |records| :: records[i] == rest[i - 1];
      var ns := ParsedNumbers(records, prefix);
      forall n | n in ns
        ensures exists i | 0 <= i < |records| :: NumberValue(records[i].number, prefix) == Some(n)
      {
        if n !in ParsedNumbers(rest, prefix) {
          assert NumberValue(records[0].number, prefix) == Some(n);
        } else {
          var j :| 0 <= j < |rest| && NumberValue(rest[j].number, prefix) == Some(n);
          assert records[j + 1] == rest[j];
        }
      }
    }
  }

  /** `.sort((a, b) => b - a)[0] || 0`: the largest number, 0 for none. */
  function LastNumber(ns: seq<int>): (m: int)
    ensures forall n | n in ns :: n <= m
    ensures ns == [] ==> m == 0
    ensures ns != [] ==> m in ns
    decreases |ns|
  {
    if ns == [] then 0
    else if |ns| == 1 then ns[0]
    else
      var m := LastNumber(ns[1..]);
      assert forall n | n in ns :: n == ns[0] || n in ns[1..];
      if ns[0] >= m then ns[0] else m
  }

  /** `getNextNumber`. */
  function NextNumber(kind: DocKind, records: seq<Record>): string {
    NumberAfter(Prefix(kind), LastNumber(ParsedNumbers(records, Prefix(kind))))
  }

  /** The prefix, then the counter after `last` padded to three places. */
  function NumberAfter(prefix: string, last: int): string {
    prefix + PadStart(IntToString(last + 1), 3, '0')
  }

  /** The numeric part of a padded counter reads back as the counter, or as
      0 when a negative counter is padded to "0-d". */
  lemma PaddedCounterValue(k: int)
    ensures var v := ParseInt(PadStart(IntToString(k), 3, '0'));
      v.Some? && (v.value == k || (k < 0 && v.value == 0))
  {
    var s := IntToString(k);
    var p := PadStart(s, 3, '0');
    if k >= 0 {
      ValuePadZeros(s, 3);
      ValueOfNatToString(k);
      ParseIntOfDigits(p);
    } else {
      var d := NatToString(-k);
      assert s == "-" + d;
      ValueOfNatToString(-k);
      if |s| >= 3 {
        assert p == s;
        assert TrimStart(p) == p;
        assert p[1..] == d;
        LeadingDigitsOfDigits(d, []);
        assert d + [] == d;
      } else {
        assert |d| == 1;
        assert p == ['0', '-', d[0]];
        assert TrimStart(p) == p;
        LeadingDigitsOfDigits("0", p[1..]);
        assert "0" + p[1..] == p;
        assert Value("0") == 0;
      }
    }
  }

  lemma RemovePrefix(prefix: string, rest: string)
    ensures RemoveFirst(prefix + rest, prefix) == rest
  {
    assert (prefix + rest)[..|prefix|] == prefix;
  }

  /** Every parsable counter in the list is below the largest one plus one. */
  lemma CountersBelowNext(kind: DocKind, records: seq<Record>)
    ensures var last := LastNumber(ParsedNumbers(records, Prefix(kind)));
      forall i | 0 <= i < |records| && NumberValue(records[i].number, Prefix(kind)).Some? ::
        NumberValue(records[i].number, Prefix(kind)).value < last + 1
  {
    ParsedNumbersMembers(records, Prefix(kind));
  }

  /** A prefix followed by a padded counter reads back as the counter. */
  lemma CounterReadsBack(prefix: string, k: nat)
    ensures NumberValue(Some(prefix + PadStart(IntToString(k), 3, '0')), prefix) == Some(k)
  {
    var pad := PadStart(IntToString(k), 3, '0');
    RemovePrefix(prefix, pad);
    PaddedCounterValue(k);
  }

  /** `getNextNumber` spelled out: prefix, then the padded counter. */
  lemma NextNumberShape(kind: DocKind, records: seq<Record>, last: int)
    requires last == LastNumber(ParsedNumbers(records, Prefix(kind)))
    ensures NextNumber(kind, records) == Prefix(kind) + PadStart(IntToString(last + 1), 3, '0')
  {
  }

  /** The next number's counter is one more than the largest parsable
      counter (0 when there is none) and so exceeds every one of them. */
  lemma NextNumberExceedsAll(kind: DocKind, records: seq<Record>)
    ensures var last := LastNumber(ParsedNumbers(records, Prefix(kind)));
      && (last >= 0 ==> NumberValue(Some(NextNumber(kind, records)), Prefix(kind)) == Some(last + 1))
      && forall i | 0 <= i < |records| && NumberValue(records[i].number, Prefix(kind)).Some? ::
           NumberValue(records[i].number, Prefix(kind)).value < last + 1
  {
    var last := LastNumber(ParsedNumbers(records, Prefix(kind)));
    if last >= 0 {
      var pad := PadStart(IntToString(last + 1), 3, '0');
      NextNumberShape(kind, records, last);
      CounterReadsBack(Prefix(kind), last + 1);
      assert NumberValue(Some(Prefix(kind) + pad), Prefix(kind)) == Some(last + 1);
    }
    CountersBelowNext(kind, records);
  }

  /** The next number is not the number of any existing record. */
  lemma NextNumberIsFresh(kind: DocKind, records: seq<Record>)
    ensures forall i | 0 <= i < |records| :: records[i].number != Some(NextNumber(kind, records))
  {
    var prefix := Prefix(kind);
    var ns := ParsedNumbers(records, prefix);
    ParsedNumbersMembers(records, prefix);
    var last := LastNumber(ns);
    var pad := PadStart(IntToString(last + 1), 3, '0');
    var next := NextNumber(kind, records);
    NextNumberShape(kind, records, last);
    assert next == prefix + pad;
    RemovePrefix(prefix, pad);
    PaddedCounterValue(last + 1);
    var v := NumberValue(Some(next), prefix);
    assert v == ParseInt(pad);
    assert v.Some? && (v.value == last + 1 || (last + 1 < 0 && v.value == 0));
  }

  /** With no parsable counter in the list the next number is "001". */
  lemma FirstNumberWithoutCounters(kind: DocKind, records: seq<Record>)
    requires forall i | 0 <= i < |records| :: NumberValue(records[i].number, Prefix(kind)).None?
    ensures NextNumber(kind, records) == Prefix(kind) + "001"
  {
    NoCountersNoNumbers(records, Prefix(kind));
    NextFromNoNumbers(kind, records);
  }

  lemma NextFromNoNumbers(kind: DocKind, records: seq<Record>)
    requires ParsedNumbers(records, Prefix(kind)) == []
    ensures NextNumber(kind, records) == Prefix(kind) + "001"
  {
    assert NextNumber(kind, records) == NumberAfter(Prefix(kind), 0);
    NumberAfterSmall(Prefix(kind), 0);
  }

  /** After a one-digit counter comes its successor padded with two zeros. */
  lemma NumberAfterSmall(prefix: string, last: nat)
    requires last < 9
    ensures NumberAfter(prefix, last) == prefix + ['0', '0', DigitChar(last + 1)]
    ensures last == 0 ==> NumberAfter(prefix, last) == prefix + "001"
    ensures last == 3 ==> NumberAfter(prefix, last) == prefix + "004"
  {
    Pad3OneDigit(last + 1);
  }

  lemma {:induction false} NoCountersNoNumbers(records: seq<Record>, prefix: string)
    requires forall i | 0 <= i < |records| :: NumberValue(records[i].number, prefix).None?
    ensures ParsedNumbers(records, prefix) == []
    decreases |records|
  {
    if records != [] {
      NoCountersNoNumbers(records[1..], prefix);
    }
  }

  /** A record with a parsable counter puts it in front of the others'. */
  lemma ParsedNumbersCons(r: Record, rest: seq<Record>, prefix: string, n: int)
    requires NumberValue(r.number, prefix) == Some(n)
    ensures ParsedNumbers([r] + rest, prefix) == [n] + ParsedNumbers(rest, prefix)
  {
    assert ([r] + rest)[1..] == rest;
  }

  /** Records whose counters read 1 and 3 (IN001 and IN003 for invoices)
      give counter 4: a gap is not filled. */
  lemma NextAfterThree(kind: DocKind, records: seq<Record>)
    requires ParsedNumbers(records, Prefix(kind)) == [1, 3]
    ensures NextNumber(kind, records) == Prefix(kind) + "004"
  {
    LastOfOneThree(ParsedNumbers(records, Prefix(kind)));
    assert NextNumber(kind, records) == NumberAfter(Prefix(kind), 3);
    NumberAfterSmall(Prefix(kind), 3);
  }

  lemma LastOfOneThree(ns: seq<int>)
    requires ns == [1, 3]
    ensures LastNumber(ns) == 3
  {
    assert ns[1..] == [3];
  }

  // ---------------------------------------------------------------------
  // The blank record
  // ---------------------------------------------------------------------

  /** The sender block every new record starts with. */
  const Company: Party := Party(
    "SPANGLES WEBX", "webxspangles@gmail.com", "7708784111",
    "7-15C\n1st floor Puthuval vilai\nKattathurai post\nThiruvananthapuram main road \nOpposite packianath public school",
    "")

  const BlankParty: Party := Party("", "", "", "", "")

  /** `emptyRecord`: `now` stands for `Date.now()` and `today` for the ISO
      date of the day. */
  function EmptyRecord(kind: DocKind, records: seq<Record>, now: nat, today: string): (r: Record)
    ensures r.number == Some(NextNumber(kind, records))
    ensures r.kind == kind && r.dbId.None? && r.date == today
    ensures r.from == Company && r.to == BlankParty && r.items == []
    ensures !r.showDiscount && !r.roundOff && !r.showAdditionalInfo && r.additionalInfo == ""
  {
    Record(kind, None, "local_" + NatToString(now), Some(NextNumber(kind, records)), today,
           Company, BlankParty, [], None, false, false, false, "")
  }

  // ---------------------------------------------------------------------
  // Validation
  // ---------------------------------------------------------------------

  /** `isEmpty`: missing, or nothing but white space. */
  predicate Blank(v: Option<string>) {
    v.None? || Trim(v.value) == []
  }

  predicate PartyComplete(p: Party) {
    p.name != "" && p.email != "" && p.phone != "" && p.address != ""
  }

  /** Everything `validateAllFields` asks for. A form that has not been
      created yet is None. */
  predicate AllFieldsPresent(form: Option<Record>) {
    && form.Some?
    && !Blank(form.value.number) && !Blank(Some(form.value.date))
    && PartyComplete(form.value.from) && PartyComplete(form.value.to)
    && form.value.items != []
    && forall i | 0 <= i < |form.value.items| ::
         form.value.items[i].name != "" && form.value.items[i].amount.Some?
  }

  /** `validateAllFields`, with its loop over the items. */
  method ValidateAllFields(form: Option<Record>) returns (ok: bool)
    ensures ok <==> AllFieldsPresent(form)
  {
    if form.None? {
      return false;
    }
    var f := form.value;
    if Blank(f.number) || Blank(Some(f.date)) {
      return false;
    }
    if !PartyComplete(f.from) || !PartyComplete(f.to) {
      return false;
    }
    if |f.items| == 0 {
      return false;
    }
    var i := 0;
    while i < |f.items|
      invariant 0 <= i <= |f.items|
      invariant forall j | 0 <= j < i :: f.items[j].name != "" && f.items[j].amount.Some?
    {
      if f.items[i].name == "" || f.items[i].amount.None? {
        return false;
      }
      i := i + 1;
    }
    return true;
  }

  /** A fresh record cannot pass `validateAllFields`: it has no items. */
  lemma EmptyRecordIncomplete(kind: DocKind, records: seq<Record>, now: nat, today: string)
    ensures !AllFieldsPresent(Some(EmptyRecord(kind, records, now, today)))
  {
  }

  predicate EmailOk(s: string) { s == "" || EndsWith(s, "@gmail.com") }
  predicate PhoneOk(s: string) { s == "" || (|s| == 10 && AllDigits(s)) }
  predicate PincodeOk(s: string) { s == "" || (|s| == 6 && AllDigits(s)) }

  /** What `validateForm` lets through. */
  predicate FormValid(form: Record) {
    && EmailOk(form.from.email) && EmailOk(form.to.email)
    && PhoneOk(form.from.phone) && PhoneOk(form.to.phone)
    && PincodeOk(form.from.pincode) && PincodeOk(form.to.pincode)
  }

  const FromEmailError := "From Email must end with @gmail.com"
  const ToEmailError := "To Email must end with @gmail.com"
  const FromPhoneError := "From Phone must be 10 digits"
  const ToPhoneError := "To Phone must be 10 digits"
  const FromPincodeError := "From Postal Code must be 6 digits"
  const ToPincodeError := "To Postal Code must be 6 digits"

  /** The message of one check, or nothing when it passes. */
  function Check(ok: bool, message: string): (r: seq<string>)
    ensures ok <==> r == []
    ensures !ok ==> r == [message]
  {
    if ok then [] else [message]
  }

  /** What `validateForm` reports, in check order. */
  function FormErrors(form: Record): seq<string> {
    Messages(EmailOk(form.from.email), EmailOk(form.to.email),
             PhoneOk(form.from.phone), PhoneOk(form.to.phone),
             PincodeOk(form.from.pincode), PincodeOk(form.to.pincode))
  }

  /** The messages of the six checks, given their outcomes. */
  function Messages(fromEmail: bool, toEmail: bool, fromPhone: bool, toPhone: bool,
                    fromPincode: bool, toPincode: bool): seq<string> {
    Check(fromEmail, FromEmailError) + Check(toEmail, ToEmailError)
    + Check(fromPhone, FromPhoneError) + Check(toPhone, ToPhoneError)
    + Check(fromPincode, FromPincodeError) + Check(toPincode, ToPincodeError)
  }

  /** `if (!ok) errors.push(message)`. */
  method Push(errors: seq<string>, ok: bool, message: string) returns (errors': seq<string>)
    ensures errors' == errors + Check(ok, message)
  {
    errors' := errors;
    if !ok {
      errors' := errors + [message];
    }
  }

  /** `validateForm`: one message per failed check, in check order. */
  method ValidateForm(form: Record) returns (errors: seq<string>)
    ensures errors == FormErrors(form)
  {
    errors := [];
    errors := Push(errors, EmailOk(form.from.email), FromEmailError);
    errors := Push(errors, EmailOk(form.to.email), ToEmailError);
    errors := Push(errors, PhoneOk(form.from.phone), FromPhoneError);
    errors := Push(errors, PhoneOk(form.to.phone), ToPhoneError);
    errors := Push(errors, PincodeOk(form.from.pincode), FromPincodeError);
    errors := Push(errors, PincodeOk(form.to.pincode), ToPincodeError);
    assert [] + Check(EmailOk(form.from.email), FromEmailError) == Check(EmailOk(form.from.email), FromEmailError);
  }

  /** The form passes exactly when there is no message, there is at most one
      message per check, and each message appears exactly when its own
      check fails. */
  lemma FormErrorsMeaning(form: Record)
    ensures FormErrors(form) == [] <==> FormValid(form)
    ensures |FormErrors(form)| <= 6
    ensures FromEmailError in FormErrors(form) <==> !EmailOk(form.from.email)
    ensures ToEmailError in FormErrors(form) <==> !EmailOk(form.to.email)
    ensures FromPhoneError in FormErrors(form) <==> !PhoneOk(form.from.phone)
    ensures ToPhoneError in FormErrors(form) <==> !PhoneOk(form.to.phone)
    ensures FromPincodeError in FormErrors(form) <==> !PincodeOk(form.from.pincode)
    ensures ToPincodeError in FormErrors(form) <==> !PincodeOk(form.to.pincode)
  {
    MessagesMeaning(EmailOk(form.from.email), EmailOk(form.to.email),
                    PhoneOk(form.from.phone), PhoneOk(form.to.phone),
                    PincodeOk(form.from.pincode), PincodeOk(form.to.pincode));
  }

  lemma MessagesMeaning(a: bool, b: bool, c: bool, d: bool, e: bool, f: bool)
    ensures Messages(a, b, c, d, e, f) == [] <==> a && b && c && d && e && f
    ensures |Messages(a, b, c, d, e, f)| <= 6
    ensures FromEmailError in Messages(a, b, c, d, e, f) <==> !a
    ensures ToEmailError in Messages(a, b, c, d, e, f) <==> !b
    ensures FromPhoneError in Messages(a, b, c, d, e, f) <==> !c
    ensures ToPhoneError in Messages(a, b, c, d, e, f) <==> !d
    ensures FromPincodeError in Messages(a, b, c, d, e, f) <==> !e
    ensures ToPincodeError in Messages(a, b, c, d, e, f) <==> !f
  {
  }

  /** `onlyDigitsMax`: the digits of the input, cut to `maxLen`. */
  function OnlyDigitsMax(value: Option<string>, maxLen: nat): (r: string)
    ensures AllDigits(r) && |r| <= maxLen
    ensures IsPrefix(r, DigitsOnly(OrEmpty(value)))
    ensures |DigitsOnly(OrEmpty(value))| <= maxLen ==> r == DigitsOnly(OrEmpty(value))
  {
    var digits := DigitsOnly(OrEmpty(value));
    Take(digits, maxLen)
  }

  /** Typing into the phone field again changes nothing more. */
  lemma OnlyDigitsMaxIdempotent(value: Option<string>, maxLen: nat)
    ensures OnlyDigitsMax(Some(OnlyDigitsMax(value, maxLen)), maxLen) == OnlyDigitsMax(value, maxLen)
  {
  }

  // ---------------------------------------------------------------------
  // Items of the open form
  // ---------------------------------------------------------------------

  /** The item "Add Item" appends: amount 0, no name, no rate. */
  const NewItem: LineItem := LineItem("", "", Some(0.0), None)

  /** `{ ...items[index], [field]: value }`. */
  datatype ItemChange =
    | SetName(name: string)
    | SetDescription(description: string)
    | SetAmount(amount: Option<real>)
    | SetGstPercent(gstPercent: Option<real>)

  function ApplyChange(it: LineItem, ch: ItemChange): (r: LineItem)
    ensures ch.SetName? ==> r == it.(name := ch.name)
    ensures ch.SetDescription? ==> r == it.(description := ch.description)
    ensures ch.SetAmount? ==> r == it.(amount := ch.amount)
    ensures ch.SetGstPercent? ==> r == it.(gstPercent := ch.gstPercent)
  {
    match ch
    case SetName(n) => LineItem(n, it.description, it.amount, it.gstPercent)
    case SetDescription(d) => LineItem(it.name, d, it.amount, it.gstPercent)
    case SetAmount(a) => LineItem(it.name, it.description, a, it.gstPercent)
    case SetGstPercent(g) => LineItem(it.name, it.description, it.amount, g)
  }

  /** `items.filter((_, i) => i !== index)`, position by position from `from`. */
  function WithoutPosition(items: seq<LineItem>, index: nat, from: nat): (r: seq<LineItem>)
    ensures from <= index < from + |items| ==> r == items[..index - from] + items[index - from + 1..]
    ensures index < from || index >= from + |items| ==> r == items
    decreases |items|
  {
    if items == [] then []
    else
      var rest := WithoutPosition(items[1..], index, from + 1);
      if from == index then (assert rest == items[1..]; rest)
      else [items[0]] + rest
  }

  /** Removing an item leaves the others' totals. */
  lemma RemoveItemTotals(items: seq<LineItem>, index: nat)
    requires index < |items|
    ensures Subtotal(WithoutPosition(items, index, 0)) == Subtotal(items) - OrZero(items[index].amount)
  {
    SubtotalWithout(items, index);
    SubtotalAround(items, index);
  }

  lemma SubtotalWithout(items: seq<LineItem>, index: nat)
    requires index < |items|
    ensures Subtotal(WithoutPosition(items, index, 0)) == Subtotal(items[..index] + items[index + 1..])
  {
  }

  lemma SubtotalAround(items: seq<LineItem>, index: nat)
    requires index < |items|
    ensures Subtotal(items) == Subtotal(items[..index] + items[index + 1..]) + OrZero(items[index].amount)
  {
    ItemsAround(items, index);
    SubtotalSplit(items[..index], items[index], items[index + 1..]);
  }

  lemma ItemsAround<T>(items: seq<T>, index: nat)
    requires index < |items|
    ensures items == (items[..index] + [items[index]]) + items[index + 1..]
  {
    assert items[index..] == [items[index]] + items[index + 1..];
    assert items == items[..index] + items[index..];
  }

  lemma SubtotalSplit(a: seq<LineItem>, x: LineItem, b: seq<LineItem>)
    ensures Subtotal((a + [x]) + b) == Subtotal(a + b) + OrZero(x.amount)
  {
    SubtotalAppend(a + [x], b);
    SubtotalAppend(a, [x]);
    SubtotalAppend(a, b);
    SubtotalSingle(x);
  }

  lemma SubtotalSingle(x: LineItem)
    ensures Subtotal([x]) == OrZero(x.amount)
  {
    assert [x][..0] == [];
  }

  /** The record actually written by `saveRecord`: a quotation never keeps
      additional information, an invoice keeps its own. */
  function ToInsert(form: Record, kind: DocKind): (r: Record)
    ensures kind == Quotation ==> !r.showAdditionalInfo && r.additionalInfo == ""
    ensures kind == Invoice ==> r == form
    ensures r.(showAdditionalInfo := form.showAdditionalInfo, additionalInfo := form.additionalInfo) == form
  {
    if kind == Quotation then form.(showAdditionalInfo := false, additionalInfo := "")
    else form
  }

  /** `!form._id`: no identifier, or an empty one. */
  predicate Unsaved(form: Record) {
    form.dbId.None? || form.dbId.value == ""
  }

  /** `prev.map(p => p._id === form._id ? form : p)`. */
  function ReplaceById(records: seq<Record>, form: Record): (r: seq<Record>)
    ensures |r| == |records|
    ensures forall i | 0 <= i < |records| ::
      r[i] == (if records[i].dbId == form.dbId then form else records[i])
    decreases |records|
  {
    if records == [] then []
    else [if records[0].dbId == form.dbId then form else records[0]] + ReplaceById(records[1..], form)
  }

  /** The local list after a save: an unsaved form goes in front, a
      stored one takes the place of the entry with its `_id`. */
  function SavedList(records: seq<Record>, form: Record, kind: DocKind): (r: seq<Record>)
    ensures Unsaved(form) ==> |r| == |records| + 1 && r[0] == ToInsert(form, kind) && r[1..] == records
    ensures !Unsaved(form) ==> r == ReplaceById(records, form)
  {
    if Unsaved(form) then [ToInsert(form, kind)] + records
    else ReplaceById(records, form)
  }

  /** The search test of `handleSearch` for the record at 0-based position
      `pos`: serial, number, customer or displayed date contains the
      lower-cased term. `display` is the date formatting. */
  predicate RecordMatches(r: Record, pos: nat, q: string, display: string -> string) {
    || Contains(Pad2(pos + 1), q)
    || Contains(Lower(OrEmpty(r.number)), q)
    || Contains(Lower(r.to.name), q)
    || Contains(Lower(display(r.date)), q)
  }

  /** `handleSearch`: a blank term clears the filter (None), any other term
      keeps the matching records in order. */
  function SearchRecords(records: seq<Record>, term: string, display: string -> string): (r: Option<seq<Record>>)
    ensures r.None? <==> Trim(term) == []
    ensures r.Some? ==> Listing.SubsequenceOf(r.value, records)
    ensures r.Some? ==> forall i | 0 <= i < |records| && RecordMatches(records[i], i, Lower(term), display) ::
      records[i] in r.value
    ensures r.Some? ==> forall x | x in r.value ::
      exists i | 0 <= i < |records| :: records[i] == x && RecordMatches(x, i, Lower(term), display)
  {
    if Trim(term) == [] then None
    else
      var keep := (x: Record, pos: nat) => RecordMatches(x, pos, Lower(term), display);
      Listing.FilterIndexedIsSubsequence(records, 0, keep);
      Some(Listing.FilterIndexed(records, 0, keep))
  }

  /** `recordsPerPage`. */
  const RecordsPerPage: nat := 10

  /** The state of the billing screen: the two open forms, the two record
      lists, which list is shown, the search and the page. */
  class BillBook {
    var quotationForm: Record
    var invoiceForm: Record
    var quotations: seq<Record>
    var invoices: seq<Record>
    var showing: DocKind
    var searchTerm: string
    var filtered: Option<seq<Record>>
    var currentPage: nat

    constructor (now: nat, today: string)
      ensures quotations == [] && invoices == []
      ensures quotationForm == EmptyRecord(Quotation, [], now, today)
      ensures invoiceForm == EmptyRecord(Invoice, [], now, today)
      ensures showing == Invoice && searchTerm == ""
      ensures filtered.None? && currentPage == 1
    {
      quotations, invoices := [], [];
      quotationForm := EmptyRecord(Quotation, [], now, today);
      invoiceForm := EmptyRecord(Invoice, [], now, today);
      showing := Invoice;
      searchTerm, filtered, currentPage := "", None, 1;
    }

    function Form(kind: DocKind): Record
      reads this
    {
      if kind == Quotation then quotationForm else invoiceForm
    }

    function Records(kind: DocKind): seq<Record>
      reads this
    {
      if kind == Quotation then quotations else invoices
    }

    /** `addItemToForm`: one blank item at the end of the chosen form. */
    method AddItem(kind: DocKind)
      modifies this
      ensures Form(kind) == old(Form(kind)).(items := old(Form(kind).items) + [NewItem])
      ensures forall k | k != kind :: Form(k) == old(Form(k))
      ensures quotations == old(quotations) && invoices == old(invoices)
      ensures filtered == old(filtered) && currentPage == old(currentPage)
      ensures showing == old(showing) && searchTerm == old(searchTerm)
    {
      if kind == Quotation {
        quotationForm := quotationForm.(items := quotationForm.items + [NewItem]);
      } else {
        invoiceForm := invoiceForm.(items := invoiceForm.items + [NewItem]);
      }
    }

    /** `updateItemInForm`: only the one field of item `index` changes. */
    method UpdateItem(kind: DocKind, index: nat, ch: ItemChange)
      requires index < |Form(kind).items|
      modifies this
      ensures Form(kind) == old(Form(kind)).(items := old(Form(kind).items)[index := ApplyChange(old(Form(kind).items[index]), ch)])
      ensures forall k | k != kind :: Form(k) == old(Form(k))
      ensures quotations == old(quotations) && invoices == old(invoices)
      ensures filtered == old(filtered) && currentPage == old(currentPage)
      ensures showing == old(showing) && searchTerm == old(searchTerm)
    {
      var f := Form(kind);
      var items := f.items[index := ApplyChange(f.items[index], ch)];
      if kind == Quotation {
        quotationForm := f.(items := items);
      } else {
        invoiceForm := f.(items := items);
      }
    }

    /** `removeItemFromForm`: exactly position `index` goes, the rest keep
        their order; an index past the end removes nothing. */
    method RemoveItem(kind: DocKind, index: nat)
      modifies this
      ensures index < |old(Form(kind).items)| ==>
        Form(kind).items == old(Form(kind).items)[..index] + old(Form(kind).items)[index + 1..]
      ensures index >= |old(Form(kind).items)| ==> Form(kind) == old(Form(kind))
      ensures Form(kind) == old(Form(kind)).(items := Form(kind).items)
      ensures forall k | k != kind :: Form(k) == old(Form(k))
      ensures quotations == old(quotations) && invoices == old(invoices)
      ensures filtered == old(filtered) && currentPage == old(currentPage)
      ensures showing == old(showing) && searchTerm == old(searchTerm)
    {
      var f := Form(kind);
      var items := WithoutPosition(f.items, index, 0);
      if kind == Quotation {
        quotationForm := f.(items := items);
      } else {
        invoiceForm := f.(items := items);
      }
    }

    /** `saveRecord`. A form failing `validateForm` changes nothing.
        Otherwise the local list of that kind becomes `SavedList` at once;
        when the server answers `ok`, the form of that kind is replaced by a
        blank one numbered from the updated list (see the findings). */
    method SaveRecord(form: Record, kind: DocKind, ok: bool, now: nat, today: string)
      returns (accepted: bool)
      requires AllFieldsPresent(Some(form))
      modifies this
      ensures accepted <==> FormValid(form)
      ensures accepted ==> Records(kind) == SavedList(old(Records(kind)), form, kind)
      ensures !accepted ==> Records(kind) == old(Records(kind))
      ensures accepted && ok ==> Form(kind) == EmptyRecord(kind, Records(kind), now, today)
      ensures !(accepted && ok) ==> Form(kind) == old(Form(kind))
      ensures forall k | k != kind :: Records(k) == old(Records(k)) && Form(k) == old(Form(k))
      ensures filtered == old(filtered) && currentPage == old(currentPage)
      ensures showing == old(showing) && searchTerm == old(searchTerm)
    {
      var errors := ValidateForm(form);
      if errors != [] {
        return false;
      }
      accepted := true;
      var updated := SavedList(Records(kind), form, kind);
      SetRecords(kind, updated);
      if ok {
        SetForm(kind, EmptyRecord(kind, updated, now, today));
      }
    }

    /** A form's "Save" button: a form with a blank field, no line or an
        unnamed or unpriced line is refused (a toast) and nothing changes;
        a complete one goes to `saveRecord`. */
    method OnSave(kind: DocKind, ok: bool, now: nat, today: string) returns (accepted: bool)
      modifies this
      ensures accepted <==> AllFieldsPresent(Some(old(Form(kind)))) && FormValid(old(Form(kind)))
      ensures accepted ==> Records(kind) == SavedList(old(Records(kind)), old(Form(kind)), kind)
      ensures !accepted ==> Records(kind) == old(Records(kind)) && Form(kind) == old(Form(kind))
      ensures forall k | k != kind :: Records(k) == old(Records(k)) && Form(k) == old(Form(k))
      ensures filtered == old(filtered) && currentPage == old(currentPage)
      ensures showing == old(showing) && searchTerm == old(searchTerm)
    {
      var complete := ValidateAllFields(Some(Form(kind)));
      if !complete {
        return false;
      }
      accepted := SaveRecord(Form(kind), kind, ok, now, today);
    }

    /** `saveRecord` as written: the blank form that follows an accepted
        save is numbered from the list the handler captured before the save
        (see the findings). That form is hidden at once, and `OpenAdd`
        renumbers it before it is shown again. */
    method SaveRecordAsWritten(form: Record, kind: DocKind, ok: bool, now: nat, today: string)
      returns (accepted: bool)
      requires AllFieldsPresent(Some(form))
      modifies this
      ensures accepted <==> FormValid(form)
      ensures accepted ==> Records(kind) == SavedList(old(Records(kind)), form, kind)
      ensures !accepted ==> Records(kind) == old(Records(kind))
      ensures accepted && ok ==> Form(kind) == FormAfterSaveAsWritten(kind, old(Records(kind)), now, today)
      ensures !(accepted && ok) ==> Form(kind) == old(Form(kind))
      ensures forall k | k != kind :: Records(k) == old(Records(k)) && Form(k) == old(Form(k))
      ensures filtered == old(filtered) && currentPage == old(currentPage)
      ensures showing == old(showing) && searchTerm == old(searchTerm)
    {
      var errors := ValidateForm(form);
      if errors != [] {
        return false;
      }
      accepted := true;
      var before := Records(kind);
      SetRecords(kind, SavedList(before, form, kind));
      if ok {
        SetForm(kind, EmptyRecord(kind, before, now, today));
      }
    }

    /** `openAdd`: the form of that kind becomes a blank one numbered from
        the current list, so its number is on no record of that list. */
    method OpenAdd(kind: DocKind, now: nat, today: string)
      modifies this
      ensures Form(kind) == EmptyRecord(kind, Records(kind), now, today)
      ensures forall i | 0 <= i < |Records(kind)| :: Records(kind)[i].number != Form(kind).number
      ensures forall k | k != kind :: Form(k) == old(Form(k))
      ensures forall k :: Records(k) == old(Records(k))
      ensures filtered == old(filtered) && currentPage == old(currentPage)
      ensures showing == old(showing) && searchTerm == old(searchTerm)
    {
      FreshFormNumberIsNew(kind, Records(kind), now, today);
      SetForm(kind, EmptyRecord(kind, Records(kind), now, today));
    }

    method SetRecords(kind: DocKind, list: seq<Record>)
      modifies this
      ensures Records(kind) == list
      ensures forall k | k != kind :: Records(k) == old(Records(k))
      ensures forall k :: Form(k) == old(Form(k))
      ensures filtered == old(filtered) && currentPage == old(currentPage)
      ensures showing == old(showing) && searchTerm == old(searchTerm)
    {
      if kind == Quotation {
        quotations := list;
      } else {
        invoices := list;
      }
    }

    method SetForm(kind: DocKind, f: Record)
      modifies this
      ensures Form(kind) == f
      ensures forall k | k != kind :: Form(k) == old(Form(k))
      ensures forall k :: Records(k) == old(Records(k))
      ensures filtered == old(filtered) && currentPage == old(currentPage)
      ensures showing == old(showing) && searchTerm == old(searchTerm)
    {
      if kind == Quotation {
        quotationForm := f;
      } else {
        invoiceForm := f;
      }
    }

    /** The list the table shows: the search result, or the whole list. */
    function Displayed(): seq<Record>
      reads this
    {
      if filtered.Some? then filtered.value else Records(showing)
    }

    /** `handleSearch`: the term is applied and the table goes to page 1. */
    method Search(term: string, display: string -> string)
      modifies this
      ensures searchTerm == term && currentPage == 1
      ensures filtered == SearchRecords(Records(showing), term, display)
      ensures Trim(term) == [] ==> Displayed() == Records(showing)
      ensures Listing.SubsequenceOf(Displayed(), Records(showing))
      ensures quotations == old(quotations) && invoices == old(invoices) && showing == old(showing)
      ensures quotationForm == old(quotationForm) && invoiceForm == old(invoiceForm)
    {
      searchTerm := term;
      filtered := SearchRecords(Records(showing), term, display);
      currentPage := 1;
      if filtered.None? {
        Listing.SubsequenceOfSelf(Records(showing));
      }
    }

    /** A sidebar button (`setPage`) as written: only the shown kind
        changes. The search term, the filter and the page number stay, so a
        filter computed over one kind's list goes on being displayed on the
        other kind's page (see the findings). */
    method ShowPageAsWritten(kind: DocKind)
      modifies this
      ensures showing == kind
      ensures filtered == old(filtered) && searchTerm == old(searchTerm) && currentPage == old(currentPage)
      ensures forall k :: Records(k) == old(Records(k)) && Form(k) == old(Form(k))
      ensures old(filtered).Some? ==> Displayed() == old(Displayed())
      ensures old(filtered).None? ==> Displayed() == Records(kind)
    {
      showing := kind;
    }

    /** A sidebar button, corrected: switching lists also clears the search
        and goes to page 1, so the page shows exactly the chosen kind's list. */
    method ShowPage(kind: DocKind)
      modifies this
      ensures showing == kind && searchTerm == "" && filtered.None? && currentPage == 1
      ensures forall k :: Records(k) == old(Records(k)) && Form(k) == old(Form(k))
      ensures Displayed() == Records(kind)
      ensures CurrentRecords() == Listing.PageSlice(Records(kind), 1, RecordsPerPage)
    {
      showing, searchTerm, filtered, currentPage := kind, "", None, 1;
    }

    /** The pager's "<": `Math.max(1, currentPage - 1)`. */
    method PreviousPage()
      modifies this
      ensures currentPage == if old(currentPage) > 1 then old(currentPage) - 1 else 1
      ensures currentPage >= 1
      ensures showing == old(showing) && searchTerm == old(searchTerm) && filtered == old(filtered)
      ensures forall k :: Records(k) == old(Records(k)) && Form(k) == old(Form(k))
    {
      currentPage := if currentPage > 1 then currentPage - 1 else 1;
    }

    /** A numbered pager button: one per page from 1 to `totalPages`. */
    method GoToPage(n: nat)
      requires 1 <= n <= TotalPages()
      modifies this
      ensures currentPage == n
      ensures showing == old(showing) && searchTerm == old(searchTerm) && filtered == old(filtered)
      ensures forall k :: Records(k) == old(Records(k)) && Form(k) == old(Form(k))
    {
      currentPage := n;
    }

    /** The pager's ">": `Math.min(totalPages, currentPage + 1)`, so never
        beyond the last page. */
    method NextPage()
      modifies this
      ensures currentPage == Listing.Min(old(TotalPages()), old(currentPage) + 1)
      ensures 1 <= currentPage <= TotalPages()
      ensures showing == old(showing) && searchTerm == old(searchTerm) && filtered == old(filtered)
      ensures forall k :: Records(k) == old(Records(k)) && Form(k) == old(Form(k))
    {
      currentPage := Listing.Min(TotalPages(), currentPage + 1);
    }

    /** `currentRecords`: the page being shown. */
    function CurrentRecords(): (r: seq<Record>)
      reads this
      ensures |r| <= RecordsPerPage
      ensures forall k | 0 <= k < |r| :: r[k] in Displayed()
    {
      Listing.PageSlice(Displayed(), currentPage, RecordsPerPage)
    }

    /** `totalPages`: never fewer than one. */
    function TotalPages(): (n: nat)
      reads this
      ensures n >= 1
      ensures |Displayed()| > 0 ==> n == Listing.CeilDiv(|Displayed()|, RecordsPerPage)
    {
      Listing.TotalPages(|Displayed()|, RecordsPerPage)
    }
  }

  // ---------------------------------------------------------------------
  // The blank form after a save, as written
  // ---------------------------------------------------------------------

  /** As written, the form that follows a successful save is numbered from
      the list captured when the save began, before the saved record was
      added to it. */
  function FormAfterSaveAsWritten(kind: DocKind, listBefore: seq<Record>, now: nat, today: string): Record {
    EmptyRecord(kind, listBefore, now, today)
  }

  /** As written, saving a fresh form leaves a blank form carrying the
      number just saved (QU001 again after the first quotation), while the
      blank form numbered from the updated list carries a new one. */
  lemma StaleNumberRepeats(kind: DocKind, listBefore: seq<Record>, now: nat, today: string)
    ensures var form := EmptyRecord(kind, listBefore, now, today);
      var after := [ToInsert(form, kind)] + listBefore;
      && after[0].number == FormAfterSaveAsWritten(kind, listBefore, now, today).number
      && after[0].number != EmptyRecord(kind, after, now, today).number
    ensures listBefore == [] ==>
      FormAfterSaveAsWritten(kind, listBefore, now, today).number == Some(Prefix(kind) + "001")
  {
    var form := EmptyRecord(kind, listBefore, now, today);
    var after := [ToInsert(form, kind)] + listBefore;
    NextNumberIsFresh(kind, after);
    if listBefore == [] {
      FirstNumberWithoutCounters(kind, listBefore);
    }
  }

  /** As intended (and as `SaveRecord` does), the blank form that follows a
      save never repeats a number already in the list, the saved one
      included. */
  lemma FreshFormNumberIsNew(kind: DocKind, updated: seq<Record>, now: nat, today: string)
    ensures forall i | 0 <= i < |updated| :: updated[i].number != EmptyRecord(kind, updated, now, today).number
  {
    NextNumberIsFresh(kind, updated);
  }

  // ---------------------------------------------------------------------
  // The list shown after switching pages
  // ---------------------------------------------------------------------

  /** As written, a search on the invoice page survives a switch to the
      quotation page: with no quotation at all, the quotation page still
      lists the invoice that matched. */
  method StaleFilterAfterSwitch(book: BillBook, inv: Record, term: string, display: string -> string)
    requires Trim(term) != [] && RecordMatches(inv, 0, Lower(term), display)
    modifies book
    ensures book.showing == Quotation && book.Records(Quotation) == []
    ensures inv in book.Displayed()
  {
    book.SetRecords(Quotation, []);
    book.SetRecords(Invoice, [inv]);
    book.ShowPageAsWritten(Invoice);
    book.Search(term, display);
    book.ShowPageAsWritten(Quotation);
  }

  /** As intended, the same steps with the corrected switch show the
      quotation list itself, here empty. */
  method FreshListAfterSwitch(book: BillBook, inv: Record, term: string, display: string -> string)
    modifies book
    ensures book.showing == Quotation && book.Records(Quotation) == []
    ensures book.Displayed() == []
  {
    book.SetRecords(Quotation, []);
    book.SetRecords(Invoice, [inv]);
    book.ShowPage(Invoice);
    book.Search(term, display);
    book.ShowPage(Quotation);
  }
}
