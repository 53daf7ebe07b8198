/** The page structure of the printed invoice or quotation, as built on the
    server (printJobController.js, `buildHtml` and `printDocument`).

    A rendered document is modelled as a list of page records rather than
    HTML text: each page holds its table rows, whether it is a continuation
    page, and whether the summary and the additional-information block are
    printed on it. Markup, styles, the logo and the number formatting of
    `toFixed(2)` are not modelled; the numbers of a row are kept exact. */
module PrintLayout {
  import opened Text
  import Listing
  import BillMath
  import Words

  // ---------------------------------------------------------------------
  // HTML escaping
  // ---------------------------------------------------------------------

  /** `s.replace(/c/g, rep)` for a single character c. */
  function ReplaceAll(s: string, c: char, rep: string): string
    decreases |s|
  {
    if s == [] then []
    else (if s[0] == c then rep else [s[0]]) + ReplaceAll(s[1..], c, rep)
  }

  lemma {:induction false} ReplaceAllAppend(a: string, b: string, c: char, rep: string)
    ensures ReplaceAll(a + b, c, rep) == ReplaceAll(a, c, rep) + ReplaceAll(b, c, rep)
    decreases |a|
  {
    if a == [] {
      assert a + b == b;
    } else {
      var h := if a[0] == c then rep else [a[0]];
      assert (a + b)[0] == a[0];
      assert (a + b)[1..] == a[1..] + b;
      ReplaceAllAppend(a[1..], b, c, rep);
      assert ReplaceAll(a + b, c, rep) == h + (ReplaceAll(a[1..], c, rep) + ReplaceAll(b, c, rep));
    }
  }

  /** A character that does not occur is left alone. */
  lemma {:induction false} ReplaceAllAbsent(s: string, c: char, rep: string)
    requires c !in s
    ensures ReplaceAll(s, c, rep) == s
    decreases |s|
  {
    if s != [] {
      assert s[0] in s;
      assert forall x | x in s[1..] :: x in s;
      ReplaceAllAbsent(s[1..], c, rep);
      assert [s[0]] + s[1..] == s;
    }
  }

  lemma ReplaceAllOne(c: char, rep: string)
    ensures ReplaceAll([c], c, rep) == rep
  {
    assert ReplaceAll([c], c, rep) == rep + ReplaceAll([], c, rep);
  }

  /** The four passes of `escapeHtml`, ampersand first. */
  function EscapePasses(s: string): string {
    ReplaceAll(ReplaceAll(ReplaceAll(ReplaceAll(s, '&', "&amp;"), '<', "&lt;"), '>', "&gt;"), '"', "&quot;")
  }

  /** The entity each character stands for in the output. */
  function EscapeChar(c: char): string {
    if c == '&' then "&amp;"
    else if c == '<' then "&lt;"
    else if c == '>' then "&gt;"
    else if c == '"' then "&quot;"
    else [c]
  }

  /** Escaping character by character: no markup character survives. */
  function EscapeEach(s: string): (r: string)
    ensures forall i | 0 <= i < |r| :: r[i] != '<' && r[i] != '>' && r[i] != '"'
    decreases |s|
  {
    if s == [] then []
    else
      var head, rest := EscapeChar(s[0]), EscapeEach(s[1..]);
      assert forall i | |head| <= i < |head + rest| :: (head + rest)[i] == rest[i - |head|];
      head + rest
  }

  lemma EscapePassesOneChar(c: char)
    ensures EscapePasses([c]) == EscapeChar(c)
  {
    if c == '&' {
      PassesAmp(c, EscapeChar(c));
    } else if c == '<' {
      PassesLt(c, EscapeChar(c));
    } else if c == '>' {
      PassesGt(c, EscapeChar(c));
    } else if c == '"' {
      PassesQuot(c, EscapeChar(c));
    } else {
      PassesPlain(c);
    }
  }

  lemma PassesAmp(c: char, e: string)
    requires c == '&' && e == "&amp;"
    ensures EscapePasses([c]) == e
  {
    ReplaceAllOne(c, e);
    ReplaceAllAbsent(e, '<', "&lt;");
    ReplaceAllAbsent(e, '>', "&gt;");
    ReplaceAllAbsent(e, '"', "&quot;");
  }

  lemma PassesLt(c: char, e: string)
    requires c == '<' && e == "&lt;"
    ensures EscapePasses([c]) == e
  {
    ReplaceAllAbsent([c], '&', "&amp;");
    ReplaceAllOne(c, e);
    ReplaceAllAbsent(e, '>', "&gt;");
    ReplaceAllAbsent(e, '"', "&quot;");
  }

  lemma PassesGt(c: char, e: string)
    requires c == '>' && e == "&gt;"
    ensures EscapePasses([c]) == e
  {
    ReplaceAllAbsent([c], '&', "&amp;");
    ReplaceAllAbsent([c], '<', "&lt;");
    ReplaceAllOne(c, e);
    ReplaceAllAbsent(e, '"', "&quot;");
  }

  lemma PassesQuot(c: char, e: string)
    requires c == '"' && e == "&quot;"
    ensures EscapePasses([c]) == e
  {
    ReplaceAllAbsent([c], '&', "&amp;");
    ReplaceAllAbsent([c], '<', "&lt;");
    ReplaceAllAbsent([c], '>', "&gt;");
    ReplaceAllOne(c, e);
  }

  lemma PassesPlain(c: char)
    requires c != '&' && c != '<' && c != '>' && c != '"'
    ensures EscapePasses([c]) == [c]
  {
    ReplaceAllAbsent([c], '&', "&amp;");
    ReplaceAllAbsent([c], '<', "&lt;");
    ReplaceAllAbsent([c], '>', "&gt;");
    ReplaceAllAbsent([c], '"', "&quot;");
  }

  lemma {:induction false} EscapePassesPerChar(s: string)
    ensures EscapePasses(s) == EscapeEach(s)
    decreases |s|
  {
    if s != [] {
      var c, rest := s[0], s[1..];
      assert s == [c] + rest;
      var s1 := ReplaceAll([c], '&', "&amp;");
      var r1 := ReplaceAll(rest, '&', "&amp;");
      ReplaceAllAppend([c], rest, '&', "&amp;");
      var s2 := ReplaceAll(s1, '<', "&lt;");
      var r2 := ReplaceAll(r1, '<', "&lt;");
      ReplaceAllAppend(s1, r1, '<', "&lt;");
      var s3 := ReplaceAll(s2, '>', "&gt;");
      var r3 := ReplaceAll(r2, '>', "&gt;");
      ReplaceAllAppend(s2, r2, '>', "&gt;");
      ReplaceAllAppend(s3, r3, '"', "&quot;");
      assert EscapePasses(s) == EscapePasses([c]) + EscapePasses(rest);
      EscapePassesOneChar(c);
      EscapePassesPerChar(rest);
    }
  }

  /** `escapeHtml`: null or undefined prints as nothing; the four passes
      amount to replacing each special character by its entity, so the
      output holds no raw '<', '>' or '"'. */
  function EscapeHtml(s: Option<string>): (r: string)
    ensures r == EscapeEach(if s.Some? then s.value else [])
    ensures forall i | 0 <= i < |r| :: r[i] != '<' && r[i] != '>' && r[i] != '"'
    ensures s.None? ==> r == []
  {
    var t := if s.Some? then s.value else [];
    EscapePassesPerChar(t);
    EscapePasses(t)
  }

  /** How a browser reads the entities back. */
  function Unescape(s: string): string
    decreases |s|
  {
    if s == [] then []
    else if IsPrefix("&amp;", s) then "&" + Unescape(s[5..])
    else if IsPrefix("&lt;", s) then "<" + Unescape(s[4..])
    else if IsPrefix("&gt;", s) then ">" + Unescape(s[4..])
    else if IsPrefix("&quot;", s) then "\"" + Unescape(s[6..])
    else [s[0]] + Unescape(s[1..])
  }

  /** Escaping loses nothing: the page shows exactly the text that was
      escaped, whatever entities the text itself contains. */
  lemma {:induction false} EscapeRoundTrip(s: string)
    ensures Unescape(EscapeHtml(Some(s))) == s
  {
    EscapeEachRoundTrip(s);
  }

  lemma {:induction false} EscapeEachRoundTrip(s: string)
    ensures Unescape(EscapeEach(s)) == s
    decreases |s|
  {
    if s != [] {
      var c, rest := s[0], EscapeEach(s[1..]);
      assert EscapeEach(s) == EscapeChar(c) + rest;
      UnescapeStep(c, rest);
      EscapeEachRoundTrip(s[1..]);
      assert [c] + s[1..] == s;
    }
  }

  /** Reading back one escaped character. */
  lemma UnescapeStep(c: char, rest: string)
    ensures Unescape(EscapeChar(c) + rest) == [c] + Unescape(rest)
  {
    var e := EscapeChar(c);
    if c == '&' {
      UnescapeAmp(e, rest);
    } else if c == '<' {
      UnescapeAngle(e, c, rest);
    } else if c == '>' {
      UnescapeAngle(e, c, rest);
    } else if c == '"' {
      UnescapeQuot(e, rest);
    } else {
      UnescapePlain(c, rest);
    }
  }

  lemma UnescapeAmp(e: string, rest: string)
    requires e == "&amp;"
    ensures Unescape(e + rest) == "&" + Unescape(rest)
  {
    var s := e + rest;
    assert s[..5] == e && s[5..] == rest;
  }

  /** The two four-character entities, `&lt;` and `&gt;`, read back. */
  lemma UnescapeAngle(e: string, c: char, rest: string)
    requires (e == "&lt;" && c == '<') || (e == "&gt;" && c == '>')
    ensures Unescape(e + rest) == [c] + Unescape(rest)
  {
    var s := e + rest;
    assert s[..4] == e && s[4..] == rest;
    assert s[1] == e[1];
  }

  lemma UnescapeQuot(e: string, rest: string)
    requires e == "&quot;"
    ensures Unescape(e + rest) == "\"" + Unescape(rest)
  {
    var s := e + rest;
    assert s[..6] == e && s[6..] == rest;
    assert s[1] == 'q';
  }

  lemma UnescapePlain(c: char, rest: string)
    requires c != '&'
    ensures Unescape([c] + rest) == [c] + Unescape(rest)
  {
    var s := [c] + rest;
    assert s[0] == c && s[1..] == rest;
  }

  // ---------------------------------------------------------------------
  // The document being printed
  // ---------------------------------------------------------------------

  /** The fields of the posted record that the layout reads. `items`,
      `discountPercent`, `showAdditionalInfo` and `additionalInfo` may be
      missing (None); `roundOff` is carried but never read by the layout. */
  datatype PrintRecord = PrintRecord(
    items: Option<seq<BillMath.LineItem>>,
    discountPercent: Option<real>,
    roundOff: bool,
    showAdditionalInfo: Option<bool>,
    additionalInfo: Option<string>)

  /** `record.items || []`. */
  function ItemsOf(record: PrintRecord): seq<BillMath.LineItem> {
    if record.items.Some? then record.items.value else []
  }

  /** `showAdditionalInfo`: the flag must be exactly `true` and the text must
      hold something other than white space. */
  function ShowAdditionalInfo(record: PrintRecord): (r: bool)
    ensures r <==> record.showAdditionalInfo == Some(true) && record.additionalInfo.Some?
                   && exists i | 0 <= i < |record.additionalInfo.value| :: !IsSpace(record.additionalInfo.value[i])
  {
    var info := if record.additionalInfo.Some? then record.additionalInfo.value else [];
    TrimEmptyIffAllSpace(info);
    && record.showAdditionalInfo == Some(true)
    && record.additionalInfo.Some? && record.additionalInfo.value != []
    && Trim(record.additionalInfo.value) != []
  }

  // ---------------------------------------------------------------------
  // Table rows
  // ---------------------------------------------------------------------

  /** One printed table row: the two-digit serial, the escaped name, the
      escaped description when there is one, and the exact figures. */
  datatype Row = Row(
    serial: string,
    name: string,
    description: Option<string>,
    amount: real,
    gstPercent: real,
    cgst: real,
    sgst: real,
    total: real)

  /** `renderRow(it, globalIndex)`. */
  function RenderRow(it: BillMath.LineItem, globalIndex: nat): Row {
    var amt := BillMath.OrZero(it.amount);
    var gst := BillMath.OrZero(it.gstPercent);
    var gstAmt := RowGst(it);
    Row(Pad2(globalIndex + 1),
        EscapeHtml(Some(it.name)),
        if it.description != [] then Some(EscapeHtml(Some(it.description))) else None,
        amt, gst, gstAmt / 2.0, gstAmt / 2.0, amt + gstAmt)
  }

  /** The GST of one row: `amount * gstPercent / 100`, with no special case
      for a zero rate. It is the editor's per-line GST all the same. */
  function RowGst(it: BillMath.LineItem): (g: real)
    ensures g == BillMath.ComputeItemTax(it.amount, it.gstPercent).gst
  {
    BillMath.OrZero(it.amount) * BillMath.OrZero(it.gstPercent) / 100.0
  }

  /** A row shows serial globalIndex + 1, in two digits below 100. */
  lemma RowSerial(it: BillMath.LineItem, globalIndex: nat)
    ensures var r := RenderRow(it, globalIndex);
      && AllDigits(r.serial) && Value(r.serial) == globalIndex + 1
      && (globalIndex < 99 ==> |r.serial| == 2)
  {
  }

  /** A row shows the amount and rate read as numbers, CGST = SGST = half
      the line's GST and the line total, all as the editor computes them,
      including for a zero rate; the name and description are escaped, the
      description only shown when there is one. */
  lemma RowFigures(it: BillMath.LineItem, globalIndex: nat)
    ensures var r := RenderRow(it, globalIndex);
      && r.amount == BillMath.OrZero(it.amount) && r.gstPercent == BillMath.OrZero(it.gstPercent)
      && r.cgst == r.sgst
      && r.cgst + r.sgst == BillMath.ComputeItemTax(it.amount, it.gstPercent).gst
      && r.total == BillMath.ComputeItemTax(it.amount, it.gstPercent).total
      && r.name == EscapeHtml(Some(it.name))
      && (r.description.Some? <==> it.description != [])
      && (r.description.Some? ==> r.description.value == EscapeHtml(Some(it.description)))
  {
  }

  /** The rows of one page, the first numbered from `start`. */
  function RowsOf(chunk: seq<BillMath.LineItem>, start: nat): seq<Row> {
    Listing.MapIndexed(chunk, start, RenderRow)
  }

  // ---------------------------------------------------------------------
  // Pagination
  // ---------------------------------------------------------------------

  const RowsPerPage: nat := 12

  /** The pages the loop produces: the 12-row chunks, or one empty page when
      there are no items. */
  function PagesOf<T>(items: seq<T>): (r: seq<seq<T>>)
    ensures r != []
  {
    if items == [] then [[]] else Listing.Chunks(items, RowsPerPage)
  }

  /** The chunk before position `from` has been cut off. */
  lemma ChunksHead<T>(xs: seq<T>, size: nat)
    requires size > 0 && xs != []
    ensures Listing.Chunks(xs, size)
            == [xs[..Listing.Min(size, |xs|)]] + Listing.Chunks(xs[Listing.Min(size, |xs|)..], size)
  {
    if |xs| <= size {
      assert xs[..|xs|] == xs;
      assert xs[|xs|..] == [];
    }
  }

  /** The pagination loop: `for (i = 0; i < items.length; i += 12)
      pages.push(items.slice(i, i + 12))`, then one empty page if none. */
  method Paginate<T>(items: seq<T>) returns (pages: seq<seq<T>>)
    ensures pages == PagesOf(items)
  {
    pages := [];
    var i := 0;
    while i < |items|
      invariant pages + Listing.Chunks(items[Listing.Min(i, |items|)..], RowsPerPage)
                == Listing.Chunks(items, RowsPerPage)
      decreases |items| - i
    {
      var next := Listing.Min(i + RowsPerPage, |items|);
      var xs := items[i..];
      ChunksHead(xs, RowsPerPage);
      assert xs[..Listing.Min(RowsPerPage, |xs|)] == items[i..next];
      assert xs[Listing.Min(RowsPerPage, |xs|)..] == items[next..];
      assert Listing.Min(i + RowsPerPage, |items|) == next;
      pages := pages + [items[i..next]];
      i := i + RowsPerPage;
    }
    assert items[Listing.Min(i, |items|)..] == [];
    if |pages| == 0 {
      pages := pages + [[]];
    }
  }

  /** Paging loses nothing and adds nothing: the pages put back together
      are the items; there are max(1, ceil(N / 12)) of them; each holds at
      most 12 rows and all but the last exactly 12; and row k of page p is
      item p * 12 + k. */
  lemma PagesProperties<T>(items: seq<T>)
    ensures var pages := PagesOf(items);
      && Listing.Concat(pages) == items
      && |pages| == Listing.TotalPages(|items|, RowsPerPage)
      && (forall p | 0 <= p < |pages| :: |pages[p]| <= RowsPerPage)
      && (forall p | 0 <= p < |pages| - 1 :: |pages[p]| == RowsPerPage)
      && (items == [] ==> pages == [[]])
      && (forall p, k | 0 <= p < |pages| && 0 <= k < |pages[p]| ::
            p * RowsPerPage + k < |items| && pages[p][k] == items[p * RowsPerPage + k])
  {
    var pages := PagesOf(items);
    if items == [] {
      assert Listing.Concat(pages) == [] + Listing.Concat(pages[1..]);
    } else {
      Listing.ChunksProperties(items, RowsPerPage);
      forall p, k | 0 <= p < |pages| && 0 <= k < |pages[p]|
        ensures p * RowsPerPage + k < |items| && pages[p][k] == items[p * RowsPerPage + k]
      {
        ChunkRow(items, p, k);
      }
    }
  }

  /** Row k of chunk p is item p * 12 + k. */
  lemma ChunkRow<T>(items: seq<T>, p: nat, k: nat)
    requires p < |Listing.Chunks(items, RowsPerPage)|
    requires k < |Listing.Chunks(items, RowsPerPage)[p]|
    ensures p * RowsPerPage + k < |items|
    ensures Listing.Chunks(items, RowsPerPage)[p][k] == items[p * RowsPerPage + k]
  {
    Listing.ChunkIsPage(items, RowsPerPage, p);
    Listing.PageStartNext(p, RowsPerPage);
    assert Listing.PageStart(p + 1, RowsPerPage) == p * RowsPerPage;
  }

  // ---------------------------------------------------------------------
  // Pages
  // ---------------------------------------------------------------------

  /** One printed page: the first carries the party headers, the others are
      continuation pages with only the table; the summary and, when enabled,
      the additional information follow the table of the last page. */
  datatype Page = Page(
    rows: seq<Row>,
    continuation: bool,
    hasSummary: bool,
    hasAdditionalInfo: bool)

  /** Page p of n, its rows numbered from p * 12. */
  function PageAt(pages: seq<seq<BillMath.LineItem>>, p: nat, show: bool): Page
    requires p < |pages|
  {
    var last := p == |pages| - 1;
    Page(RowsOf(pages[p], p * RowsPerPage), p > 0, last, last && show)
  }

  /** The pages laid out in order, page p of n numbered from p * 12. */
  function Layout(pages: seq<seq<BillMath.LineItem>>, show: bool): seq<Page> {
    seq(|pages|, p requires 0 <= p < |pages| => PageAt(pages, p, show))
  }

  /** The document `buildHtml` lays out. */
  function Document(record: PrintRecord): seq<Page> {
    Layout(PagesOf(ItemsOf(record)), ShowAdditionalInfo(record))
  }

  /** The page loops of `buildHtml`: the first page, with the summary and
      additional information when it is the only page, then the
      continuation pages, the summary and additional information after the
      table of the last. */
  method LayOutPages(pages: seq<seq<BillMath.LineItem>>, show: bool) returns (doc: seq<Page>)
    requires pages != []
    ensures doc == Layout(pages, show)
  {
    var firstRows := Listing.MapEach(pages[0], 0, RenderRow);
    var single := |pages| == 1;
    doc := [Page(firstRows, false, single, single && show)];
    var p := 1;
    while p < |pages|
      invariant 1 <= p <= |pages|
      invariant |doc| == p
      invariant forall q | 0 <= q < p :: doc[q] == PageAt(pages, q, show)
    {
      var start := p * RowsPerPage;
      var rows := Listing.MapEach(pages[p], start, RenderRow);
      var last := p == |pages| - 1;
      doc := doc + [Page(rows, true, last, last && show)];
      p := p + 1;
    }
  }

  /** `buildHtml`, its page structure: paginate, decide on the additional
      information, lay out the pages. */
  method BuildHtml(record: PrintRecord) returns (doc: seq<Page>)
    ensures doc == Document(record)
  {
    var items := ItemsOf(record);
    var pages := Paginate(items);
    var show := ShowAdditionalInfo(record);
    doc := LayOutPages(pages, show);
  }

  /** The page sequence: max(1, ceil(N / 12)) pages; every page after the
      first is a continuation page; the summary is on the last page and on
      no other; the additional information is on the last page exactly when
      it is to be shown, and on no other; every page has at most 12 rows. */
  lemma DocumentShape(record: PrintRecord)
    ensures var doc := Document(record);
      && |doc| == Listing.TotalPages(|ItemsOf(record)|, RowsPerPage)
      && (forall p | 0 <= p < |doc| :: doc[p].continuation <==> p > 0)
      && (forall p | 0 <= p < |doc| :: doc[p].hasSummary <==> p == |doc| - 1)
      && (forall p | 0 <= p < |doc| ::
            doc[p].hasAdditionalInfo <==> p == |doc| - 1 && ShowAdditionalInfo(record))
      && (forall p | 0 <= p < |doc| :: |doc[p].rows| <= RowsPerPage)
      && (forall p | 0 <= p < |doc| - 1 :: |doc[p].rows| == RowsPerPage)
  {
    PagesProperties(ItemsOf(record));
  }

  /** All rows of the document, page after page. */
  function AllRows(doc: seq<Page>): seq<Row> {
    Listing.Concat(seq(|doc|, p requires 0 <= p < |doc| => doc[p].rows))
  }

  /** The rows of consecutive chunks, page p numbered from start + p * 12. */
  function RowPages(cs: seq<seq<BillMath.LineItem>>, start: nat): seq<seq<Row>> {
    seq(|cs|, p requires 0 <= p < |cs| => RowsOf(cs[p], start + p * RowsPerPage))
  }

  lemma RowsOfSplit(xs: seq<BillMath.LineItem>, n: nat, start: nat)
    requires n <= |xs|
    ensures RowsOf(xs, start) == RowsOf(xs[..n], start) + RowsOf(xs[n..], start + n)
  {
    var a, b := RowsOf(xs[..n], start), RowsOf(xs[n..], start + n);
    forall k | 0 <= k < |xs| ensures RowsOf(xs, start)[k] == (a + b)[k] {
      if k >= n {
        assert xs[n..][k - n] == xs[k];
      }
    }
  }

  lemma {:induction false} ConcatRowPages(xs: seq<BillMath.LineItem>, start: nat)
    ensures Listing.Concat(RowPages(Listing.Chunks(xs, RowsPerPage), start)) == RowsOf(xs, start)
    decreases |xs|
  {
    var cs := Listing.Chunks(xs, RowsPerPage);
    var rp := RowPages(cs, start);
    if xs == [] {
    } else if |xs| <= RowsPerPage {
      assert rp == [RowsOf(xs, start)];
      assert Listing.Concat(rp) == RowsOf(xs, start) + Listing.Concat(rp[1..]);
    } else {
      var tail := xs[RowsPerPage..];
      var rest := RowPages(Listing.Chunks(tail, RowsPerPage), start + RowsPerPage);
      assert cs == [xs[..RowsPerPage]] + Listing.Chunks(tail, RowsPerPage);
      assert rp[1..] == rest by {
        forall p | 0 <= p < |rest| ensures rp[1..][p] == rest[p] {
          assert start + (p + 1) * RowsPerPage == start + RowsPerPage + p * RowsPerPage;
        }
      }
      ConcatRowPages(tail, start + RowsPerPage);
      RowsOfSplit(xs, RowsPerPage, start);
    }
  }

  /** Serial numbers run 01..N in item order across the whole document:
      the rows of all pages, one after the other, are the items rendered
      with global indices 0..N-1. */
  lemma RowsInItemOrder(record: PrintRecord)
    ensures var rows := AllRows(Document(record)); var items := ItemsOf(record);
      && |rows| == |items|
      && forall i | 0 <= i < |items| :: rows[i] == RenderRow(items[i], i) && Value(rows[i].serial) == i + 1
  {
    forall i | 0 <= i < |ItemsOf(record)| ensures Value(RenderRow(ItemsOf(record)[i], i).serial) == i + 1 {
      RowSerial(ItemsOf(record)[i], i);
    }
    var items := ItemsOf(record);
    var doc := Document(record);
    var pages := PagesOf(items);
    var perPage := seq(|doc|, p requires 0 <= p < |doc| => doc[p].rows);
    if items == [] {
      assert |perPage| == 1 && perPage[0] == [];
      assert Listing.Concat(perPage) == [] + Listing.Concat(perPage[1..]);
    } else {
      assert perPage == RowPages(Listing.Chunks(items, RowsPerPage), 0);
      ConcatRowPages(items, 0);
    }
  }

  // ---------------------------------------------------------------------
  // Totals
  // ---------------------------------------------------------------------

  /** `items.reduce((s, it) => s + amount * gstPercent / 100, 0)`. */
  function TotalGst(items: seq<BillMath.LineItem>): real {
    if items == [] then 0.0 else TotalGst(items[..|items| - 1]) + RowGst(items[|items| - 1])
  }

  /** The server's GST reduce sums the same values as the editor's. */
  lemma {:induction false} TotalGstAgrees(items: seq<BillMath.LineItem>)
    ensures TotalGst(items) == BillMath.TotalGst(items)
    decreases |items|
  {
    if items != [] {
      TotalGstAgrees(items[..|items| - 1]);
    }
  }

  datatype Totals = Totals(
    subtotal: real,
    totalGst: real,
    discountAmount: real,
    finalTotal: real,
    amountInWords: Option<string>)

  /** The totals block. The words are those of `Math.round(finalTotal)`;
      a negative rounded total (a discount above 100%) makes the source
      index its word tables with negative numbers, which is not modelled:
      the words are then None. */
  function ServerTotals(record: PrintRecord): (t: Totals)
    ensures t.subtotal == BillMath.Subtotal(ItemsOf(record))
    ensures t.totalGst == BillMath.TotalGst(ItemsOf(record))
    ensures t.finalTotal == t.subtotal + t.totalGst - t.discountAmount
    ensures t.finalTotal == BillMath.GrandTotal(ItemsOf(record), record.discountPercent, false)
    ensures BillMath.Round(t.finalTotal) >= 0
            ==> t.amountInWords == Some(Words.ServerWords(Some(BillMath.Round(t.finalTotal) as nat)))
    ensures BillMath.Round(t.finalTotal) < 0 ==> t.amountInWords.None?
  {
    var items := ItemsOf(record);
    var subtotal := BillMath.Subtotal(items);
    var totalGst := TotalGst(items);
    TotalGstAgrees(items);
    var d := BillMath.OrZero(record.discountPercent);
    var discountAmount := (subtotal + totalGst) * d / 100.0;
    var finalTotal := subtotal + totalGst - discountAmount;
    assert finalTotal == BillMath.Unrounded(items, record.discountPercent) by {
      BillMath.DiscountIdentity(subtotal + totalGst, d);
    }
    var rounded := BillMath.Round(finalTotal);
    Totals(subtotal, totalGst, discountAmount, finalTotal,
           if rounded >= 0 then Some(Words.ServerWords(Some(rounded as nat))) else None)
  }

  /** `Math.round` of a whole amount is that amount. */
  lemma RoundWhole(n: int)
    ensures BillMath.Round(n as real) == n
  {
  }

  /** The printed total ignores the round-off switch; the editor's grand
      total with round-off is the printed total rounded; and the amount
      spelled out is the same on both sides whatever the switch says. */
  lemma TotalsAgainstEditor(record: PrintRecord, roundOff: bool)
    ensures var items := ItemsOf(record); var t := ServerTotals(record);
      && t == ServerTotals(record.(roundOff := roundOff))
      && BillMath.GrandTotal(items, record.discountPercent, true) == BillMath.Round(t.finalTotal) as real
      && BillMath.Round(BillMath.GrandTotal(items, record.discountPercent, roundOff)) == BillMath.Round(t.finalTotal)
  {
    var t := ServerTotals(record);
    RoundWhole(BillMath.Round(t.finalTotal));
  }

  /** From one to 10^10 the amount in words of the print matches the one the
      editor shows for the same record. */
  lemma WordsAgreeWithEditor(record: PrintRecord)
    requires 1 <= BillMath.Round(ServerTotals(record).finalTotal) < 10000000000
    ensures var amount := BillMath.Round(BillMath.GrandTotal(ItemsOf(record), record.discountPercent, record.roundOff));
      && amount >= 0
      && ServerTotals(record).amountInWords == Some(Words.ClientWords(Some(amount as nat)))
  {
    var t := ServerTotals(record);
    TotalsAgainstEditor(record, record.roundOff);
    Words.ClientServerAgree(BillMath.Round(t.finalTotal) as nat);
  }

  /** Where the two disagree: with round-off on, one line of 10.40 prints a
      final total of 10.40 while the editor's grand total is 10. */
  lemma RoundOffNotApplied()
    ensures var items := [BillMath.LineItem("Design", "", Some(10.4), None)];
      var record := PrintRecord(Some(items), None, true, None, None);
      && ServerTotals(record).finalTotal == 10.4
      && BillMath.GrandTotal(items, None, true) == 10.0
  {
    var items := [BillMath.LineItem("Design", "", Some(10.4), None)];
    assert items[..0] == [];
    assert BillMath.Subtotal(items) == 10.4;
    assert BillMath.TotalGst(items) == 0.0;
    assert BillMath.Round(10.4) == 10;
  }

  // ---------------------------------------------------------------------
  // The print request
  // ---------------------------------------------------------------------

  datatype PrintResponse =
    | BadRequest(error: string)
    | Printed(pages: seq<Page>, totals: Totals)

  /** `printDocument` up to the rendering: without a record the request is
      refused with 400 "Record data missing"; otherwise the document is laid
      out. */
  method PrintDocument(record: Option<PrintRecord>) returns (r: PrintResponse)
    ensures record.None? ==> r == BadRequest("Record data missing")
    ensures record.Some? ==> r == Printed(Document(record.value), ServerTotals(record.value))
  {
    if record.None? {
      return BadRequest("Record data missing");
    }
    var doc := BuildHtml(record.value);
    r := Printed(doc, ServerTotals(record.value));
  }
}
