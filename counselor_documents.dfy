/** The counselor's document list (src/pages/counselor/Documents.tsx): one row per lead that
    has uploaded documents, a search/status/date filter, and ten rows per page with previous
    and next buttons. Everything here is a function of the fetched leads, the filter inputs
    and the current page number. */
module CounselorDocuments {
  import opened Common
  import opened Text
  import Seqs
  import DocumentUpload

  const DocumentsPerPage: nat := 10
  /** The number of document slots a row's progress is measured against. */
  const TotalDocumentTypes: nat := 8

  /** One slot of a lead's `documents` object, in the object's key order. */
  datatype SlotEntry = SlotEntry(slot: string, files: seq<DocumentUpload.FileRecord>)

  /** A lead as fetched. `documents` is None when the lead has none; absent dates are empty. */
  datatype Lead = Lead(
    id: string, name: string, phone: string, email: string, documents: Option<seq<SlotEntry>>,
    dateSubmitted: string, lastContact: string, status: string)

  /** A row of the list. */
  datatype DocumentRow = DocumentRow(
    id: string, name: string, phone: string, email: string, documentsUploaded: nat,
    totalDocuments: nat, uploadDate: string, status: string, documents: seq<SlotEntry>)

  // ---------------------------------------------------------------------------
  // Rows
  // ---------------------------------------------------------------------------

  /** `lead.documents && Object.keys(lead.documents).length > 0`. */
  predicate HasDocuments(lead: Lead) {
    lead.documents.Some? && |lead.documents.value| > 0
  }

  /** The sum of the lengths of the per-slot file lists. */
  function FileCount(entries: seq<SlotEntry>): nat {
    if entries == [] then 0 else FileCount(entries[..|entries| - 1]) + |entries[|entries| - 1].files|
  }

  /** The count of a concatenation is the sum of the counts. */
  lemma {:induction false} FileCountAppend(a: seq<SlotEntry>, b: seq<SlotEntry>)
    ensures FileCount(a + b) == FileCount(a) + FileCount(b)
    decreases |b|
  {
    if b == [] {
      assert a + b == a;
    } else {
      assert (a + b)[..|a + b| - 1] == a + b[..|b| - 1];
      FileCountAppend(a, b[..|b| - 1]);
    }
  }

  /** The count is zero exactly when every slot's list is empty, and each slot contributes at
      most the count. */
  lemma {:induction false} FileCountBounds(entries: seq<SlotEntry>)
    ensures FileCount(entries) == 0 <==> forall k :: 0 <= k < |entries| ==> entries[k].files == []
    ensures forall k :: 0 <= k < |entries| ==> |entries[k].files| <= FileCount(entries)
  {
    if entries != [] {
      var init := entries[..|entries| - 1];
      FileCountBounds(init);
      assert forall k :: 0 <= k < |init| ==> init[k] == entries[k];
    }
  }

  /** The row built from a lead: the lead's own fields, the file count out of the fixed total
      of 8, and the first date present. */
  function RowOf(lead: Lead): (r: DocumentRow)
    requires HasDocuments(lead)
    ensures r.id == lead.id && r.name == lead.name && r.phone == lead.phone && r.email == lead.email
    ensures r.status == lead.status && r.documents == lead.documents.value
    ensures r.documentsUploaded == FileCount(lead.documents.value)
    ensures r.documentsUploaded == 0 <==> forall k :: 0 <= k < |r.documents| ==> r.documents[k].files == []
    ensures forall k :: 0 <= k < |r.documents| ==> |r.documents[k].files| <= r.documentsUploaded
    ensures r.totalDocuments == TotalDocumentTypes
    ensures r.uploadDate == (if lead.dateSubmitted != "" then lead.dateSubmitted
                             else if lead.lastContact != "" then lead.lastContact else "N/A")
  {
    FileCountBounds(lead.documents.value);
    DocumentRow(lead.id, lead.name, lead.phone, lead.email, FileCount(lead.documents.value),
                TotalDocumentTypes, OrElse(lead.dateSubmitted, OrElse(lead.lastContact, "N/A")),
                lead.status, lead.documents.value)
  }

  /** `documents`: the leads with documents, each made into a row, in the leads' order. */
  function Rows(leads: seq<Lead>): (r: seq<DocumentRow>)
    ensures |r| <= |leads|
    ensures forall k :: 0 <= k < |r| ==> r[k].totalDocuments == TotalDocumentTypes
  {
    var kept := Seqs.Filter(leads, HasDocuments);
    seq(|kept|, k requires 0 <= k < |kept| => RowOf(kept[k]))
  }

  /** Every lead with documents has its row, and every row comes from such a lead. */
  lemma RowsFromLeadsWithDocuments(leads: seq<Lead>)
    ensures |Rows(leads)| <= |leads|
    ensures forall lead :: lead in leads && HasDocuments(lead) ==> RowOf(lead) in Rows(leads)
    ensures forall row :: row in Rows(leads) ==> exists lead :: lead in leads && HasDocuments(lead) && row == RowOf(lead)
  {
    var kept := Seqs.Filter(leads, HasDocuments);
    forall lead | lead in leads && HasDocuments(lead)
      ensures RowOf(lead) in Rows(leads)
    {
      Seqs.FilterMembership(leads, HasDocuments, lead);
      var k :| 0 <= k < |kept| && kept[k] == lead;
      assert Rows(leads)[k] == RowOf(lead);
    }
    forall row | row in Rows(leads)
      ensures exists lead :: lead in leads && HasDocuments(lead) && row == RowOf(lead)
    {
      var k :| 0 <= k < |Rows(leads)| && Rows(leads)[k] == row;
      Seqs.FilterMembership(leads, HasDocuments, kept[k]);
    }
  }

  // ---------------------------------------------------------------------------
  // Filter
  // ---------------------------------------------------------------------------

  /** The filter inputs. A date bound is None when unset; dates are abstracted as ordered
      integers, and `parse` maps a row's date text to one, or to None when it is not a date. */
  datatype Query = Query(searchTerm: string, statusFilter: string, dateFrom: Option<int>, dateTo: Option<int>)

  predicate MatchesSearch(term: string, row: DocumentRow) {
    || Includes(ToLower(row.name), ToLower(term))
    || Includes(ToLower(row.email), ToLower(term))
    || Includes(row.phone, term)
  }

  predicate MatchesStatus(statusFilter: string, row: DocumentRow) {
    statusFilter == "all" || row.status == statusFilter
  }

  /** Both bounds inclusive; a date that does not parse fails every set bound. */
  predicate MatchesDate(q: Query, parse: string -> Option<int>, row: DocumentRow) {
    && (q.dateFrom.None? || (parse(row.uploadDate).Some? && parse(row.uploadDate).value >= q.dateFrom.value))
    && (q.dateTo.None? || (parse(row.uploadDate).Some? && parse(row.uploadDate).value <= q.dateTo.value))
  }

  predicate Matches(q: Query, parse: string -> Option<int>, row: DocumentRow) {
    MatchesSearch(q.searchTerm, row) && MatchesStatus(q.statusFilter, row) && MatchesDate(q, parse, row)
  }

  /** `filteredDocuments`. */
  function FilteredRows(rows: seq<DocumentRow>, q: Query, parse: string -> Option<int>): (r: seq<DocumentRow>)
    ensures |r| <= |rows|
    ensures forall k :: 0 <= k < |r| ==> Matches(q, parse, r[k])
  {
    Seqs.Filter(rows, (row: DocumentRow) => Matches(q, parse, row))
  }

  /** A row is listed exactly when it matches all three conditions; the listed rows keep
      their order. */
  lemma FilteredRowsExact(rows: seq<DocumentRow>, q: Query, parse: string -> Option<int>)
    ensures forall row :: row in FilteredRows(rows, q, parse) <==>
      row in rows && MatchesSearch(q.searchTerm, row) && MatchesStatus(q.statusFilter, row) && MatchesDate(q, parse, row)
    ensures Seqs.IsSubsequence(FilteredRows(rows, q, parse), rows)
  {
    var p := (row: DocumentRow) => Matches(q, parse, row);
    forall row ensures row in FilteredRows(rows, q, parse) <==> row in rows && p(row) {
      Seqs.FilterMembership(rows, p, row);
    }
    Seqs.FilterIsSubsequence(rows, p);
  }

  /** With an empty search, status "all" and no dates, every row is listed. */
  lemma {:induction false} OpenQueryListsAll(rows: seq<DocumentRow>, parse: string -> Option<int>)
    ensures FilteredRows(rows, Query("", "all", None, None), parse) == rows
  {
    var q := Query("", "all", None, None);
    forall k | 0 <= k < |rows| ensures Matches(q, parse, rows[k]) {
      IncludesEmpty(ToLower(rows[k].name));
    }
    Seqs.FilterKeepsAll(rows, (row: DocumentRow) => Matches(q, parse, row));
  }

  /** The search ignores ASCII case in the name: a name containing the term matches the term in
      any capitalisation. */
  lemma SearchIgnoresNameCase(term: string, row: DocumentRow)
    requires Includes(ToLower(row.name), ToLower(term))
    ensures forall t :: ToLower(t) == ToLower(term) ==> MatchesSearch(t, row)
    ensures MatchesSearch(ToLower(term), row)
  {
    assert ToLower(ToLower(term)) == ToLower(term);
  }

  // ---------------------------------------------------------------------------
  // Pagination
  // ---------------------------------------------------------------------------

  /** `Math.ceil(n / documentsPerPage)`. */
  function TotalPages(n: nat): (t: nat)
    ensures t * DocumentsPerPage >= n
    ensures t > 0 ==> (t - 1) * DocumentsPerPage < n
    ensures t == 0 <==> n == 0
  {
    (n + DocumentsPerPage - 1) / DocumentsPerPage
  }

  /** A `slice` index: negative counts from the end, and both ends are clamped to the length. */
  function SliceIndex(i: int, len: nat): (r: nat)
    ensures r <= len
    ensures 0 <= i <= len ==> r == i
  {
    if i < 0 then (if len + i < 0 then 0 else len + i) else if i > len then len else i
  }

  /** `s.slice(start, end)`. */
  function Slice<T>(s: seq<T>, start: int, end: int): seq<T> {
    var a, b := SliceIndex(start, |s|), SliceIndex(end, |s|);
    if a < b then s[a..b] else []
  }

  function StartIndex(page: int): int {
    (page - 1) * DocumentsPerPage
  }

  /** `paginatedDocuments` on page `page`. */
  function Page<T>(s: seq<T>, page: int): seq<T> {
    Slice(s, StartIndex(page), StartIndex(page) + DocumentsPerPage)
  }

  function Min(a: int, b: int): int { if a < b then a else b }
  function Max(a: int, b: int): int { if a < b then b else a }

  /** Page `p` (from 1) is the window of at most ten rows starting at row `(p - 1) * 10`. */
  lemma PageIsWindow<T>(s: seq<T>, page: int)
    requires page >= 1
    ensures Min(StartIndex(page), |s|) <= Min(StartIndex(page) + DocumentsPerPage, |s|)
    ensures Page(s, page) == s[Min(StartIndex(page), |s|)..Min(StartIndex(page) + DocumentsPerPage, |s|)]
    ensures |Page(s, page)| <= DocumentsPerPage
  {
  }

  /** A page from 1 to the last holds at least one row; pages past the last hold none. */
  lemma PageOccupancy<T>(s: seq<T>, page: int)
    requires page >= 1
    ensures page <= TotalPages(|s|) ==> |Page(s, page)| > 0
    ensures page > TotalPages(|s|) ==> Page(s, page) == []
  {
    PageIsWindow(s, page);
  }

  /** Pages 1 to `k`, one after the other. */
  function PagesUpTo<T>(s: seq<T>, k: nat): seq<T> {
    if k == 0 then [] else PagesUpTo(s, k - 1) + Page(s, k)
  }

  /** The first `k` pages are the first `10 * k` rows. */
  lemma {:induction false} PagesUpToPrefix<T>(s: seq<T>, k: nat)
    ensures PagesUpTo(s, k) == s[..Min(k * DocumentsPerPage, |s|)]
  {
    if k > 0 {
      PagesUpToPrefix(s, k - 1);
      PageIsWindow(s, k);
      var a, b := Min((k - 1) * DocumentsPerPage, |s|), Min(k * DocumentsPerPage, |s|);
      assert s[..a] + s[a..b] == s[..b];
    }
  }

  /** Paging through every page shows each row exactly once, in order. */
  lemma PagesCoverAll<T>(s: seq<T>)
    ensures PagesUpTo(s, TotalPages(|s|)) == s
  {
    PagesUpToPrefix(s, TotalPages(|s|));
  }

  /** The "Showing a to b of n" figures. */
  function Showing(n: nat, page: int): (int, int) {
    (StartIndex(page) + 1, Min(StartIndex(page) + DocumentsPerPage, n))
  }

  /** On a page from 1 to the last, the figures are the 1-based positions of the first and
      last rows shown. */
  lemma ShowingMatchesPage<T>(s: seq<T>, page: int)
    requires 1 <= page <= TotalPages(|s|)
    ensures var (first, last) := Showing(|s|, page);
      1 <= first <= last <= |s| && last - first + 1 == |Page(s, page)|
      && s[first - 1] == Page(s, page)[0]
  {
    PageIsWindow(s, page);
  }

  /** The Previous button: `Math.max(1, currentPage - 1)`, disabled on page 1. */
  function Previous(page: int): (r: int)
    ensures r >= 1
    ensures page > 1 ==> r == page - 1
    ensures page <= 1 ==> r == 1
  {
    Max(1, page - 1)
  }

  predicate PreviousEnabled(page: int) { page != 1 }

  /** The Next button as written: `Math.min(totalPages, currentPage + 1)`, disabled when
      `currentPage === totalPages`. */
  function NextAsWritten(page: int, totalPages: nat): (r: int)
    ensures r <= totalPages
    ensures page < totalPages ==> r == page + 1
    ensures page >= totalPages ==> r == totalPages
  {
    Min(totalPages, page + 1)
  }

  predicate NextEnabled(page: int, totalPages: nat) { page != totalPages }

  /** With no matching rows there are no pages, yet Next is enabled on page 1 and moves to
      page 0, which shows nothing whatever rows later match. */
  lemma NextAsWrittenLeavesPageRange(rows: seq<DocumentRow>)
    ensures TotalPages(0) == 0 && NextEnabled(1, 0)
    ensures NextAsWritten(1, TotalPages(0)) == 0
    ensures Page(rows, NextAsWritten(1, TotalPages(0))) == []
  {
  }

  /** Next kept on a real page: never below 1, never past the last page when there is one. */
  function Next(page: int, totalPages: nat): (r: int)
    ensures r >= 1
    ensures page >= 1 && page < totalPages ==> r == page + 1
    ensures 1 <= page <= InRangeTop(totalPages) ==> r <= InRangeTop(totalPages)
    ensures page >= totalPages ==> r == (if totalPages == 0 then 1 else totalPages)
  {
    Max(1, Min(totalPages, page + 1))
  }

  /** The highest page the pager should show: the last page, or page 1 when there are none. */
  function InRangeTop(totalPages: nat): nat { Max(1, totalPages) }

  predicate InRange(page: int, totalPages: nat) {
    1 <= page <= InRangeTop(totalPages)
  }

  /** What the counselor does to the pager. */
  datatype PagerEvent = PreviousClicked | NextClicked | DateSearch

  /** The page after an event; a disabled button does nothing, and a date-range search
      returns to page 1. */
  function Step(page: int, totalPages: nat, e: PagerEvent): int {
    match e
    case PreviousClicked => if PreviousEnabled(page) then Previous(page) else page
    case NextClicked => if NextEnabled(page, totalPages) then Next(page, totalPages) else page
    case DateSearch => 1
  }

  /** While the result count stays the same, the pager stays on a real page. */
  lemma {:induction false} StepKeepsInRange(page: int, totalPages: nat, events: seq<PagerEvent>)
    requires InRange(page, totalPages)
    ensures InRange(StepAll(page, totalPages, events), totalPages)
  {
    if events != [] {
      StepKeepsInRange(page, totalPages, events[..|events| - 1]);
    }
  }

  function StepAll(page: int, totalPages: nat, events: seq<PagerEvent>): int {
    if events == [] then page
    else Step(StepAll(page, totalPages, events[..|events| - 1]), totalPages, events[|events| - 1])
  }
}
