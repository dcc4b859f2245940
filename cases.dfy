/** The case endpoints of the FastAPI backend
    (backend/app/api/v1/endpoints/cases.py): the advocate's own visible cases
    filtered, searched, sorted and paged; lookup, update and soft delete with
    the not-found check before the ownership check; upcoming hearings; and
    the dashboard statistics. The caller is the authenticated user's id, the
    clock is a parameter (seconds). */
module CaseEndpoints {
  import opened Common
  import opened Models
  import Order

  const SecondsPerDay: int := 86400

  const CaseNotFound: Failure := Failure(404, "Case not found")

  /** The body FastAPI returns when a query parameter is out of its bounds. */
  const InvalidQuery: Failure := Failure(422, "Unprocessable Entity")

  /** An error raised by the database on commit (an unknown enum value or a
      NULL in a NOT NULL column), which the endpoint does not catch. */
  const ServerError: Failure := Failure(500, "Internal Server Error")

  // ---------------------------------------------------------------------
  // Listing and search
  // ---------------------------------------------------------------------

  /** The filtering query parameters of `GET /cases/`. */
  datatype CaseFilter = CaseFilter(
    status: Option<string>, caseType: Option<string>, caseYear: Option<int>, search: Option<string>)

  /** All query parameters of `GET /cases/`. */
  datatype CaseQuery = CaseQuery(filter: CaseFilter, sort: string, order: string, page: int, perPage: int)

  /** The defaults: no filters, newest update first, page 1 of 20. */
  const DefaultQuery: CaseQuery := CaseQuery(CaseFilter(None, None, None, None), "updated_at", "desc", 1, 20)

  /** Owned by the caller and not soft-deleted. */
  predicate Listed(c: CaseRecord, userId: Id) {
    c.advocateId == userId && c.isVisible
  }

  /** `ILIKE '%term%'` on one of the four searchable columns; a NULL case
      number matches nothing. The term is not escaped, so `%` and `_` in it
      are wildcards. */
  predicate MatchesSearch(c: CaseRecord, term: string) {
    || (c.caseNumber.Some? && IlikeContains(c.caseNumber.value, term))
    || IlikeContains(c.efilingNumber, term)
    || IlikeContains(c.petitionerName, term)
    || IlikeContains(c.respondentName, term)
  }

  /** A term without `%`, `_` or backslash searches for itself: a
      case-insensitive substring of one of the four columns. */
  lemma LiteralSearch(c: CaseRecord, term: string)
    requires Literal(term)
    ensures MatchesSearch(c, term) <==>
      || (c.caseNumber.Some? && Contains(Lower(c.caseNumber.value), Lower(term)))
      || Contains(Lower(c.efilingNumber), Lower(term))
      || Contains(Lower(c.petitionerName), Lower(term))
      || Contains(Lower(c.respondentName), Lower(term))
  {
    if c.caseNumber.Some? {
      IlikeLiteral(c.caseNumber.value, term);
    }
    IlikeLiteral(c.efilingNumber, term);
    IlikeLiteral(c.petitionerName, term);
    IlikeLiteral(c.respondentName, term);
  }

  /** The status filter is on unless it is absent, empty or "all". */
  predicate StatusFilterOn(q: CaseFilter) {
    q.status.Some? && q.status.value != "" && q.status.value != "all"
  }

  /** A status filter naming no `CaseStatus` label: PostgreSQL refuses to
      compare the enum column with it, and the query fails. */
  predicate UnknownStatus(q: CaseFilter) {
    StatusFilterOn(q) && CaseStatusFromName(q.status.value).None?
  }

  /** The optional filters; an empty string and a year of 0 are falsy and
      switch their filter off. */
  predicate PassesFilters(c: CaseRecord, q: CaseFilter) {
    && (StatusFilterOn(q) ==> c.status.Name() == q.status.value)
    && (q.caseType.Some? && q.caseType.value != "" ==> c.caseType == q.caseType.value)
    && (q.caseYear.Some? && q.caseYear.value != 0 ==> c.caseYear == q.caseYear.value)
    && (q.search.Some? && q.search.value != "" ==> MatchesSearch(c, q.search.value))
  }

  function OptStr(o: Option<string>): Order.Key {
    if o.Some? then Order.KStr(o.value) else Order.KNull
  }

  function OptInt(o: Option<int>): Order.Key {
    if o.Some? then Order.KInt(o.value) else Order.KNull
  }

  /** The sort column named by `sort`. Enum columns sort by declaration
      order, booleans false first, UUIDs by their canonical text (the order
      of their bytes); a name that is not an attribute of `Case` sorts by
      `updated_at`. */
  function SortKey(sort: string): CaseRecord -> Order.Key {
    (c: CaseRecord) =>
      if sort == "id" then Order.KStr(c.id)
      else if sort == "advocate_id" then Order.KStr(c.advocateId)
      else if sort == "party_role" then Order.KInt(PartyRoleOrdinal(c.partyRole))
      else if sort == "sync_status" then Order.KStr(c.syncStatus)
      else if sort == "is_visible" then Order.KInt(if c.isVisible then 1 else 0)
      else if sort == "created_at" then Order.KInt(c.createdAt)
      else if sort == "efiling_date" then Order.KInt(c.efilingDate)
      else if sort == "case_year" then Order.KInt(c.caseYear)
      else if sort == "next_hearing_date" then OptInt(c.nextHearingDate)
      else if sort == "case_number" then OptStr(c.caseNumber)
      else if sort == "efiling_number" then Order.KStr(c.efilingNumber)
      else if sort == "case_type" then Order.KStr(c.caseType)
      else if sort == "petitioner_name" then Order.KStr(c.petitionerName)
      else if sort == "respondent_name" then Order.KStr(c.respondentName)
      else if sort == "judge_name" then OptStr(c.judgeName)
      else if sort == "bench_type" then OptStr(c.benchType)
      else if sort == "court_number" then OptStr(c.courtNumber)
      else if sort == "status" then Order.KInt(StatusOrdinal(c.status))
      else Order.KInt(c.updatedAt)
  }

  function PartyRoleOrdinal(r: CasePartyRole): int {
    match r
    case Petitioner => 0
    case Respondent => 1
    case Appellant => 2
    case Defendant => 3
  }

  function StatusOrdinal(s: CaseStatus): int {
    match s
    case Filed => 0
    case Registered => 1
    case Pending => 2
    case Disposed => 3
    case Transferred => 4
  }

  /** All rows the listing would return on some page, in result order. */
  function Matching(cases: seq<CaseRecord>, userId: Id, f: CaseFilter, sort: string, desc: bool): seq<CaseRecord> {
    Order.SortBy(Filter(cases, (c: CaseRecord) => Listed(c, userId) && PassesFilters(c, f)), SortKey(sort), desc)
  }

  /** `GET /cases/`: the parameter bounds give 422 first; an unknown
      status name then fails the query. */
  function GetCases(cases: seq<CaseRecord>, userId: Id, q: CaseQuery): (r: Result<seq<CaseRecord>, Failure>)
    ensures r.Err? <==> !(q.page >= 1 && 1 <= q.perPage <= 100) || UnknownStatus(q.filter)
    ensures !(q.page >= 1 && 1 <= q.perPage <= 100) ==> r == Err(InvalidQuery)
    ensures q.page >= 1 && 1 <= q.perPage <= 100 && UnknownStatus(q.filter) ==> r == Err(ServerError)
    ensures r.Ok? ==> |r.value| <= q.perPage
    ensures r.Ok? ==> forall i :: 0 <= i < |r.value| ==>
      r.value[i] in cases && Listed(r.value[i], userId) && PassesFilters(r.value[i], q.filter)
  {
    if !(q.page >= 1 && 1 <= q.perPage <= 100) then Err(InvalidQuery)
    else if UnknownStatus(q.filter) then Err(ServerError)
    else
      var all := Matching(cases, userId, q.filter, q.sort, q.order == "desc");
      MatchingCorrect(cases, userId, q.filter, q.sort, q.order == "desc");
      Ok(Order.Page(all, (q.page - 1) * q.perPage, q.perPage))
  }

  /** Each page is in the requested order: descending exactly when `order`
      is "desc", ascending for any other value. */
  lemma GetCasesSorted(cases: seq<CaseRecord>, userId: Id, q: CaseQuery)
    ensures var r := GetCases(cases, userId, q);
      r.Ok? ==> Order.SortedBy(r.value, SortKey(q.sort), q.order == "desc")
  {
    if q.page >= 1 && 1 <= q.perPage <= 100 && !UnknownStatus(q.filter) {
      var desc := q.order == "desc";
      var all := Matching(cases, userId, q.filter, q.sort, desc);
      var page := Order.Page(all, (q.page - 1) * q.perPage, q.perPage);
      MatchingSorted(cases, userId, q.filter, q.sort, desc);
      Order.PageSorted(all, (q.page - 1) * q.perPage, q.perPage, SortKey(q.sort), desc);
      GetCasesIsPage(cases, userId, q);
      assert GetCases(cases, userId, q).value == page;
    }
  }

  lemma MatchingSorted(cases: seq<CaseRecord>, userId: Id, q: CaseFilter, sort: string, desc: bool)
    ensures Order.SortedBy(Matching(cases, userId, q, sort, desc), SortKey(sort), desc)
  {
    Order.SortByCorrect(Filter(cases, (c: CaseRecord) => Listed(c, userId) && PassesFilters(c, q)), SortKey(sort), desc);
  }

  lemma MatchingCorrect(cases: seq<CaseRecord>, userId: Id, q: CaseFilter, sort: string, desc: bool)
    ensures var all := Matching(cases, userId, q, sort, desc);
      && Order.SortedBy(all, SortKey(sort), desc)
      && (forall c :: c in all <==> c in cases && Listed(c, userId) && PassesFilters(c, q))
  {
    var rows := Filter(cases, (c: CaseRecord) => Listed(c, userId) && PassesFilters(c, q));
    Order.SortByCorrect(rows, SortKey(sort), desc);
    var all := Matching(cases, userId, q, sort, desc);
    forall c ensures c in all <==> c in rows {
      assert c in all <==> c in multiset(all);
      assert c in rows <==> c in multiset(rows);
    }
    forall c | c in rows ensures c in cases && Listed(c, userId) && PassesFilters(c, q) {
      var i :| 0 <= i < |rows| && rows[i] == c;
    }
    forall c | c in cases && Listed(c, userId) && PassesFilters(c, q) ensures c in rows {
      var i :| 0 <= i < |cases| && cases[i] == c;
    }
  }

  /** Paging loses nothing: every visible, owned, matching case is returned
      on some page, for any valid page size. */
  lemma EveryMatchOnSomePage(cases: seq<CaseRecord>, userId: Id, q: CaseQuery, c: CaseRecord)
    requires 1 <= q.perPage <= 100
    requires c in cases && Listed(c, userId) && PassesFilters(c, q.filter)
    ensures exists p :: p >= 1 && var r := GetCases(cases, userId, q.(page := p)); r.Ok? && c in r.value
  {
    var all := Matching(cases, userId, q.filter, q.sort, q.order == "desc");
    MatchingHas(cases, userId, q.filter, q.sort, q.order == "desc", c);
    var k :| 0 <= k < |all| && all[k] == c;
    assert !UnknownStatus(q.filter) by {
      if StatusFilterOn(q.filter) {
        assert c.status.Name() == q.filter.status.value;
      }
    }
    var p := k / q.perPage + 1;
    var q2 := q.(page := p);
    IndexOnItsPage(cases, userId, q2, k);
    var r := GetCases(cases, userId, q2);
    assert p >= 1 && r.Ok? && c in r.value;
  }

  /** Index `k` of the matches is on page `k / perPage + 1`. */
  lemma IndexOnItsPage(cases: seq<CaseRecord>, userId: Id, q: CaseQuery, k: nat)
    requires 1 <= q.perPage <= 100
    requires !UnknownStatus(q.filter)
    requires k < |Matching(cases, userId, q.filter, q.sort, q.order == "desc")|
    requires q.page == k / q.perPage + 1
    ensures var r := GetCases(cases, userId, q);
      r.Ok? && k % q.perPage < |r.value|
      && r.value[k % q.perPage] == Matching(cases, userId, q.filter, q.sort, q.order == "desc")[k]
  {
    var all := Matching(cases, userId, q.filter, q.sort, q.order == "desc");
    var m := k / q.perPage;
    var skip := (q.page - 1) * q.perPage;
    assert q.page - 1 == m;
    assert skip == m * q.perPage;
    assert m * q.perPage + k % q.perPage == k;
    Order.PageCovers(all, k, skip, q.perPage);
    GetCasesIsPage(cases, userId, q);
  }

  /** Every listed case passing the filters is among the matches. */
  lemma MatchingHas(cases: seq<CaseRecord>, userId: Id, f: CaseFilter, sort: string, desc: bool, c: CaseRecord)
    requires c in cases && Listed(c, userId) && PassesFilters(c, f)
    ensures c in Matching(cases, userId, f, sort, desc)
  {
    MatchingCorrect(cases, userId, f, sort, desc);
  }

  lemma GetCasesIsPage(cases: seq<CaseRecord>, userId: Id, q: CaseQuery)
    requires q.page >= 1 && 1 <= q.perPage <= 100 && !UnknownStatus(q.filter)
    ensures GetCases(cases, userId, q)
      == Ok(Order.Page(Matching(cases, userId, q.filter, q.sort, q.order == "desc"), (q.page - 1) * q.perPage, q.perPage))
  {
  }

  /** A soft-deleted case is never listed. */
  lemma DeletedNeverListed(cases: seq<CaseRecord>, userId: Id, q: CaseQuery, c: CaseRecord)
    requires !c.isVisible
    ensures var r := GetCases(cases, userId, q); r.Ok? ==> c !in r.value
  {
  }

  const SearchLimit: nat := 50

  /** `GET /cases/search`: at most 50 visible owned cases matching `q`, in
      storage order. */
  function SearchCases(cases: seq<CaseRecord>, userId: Id, q: string): (r: Result<seq<CaseRecord>, Failure>)
    ensures r.Err? <==> |q| < 2
    ensures r.Ok? ==> |r.value| <= SearchLimit
    ensures r.Ok? ==> forall i :: 0 <= i < |r.value| ==>
      r.value[i] in cases && Listed(r.value[i], userId) && MatchesSearch(r.value[i], q)
    ensures r.Ok? ==> |r.value| == Min(SearchLimit, Count(cases, (c: CaseRecord) => Listed(c, userId) && MatchesSearch(c, q)))
  {
    if |q| < 2 then Err(InvalidQuery)
    else
      var rows := Filter(cases, (c: CaseRecord) => Listed(c, userId) && MatchesSearch(c, q));
      Ok(Take(rows, SearchLimit))
  }

  // ---------------------------------------------------------------------
  // One case: the not-found check, then the ownership check
  // ---------------------------------------------------------------------

  /** Locates the case for `caller`: 404 when no row has the id, else 403
      when its advocate is someone else. The 403 message names the action. */
  function Authorize(cases: seq<CaseRecord>, caseId: Id, userId: Id, action: string): (r: Result<nat, Failure>)
    ensures r.Err? && r.error.status == 404 <==> caseId !in CaseIds(cases)
    ensures r.Err? ==> r.error.status in {403, 404}
    ensures r.Err? && r.error.status == 403 ==> r.error.detail == "Not authorized to " + action + " this case"
    ensures r.Ok? ==> r.value < |cases| && cases[r.value].id == caseId && cases[r.value].advocateId == userId
    ensures r.Ok? ==> forall j :: 0 <= j < r.value ==> cases[j].id != caseId
    ensures caseId in CaseIds(cases) && FindCase(cases, caseId).value.advocateId != userId ==> r.Err? && r.error.status == 403
    ensures caseId in CaseIds(cases) && FindCase(cases, caseId).value.advocateId == userId ==> r.Ok?
  {
    NoIndexNoId(cases, caseId);
    var i := FirstIndex(cases, (c: CaseRecord) => c.id == caseId);
    if i < 0 then Err(CaseNotFound)
    else if cases[i].advocateId != userId then Err(Failure(403, "Not authorized to " + action + " this case"))
    else Ok(i)
  }

  /** The case with its documents, its history newest event first, and its
      analysis if there is one. */
  datatype CaseDetail = CaseDetail(
    record: CaseRecord, documents: seq<DocumentRecord>, history: seq<HistoryRecord>,
    analysis: Option<AnalysisRecord>)

  function EventDateKey(h: HistoryRecord): Order.Key { Order.KInt(h.eventDate) }

  /** `GET /cases/{case_id}`: does not look at `is_visible`, so a
      soft-deleted case stays readable by its owner. */
  function GetCase(db: Db, caseId: Id, userId: Id): (r: Result<CaseDetail, Failure>)
    ensures r.Err? <==> Authorize(db.cases, caseId, userId, "access").Err?
    ensures r.Err? ==> r == Err(Authorize(db.cases, caseId, userId, "access").error)
    ensures r.Ok? ==> r.value.record in db.cases && r.value.record.id == caseId && r.value.record.advocateId == userId
    ensures r.Ok? ==> forall d :: d in r.value.documents <==> d in db.documents && d.caseId == caseId
    ensures r.Ok? ==> (forall h :: h in r.value.history ==> h in db.history && h.caseId == caseId)
                      && |r.value.history| == Count(db.history, (h: HistoryRecord) => h.caseId == caseId)
    ensures r.Ok? ==> Order.SortedBy(r.value.history, EventDateKey, true)
    ensures r.Ok? ==> (r.value.analysis.Some? <==> exists i :: 0 <= i < |db.analyses| && db.analyses[i].caseId == caseId)
  {
    var auth := Authorize(db.cases, caseId, userId, "access");
    if auth.Err? then Err(auth.error)
    else
      var docs := Filter(db.documents, (d: DocumentRecord) => d.caseId == caseId);
      var events := Filter(db.history, (h: HistoryRecord) => h.caseId == caseId);
      HistorySorted(events);
      DocumentsOfCase(db.documents, caseId);
      Ok(CaseDetail(db.cases[auth.value], docs,
                    Order.SortBy(events, EventDateKey, true),
                    First(db.analyses, (a: AnalysisRecord) => a.caseId == caseId)))
  }

  lemma DocumentsOfCase(documents: seq<DocumentRecord>, caseId: Id)
    ensures forall d :: d in Filter(documents, (d: DocumentRecord) => d.caseId == caseId) <==> d in documents && d.caseId == caseId
  {
    var r := Filter(documents, (d: DocumentRecord) => d.caseId == caseId);
    forall d | d in r ensures d in documents && d.caseId == caseId {
      var i :| 0 <= i < |r| && r[i] == d;
    }
    forall d | d in documents && d.caseId == caseId ensures d in r {
      var i :| 0 <= i < |documents| && documents[i] == d;
    }
  }

  lemma HistorySorted(events: seq<HistoryRecord>)
    ensures Order.SortedBy(Order.SortBy(events, EventDateKey, true), EventDateKey, true)
    ensures |Order.SortBy(events, EventDateKey, true)| == |events|
    ensures forall h :: h in Order.SortBy(events, EventDateKey, true) <==> h in events
  {
    Order.SortByCorrect(events, EventDateKey, true);
    var s := Order.SortBy(events, EventDateKey, true);
    forall h ensures h in s <==> h in events {
      assert h in s <==> h in multiset(s);
      assert h in events <==> h in multiset(events);
    }
  }

  /** The columns `PATCH /cases/{case_id}` may set. `Unset` leaves a column
      alone (`exclude_unset`); `SetTo(None)` writes NULL. */
  datatype Patch<T> = Unset | SetTo(value: T)

  datatype CaseUpdate = CaseUpdate(
    caseNumber: Patch<Option<string>>, status: Patch<Option<string>>,
    nextHearingDate: Patch<Option<int>>, benchType: Patch<Option<string>>,
    judgeName: Patch<Option<string>>, courtNumber: Patch<Option<string>>)

  function PatchOr<T>(p: Patch<T>, current: T): T {
    if p.SetTo? then p.value else current
  }

  /** The status the update would store, or None when the database refuses
      it (NULL, or a name that is not a case status). */
  function NewStatus(c: CaseRecord, u: CaseUpdate): (r: Option<CaseStatus>)
    ensures u.status.Unset? ==> r == Some(c.status)
    ensures u.status.SetTo? ==> (r.Some? <==> u.status.value.Some? && CaseStatusFromName(u.status.value.value).Some?)
    ensures r.Some? && u.status.SetTo? ==> r.value.Name() == u.status.value.value
  {
    if u.status.Unset? then Some(c.status)
    else if u.status.value.None? then None
    else CaseStatusFromName(u.status.value.value)
  }

  /** The row after the update: supplied columns replaced, `updated_at`
      refreshed, every other column as it was. */
  function ApplyUpdate(c: CaseRecord, u: CaseUpdate, status: CaseStatus, now: int): (r: CaseRecord)
    ensures r.id == c.id && r.advocateId == c.advocateId && r.efilingNumber == c.efilingNumber
    ensures r.isVisible == c.isVisible && r.createdAt == c.createdAt && r.updatedAt == now
    ensures r.caseType == c.caseType && r.caseYear == c.caseYear && r.partyRole == c.partyRole
    ensures r.petitionerName == c.petitionerName && r.respondentName == c.respondentName
    ensures u.caseNumber.Unset? ==> r.caseNumber == c.caseNumber
    ensures u.nextHearingDate.Unset? ==> r.nextHearingDate == c.nextHearingDate
    ensures u.judgeName.Unset? ==> r.judgeName == c.judgeName
  {
    c.(caseNumber := PatchOr(u.caseNumber, c.caseNumber),
       status := status,
       nextHearingDate := PatchOr(u.nextHearingDate, c.nextHearingDate),
       benchType := PatchOr(u.benchType, c.benchType),
       judgeName := PatchOr(u.judgeName, c.judgeName),
       courtNumber := PatchOr(u.courtNumber, c.courtNumber),
       updatedAt := now)
  }

  /** Rewriting a case row without touching its id, owner or efiling number
      keeps every constraint. */
  lemma ReplaceCaseKeepsConsistent(d: Db, i: int, c: CaseRecord)
    requires Consistent(d) && 0 <= i < |d.cases|
    requires c.id == d.cases[i].id && c.advocateId == d.cases[i].advocateId
    requires c.efilingNumber == d.cases[i].efilingNumber
    ensures Consistent(d.(cases := d.cases[i := c]))
  {
    var cs := d.cases[i := c];
    assert CaseIds(cs) == CaseIds(d.cases) by {
      forall x | x in CaseIds(d.cases) ensures x in CaseIds(cs) {
        var e :| e in d.cases && e.id == x;
        var k :| 0 <= k < |d.cases| && d.cases[k] == e;
        assert cs[k].id == x;
      }
      forall x | x in CaseIds(cs) ensures x in CaseIds(d.cases) {
        var e :| e in cs && e.id == x;
        var k :| 0 <= k < |cs| && cs[k] == e;
        assert d.cases[k].id == x;
      }
    }
    forall e | e in cs ensures e.advocateId in UserIds(d.users) {
      var k :| 0 <= k < |cs| && cs[k] == e;
      assert d.cases[k].advocateId == e.advocateId;
    }
    var idKey := (x: CaseRecord) => x.id;
    var efKey := (x: CaseRecord) => x.efilingNumber;
    forall j, k | 0 <= j < k < |cs| ensures idKey(cs[j]) != idKey(cs[k]) && efKey(cs[j]) != efKey(cs[k]) {
      assert idKey(d.cases[j]) != idKey(d.cases[k]);
      assert efKey(d.cases[j]) != efKey(d.cases[k]);
    }
  }

  /** `PATCH /cases/{case_id}`. The commit fails (500, nothing stored) when
      the status is not one the database accepts or a supplied value is
      longer than its column. */
  method UpdateCase(db: Database, caseId: Id, userId: Id, u: CaseUpdate, now: int)
    returns (r: Result<CaseRecord, Failure>)
    modifies db
    ensures var auth := Authorize(old(db.cases), caseId, userId, "modify");
      && (auth.Err? ==> r == Err(auth.error) && db.Snapshot() == old(db.Snapshot()))
      && (auth.Ok? && NewStatus(old(db.cases)[auth.value], u).None? ==>
            r == Err(ServerError) && db.Snapshot() == old(db.Snapshot()))
      && (auth.Ok? && NewStatus(old(db.cases)[auth.value], u).Some? ==>
            var c := ApplyUpdate(old(db.cases)[auth.value], u, NewStatus(old(db.cases)[auth.value], u).value, now);
            && (!FitsCaseColumns(c) ==> r == Err(ServerError) && db.Snapshot() == old(db.Snapshot()))
            && (FitsCaseColumns(c) ==>
                  r == Ok(c) && db.Snapshot() == old(db.Snapshot()).(cases := old(db.cases)[auth.value := c])))
    ensures Consistent(old(db.Snapshot())) ==> Consistent(db.Snapshot())
  {
    var auth := Authorize(db.cases, caseId, userId, "modify");
    if auth.Err? {
      return Err(auth.error);
    }
    var i := auth.value;
    var status := NewStatus(db.cases[i], u);
    if status.None? {
      return Err(ServerError);
    }
    var c := ApplyUpdate(db.cases[i], u, status.value, now);
    if !FitsCaseColumns(c) {
      return Err(ServerError);
    }
    if Consistent(db.Snapshot()) {
      ReplaceCaseKeepsConsistent(db.Snapshot(), i, c);
    }
    db.cases := db.cases[i := c];
    r := Ok(c);
  }

  /** The message and id `DELETE /cases/{case_id}` answers with. */
  datatype Deleted = Deleted(message: string, caseId: Id)

  /** `DELETE /cases/{case_id}`: a soft delete that only hides the row. */
  method DeleteCase(db: Database, caseId: Id, userId: Id, now: int) returns (r: Result<Deleted, Failure>)
    modifies db
    ensures var auth := Authorize(old(db.cases), caseId, userId, "delete");
      && (auth.Err? ==> r == Err(auth.error) && db.Snapshot() == old(db.Snapshot()))
      && (auth.Ok? ==>
            r == Ok(Deleted("Case deleted successfully", caseId))
            && db.Snapshot() == old(db.Snapshot()).(cases := old(db.cases)[auth.value :=
                 old(db.cases)[auth.value].(isVisible := false, updatedAt := now)]))
    ensures |db.cases| == |old(db.cases)|
    ensures Consistent(old(db.Snapshot())) ==> Consistent(db.Snapshot())
  {
    var auth := Authorize(db.cases, caseId, userId, "delete");
    if auth.Err? {
      return Err(auth.error);
    }
    var i := auth.value;
    var c := db.cases[i].(isVisible := false, updatedAt := now);
    if Consistent(db.Snapshot()) {
      ReplaceCaseKeepsConsistent(db.Snapshot(), i, c);
    }
    db.cases := db.cases[i := c];
    r := Ok(Deleted("Case deleted successfully", caseId));
  }

  /** After a soft delete the case no longer appears in any listing, but its
      owner can still open it by id. */
  lemma SoftDeletedStillReadable(d: Db, i: int, userId: Id, now: int, q: CaseQuery)
    requires Consistent(d) && 0 <= i < |d.cases| && d.cases[i].advocateId == userId
    ensures var c := d.cases[i].(isVisible := false, updatedAt := now);
      var d' := d.(cases := d.cases[i := c]);
      && GetCase(d', c.id, userId).Ok?
      && (GetCases(d'.cases, userId, q).Ok? ==> c !in GetCases(d'.cases, userId, q).value)
  {
    var c := d.cases[i].(isVisible := false, updatedAt := now);
    var cs := d.cases[i := c];
    assert cs[i] == c;
    assert c.id in CaseIds(cs);
    var idKey := (x: CaseRecord) => x.id;
    forall k | 0 <= k < |cs| && k != i ensures cs[k].id != c.id {
      if k < i { assert idKey(d.cases[k]) != idKey(d.cases[i]); }
      else { assert idKey(d.cases[i]) != idKey(d.cases[k]); }
    }
    assert FindCase(cs, c.id).value == c;
  }

  // ---------------------------------------------------------------------
  // Upcoming hearings and statistics
  // ---------------------------------------------------------------------

  /** The next hearing lies in `[now, now + days]` (both ends included). */
  predicate HearingWithin(c: CaseRecord, now: int, days: int) {
    c.nextHearingDate.Some? && now <= c.nextHearingDate.value <= now + days * SecondsPerDay
  }

  /** The handler `get_upcoming_hearings`: visible owned cases with a hearing in
      the next `days` days (1..90), soonest first. */
  function UpcomingHearings(cases: seq<CaseRecord>, userId: Id, now: int, days: int): (r: Result<seq<CaseRecord>, Failure>)
    ensures r.Err? <==> !(1 <= days <= 90)
    ensures r.Ok? ==> forall c :: c in r.value <==> c in cases && Listed(c, userId) && HearingWithin(c, now, days)
    ensures r.Ok? ==> Order.SortedBy(r.value, (c: CaseRecord) => OptInt(c.nextHearingDate), false)
  {
    if !(1 <= days <= 90) then Err(InvalidQuery)
    else
      var rows := Filter(cases, (c: CaseRecord) => Listed(c, userId) && HearingWithin(c, now, days));
      UpcomingCorrect(cases, userId, now, days);
      Ok(Order.SortBy(rows, (c: CaseRecord) => OptInt(c.nextHearingDate), false))
  }

  lemma UpcomingCorrect(cases: seq<CaseRecord>, userId: Id, now: int, days: int)
    ensures var rows := Filter(cases, (c: CaseRecord) => Listed(c, userId) && HearingWithin(c, now, days));
      var s := Order.SortBy(rows, (c: CaseRecord) => OptInt(c.nextHearingDate), false);
      && Order.SortedBy(s, (c: CaseRecord) => OptInt(c.nextHearingDate), false)
      && |s| == |rows|
      && forall c :: c in s <==> c in cases && Listed(c, userId) && HearingWithin(c, now, days)
  {
    var key := (c: CaseRecord) => OptInt(c.nextHearingDate);
    var rows := Filter(cases, (c: CaseRecord) => Listed(c, userId) && HearingWithin(c, now, days));
    Order.SortByCorrect(rows, key, false);
    var s := Order.SortBy(rows, key, false);
    forall c ensures c in s <==> c in cases && Listed(c, userId) && HearingWithin(c, now, days) {
      assert c in s <==> c in multiset(s);
      assert c in rows <==> c in multiset(rows);
      if c in rows {
        var i :| 0 <= i < |rows| && rows[i] == c;
      }
      if c in cases && Listed(c, userId) && HearingWithin(c, now, days) {
        var i :| 0 <= i < |cases| && cases[i] == c;
      }
    }
  }

  datatype CaseStats = CaseStats(
    totalCases: nat, pendingCases: nat, disposedCases: nat, upcomingHearings: nat,
    casesByStatus: map<CaseStatus, nat>, casesByType: map<string, nat>,
    monthlyTrend: seq<MonthCount>)

  // ---------------------------------------------------------------------
  // Monthly trend
  // ---------------------------------------------------------------------

  /** One entry of `monthly_trend`: the `%b` name of a month and the number
      of cases created in it. */
  datatype MonthCount = MonthCount(month: string, count: nat)

  /** The trend looks back 180 days from now. */
  const TrendWindow: int := 180 * SecondsPerDay

  /** `strftime('%b')` in the C locale, for the month `m % 12 + 1`. */
  const MonthNames: seq<string> :=
    ["Jan", "Feb", "Mar", "Apr", "May", "Jun", "Jul", "Aug", "Sep", "Oct", "Nov", "Dec"]

  /** A month index counts whole months since January of year 0, so that
      year = index / 12 and month = index % 12 + 1; ordering by (year, month)
      is ordering by index. */
  function MonthName(index: int): (r: string)
    ensures |r| == 3
    ensures r == MonthNames[index % 12]
  {
    MonthNames[index % 12]
  }

  /** The caller's cases created within the window, hidden ones included
      (the trend query does not filter on `is_visible`). */
  function RecentOwned(cases: seq<CaseRecord>, userId: Id, now: int): (r: seq<CaseRecord>)
    ensures forall c :: c in r <==> c in cases && c.advocateId == userId && c.createdAt >= now - TrendWindow
  {
    FilterMembers(cases, (c: CaseRecord) => c.advocateId == userId && c.createdAt >= now - TrendWindow);
    Filter(cases, (c: CaseRecord) => c.advocateId == userId && c.createdAt >= now - TrendWindow)
  }

  predicate Increasing(s: seq<int>) {
    forall i, j :: 0 <= i < j < |s| ==> s[i] < s[j]
  }

  /** Adds a month to an ascending list of distinct months. */
  function InsertMonth(m: int, s: seq<int>): (r: seq<int>)
    requires Increasing(s)
    ensures Increasing(r)
    ensures forall x :: x in r <==> x == m || x in s
  {
    if s == [] || m < s[0] then
      assert forall x :: x in s ==> m < x by {
        forall x | x in s ensures m < x {
          var k :| 0 <= k < |s| && s[k] == x;
          assert k == 0 || s[0] < s[k];
        }
      }
      ConsIncreasing(m, s);
      [m] + s
    else if m == s[0] then s
    else
      var t := InsertMonth(m, s[1..]);
      assert forall x :: x in s[1..] ==> s[0] < x by {
        forall x | x in s[1..] ensures s[0] < x {
          var k :| 0 <= k < |s[1..]| && s[1..][k] == x;
          assert s[k + 1] == x;
        }
      }
      ConsIncreasing(s[0], t);
      [s[0]] + t
  }

  lemma ConsIncreasing(x: int, t: seq<int>)
    requires Increasing(t) && forall y :: y in t ==> x < y
    ensures Increasing([x] + t)
  {
    var r := [x] + t;
    forall i, j | 0 <= i < j < |r| ensures r[i] < r[j] {
      assert r[j] == t[j - 1] && t[j - 1] in t;
      if i > 0 { assert r[i] == t[i - 1]; }
    }
  }

  /** `GROUP BY year, month ORDER BY year, month`: the distinct months in
      which the cases were created, ascending. `monthIndex` is the
      database's calendar: the month index of a `created_at` value in its
      session time zone. */
  function MonthsOf(cs: seq<CaseRecord>, monthIndex: int -> int): (r: seq<int>)
    ensures Increasing(r)
    ensures forall m :: m in r <==> exists c :: c in cs && monthIndex(c.createdAt) == m
  {
    if cs == [] then []
    else
      var r := InsertMonth(monthIndex(cs[0].createdAt), MonthsOf(cs[1..], monthIndex));
      assert forall c :: c in cs <==> c == cs[0] || c in cs[1..];
      r
  }

  function InMonth(monthIndex: int -> int, m: int): CaseRecord -> bool {
    (c: CaseRecord) => monthIndex(c.createdAt) == m
  }

  /** One row per month of `ms`, with the number of cases created in it. */
  function MonthRows(cs: seq<CaseRecord>, monthIndex: int -> int, ms: seq<int>): (r: seq<MonthCount>)
    ensures |r| == |ms|
    ensures forall i :: 0 <= i < |ms| ==> r[i].month == MonthName(ms[i])
  {
    if ms == [] then []
    else [MonthCount(MonthName(ms[0]), Count(cs, InMonth(monthIndex, ms[0])))] + MonthRows(cs, monthIndex, ms[1..])
  }

  function CountOf(e: MonthCount): int { e.count }

  /** `monthly_trend`: the caller's recent cases grouped by calendar month,
      oldest month first. */
  function MonthlyTrend(cases: seq<CaseRecord>, userId: Id, now: int, monthIndex: int -> int): (r: seq<MonthCount>)
    ensures |r| == |MonthsOf(RecentOwned(cases, userId, now), monthIndex)|
  {
    var recent := RecentOwned(cases, userId, now);
    MonthRows(recent, monthIndex, MonthsOf(recent, monthIndex))
  }

  /** The trend is oldest month first and has one row per month in which a
      recent case was created, named by that month. */
  lemma MonthlyTrendMonths(cases: seq<CaseRecord>, userId: Id, now: int, monthIndex: int -> int)
    ensures var recent := RecentOwned(cases, userId, now);
      var ms := MonthsOf(recent, monthIndex);
      var r := MonthlyTrend(cases, userId, now, monthIndex);
      && Increasing(ms) && |r| == |ms|
      && (forall m :: m in ms <==> exists c :: c in recent && monthIndex(c.createdAt) == m)
      && (forall i :: 0 <= i < |r| ==> r[i].month == MonthName(ms[i]))
  {
  }

  /** Each row counts the recent cases created in its month, and no count
      is zero. */
  lemma MonthlyTrendCounts(cases: seq<CaseRecord>, userId: Id, now: int, monthIndex: int -> int)
    ensures var recent := RecentOwned(cases, userId, now);
      var ms := MonthsOf(recent, monthIndex);
      var r := MonthlyTrend(cases, userId, now, monthIndex);
      forall i :: 0 <= i < |r| ==> r[i].count == Count(recent, InMonth(monthIndex, ms[i])) > 0
  {
    var recent := RecentOwned(cases, userId, now);
    var ms := MonthsOf(recent, monthIndex);
    var r := MonthlyTrend(cases, userId, now, monthIndex);
    MonthRowCounts(recent, monthIndex, ms);
    forall i | 0 <= i < |r| ensures r[i].count > 0 {
      assert ms[i] in ms;
      var c :| c in recent && monthIndex(c.createdAt) == ms[i];
      FilterMembers(recent, InMonth(monthIndex, ms[i]));
      assert c in Filter(recent, InMonth(monthIndex, ms[i]));
    }
  }

  /** The counts add up to the number of recent cases: each is counted in
      exactly one month. */
  lemma MonthlyTrendTotal(cases: seq<CaseRecord>, userId: Id, now: int, monthIndex: int -> int)
    ensures Sum(MonthlyTrend(cases, userId, now, monthIndex), CountOf) == |RecentOwned(cases, userId, now)|
  {
    var recent := RecentOwned(cases, userId, now);
    RowsTotal(recent, monthIndex, MonthsOf(recent, monthIndex));
  }

  lemma {:induction false} MonthRowCounts(cs: seq<CaseRecord>, monthIndex: int -> int, ms: seq<int>)
    ensures forall i :: 0 <= i < |ms| ==> MonthRows(cs, monthIndex, ms)[i].count == Count(cs, InMonth(monthIndex, ms[i]))
  {
    if ms != [] {
      MonthRowCounts(cs, monthIndex, ms[1..]);
    }
  }

  /** The rows for a list of distinct months that covers every case count
      each case exactly once. */
  lemma {:induction false} RowsTotal(cs: seq<CaseRecord>, monthIndex: int -> int, ms: seq<int>)
    requires Increasing(ms)
    requires forall c :: c in cs ==> monthIndex(c.createdAt) in ms
    ensures Sum(MonthRows(cs, monthIndex, ms), CountOf) == |cs|
  {
    if cs == [] {
      NoRowsCounted(monthIndex, ms);
    } else {
      RowsTotal(cs[1..], monthIndex, ms);
      RowsCons(cs, monthIndex, ms);
    }
  }

  lemma {:induction false} NoRowsCounted(monthIndex: int -> int, ms: seq<int>)
    ensures Sum(MonthRows([], monthIndex, ms), CountOf) == 0
  {
    if ms != [] {
      NoRowsCounted(monthIndex, ms[1..]);
      assert MonthRows([], monthIndex, ms)[1..] == MonthRows([], monthIndex, ms[1..]);
    }
  }

  /** One more case adds one to the total iff its month is listed. */
  lemma {:induction false} RowsCons(cs: seq<CaseRecord>, monthIndex: int -> int, ms: seq<int>)
    requires cs != [] && Increasing(ms)
    ensures Sum(MonthRows(cs, monthIndex, ms), CountOf)
         == Sum(MonthRows(cs[1..], monthIndex, ms), CountOf) + (if monthIndex(cs[0].createdAt) in ms then 1 else 0)
  {
    if ms != [] {
      RowsCons(cs, monthIndex, ms[1..]);
      assert cs == [cs[0]] + cs[1..];
      FilterConcat([cs[0]], cs[1..], InMonth(monthIndex, ms[0]));
      assert MonthRows(cs, monthIndex, ms)[1..] == MonthRows(cs, monthIndex, ms[1..]);
      assert MonthRows(cs[1..], monthIndex, ms)[1..] == MonthRows(cs[1..], monthIndex, ms[1..]);
      var m := monthIndex(cs[0].createdAt);
      assert m in ms <==> m == ms[0] || m in ms[1..];
      assert m == ms[0] ==> m !in ms[1..];
    }
  }

  function OwnedVisible(cases: seq<CaseRecord>, userId: Id): (r: seq<CaseRecord>)
    ensures forall i :: 0 <= i < |r| ==> Listed(r[i], userId)
  {
    Filter(cases, (c: CaseRecord) => Listed(c, userId))
  }

  function CountStatus(cs: seq<CaseRecord>, s: CaseStatus): nat {
    Count(cs, (c: CaseRecord) => c.status == s)
  }

  function CountType(cs: seq<CaseRecord>, t: string): nat {
    Count(cs, (c: CaseRecord) => c.caseType == t)
  }

  const AllStatuses: seq<CaseStatus> := [Filed, Registered, Pending, Disposed, Transferred]

  /** `GROUP BY status`: one entry per status that occurs. */
  function ByStatus(cs: seq<CaseRecord>): (m: map<CaseStatus, nat>)
    ensures forall s :: s in m <==> CountStatus(cs, s) > 0
    ensures forall s :: s in m ==> m[s] == CountStatus(cs, s)
  {
    map s | s in AllStatuses && CountStatus(cs, s) > 0 :: CountStatus(cs, s)
  }

  /** `GROUP BY case_type`: one entry per case type that occurs. */
  function ByType(cs: seq<CaseRecord>): (m: map<string, nat>)
    ensures forall t :: t in m <==> CountType(cs, t) > 0
    ensures forall t :: t in m ==> m[t] == CountType(cs, t)
  {
    TypesOccur(cs);
    map t | t in (set c | c in cs :: c.caseType) :: CountType(cs, t)
  }

  lemma TypesOccur(cs: seq<CaseRecord>)
    ensures forall t :: t in (set c | c in cs :: c.caseType) <==> CountType(cs, t) > 0
  {
    forall t ensures t in (set c | c in cs :: c.caseType) <==> CountType(cs, t) > 0 {
      var p := (c: CaseRecord) => c.caseType == t;
      if t in (set c | c in cs :: c.caseType) {
        var c :| c in cs && c.caseType == t;
        var i :| 0 <= i < |cs| && cs[i] == c;
        assert cs[i] in Filter(cs, p);
      }
      if CountType(cs, t) > 0 {
        assert Filter(cs, p)[0] in cs;
      }
    }
  }

  /** The handler `get_case_stats`, as written: the upcoming count covers every case
      the caller owns, hidden ones included, over the next 7 days. */
  function CaseStatsAsWritten(cases: seq<CaseRecord>, userId: Id, now: int, monthIndex: int -> int): (r: CaseStats)
    ensures r.upcomingHearings == Count(cases, (c: CaseRecord) => c.advocateId == userId && HearingWithin(c, now, 7))
    ensures r.totalCases == |OwnedVisible(cases, userId)|
    ensures r.pendingCases == CountStatus(OwnedVisible(cases, userId), Pending)
    ensures |r.monthlyTrend| == |MonthsOf(RecentOwned(cases, userId, now), monthIndex)|
  {
    var vis := OwnedVisible(cases, userId);
    CaseStats(|vis|, CountStatus(vis, Pending), CountStatus(vis, Disposed),
              Count(cases, (c: CaseRecord) => c.advocateId == userId && HearingWithin(c, now, 7)),
              ByStatus(vis), ByType(vis), MonthlyTrend(cases, userId, now, monthIndex))
  }

  /** The dashboard counts a hearing of a soft-deleted case that the
      upcoming-hearings list for the same week leaves out. */
  lemma StatsCountHiddenHearing()
    ensures var c := NewCase("c1", "u1", "EF-00001", "WP(C)", 2024, Petitioner, "A. B.", "C. D.", 0, 0)
                       .(isVisible := false, nextHearingDate := Some(SecondsPerDay));
      && CaseStatsAsWritten([c], "u1", 0, (t: int) => 0).upcomingHearings == 1
      && UpcomingHearings([c], "u1", 0, 7) == Ok([])
  {
    var c := NewCase("c1", "u1", "EF-00001", "WP(C)", 2024, Petitioner, "A. B.", "C. D.", 0, 0)
               .(isVisible := false, nextHearingDate := Some(SecondsPerDay));
    assert Filter([c], (x: CaseRecord) => x.advocateId == "u1" && HearingWithin(x, 0, 7)) == [c];
    assert Filter([c], (x: CaseRecord) => Listed(x, "u1") && HearingWithin(x, 0, 7)) == [];
  }

  /** The handler `get_case_stats` with the upcoming count taken over the same cases
      as the upcoming-hearings list, so the dashboard and the list agree. */
  function GetCaseStats(cases: seq<CaseRecord>, userId: Id, now: int, monthIndex: int -> int): (r: CaseStats)
    ensures r.totalCases == |OwnedVisible(cases, userId)|
    ensures r.pendingCases == CountStatus(OwnedVisible(cases, userId), Pending)
    ensures r.disposedCases == CountStatus(OwnedVisible(cases, userId), Disposed)
    ensures r.upcomingHearings == |UpcomingHearings(cases, userId, now, 7).value|
    ensures r.totalCases == StatusTotal(r.casesByStatus)
    ensures forall s :: s in r.casesByStatus ==> r.casesByStatus[s] > 0
    ensures forall t :: t in r.casesByType <==> CountType(OwnedVisible(cases, userId), t) > 0
    ensures Sum(r.monthlyTrend, CountOf) == |RecentOwned(cases, userId, now)|
    ensures forall i :: 0 <= i < |r.monthlyTrend| ==> r.monthlyTrend[i].count > 0
  {
    var vis := OwnedVisible(cases, userId);
    UpcomingCorrect(cases, userId, now, 7);
    StatusPartition(vis);
    MonthlyTrendCounts(cases, userId, now, monthIndex);
    MonthlyTrendTotal(cases, userId, now, monthIndex);
    CaseStats(|vis|, CountStatus(vis, Pending), CountStatus(vis, Disposed),
              Count(cases, (c: CaseRecord) => Listed(c, userId) && HearingWithin(c, now, 7)),
              ByStatus(vis), ByType(vis), MonthlyTrend(cases, userId, now, monthIndex))
  }

  /** The sum of the per-status counts (a status absent from the map
      counts 0). */
  function StatusTotal(m: map<CaseStatus, nat>): int {
    (if Filed in m then m[Filed] else 0) + (if Registered in m then m[Registered] else 0)
    + (if Pending in m then m[Pending] else 0) + (if Disposed in m then m[Disposed] else 0)
    + (if Transferred in m then m[Transferred] else 0)
  }

  function StatusSum(cs: seq<CaseRecord>): int {
    CountStatus(cs, Filed) + CountStatus(cs, Registered) + CountStatus(cs, Pending)
    + CountStatus(cs, Disposed) + CountStatus(cs, Transferred)
  }

  /** Every case has exactly one status, so the per-status counts add up to
      the number of cases. */
  lemma {:induction false} StatusPartition(cs: seq<CaseRecord>)
    ensures StatusSum(cs) == |cs|
    ensures StatusTotal(ByStatus(cs)) == |cs|
  {
    if cs != [] {
      StatusPartition(cs[1..]);
      CountStatusCons(cs, Filed);
      CountStatusCons(cs, Registered);
      CountStatusCons(cs, Pending);
      CountStatusCons(cs, Disposed);
      CountStatusCons(cs, Transferred);
    }
    ByStatusTotal(cs);
  }

  lemma CountStatusCons(cs: seq<CaseRecord>, s: CaseStatus)
    requires cs != []
    ensures CountStatus(cs, s) == (if cs[0].status == s then 1 else 0) + CountStatus(cs[1..], s)
  {
    assert cs == [cs[0]] + cs[1..];
    FilterConcat([cs[0]], cs[1..], (c: CaseRecord) => c.status == s);
  }

  lemma ByStatusTotal(cs: seq<CaseRecord>)
    ensures StatusTotal(ByStatus(cs)) == StatusSum(cs)
  {
  }
}
