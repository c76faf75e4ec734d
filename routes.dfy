/** The match routes (backend/src/routes/matches.ts): how each GET handler turns the
    request into filters, validates them, and answers from what the model calls settled
    with. A model call is a parameter of the handler (`Outcome`): it either resolves with a
    value or rejects with an error message. */
module MatchRoutes {
  import opened Wrappers
  import opened Js
  import opened Validation
  import opened MatchModel
  import opened Sorting

  /** How an awaited model call settled. */
  datatype Outcome<T> = Resolved(value: T) | Rejected(error: string)

  /** The `pagination` object; `total` is only sent by the list route. */
  datatype Pagination = Pagination(total: Option<int>, limit: JsValue, offset: JsValue, hasMore: bool)

  /** The JSON bodies the handlers send, with their HTTP status. */
  datatype Response =
    | MatchList(data: seq<MatchRow>, pagination: Pagination)
    | OneMatch(item: MatchRow)
    | Refused(status: int, message: string, errors: Option<seq<string>>)
    | Failed(message: string, error: string)

  function StatusCode(r: Response): int {
    match r
    case MatchList(_, _) => 200
    case OneMatch(_) => 200
    case Refused(status, _, _) => status
    case Failed(_, _) => 500
  }

  const InvalidFiltersMessage := "Invalid filters"
  const ListFailedMessage := "Failed to fetch matches"
  const InvalidIdMessage := "Invalid match ID"
  const NotFoundMessage := "Match not found"
  const ItemFailedMessage := "Failed to fetch match"
  const SportFailedMessage := "Failed to fetch matches by sport"
  const StatusFailedMessage := "Failed to fetch matches by status"
  const InvalidStatusMessage := "Invalid status. Must be one of: " + "scheduled, in_progress, completed"

  /** The query string of `GET /api/matches`; each parameter is a string or absent. */
  datatype ListRequest = ListRequest(
    sport: Option<string>,
    status: Option<string>,
    team: Option<string>,
    date: Option<string>,
    limit: Option<string>,
    offset: Option<string>)

  /** `req.query.x ? parseInt(req.query.x) : fallback`. */
  function PagingParam(param: Option<string>, fallback: int): JsValue {
    if Given(param) then FromParsed(ParseInt(param.value)) else Num(fallback)
  }

  /** The `MatchFilters` object the list handler builds. */
  function RequestFilters(q: ListRequest): MatchFilters {
    MatchFilters(q.sport, q.status, q.team, q.date, PagingParam(q.limit, 10), PagingParam(q.offset, 0))
  }

  /** An optional string as the validator sees it: the string, or `undefined`. */
  function AsValue(o: Option<string>): (v: JsValue)
    ensures v.Str? <==> o.Some?
    ensures v.Undefined? <==> o.None?
  {
    match o
    case Some(s) => Str(s)
    case None => Undefined
  }

  /** The filter fields `validateMatchFilters` inspects. */
  function ValidationInput(f: MatchFilters): FilterInput {
    FilterInput(AsValue(f.sport), AsValue(f.status), f.limit, f.offset)
  }

  /** `filters.offset || 0` for a number or NaN. */
  function OffsetOrZero(v: JsValue): int {
    if Truthy(v) && v.Num? then v.n else 0
  }

  /** `GET /api/matches`: validate, list, count, and report whether rows remain after
      this page. */
  function ListMatches(q: ListRequest, listed: Outcome<seq<MatchRow>>, total: Outcome<int>): (r: Response)
    ensures var errors := FilterErrors(ValidationInput(RequestFilters(q)));
            (r.Refused? <==> errors != []) &&
            (r.Refused? ==> r == Refused(400, InvalidFiltersMessage, Some(errors))) &&
            (r.Failed? <==> errors == [] && (listed.Rejected? || total.Rejected?))
    ensures !r.OneMatch?
    ensures r.MatchList? ==> listed == Resolved(r.data) && r.pagination.total.Some? &&
                             total == Resolved(r.pagination.total.value) &&
                             (r.pagination.hasMore <==>
                                OffsetOrZero(RequestFilters(q).offset) + |r.data| < r.pagination.total.value)
  {
    var f := RequestFilters(q);
    var errors := FilterErrors(ValidationInput(f));
    if errors != [] then Refused(400, InvalidFiltersMessage, Some(errors))
    else match listed
      case Rejected(e) => Failed(ListFailedMessage, e)
      case Resolved(rows) =>
        match total
        case Rejected(e) => Failed(ListFailedMessage, e)
        case Resolved(t) =>
          MatchList(rows, Pagination(Some(t), f.limit, f.offset, OffsetOrZero(f.offset) + |rows| < t))
  }

  /** Absent or empty paging parameters take the defaults 10 and 0; a decimal numeral is
      read as its value. */
  lemma PagingDefaults(q: ListRequest, n: int)
    ensures !Given(q.limit) ==> RequestFilters(q).limit == Num(10)
    ensures !Given(q.offset) ==> RequestFilters(q).offset == Num(0)
    ensures q.limit == Some(IntToDecimal(n)) ==> RequestFilters(q).limit == Num(n)
    ensures q.offset == Some(IntToDecimal(n)) ==> RequestFilters(q).offset == Num(n)
  {
    ParseIntOfDecimal(n);
  }

  /** The list route answers 400 exactly when a filter rule is broken, before any model
      call; 500 when a model call rejects; 200 otherwise. */
  lemma ListStatusCodes(q: ListRequest, listed: Outcome<seq<MatchRow>>, total: Outcome<int>)
    ensures var input := ValidationInput(RequestFilters(q));
            var r := ListMatches(q, listed, total);
            (StatusCode(r) == 400 <==> !FiltersValid(input)) &&
            (StatusCode(r) == 500 <==> FiltersValid(input) && (listed.Rejected? || total.Rejected?)) &&
            (StatusCode(r) == 200 <==> FiltersValid(input) && listed.Resolved? && total.Resolved?)
    ensures var input := ValidationInput(RequestFilters(q));
            !FiltersValid(input) ==>
              ListMatches(q, listed, total) == Refused(400, InvalidFiltersMessage, Some(FilterErrors(input)))
  {
    FilterErrorsEmpty(ValidationInput(RequestFilters(q)));
  }

  /** With the model's answers, a 200 holds one page of the matching rows in date order,
      the total counts every matching row, and `hasMore` says exactly that rows remain
      after the page. */
  lemma ListPage(table: seq<MatchRow>, q: ListRequest, rows: seq<MatchRow>)
    requires FiltersValid(ValidationInput(RequestFilters(q)))
    requires ListAnswer(table, RequestFilters(q), rows)
    ensures var f := RequestFilters(q);
            var r := ListMatches(q, Resolved(rows), Resolved(|Filtered(table, f)|));
            r.MatchList? && r.data == rows &&
            (forall x :: x in r.data ==> x in table && RowMatches(f, x)) &&
            r.pagination.total == Some(|Filtered(table, f)|) &&
            f.limit.Num? && f.offset.Num? && f.limit.n >= 1 && f.offset.n >= 0 &&
            |r.data| <= f.limit.n &&
            (r.pagination.hasMore <==> f.offset.n + f.limit.n < |Filtered(table, f)|)
  {
    var f := RequestFilters(q);
    FilterErrorsEmpty(ValidationInput(f));
    ValidListPaging(q);
    ListAnswerRows(table, f, rows);
    ListAnswerSize(Filtered(table, f), f, rows);
    var total := |Filtered(table, f)|;
    PageArithmetic(f.offset.n, f.limit.n, total, |rows|);
    assert OffsetOrZero(f.offset) == f.offset.n;
  }

  /** Validated paging parameters are a positive limit and a non-negative offset. */
  lemma ValidListPaging(q: ListRequest)
    requires FiltersValid(ValidationInput(RequestFilters(q)))
    ensures var f := RequestFilters(q);
            f.limit.Num? && f.offset.Num? && f.limit.n >= 1 && f.offset.n >= 0
  {
    var f := RequestFilters(q);
    var input := ValidationInput(f);
    assert f.limit.Num? && f.offset.Num?;
    ValidLimitPositive(input, f.limit.n);
    ValidOffsetNonNegative(input, f.offset.n);
  }

  /** A page of `Min(n, total - skipped)` rows after skipping `Min(k, total)` of them ends
      before the last row exactly when `k + n < total`. */
  lemma PageArithmetic(k: int, n: int, total: nat, size: nat)
    requires k >= 0 && n >= 1
    requires size == Min(n, total - (if k > 0 then Min(k, total) else 0))
    ensures size <= n
    ensures k + size < total <==> k + n < total
  {
  }

  // ---------------------------------------------------------------------------
  // GET /api/matches/:id

  /** `parseInt(req.params.id)`. */
  function RequestedId(param: string): (v: JsValue)
    ensures v.Num? || v.NaN?
  {
    FromParsed(ParseInt(param))
  }

  /** `GET /api/matches/:id`: 400 for an id `validateId` refuses, 404 when the model finds
      nothing, the match otherwise. */
  function MatchByIdRoute(param: string, found: Outcome<Option<MatchRow>>): (r: Response)
    ensures StatusCode(r) == 400 <==> !IdAccepted(RequestedId(param))
    ensures StatusCode(r) == 400 ==> r == Refused(400, InvalidIdMessage, Some([IdMessage]))
    ensures r.OneMatch? ==> found == Resolved(Some(r.item))
    ensures r.Failed? <==> IdAccepted(RequestedId(param)) && found.Rejected?
  {
    if !IdAccepted(RequestedId(param)) then Refused(400, InvalidIdMessage, Some([IdMessage]))
    else LookupResponse(found)
  }

  /** The answer once the id is accepted. */
  function LookupResponse(found: Outcome<Option<MatchRow>>): (r: Response)
    ensures StatusCode(r) == 404 <==> found == Resolved(None)
    ensures r.OneMatch? <==> found.Resolved? && found.value.Some?
    ensures r.OneMatch? ==> found == Resolved(Some(r.item))
    ensures r.Failed? <==> found.Rejected?
    ensures StatusCode(r) != 400
  {
    match found
    case Rejected(e) => Failed(ItemFailedMessage, e)
    case Resolved(None) => Refused(404, NotFoundMessage, None)
    case Resolved(Some(m)) => OneMatch(m)
  }

  /** With the lookup `getMatchById` performs: 404 exactly when no row has the id, and a
      200 carries a row of the table with that id. */
  lemma MatchByIdAnswers(table: seq<MatchRow>, param: string)
    requires IdAccepted(RequestedId(param))
    ensures RequestedId(param).Num?
    ensures var id := RequestedId(param).n;
            var r := MatchByIdRoute(param, Resolved(MatchById(table, id)));
            (StatusCode(r) == 404 <==> forall x :: x in table ==> x.id != id) &&
            (StatusCode(r) == 200 <==> exists x :: x in table && x.id == id) &&
            (r.OneMatch? ==> r.item in table && r.item.id == id)
  {
    LookupAnswers(table, RequestedId(param).n);
  }

  lemma LookupAnswers(table: seq<MatchRow>, id: int)
    ensures var r := LookupResponse(Resolved(MatchById(table, id)));
            (StatusCode(r) == 404 <==> forall x :: x in table ==> x.id != id) &&
            (StatusCode(r) == 200 <==> exists x :: x in table && x.id == id) &&
            (r.OneMatch? ==> r.item in table && r.item.id == id)
  {
    var found := MatchById(table, id);
    if found.Some? {
      assert found.value in table && found.value.id == id;
    }
  }

  /** On a decimal numeral: 400 for ids below 1, a lookup of that very id otherwise. */
  lemma MatchByIdOnDecimal(table: seq<MatchRow>, n: int, found: Outcome<Option<MatchRow>>)
    ensures var r := MatchByIdRoute(IntToDecimal(n), found);
            (n < 1 ==> r == Refused(400, InvalidIdMessage, Some([IdMessage]))) &&
            (n >= 1 ==> RequestedId(IntToDecimal(n)) == Num(n) && StatusCode(r) != 400)
  {
    ParseIntOfDecimal(n);
    IdAcceptedOnIntegersOrLarge(n);
  }

  lemma IdAcceptedOnIntegersOrLarge(n: int)
    ensures IdAccepted(Num(n)) <==> n >= 1
  {
    if n <= -ExponentThreshold || n >= ExponentThreshold {
      ParseIntOfNumber(n);
      var lead := NatToDecimal(if n < 0 then -n else n)[0];
      assert IsDigit(lead) && lead != '0';
      NonZeroDigit(lead);
    } else {
      IdAcceptedOnIntegers(n);
    }
  }

  // ---------------------------------------------------------------------------
  // GET /api/matches/sport/:sportName and /status/:status, as written

  /** `matches.length === limit`: false for NaN. */
  predicate LengthIsLimit(rows: seq<MatchRow>, limit: JsValue) {
    limit == Num(|rows|)
  }

  /** `GET /api/matches/sport/:sportName`: every row of the sport; limit and offset are
      echoed but not applied. */
  function SportRoute(limitParam: Option<string>, offsetParam: Option<string>, fetched: Outcome<seq<MatchRow>>): (r: Response)
    ensures r.Failed? <==> fetched.Rejected?
    ensures r.MatchList? <==> fetched.Resolved?
    ensures r.MatchList? ==> fetched == Resolved(r.data) && r.pagination.total.None? &&
                             (r.pagination.hasMore <==> r.pagination.limit == Num(|r.data|))
  {
    var limit := PagingParam(limitParam, 10);
    var offset := PagingParam(offsetParam, 0);
    match fetched
    case Rejected(e) => Failed(SportFailedMessage, e)
    case Resolved(rows) => MatchList(rows, Pagination(None, limit, offset, LengthIsLimit(rows, limit)))
  }

  /** `GET /api/matches/status/:status`: 400 for a status outside the three, before any
      model call; otherwise every row with that status. */
  function StatusRoute(status: string, limitParam: Option<string>, offsetParam: Option<string>, fetched: Outcome<seq<MatchRow>>): (r: Response)
    ensures StatusCode(r) == 400 <==> status !in Statuses
    ensures r.Failed? <==> status in Statuses && fetched.Rejected?
    ensures r.MatchList? ==> fetched == Resolved(r.data) && r.pagination.total.None? &&
                             (r.pagination.hasMore <==> r.pagination.limit == Num(|r.data|))
  {
    var limit := PagingParam(limitParam, 10);
    var offset := PagingParam(offsetParam, 0);
    if status !in Statuses then Refused(400, InvalidStatusMessage, None)
    else match fetched
      case Rejected(e) => Failed(StatusFailedMessage, e)
      case Resolved(rows) => MatchList(rows, Pagination(None, limit, offset, LengthIsLimit(rows, limit)))
  }

  /** The sport route sends every row of the sport, in date order, and nothing else. */
  lemma SportRouteRows(table: seq<MatchRow>, sportName: string, limitParam: Option<string>, offsetParam: Option<string>, rows: seq<MatchRow>)
    requires sportName != "" && ListAnswer(table, SportOnly(sportName), rows)
    ensures var r := SportRoute(limitParam, offsetParam, Resolved(rows));
            r.MatchList? &&
            (forall x :: x in r.data <==> x in table && ToLower(x.sportName) == ToLower(sportName)) &&
            SortedBy(r.data, MatchDate, LexLe)
  {
    MatchesBySport(table, sportName, rows);
    ListAnswerRows(table, SportOnly(sportName), rows);
  }

  /** The status route refuses any other status, and otherwise sends every row with
      that status and nothing else. */
  lemma StatusRouteRows(table: seq<MatchRow>, status: string, limitParam: Option<string>, offsetParam: Option<string>, rows: seq<MatchRow>)
    requires ListAnswer(table, StatusOnly(status), rows)
    ensures var r := StatusRoute(status, limitParam, offsetParam, Resolved(rows));
            (status !in Statuses <==> StatusCode(r) == 400) &&
            (status in Statuses ==>
               r.MatchList? && forall x :: x in r.data <==> x in table && x.status == status)
  {
    if status in Statuses {
      assert status != "";
      MatchesByStatus(table, status, rows);
    }
  }

  /** As written, `hasMore` claims more rows exactly when the sport has as many matches as
      the limit, although every one of them is already in the response; with more
      matches than the limit it claims none, although the response holds more than the
      limit. */
  lemma SportHasMoreAsWritten(table: seq<MatchRow>, sportName: string, rows: seq<MatchRow>)
    requires sportName != "" && ListAnswer(table, SportOnly(sportName), rows)
    ensures var all := Filtered(table, SportOnly(sportName));
            var r := SportRoute(None, None, Resolved(rows));
            multiset(r.data) == multiset(all) &&
            (|all| == 10 ==> r.pagination.hasMore) &&
            (|all| > 10 ==> !r.pagination.hasMore && |r.data| > 10)
  {
    MatchesBySport(table, sportName, rows);
    assert |rows| == |multiset(rows)|;
  }

  /** The status route has the same `hasMore` as the sport route: with no limit
      parameter every row with that status is sent, yet `hasMore` holds for exactly ten
      rows and fails for more. */
  lemma StatusHasMoreAsWritten(table: seq<MatchRow>, status: string, rows: seq<MatchRow>)
    requires status in Statuses && ListAnswer(table, StatusOnly(status), rows)
    ensures var all := Filtered(table, StatusOnly(status));
            var r := StatusRoute(status, None, None, Resolved(rows));
            r.MatchList? && multiset(r.data) == multiset(all) &&
            (|all| == 10 ==> r.pagination.hasMore) &&
            (|all| > 10 ==> !r.pagination.hasMore && |r.data| > 10)
  {
    assert status != "";
    MatchesByStatus(table, status, rows);
    assert |rows| == |multiset(rows)|;
  }

  // ---------------------------------------------------------------------------
  // The sport and status routes as evidently intended: a page of the filter, counted

  /** The sport route as a page of the list route filtered by sport. */
  function SportRoutePaged(sportName: string, limitParam: Option<string>, offsetParam: Option<string>,
                           listed: Outcome<seq<MatchRow>>, total: Outcome<int>): (r: Response)
    ensures r.MatchList? ==> listed == Resolved(r.data) && r.pagination.total.Some? &&
                             total == Resolved(r.pagination.total.value)
    ensures r.MatchList? ==>
              (r.pagination.hasMore <==> OffsetOrZero(r.pagination.offset) + |r.data| < r.pagination.total.value)
  {
    ListMatches(ListRequest(Some(sportName), None, None, None, limitParam, offsetParam), listed, total)
  }

  /** Paged, the sport route sends at most `limit` rows of the sport, and `hasMore` holds
      exactly when rows of the sport remain after the page. */
  lemma SportRoutePagedHasMore(table: seq<MatchRow>, sportName: string, limitParam: Option<string>,
                               offsetParam: Option<string>, rows: seq<MatchRow>)
    requires sportName != ""
    requires var q := ListRequest(Some(sportName), None, None, None, limitParam, offsetParam);
             FiltersValid(ValidationInput(RequestFilters(q))) && ListAnswer(table, RequestFilters(q), rows)
    ensures var q := ListRequest(Some(sportName), None, None, None, limitParam, offsetParam);
            var f := RequestFilters(q);
            var total := |Filtered(table, f)|;
            var r := SportRoutePaged(sportName, limitParam, offsetParam, Resolved(rows), Resolved(total));
            r.MatchList? && f.limit.Num? && f.offset.Num? &&
            |r.data| <= f.limit.n &&
            (forall x :: x in r.data ==> x in table && ToLower(x.sportName) == ToLower(sportName)) &&
            (r.pagination.hasMore <==> f.offset.n + f.limit.n < total)
  {
    ListPage(table, ListRequest(Some(sportName), None, None, None, limitParam, offsetParam), rows);
  }

  /** The status route as a page of the list route filtered by status, after the same
      check of the status. */
  function StatusRoutePaged(status: string, limitParam: Option<string>, offsetParam: Option<string>,
                            listed: Outcome<seq<MatchRow>>, total: Outcome<int>): (r: Response)
    ensures status !in Statuses ==> r == Refused(400, InvalidStatusMessage, None)
    ensures r.MatchList? ==> status in Statuses && listed == Resolved(r.data) && r.pagination.total.Some? &&
                             total == Resolved(r.pagination.total.value)
    ensures r.MatchList? ==>
              (r.pagination.hasMore <==> OffsetOrZero(r.pagination.offset) + |r.data| < r.pagination.total.value)
  {
    if status !in Statuses then Refused(400, InvalidStatusMessage, None)
    else ListMatches(ListRequest(None, Some(status), None, None, limitParam, offsetParam), listed, total)
  }

  /** Paged, the status route still refuses any other status, sends at most `limit` rows
      with that status, and `hasMore` holds exactly when such rows remain after the page. */
  lemma StatusRoutePagedHasMore(table: seq<MatchRow>, status: string, limitParam: Option<string>,
                                offsetParam: Option<string>, rows: seq<MatchRow>)
    requires var q := ListRequest(None, Some(status), None, None, limitParam, offsetParam);
             FiltersValid(ValidationInput(RequestFilters(q))) && ListAnswer(table, RequestFilters(q), rows)
    ensures var q := ListRequest(None, Some(status), None, None, limitParam, offsetParam);
            var f := RequestFilters(q);
            var total := |Filtered(table, f)|;
            var r := StatusRoutePaged(status, limitParam, offsetParam, Resolved(rows), Resolved(total));
            (status !in Statuses <==> StatusCode(r) == 400) &&
            (status in Statuses ==>
               r.MatchList? && f.limit.Num? && f.offset.Num? &&
               |r.data| <= f.limit.n &&
               (forall x :: x in r.data ==> x in table && x.status == status) &&
               (r.pagination.hasMore <==> f.offset.n + f.limit.n < total))
  {
    if status in Statuses {
      ListPage(table, ListRequest(None, Some(status), None, None, limitParam, offsetParam), rows);
    }
  }
}
