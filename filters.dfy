/** The client-side match filter (frontend/src/lib/filters.ts): a sport, date-range and
    search predicate followed by a stable sort by date with undated matches last.

    Dates are read by `parseISO`, which is not modelled: a match date is empty, a string
    that does not parse, or an instant in milliseconds. The clock is a parameter: the
    bounds of the current day and of the current Monday-to-Sunday week. */
module ClientFilters {
  import opened Js
  import opened Sorting

  /** `match_date` as the filter reads it. */
  datatype DateField = NoDate | Unparsable | At(t: int)

  /** The client `Match` record. */
  datatype Match = Match(
    id: int,
    sportId: int,
    sportName: string,
    homeTeamId: int,
    homeTeamName: string,
    awayTeamId: int,
    awayTeamName: string,
    matchDate: DateField,
    status: string,
    homeScore: int,
    awayScore: int,
    createdAt: string)

  datatype FilterOptions = FilterOptions(sport: string, dateRange: string, search: string)

  /** The first and last millisecond of today, and of the current week (Monday 00:00 to
      Sunday 23:59:59.999, local time). */
  datatype Clock = Clock(dayStart: int, dayEnd: int, weekStart: int, weekEnd: int)

  // ---------------------------------------------------------------------------
  // The filter predicate

  predicate SportPasses(m: Match, sport: string) {
    sport == "all" || m.sportName == sport
  }

  /** An empty date skips the date test; a date that does not parse fails it whatever the
      range; "today" and "week" test the bounds (both ends included); any other range
      keeps every parsed date. */
  predicate DatePasses(m: Match, dateRange: string, clock: Clock) {
    match m.matchDate
    case NoDate => true
    case Unparsable => false
    case At(t) =>
      if dateRange == "today" then clock.dayStart <= t <= clock.dayEnd
      else if dateRange == "week" then clock.weekStart <= t <= clock.weekEnd
      else true
  }

  /** An empty search keeps everything; otherwise one team name must contain the search,
      both lower-cased. */
  predicate SearchPasses(m: Match, search: string) {
    search == "" ||
    Includes(ToLower(m.homeTeamName), ToLower(search)) ||
    Includes(ToLower(m.awayTeamName), ToLower(search))
  }

  predicate Keep(m: Match, options: FilterOptions, clock: Clock) {
    SportPasses(m, options.sport) && DatePasses(m, options.dateRange, clock) && SearchPasses(m, options.search)
  }

  function Keeper(options: FilterOptions, clock: Clock): Match -> bool {
    (m: Match) => Keep(m, options, clock)
  }

  // ---------------------------------------------------------------------------
  // The sort

  /** The position a match sorts by: its instant, or after every instant. */
  datatype SortKey = Dated(t: int) | Undated

  /** Matches that reach the sort never have an unparsable date (the filter drops them);
      such a date is placed with the undated ones. */
  function Key(m: Match): SortKey {
    if m.matchDate.At? then Dated(m.matchDate.t) else Undated
  }

  predicate KeyLe(a: SortKey, b: SortKey) {
    match (a, b)
    case (Dated(x), Dated(y)) => x <= y
    case (Dated(_), Undated) => true
    case (Undated, Dated(_)) => false
    case (Undated, Undated) => true
  }

  lemma KeyLeIsTotalOrder()
    ensures IsTotalOrder(KeyLe)
  {
    assert forall a, b :: KeyLe(a, b) && KeyLe(b, a) ==> a == b by {
      forall a, b | KeyLe(a, b) && KeyLe(b, a)
        ensures a == b
      {
        if a.Dated? && b.Dated? {
          assert a.t == b.t;
        }
      }
    }
  }

  /** The comparator passed to `sort`. */
  function Compare(a: Match, b: Match): (r: int)
    ensures a.matchDate.NoDate? != b.matchDate.NoDate? ==> (r > 0 <==> a.matchDate.NoDate?) && r != 0
    ensures a.matchDate.At? && b.matchDate.At? ==> (r < 0 <==> a.matchDate.t < b.matchDate.t)
    ensures a.matchDate.Unparsable? || b.matchDate.Unparsable? ==> r == 0 || a.matchDate.NoDate? || b.matchDate.NoDate?
  {
    if a.matchDate.NoDate? && b.matchDate.NoDate? then 0
    else if a.matchDate.NoDate? then 1
    else if b.matchDate.NoDate? then -1
    else if a.matchDate.Unparsable? || b.matchDate.Unparsable? then 0
    else a.matchDate.t - b.matchDate.t
  }

  /** On matches whose dates parse or are empty, the comparator orders exactly as `KeyLe`
      does, and calls two matches equal exactly when their keys are equal. */
  lemma CompareAgreesWithKey(a: Match, b: Match)
    requires !a.matchDate.Unparsable? && !b.matchDate.Unparsable?
    ensures Compare(a, b) <= 0 <==> KeyLe(Key(a), Key(b))
    ensures Compare(a, b) == 0 <==> Key(a) == Key(b)
    ensures Compare(a, b) == -Compare(b, a)
  {
  }

  /** `filterMatches`: the kept matches, stably sorted by key. */
  function FilterMatches(matches: seq<Match>, options: FilterOptions, clock: Clock): (r: seq<Match>)
    ensures multiset(r) == multiset(Filter(matches, Keeper(options, clock)))
    ensures SortedBy(r, Key, KeyLe)
  {
    KeyLeIsTotalOrder();
    SortBySortsAndPermutes(Filter(matches, Keeper(options, clock)), Key, KeyLe);
    SortBy(Filter(matches, Keeper(options, clock)), Key, KeyLe)
  }

  // ---------------------------------------------------------------------------
  // Properties

  /** The result holds exactly the kept matches, each as often as in the input. */
  lemma FilterMatchesContents(matches: seq<Match>, options: FilterOptions, clock: Clock)
    ensures var r := FilterMatches(matches, options, clock);
            |r| <= |matches| &&
            multiset(r) == multiset(Filter(matches, Keeper(options, clock))) &&
            forall x :: x in r <==> x in matches && Keep(x, options, clock)
  {
    var kept := Filter(matches, Keeper(options, clock));
    KeyLeIsTotalOrder();
    SortBySortsAndPermutes(kept, Key, KeyLe);
    forall x
      ensures x in FilterMatches(matches, options, clock) <==> x in kept
    {
      assert x in FilterMatches(matches, options, clock) <==> x in multiset(FilterMatches(matches, options, clock));
    }
  }

  /** Dated matches come first, in ascending date order; undated ones come last. */
  lemma FilterMatchesSorted(matches: seq<Match>, options: FilterOptions, clock: Clock)
    ensures var r := FilterMatches(matches, options, clock);
            forall i, j :: 0 <= i < j < |r| && r[j].matchDate.At? ==>
              r[i].matchDate.At? && r[i].matchDate.t <= r[j].matchDate.t
  {
    var r := FilterMatches(matches, options, clock);
    KeyLeIsTotalOrder();
    SortBySortsAndPermutes(Filter(matches, Keeper(options, clock)), Key, KeyLe);
    forall i, j | 0 <= i < j < |r| && r[j].matchDate.At?
      ensures r[i].matchDate.At? && r[i].matchDate.t <= r[j].matchDate.t
    {
      assert KeyLe(Key(r[i]), Key(r[j]));
    }
  }

  /** Matches with the same date (and all undated matches) keep their input order. */
  lemma FilterMatchesStable(matches: seq<Match>, options: FilterOptions, clock: Clock, k: SortKey)
    ensures WithKey(FilterMatches(matches, options, clock), Key, k) ==
            WithKey(Filter(matches, Keeper(options, clock)), Key, k)
  {
    KeyLeIsTotalOrder();
    SortByStable(Filter(matches, Keeper(options, clock)), Key, KeyLe, k);
  }

  /** A date that does not parse drops the match under every range. */
  lemma UnparsableDropped(matches: seq<Match>, options: FilterOptions, clock: Clock, m: Match)
    requires m.matchDate.Unparsable?
    ensures m !in FilterMatches(matches, options, clock)
  {
    FilterMatchesContents(matches, options, clock);
  }

  /** An empty date is never tested against the range, not even "today" or "week". */
  lemma EmptyDateSkipsRange(m: Match, options: FilterOptions, clock: Clock)
    requires m.matchDate.NoDate?
    ensures Keep(m, options, clock) <==> SportPasses(m, options.sport) && SearchPasses(m, options.search)
  {
  }

  /** A range other than "today" and "week" filters like "all". */
  lemma OtherRangesLikeAll(m: Match, options: FilterOptions, clock: Clock)
    requires options.dateRange != "today" && options.dateRange != "week"
    ensures Keep(m, options, clock) <==> Keep(m, options.(dateRange := "all"), clock)
  {
    assert "all"[0] != "today"[0] && "all"[0] != "week"[0];
  }

  /** A search for a team's whole name, in any ASCII case, keeps its matches. */
  lemma SearchFindsWholeName(m: Match, search: string)
    requires ToLower(search) == ToLower(m.homeTeamName) || ToLower(search) == ToLower(m.awayTeamName)
    ensures SearchPasses(m, search)
  {
    var s := ToLower(search);
    if ToLower(search) == ToLower(m.homeTeamName) {
      assert OccursAt(ToLower(m.homeTeamName), s, 0);
    } else {
      assert OccursAt(ToLower(m.awayTeamName), s, 0);
    }
  }

  /** With every sport, every range and no search, the result holds every match whose
      date is empty or parses. */
  lemma NoFiltersKeepParsable(matches: seq<Match>, clock: Clock)
    ensures forall x :: x in FilterMatches(matches, FilterOptions("all", "all", ""), clock) <==>
                        x in matches && !x.matchDate.Unparsable?
  {
    var options := FilterOptions("all", "all", "");
    FilterMatchesContents(matches, options, clock);
    assert "all" != "today" && "all" != "week" by {
      assert "all"[0] != "today"[0] && "all"[0] != "week"[0];
    }
  }
}
