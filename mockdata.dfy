/** The mock reference data (backend/src/data/mockData.ts): three constant tables and the
    lookups over them. Match dates are computed from the clock when the module loads;
    here a date is kept as the arguments of `createGameDate`. */
module MockData {
  import opened Wrappers
  import opened Js

  datatype MockSport = MockSport(id: int, name: string, description: string)

  datatype MockTeam = MockTeam(id: int, name: string, sportId: int, logoUrl: Option<string>)

  /** `createGameDate(daysFromToday, hour, minute)`: that many days after today, at that
      local time. */
  datatype GameDate = GameDate(daysFromToday: int, hour: int, minute: int)

  /** The status union `'scheduled' | 'in_progress' | 'completed'`. */
  datatype MatchStatus = Scheduled | InProgress | Completed

  datatype MockMatch = MockMatch(
    id: int,
    sportId: int,
    homeTeamId: int,
    awayTeamId: int,
    matchDate: GameDate,
    status: MatchStatus,
    homeScore: int,
    awayScore: int)

  const MockSports: seq<MockSport> := [
    MockSport(1, "Football", "American Football"),
    MockSport(2, "Basketball", "Basketball"),
    MockSport(3, "Soccer", "Association Football")]

  const MockTeams: seq<MockTeam> := [
    MockTeam(1, "Kansas City Chiefs", 1, Some("https://example.com/chiefs.png")),
    MockTeam(2, "Buffalo Bills", 1, Some("https://example.com/bills.png")),
    MockTeam(3, "Dallas Cowboys", 1, Some("https://example.com/cowboys.png")),
    MockTeam(4, "Green Bay Packers", 1, Some("https://example.com/packers.png")),
    MockTeam(5, "Los Angeles Lakers", 2, Some("https://example.com/lakers.png")),
    MockTeam(6, "Boston Celtics", 2, Some("https://example.com/celtics.png")),
    MockTeam(7, "Golden State Warriors", 2, Some("https://example.com/warriors.png")),
    MockTeam(8, "Miami Heat", 2, Some("https://example.com/heat.png")),
    MockTeam(9, "Manchester City", 3, Some("https://example.com/mancity.png")),
    MockTeam(10, "Arsenal", 3, Some("https://example.com/arsenal.png")),
    MockTeam(11, "Liverpool", 3, Some("https://example.com/liverpool.png")),
    MockTeam(12, "Chelsea", 3, Some("https://example.com/chelsea.png"))]

  /** A scheduled match without a score, as every mock match is. */
  function Fixture(id: int, sportId: int, home: int, away: int, date: GameDate): MockMatch {
    MockMatch(id, sportId, home, away, date, Scheduled, 0, 0)
  }

  const MockMatches: seq<MockMatch> := [
    Fixture(1, 1, 1, 2, GameDate(0, 20, 0)),
    Fixture(2, 1, 3, 4, GameDate(1, 18, 30)),
    Fixture(3, 1, 2, 3, GameDate(2, 21, 0)),
    Fixture(4, 2, 5, 6, GameDate(3, 19, 30)),
    Fixture(5, 2, 7, 8, GameDate(4, 22, 0)),
    Fixture(6, 2, 6, 7, GameDate(5, 20, 0)),
    Fixture(7, 3, 9, 10, GameDate(6, 15, 0)),
    Fixture(8, 3, 11, 12, GameDate(7, 17, 30)),
    Fixture(9, 3, 10, 11, GameDate(8, 20, 0)),
    Fixture(10, 3, 12, 9, GameDate(9, 16, 0))]

  // ---------------------------------------------------------------------------
  // Lookups

  /** Ids strictly increase along `s`. */
  predicate IdsIncrease<T(!new)>(s: seq<T>, id: T -> int) {
    forall i, j :: 0 <= i < j < |s| ==> id(s[i]) < id(s[j])
  }

  /** Filtering keeps increasing ids increasing: the kept elements stay in table order. */
  lemma {:induction false} FilterKeepsOrder<T(!new)>(s: seq<T>, keep: T -> bool, id: T -> int)
    requires IdsIncrease(s, id)
    ensures IdsIncrease(Filter(s, keep), id)
  {
    if s != [] {
      FilterKeepsOrder(s[1..], keep, id);
      var rest := Filter(s[1..], keep);
      forall j | 0 <= j < |rest|
        ensures id(s[0]) < id(rest[j])
      {
        assert rest[j] in s[1..];
      }
    }
  }

  /** The first sport whose name equals `sportName` up to case. */
  function FindSport(sports: seq<MockSport>, sportName: string): (r: Option<MockSport>)
    ensures r.None? <==> forall s :: s in sports ==> ToLower(s.name) != ToLower(sportName)
    ensures r.Some? ==> r.value in sports && ToLower(r.value.name) == ToLower(sportName)
  {
    if sports == [] then None
    else if ToLower(sports[0].name) == ToLower(sportName) then Some(sports[0])
    else FindSport(sports[1..], sportName)
  }

  datatype SportData = SportData(sport: MockSport, teams: seq<MockTeam>, matches: seq<MockMatch>)

  /** The lookup of `getMockDataBySport` over given tables: the sport named so (ignoring
      case), with its teams and matches; nothing when no sport has that name. */
  function SportDataIn(sports: seq<MockSport>, teams: seq<MockTeam>, matches: seq<MockMatch>,
                       sportName: string): Option<SportData>
  {
    match FindSport(sports, sportName)
    case None => None
    case Some(sport) =>
      Some(SportData(sport,
                     Filter(teams, (t: MockTeam) => t.sportId == sport.id),
                     Filter(matches, (m: MockMatch) => m.sportId == sport.id)))
  }

  /** `getMockDataBySport`. */
  function GetMockDataBySport(sportName: string): (r: Option<SportData>)
    ensures r.None? <==> forall s :: s in MockSports ==> ToLower(s.name) != ToLower(sportName)
    ensures r.Some? ==> r.value.sport in MockSports && ToLower(r.value.sport.name) == ToLower(sportName)
  {
    SportDataIn(MockSports, MockTeams, MockMatches, sportName)
  }

  /** `getMockMatchesByStatus`. */
  function GetMockMatchesByStatus(status: MatchStatus): (r: seq<MockMatch>)
    ensures |r| <= |MockMatches|
    ensures forall m :: m in r ==> m in MockMatches && m.status == status
  {
    Filter(MockMatches, (m: MockMatch) => m.status == status)
  }

  /** `getMockMatchById`: the first match with that id, or undefined. */
  function FindMatch(matches: seq<MockMatch>, id: int): (r: Option<MockMatch>)
    ensures r.None? <==> forall m :: m in matches ==> m.id != id
    ensures r.Some? ==> r.value in matches && r.value.id == id
  {
    if matches == [] then None
    else if matches[0].id == id then Some(matches[0])
    else FindMatch(matches[1..], id)
  }

  function GetMockMatchById(id: int): (r: Option<MockMatch>)
    ensures r.None? <==> forall m :: m in MockMatches ==> m.id != id
    ensures r.Some? ==> r.value in MockMatches && r.value.id == id
  {
    FindMatch(MockMatches, id)
  }

  // ---------------------------------------------------------------------------
  // Properties of the tables and the lookups

  /** Ids increase along each table, so no two rows share an id. */
  lemma IdsAreUnique()
    ensures IdsIncrease(MockSports, (s: MockSport) => s.id)
    ensures IdsIncrease(MockTeams, (t: MockTeam) => t.id)
    ensures IdsIncrease(MockMatches, (m: MockMatch) => m.id)
    ensures forall i :: 0 <= i < |MockTeams| ==> MockTeams[i].id == i + 1
    ensures forall i :: 0 <= i < |MockMatches| ==> MockMatches[i].id == i + 1
  {
    forall i | 0 <= i < |MockSports|
      ensures MockSports[i].id == i + 1
    {
      assert i == 0 || i == 1 || i == 2;
    }
    IdsFromPositions(MockSports, (s: MockSport) => s.id);
    forall i | 0 <= i < |MockTeams|
      ensures MockTeams[i].id == i + 1
    {
      TeamAt(i);
    }
    IdsFromPositions(MockTeams, (t: MockTeam) => t.id);
    forall i | 0 <= i < |MockMatches|
      ensures MockMatches[i].id == i + 1
    {
      MatchIdAt(i);
    }
    IdsFromPositions(MockMatches, (m: MockMatch) => m.id);
  }

  /** Ids that count the rows from 1 increase. */
  lemma IdsFromPositions<T(!new)>(s: seq<T>, id: T -> int)
    requires forall i :: 0 <= i < |s| ==> id(s[i]) == i + 1
    ensures IdsIncrease(s, id)
  {
  }

  /** The team in row `i` has id `i + 1` and belongs to a mock sport. */
  lemma TeamAt(i: nat)
    requires i < |MockTeams|
    ensures MockTeams[i].id == i + 1
    ensures 1 <= MockTeams[i].sportId <= |MockSports| && MockSports[MockTeams[i].sportId - 1].id == MockTeams[i].sportId
  {
    if i < 4 {
      assert i == 0 || i == 1 || i == 2 || i == 3;
    } else if i < 8 {
      assert i == 4 || i == 5 || i == 6 || i == 7;
    } else {
      assert i == 8 || i == 9 || i == 10 || i == 11;
    }
  }

  lemma MatchIdAt(i: nat)
    requires i < |MockMatches|
    ensures MockMatches[i].id == i + 1
  {
    if i < 5 {
      assert i == 0 || i == 1 || i == 2 || i == 3 || i == 4;
    } else {
      assert i == 5 || i == 6 || i == 7 || i == 8 || i == 9;
    }
  }

  /** The sport of the team with id `teamId`, when there is one: ids count the rows of
      the team table from 1. */
  function TeamSport(teamId: int): (r: Option<int>)
    ensures r.Some? <==> 1 <= teamId <= |MockTeams|
    ensures r.Some? ==> MockTeams[teamId - 1].id == teamId && r.value == MockTeams[teamId - 1].sportId
  {
    if 1 <= teamId <= |MockTeams| then
      TeamAt(teamId - 1);
      Some(MockTeams[teamId - 1].sportId)
    else
      None
  }

  /** A match names a mock sport and two different teams of that very sport. */
  predicate Consistent(m: MockMatch) {
    1 <= m.sportId <= |MockSports| && MockSports[m.sportId - 1].id == m.sportId &&
    m.homeTeamId != m.awayTeamId &&
    TeamSport(m.homeTeamId) == Some(m.sportId) && TeamSport(m.awayTeamId) == Some(m.sportId)
  }

  /** Every team belongs to a mock sport; every match names a mock sport and two
      different teams of that very sport. */
  lemma ReferencesHold()
    ensures forall i :: 0 <= i < |MockTeams| ==>
              1 <= MockTeams[i].sportId <= |MockSports| && MockSports[MockTeams[i].sportId - 1].id == MockTeams[i].sportId
    ensures forall i :: 0 <= i < |MockMatches| ==> Consistent(MockMatches[i])
  {
    forall i | 0 <= i < |MockMatches|
      ensures Consistent(MockMatches[i])
    {
      MatchConsistent(i);
    }
  }

  lemma MatchConsistent(i: nat)
    requires i < |MockMatches|
    ensures Consistent(MockMatches[i])
  {
    var m := MockMatches[i];
    assert TeamSport(m.homeTeamId) == Some(MockTeams[m.homeTeamId - 1].sportId);
    assert TeamSport(m.awayTeamId) == Some(MockTeams[m.awayTeamId - 1].sportId);
  }

  /** Every mock match is scheduled at 0-0. */
  lemma AllScheduled()
    ensures forall i :: 0 <= i < |MockMatches| ==>
              MockMatches[i].status == Scheduled && MockMatches[i].homeScore == 0 && MockMatches[i].awayScore == 0
    ensures GetMockMatchesByStatus(Scheduled) == MockMatches
  {
    forall i | 0 <= i < |MockMatches|
      ensures MockMatches[i].status == Scheduled && MockMatches[i].homeScore == 0 && MockMatches[i].awayScore == 0
    {
      FixtureAt(i);
    }
    FilterAll(MockMatches, (m: MockMatch) => m.status == Scheduled);
  }

  lemma FixtureAt(i: nat)
    requires i < |MockMatches|
    ensures MockMatches[i].status == Scheduled && MockMatches[i].homeScore == 0 && MockMatches[i].awayScore == 0
  {
    if i < 5 {
      assert i == 0 || i == 1 || i == 2 || i == 3 || i == 4;
    } else {
      assert i == 5 || i == 6 || i == 7 || i == 8 || i == 9;
    }
  }

  /** The other two statuses find nothing. */
  lemma OtherStatusesEmpty(status: MatchStatus)
    requires status != Scheduled
    ensures GetMockMatchesByStatus(status) == []
  {
    AllScheduled();
    FilterNone(MockMatches, (m: MockMatch) => m.status == status);
  }

  lemma FilterNone<T(!new)>(s: seq<T>, keep: T -> bool)
    requires forall i :: 0 <= i < |s| ==> !keep(s[i])
    ensures Filter(s, keep) == []
  {
  }

  lemma {:induction false} FilterAll<T(!new)>(s: seq<T>, keep: T -> bool)
    requires forall x :: x in s ==> keep(x)
    ensures Filter(s, keep) == s
  {
    if s != [] {
      FilterAll(s[1..], keep);
    }
  }

  /** The lookup finds a sport exactly when one has the name asked for, up to ASCII
      case; it returns that sport with exactly its teams and its matches, in table order. */
  lemma SportDataInContents(sports: seq<MockSport>, teams: seq<MockTeam>, matches: seq<MockMatch>,
                            sportName: string)
    requires IdsIncrease(teams, (t: MockTeam) => t.id) && IdsIncrease(matches, (m: MockMatch) => m.id)
    ensures var r := SportDataIn(sports, teams, matches, sportName);
            (r.None? <==> forall s :: s in sports ==> ToLower(s.name) != ToLower(sportName)) &&
            (r.Some? ==> r.value.sport in sports && ToLower(r.value.sport.name) == ToLower(sportName)) &&
            (r.Some? ==> forall t :: t in r.value.teams <==> t in teams && t.sportId == r.value.sport.id) &&
            (r.Some? ==> forall m :: m in r.value.matches <==> m in matches && m.sportId == r.value.sport.id) &&
            (r.Some? ==> IdsIncrease(r.value.teams, (t: MockTeam) => t.id)) &&
            (r.Some? ==> IdsIncrease(r.value.matches, (m: MockMatch) => m.id))
  {
    var found := FindSport(sports, sportName);
    if found.Some? {
      var sport := found.value;
      FilterKeepsOrder(teams, (t: MockTeam) => t.sportId == sport.id, (t: MockTeam) => t.id);
      FilterKeepsOrder(matches, (m: MockMatch) => m.sportId == sport.id, (m: MockMatch) => m.id);
    }
  }

  /** `getMockDataBySport` on the mock tables. */
  lemma SportDataContents(sportName: string)
    ensures var r := GetMockDataBySport(sportName);
            (r.None? <==> forall s :: s in MockSports ==> ToLower(s.name) != ToLower(sportName)) &&
            (r.Some? ==> r.value.sport in MockSports && ToLower(r.value.sport.name) == ToLower(sportName)) &&
            (r.Some? ==> forall t :: t in r.value.teams <==> t in MockTeams && t.sportId == r.value.sport.id) &&
            (r.Some? ==> forall m :: m in r.value.matches <==> m in MockMatches && m.sportId == r.value.sport.id) &&
            (r.Some? ==> IdsIncrease(r.value.teams, (t: MockTeam) => t.id)) &&
            (r.Some? ==> IdsIncrease(r.value.matches, (m: MockMatch) => m.id))
  {
    IdsAreUnique();
    SportDataInContents(MockSports, MockTeams, MockMatches, sportName);
  }

  /** `getMockMatchesByStatus` returns exactly the matches with that status, in table
      order. */
  lemma MatchesByStatusContents(status: MatchStatus)
    ensures forall m :: m in GetMockMatchesByStatus(status) <==> m in MockMatches && m.status == status
    ensures IdsIncrease(GetMockMatchesByStatus(status), (m: MockMatch) => m.id)
  {
    IdsAreUnique();
    FilterKeepsOrder(MockMatches, (m: MockMatch) => m.status == status, (m: MockMatch) => m.id);
  }

  /** `getMockMatchById` finds the ids 1 to 10 and nothing else. */
  lemma MatchByIdRange(id: int)
    ensures GetMockMatchById(id).Some? <==> 1 <= id <= 10
    ensures GetMockMatchById(id).Some? ==> GetMockMatchById(id).value == MockMatches[id - 1]
  {
    IdsAreUnique();
    if 1 <= id <= 10 {
      assert MockMatches[id - 1] in MockMatches;
    }
  }
}
