/**
 * The persisted records of the football manager (`models.py`) as values.
 * Datetimes are integer seconds; a nullable column is an `Option`.
 * The database itself is the class `Db` holding one map per table,
 * keyed by primary key.
 */
module Domain {
  import opened Wrappers

  /** The `status` string shared by tournaments and matches. */
  datatype Status = Planned | Ongoing | Finished

  datatype Year = Year(year: int)

  datatype Tournament = Tournament(
    name: string,
    yearId: int,
    status: Status,
    startTime: Option<int>,
    numberOfFields: int,
    matchLength: int,  // minutes
    breakLength: int   // minutes
  )

  datatype Team = Team(name: string, tournamentId: int)

  datatype Match = Match(
    tournamentId: int,
    team1: int,
    team2: int,
    score1: Option<int>,
    score2: Option<int>,
    startTime: Option<int>,
    field: int,
    status: Status,
    paused: bool,
    elapsed: Option<int>  // seconds; the views store `None` on resume
  )

  datatype User = User(email: string, role: string, isPrimary: bool)

  /** Column defaults of a new tournament. */
  function NewTournament(name: string, yearId: int): (t: Tournament)
    ensures t.status == Planned && t.startTime == None
    ensures t.numberOfFields == 1 && t.matchLength == 20 && t.breakLength == 5
  {
    Tournament(name, yearId, Planned, None, 1, 20, 5)
  }

  /** Column defaults of a new match: planned, no score, timer paused at 0, field 1. */
  function NewMatch(tournamentId: int, team1: int, team2: int, start: Option<int>): (m: Match)
    ensures m.status == Planned && m.score1 == None && m.score2 == None
    ensures m.paused && m.elapsed == Some(0) && m.field == 1
    ensures m.team1 == team1 && m.team2 == team2 && m.tournamentId == tournamentId && m.startTime == start
  {
    Match(tournamentId, team1, team2, None, None, start, 1, Planned, true, Some(0))
  }

  /** The position of a status in the lifecycle `planned -> ongoing -> finished`. */
  function Rank(s: Status): (n: nat)
    ensures n <= 2
    ensures s == Planned <==> n == 0
    ensures s == Finished <==> n == 2
  {
    match s
    case Planned => 0
    case Ongoing => 1
    case Finished => 2
  }

  /** Python's `x or 0` on a nullable integer (0 itself is falsy and maps to 0). */
  function OrZero(x: Option<int>): (r: int)
    ensures x.Some? ==> r == x.value
    ensures x.None? ==> r == 0
  {
    if x.Some? then x.value else 0
  }

  predicate Involves(m: Match, teamId: int) {
    m.team1 == teamId || m.team2 == teamId
  }

  /** The ids of the teams registered in a tournament (`Team.tournament_id == tid`). */
  function TeamsOf(teams: map<int, Team>, tid: int): (r: set<int>)
    ensures forall id :: id in r <==> id in teams && teams[id].tournamentId == tid
  {
    set id | id in teams && teams[id].tournamentId == tid
  }

  /** The in-memory view of the database: one map per table. */
  class Db {
    var years: map<int, Year>
    var tournaments: map<int, Tournament>
    var teams: map<int, Team>
    var matches: map<int, Match>
    var users: map<int, User>

    constructor ()
      ensures years == map[] && tournaments == map[] && teams == map[]
      ensures matches == map[] && users == map[]
    {
      years, tournaments, teams, matches, users := map[], map[], map[], map[], map[];
    }

    /** Only the match table changed. */
    twostate predicate OnlyMatches()
      reads this
    {
      years == old(years) && tournaments == old(tournaments) && teams == old(teams) && users == old(users)
    }

    /** Only the tournament table changed. */
    twostate predicate OnlyTournaments()
      reads this
    {
      years == old(years) && matches == old(matches) && teams == old(teams) && users == old(users)
    }

    /** Only the team and match tables changed. */
    twostate predicate OnlyTeamsAndMatches()
      reads this
    {
      years == old(years) && tournaments == old(tournaments) && users == old(users)
    }
  }
}
