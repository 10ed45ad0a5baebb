/**
 * The administration blueprint (`blueprints/admin.py`): the guards and
 * updates of its match, team, year and administrator routes. Form
 * validation comes first in every route (a form that does not validate is
 * answered with its messages and changes nothing); the answers are those
 * of the views.
 */
module AdminPages {
  import opened Wrappers
  import opened Domain
  import opened Views
  import Forms
  import TeamService

  /** `[(i, f"Boisko {i}") for i in range(1, number_of_fields + 1)]`: the field numbers offered. */
  function FieldChoices(n: int): (r: seq<int>)
    ensures |r| == if n > 0 then n else 0
    ensures forall i :: 0 <= i < |r| ==> r[i] == i + 1
    ensures forall f :: f in r <==> 1 <= f <= n
  {
    if n <= 0 then [] else FieldChoices(n - 1) + [n]
  }

  /** The offered fields as a set. */
  function FieldSet(n: int): (r: set<int>)
    ensures forall f :: f in r <==> 1 <= f <= n
  {
    set f | f in FieldChoices(n)
  }

  /** The refusal `add_match` answers with after the form; `None` when the match is added. */
  function AddMatchRefusal(t: Tournament, teamCount: int, team1: int, team2: int, primary: bool): (r: Option<Refusal>)
    ensures r.None? <==> teamCount >= 2 && t.status != Finished && (t.status == Ongoing ==> primary) && team1 != team2
  {
    if teamCount < 2 then Some(TooFewTeams)
    else if t.status == Finished then Some(TournamentFinished)
    else if t.status == Ongoing && !primary then Some(NotPrimary)
    else if team1 == team2 then Some(SameTeams)
    else None
  }

  /**
   * `add_match`: a missing tournament ends in the handler; the form must
   * pick both teams from the tournament's teams and the field from
   * `1..number_of_fields`; then fewer than two teams, a finished
   * tournament, an ongoing one for an admin who is not primary, and equal
   * teams are refused. A planned match on the chosen field is inserted, so
   * the matches keep playing teams of their own tournament.
   */
  method AddMatch(db: Db, tid: int, team1: Option<int>, team2: Option<int>, start: Option<int>, field: Option<int>,
                  primary: bool, id: int) returns (r: Reply<()>)
    requires id !in db.matches
    modifies db
    ensures db.OnlyMatches()
    ensures tid !in old(db.tournaments) ==> r == Failed
    ensures r.Ok? <==> (tid in old(db.tournaments)
      && Forms.MatchFormValid(team1, team2, start, field, TeamsOf(old(db.teams), tid), FieldSet(old(db.tournaments)[tid].numberOfFields))
      && AddMatchRefusal(old(db.tournaments)[tid], |TeamsOf(old(db.teams), tid)|, team1.value, team2.value, primary).None?)
    ensures r.Ok? ==> db.matches == old(db.matches)[id := NewMatch(tid, team1.value, team2.value, start).(field := field.value)]
    ensures r.Ok? ==> 1 <= db.matches[id].field <= old(db.tournaments)[tid].numberOfFields && db.matches[id].team1 != db.matches[id].team2
    ensures !r.Ok? ==> db.matches == old(db.matches)
    ensures TeamsBelong(old(db.matches), db.teams) ==> TeamsBelong(db.matches, db.teams)
  {
    if tid !in db.tournaments {
      return Failed;
    }
    var t := db.tournaments[tid];
    var teams := TeamsOf(db.teams, tid);
    if !Forms.MatchFormValid(team1, team2, start, field, teams, FieldSet(t.numberOfFields)) {
      return Refused(BadParams);
    }
    var c := AddMatchRefusal(t, |teams|, team1.value, team2.value, primary);
    if c.Some? {
      return Refused(c.value);
    }
    db.matches := db.matches[id := NewMatch(tid, team1.value, team2.value, start).(field := field.value)];
    r := Ok(());
  }

  /**
   * `add_admin`: an e-mail already in use is refused; otherwise a new
   * administrator, not primary, is inserted. E-mails stay unique.
   */
  method AddAdmin(db: Db, email: string, password: Option<string>, confirm: Option<string>, id: int)
    returns (r: Reply<()>)
    requires id !in db.users
    modifies db
    ensures db.years == old(db.years) && db.tournaments == old(db.tournaments)
    ensures db.teams == old(db.teams) && db.matches == old(db.matches)
    ensures r.Ok? <==> Forms.AdminFormValid(password, confirm) && !EmailUsed(old(db.users), email)
    ensures r.Ok? ==> db.users == old(db.users)[id := User(email, "admin", false)]
    ensures !r.Ok? ==> db.users == old(db.users)
    ensures UniqueEmails(old(db.users)) ==> UniqueEmails(db.users)
  {
    if !Forms.AdminFormValid(password, confirm) {
      return Refused(BadParams);
    }
    if exists u :: u in db.users && db.users[u].email == email {
      return Refused(BadParams);
    }
    db.users := db.users[id := User(email, "admin", false)];
    r := Ok(());
  }

  predicate EmailUsed(users: map<int, User>, email: string) {
    exists u :: u in users && users[u].email == email
  }

  predicate UniqueEmails(users: map<int, User>) {
    forall a, b :: a in users && b in users && a != b ==> users[a].email != users[b].email
  }

  /** `delete_admin`: the primary administrator is never deleted; any other user with that id is. */
  method DeleteAdmin(db: Db, id: int) returns (r: Reply<()>)
    modifies db
    ensures db.years == old(db.years) && db.tournaments == old(db.tournaments)
    ensures db.teams == old(db.teams) && db.matches == old(db.matches)
    ensures id !in old(db.users) ==> r == Failed
    ensures r.Ok? <==> id in old(db.users) && !old(db.users)[id].isPrimary
    ensures r.Ok? ==> db.users == old(db.users) - {id}
    ensures !r.Ok? ==> db.users == old(db.users)
    ensures forall u :: u in old(db.users) && old(db.users)[u].isPrimary ==> u in db.users && db.users[u] == old(db.users)[u]
  {
    if id !in db.users {
      return Failed;
    }
    if db.users[id].isPrimary {
      return Refused(NotPrimary);
    }
    db.users := db.users - {id};
    r := Ok(());
  }

  /** The tournaments of a year. */
  function InYear(tournaments: map<int, Tournament>, yearId: int): (r: set<int>)
    ensures forall t :: t in r <==> t in tournaments && tournaments[t].yearId == yearId
  {
    set t | t in tournaments && tournaments[t].yearId == yearId
  }

  /** The matches outside the tournaments `tids`. */
  function MatchesOutside(ms: map<int, Match>, tids: set<int>): (r: map<int, Match>)
    ensures forall id :: id in r <==> id in ms && ms[id].tournamentId !in tids
    ensures forall id :: id in r ==> r[id] == ms[id]
  {
    map id | id in ms && ms[id].tournamentId !in tids :: ms[id]
  }

  /** The teams outside the tournaments `tids`. */
  function TeamsOutside(teams: map<int, Team>, tids: set<int>): (r: map<int, Team>)
    ensures forall id :: id in r <==> id in teams && teams[id].tournamentId !in tids
    ensures forall id :: id in r ==> r[id] == teams[id]
  {
    map id | id in teams && teams[id].tournamentId !in tids :: teams[id]
  }

  /**
   * `delete_year`, given the year's tournaments `ts` (its `tournaments`
   * relationship): refused unless the user is the primary admin; for each
   * tournament its matches and then its teams are deleted, then the
   * tournaments of the year, then the year.
   */
  method DeleteYear(db: Db, yearId: int, primary: bool, ts: seq<int>) returns (r: Reply<()>)
    requires forall t :: t in ts <==> t in InYear(db.tournaments, yearId)
    modifies db
    ensures db.users == old(db.users)
    ensures !primary ==> r == Refused(NotPrimary)
    ensures primary && yearId !in old(db.years) ==> r == Failed
    ensures r.Ok? <==> primary && yearId in old(db.years)
    ensures !r.Ok? ==> db.years == old(db.years) && db.tournaments == old(db.tournaments)
                       && db.teams == old(db.teams) && db.matches == old(db.matches)
    ensures r.Ok? ==> var gone := InYear(old(db.tournaments), yearId);
      db.years == old(db.years) - {yearId}
      && db.tournaments == old(db.tournaments) - gone
      && db.teams == TeamsOutside(old(db.teams), gone)
      && db.matches == MatchesOutside(old(db.matches), gone)
    ensures TeamsBelong(old(db.matches), old(db.teams)) ==> TeamsBelong(db.matches, db.teams)
  {
    ghost var gone := InYear(db.tournaments, yearId);
    if !primary {
      return Refused(NotPrimary);
    }
    if yearId !in db.years {
      return Failed;
    }
    SameMembers(ts, gone);
    OutsideKeepsBelonging(db.matches, db.teams, gone);
    db.matches, db.teams := DropEach(db.matches, db.teams, ts);
    db.tournaments := map t | t in db.tournaments && db.tournaments[t].yearId != yearId :: db.tournaments[t];
    db.years := db.years - {yearId};
    r := Ok(());
  }

  /** The loop of `delete_year`: for each tournament in turn, its matches and then its teams go. */
  method DropEach(ms: map<int, Match>, teams: map<int, Team>, ts: seq<int>) returns (ms': map<int, Match>, teams': map<int, Team>)
    ensures ms' == MatchesOutside(ms, Members(ts))
    ensures teams' == TeamsOutside(teams, Members(ts))
  {
    ms', teams' := MatchesOutside(ms, {}), TeamsOutside(teams, {});
    var k := 0;
    while k < |ts|
      invariant 0 <= k <= |ts|
      invariant ms' == MatchesOutside(ms, Members(ts[..k]))
      invariant teams' == TeamsOutside(teams, Members(ts[..k]))
    {
      assert ts[..k + 1][..k] == ts[..k];
      OutsideTwice(ms, teams, Members(ts[..k]), {ts[k]});
      ms' := MatchesOutside(ms', {ts[k]});
      teams' := TeamsOutside(teams', {ts[k]});
      k := k + 1;
    }
    assert ts[..|ts|] == ts;
  }

  /** The set of the ids in `ts`. */
  function Members(ts: seq<int>): (r: set<int>)
    ensures forall t :: t in r <==> t in ts
  {
    if ts == [] then {} else Members(ts[..|ts| - 1]) + {ts[|ts| - 1]}
  }

  /** A sequence holding exactly the elements of a set has that set as its members. */
  lemma SameMembers(ts: seq<int>, s: set<int>)
    requires forall t :: t in ts <==> t in s
    ensures Members(ts) == s
  {
    var m := Members(ts);
    forall t | t in m ensures t in s {
      assert t in ts;
    }
    forall t | t in s ensures t in m {
      assert t in ts;
    }
  }

  lemma OutsideTwice(ms: map<int, Match>, teams: map<int, Team>, a: set<int>, b: set<int>)
    ensures MatchesOutside(MatchesOutside(ms, a), b) == MatchesOutside(ms, a + b)
    ensures TeamsOutside(TeamsOutside(teams, a), b) == TeamsOutside(teams, a + b)
  {
  }

  /** Dropping whole tournaments keeps every remaining match's teams in its tournament. */
  lemma OutsideKeepsBelonging(ms: map<int, Match>, teams: map<int, Team>, gone: set<int>)
    ensures TeamsBelong(ms, teams) ==> TeamsBelong(MatchesOutside(ms, gone), TeamsOutside(teams, gone))
  {
  }

  /**
   * `add_team` of the blueprint: the team form must validate, a missing
   * tournament ends in the handler, a tournament that is not planned is
   * refused. Unlike the team service, the name is not checked against the
   * tournament's other teams.
   */
  method AddTeam(db: Db, tid: int, name: Option<string>, id: int) returns (r: Reply<()>)
    requires id !in db.teams
    modifies db
    ensures db.OnlyTeamsAndMatches() && db.matches == old(db.matches)
    ensures r.Ok? <==> Forms.TeamFormValid(name) && tid in old(db.tournaments) && old(db.tournaments)[tid].status == Planned
    ensures r.Ok? ==> db.teams == old(db.teams)[id := Team(name.value, tid)]
    ensures !r.Ok? ==> db.teams == old(db.teams)
  {
    if !Forms.TeamFormValid(name) {
      return Refused(BadParams);
    }
    if tid !in db.tournaments {
      return Failed;
    }
    if db.tournaments[tid].status != Planned {
      return Refused(NotPlanned);
    }
    db.teams := db.teams[id := Team(name.value, tid)];
    r := Ok(());
  }

  /** The blueprint's `add_team` accepts a second team with a name already used in the tournament. */
  method AddTeamAllowsDuplicate() returns (db: Db)
    ensures !TeamService.UniqueNames(db.teams)
  {
    db := new Db();
    db.tournaments := map[1 := NewTournament("Cup", 1)];
    db.teams := map[1 := Team("Lions", 1)];
    assert !Forms.Blank("Lions") by { assert "Lions"[0] == 'L'; }
    var r := AddTeam(db, 1, Some("Lions"), 2);
    assert db.teams[1] == Team("Lions", 1) && db.teams[2] == Team("Lions", 1);
  }

  /**
   * `delete_team` of the blueprint: only in a planned tournament (a missing
   * team or tournament ends in the handler); every match naming the team,
   * in any tournament, is deleted with it.
   */
  method DeleteTeam(db: Db, teamId: int) returns (r: Reply<()>)
    modifies db
    ensures db.OnlyTeamsAndMatches()
    ensures teamId !in old(db.teams) || old(db.teams)[teamId].tournamentId !in old(db.tournaments) ==> r == Failed
    ensures r.Ok? <==> teamId in old(db.teams) && old(db.teams)[teamId].tournamentId in old(db.tournaments)
                       && old(db.tournaments)[old(db.teams)[teamId].tournamentId].status == Planned
    ensures r.Ok? ==> db.teams == old(db.teams) - {teamId} && db.matches == TeamService.Without(old(db.matches), teamId)
    ensures !r.Ok? ==> db.teams == old(db.teams) && db.matches == old(db.matches)
    ensures TeamsBelong(old(db.matches), old(db.teams)) ==> TeamsBelong(db.matches, db.teams)
  {
    if teamId !in db.teams || db.teams[teamId].tournamentId !in db.tournaments {
      return Failed;
    }
    if db.tournaments[db.teams[teamId].tournamentId].status != Planned {
      return Refused(NotPlanned);
    }
    db.matches := TeamService.Without(db.matches, teamId);
    db.teams := db.teams - {teamId};
    r := Ok(());
  }

  /**
   * `edit_team` of the blueprint: both the team id and a non-empty name are
   * required; only in a planned tournament; only the name changes.
   */
  method EditTeam(db: Db, teamId: Option<int>, name: string) returns (r: Reply<()>)
    modifies db
    ensures db.OnlyTeamsAndMatches() && db.matches == old(db.matches)
    ensures teamId.None? || name == "" ==> r == Refused(MissingField)
    ensures r.Ok? <==> teamId.Some? && name != "" && teamId.value in old(db.teams)
                       && old(db.teams)[teamId.value].tournamentId in old(db.tournaments)
                       && old(db.tournaments)[old(db.teams)[teamId.value].tournamentId].status == Planned
    ensures r.Ok? ==> db.teams == old(db.teams)[teamId.value := old(db.teams)[teamId.value].(name := name)]
    ensures !r.Ok? ==> db.teams == old(db.teams)
  {
    if teamId.None? || name == "" {
      return Refused(MissingField);
    }
    var id := teamId.value;
    if id !in db.teams || db.teams[id].tournamentId !in db.tournaments {
      return Failed;
    }
    if db.tournaments[db.teams[id].tournamentId].status != Planned {
      return Refused(NotPlanned);
    }
    db.teams := db.teams[id := db.teams[id].(name := name)];
    r := Ok(());
  }
}
