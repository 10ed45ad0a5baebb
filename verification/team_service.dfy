/**
 * Team administration (`services/team_service.py`): adding, deleting and
 * renaming the teams of a planned tournament, with team names unique
 * within a tournament and a delete that cascades to the team's matches.
 */
module TeamService {
  import opened Wrappers
  import opened Domain

  /** Why a request was refused (the service's error messages). */
  datatype Reason = NoTournament | NoTeam | NotPlanned | EmptyName | NameTaken | Crashed

  /** `(True, ...)`, or `(False, message)` for the given reason. */
  datatype Outcome = Done | Refused(reason: Reason)

  /** Some team of tournament `tid` other than `except` is called `name`. */
  predicate NameUsed(teams: map<int, Team>, tid: int, name: string, except: Option<int>) {
    exists id :: id in teams && teams[id].tournamentId == tid && teams[id].name == name && Some(id) != except
  }

  /** No two teams of one tournament share a name. */
  predicate UniqueNames(teams: map<int, Team>) {
    forall a, b :: a in teams && b in teams && a != b && teams[a].tournamentId == teams[b].tournamentId ==>
      teams[a].name != teams[b].name
  }

  /** The refusal `add_team` answers with, checked in the source's order; `None` when the team is added. */
  function AddRefusal(tournaments: map<int, Tournament>, teams: map<int, Team>, tid: int, name: string): (r: Option<Reason>)
    ensures r.None? <==> tid in tournaments && tournaments[tid].status == Planned && name != "" && !NameUsed(teams, tid, name, None)
  {
    if tid !in tournaments then Some(NoTournament)
    else if tournaments[tid].status != Planned then Some(NotPlanned)
    else if name == "" then Some(EmptyName)
    else if NameUsed(teams, tid, name, None) then Some(NameTaken)
    else None
  }

  /**
   * `add_team`: a missing tournament, a tournament that is not planned, an
   * empty name and a name already used in the tournament are refused, in
   * that order, with nothing written; otherwise the team is inserted.
   */
  method AddTeam(db: Db, tid: int, name: string, id: int) returns (r: Outcome)
    requires id !in db.teams
    modifies db
    ensures db.OnlyTeamsAndMatches() && db.matches == old(db.matches)
    ensures AddRefusal(old(db.tournaments), old(db.teams), tid, name).Some? ==>
      r == Refused(AddRefusal(old(db.tournaments), old(db.teams), tid, name).value) && db.teams == old(db.teams)
    ensures AddRefusal(old(db.tournaments), old(db.teams), tid, name).None? ==>
      r == Done && db.teams == old(db.teams)[id := Team(name, tid)]
    ensures UniqueNames(old(db.teams)) ==> UniqueNames(db.teams)
  {
    if tid !in db.tournaments {
      return Refused(NoTournament);
    }
    if db.tournaments[tid].status != Planned {
      return Refused(NotPlanned);
    }
    if name == "" {
      return Refused(EmptyName);
    }
    if exists other :: other in db.teams && db.teams[other].tournamentId == tid && db.teams[other].name == name {
      return Refused(NameTaken);
    }
    db.teams := db.teams[id := Team(name, tid)];
    r := Done;
  }

  /** The matches that do not involve `teamId`. */
  function Without(matches: map<int, Match>, teamId: int): (r: map<int, Match>)
    ensures forall m :: m in r <==> m in matches && !Involves(matches[m], teamId)
    ensures forall m :: m in r ==> r[m] == matches[m]
  {
    map m | m in matches && !Involves(matches[m], teamId) :: matches[m]
  }

  /**
   * `delete_team`: refused for an unknown team and for a team whose
   * tournament is not planned (a missing tournament raises, which the
   * service reports as an error). Otherwise every match in which the team
   * is team1 or team2 is deleted, then the team; nothing else changes.
   */
  method DeleteTeam(db: Db, teamId: int) returns (r: Outcome)
    modifies db
    ensures db.OnlyTeamsAndMatches()
    ensures teamId !in old(db.teams) ==> r == Refused(NoTeam)
    ensures teamId in old(db.teams) && old(db.teams)[teamId].tournamentId !in old(db.tournaments) ==> r == Refused(Crashed)
    ensures r.Refused? ==> db.teams == old(db.teams) && db.matches == old(db.matches)
    ensures r == Done <==> teamId in old(db.teams) && old(db.teams)[teamId].tournamentId in old(db.tournaments)
                           && old(db.tournaments)[old(db.teams)[teamId].tournamentId].status == Planned
    ensures r == Done ==> db.teams == old(db.teams) - {teamId} && db.matches == Without(old(db.matches), teamId)
  {
    if teamId !in db.teams {
      return Refused(NoTeam);
    }
    var tid := db.teams[teamId].tournamentId;
    if tid !in db.tournaments {
      return Refused(Crashed);
    }
    if db.tournaments[tid].status != Planned {
      return Refused(NotPlanned);
    }
    db.matches := Without(db.matches, teamId);
    db.teams := db.teams - {teamId};
    r := Done;
  }

  /** The refusal `update_team` answers with, in the source's order; `None` when the rename happens. */
  function UpdateRefusal(tournaments: map<int, Tournament>, teams: map<int, Team>, teamId: int, name: string): (r: Option<Reason>)
    ensures r.None? <==> teamId in teams && teams[teamId].tournamentId in tournaments
                         && tournaments[teams[teamId].tournamentId].status == Planned
                         && name != "" && !NameUsed(teams, teams[teamId].tournamentId, name, Some(teamId))
  {
    if teamId !in teams then Some(NoTeam)
    else if teams[teamId].tournamentId !in tournaments then Some(Crashed)
    else if tournaments[teams[teamId].tournamentId].status != Planned then Some(NotPlanned)
    else if name == "" then Some(EmptyName)
    else if NameUsed(teams, teams[teamId].tournamentId, name, Some(teamId)) then Some(NameTaken)
    else None
  }

  /**
   * `update_team`: after the same guards as `add_team` (the name check
   * ignoring the team itself) only the team's name changes.
   */
  method UpdateTeam(db: Db, teamId: int, name: string) returns (r: Outcome)
    modifies db
    ensures db.OnlyTeamsAndMatches() && db.matches == old(db.matches)
    ensures UpdateRefusal(old(db.tournaments), old(db.teams), teamId, name).Some? ==>
      r == Refused(UpdateRefusal(old(db.tournaments), old(db.teams), teamId, name).value) && db.teams == old(db.teams)
    ensures UpdateRefusal(old(db.tournaments), old(db.teams), teamId, name).None? ==>
      r == Done && db.teams == old(db.teams)[teamId := old(db.teams)[teamId].(name := name)]
    ensures UniqueNames(old(db.teams)) ==> UniqueNames(db.teams)
  {
    if teamId !in db.teams {
      return Refused(NoTeam);
    }
    var team := db.teams[teamId];
    if team.tournamentId !in db.tournaments {
      return Refused(Crashed);
    }
    if db.tournaments[team.tournamentId].status != Planned {
      return Refused(NotPlanned);
    }
    if name == "" {
      return Refused(EmptyName);
    }
    if exists other :: other in db.teams && db.teams[other].tournamentId == team.tournamentId
                       && db.teams[other].name == name && other != teamId {
      return Refused(NameTaken);
    }
    db.teams := db.teams[teamId := team.(name := name)];
    r := Done;
  }

  /**
   * Keeping its own current name is never refused as taken: with unique
   * names the rename of a team of a planned tournament to its own
   * (non-empty) name goes through.
   */
  lemma OwnNameAccepted(tournaments: map<int, Tournament>, teams: map<int, Team>, teamId: int)
    requires UniqueNames(teams) && teamId in teams && teams[teamId].name != ""
    requires teams[teamId].tournamentId in tournaments && tournaments[teams[teamId].tournamentId].status == Planned
    ensures UpdateRefusal(tournaments, teams, teamId, teams[teamId].name).None?
  {
  }

  /** A name held by another team of the same tournament is refused as taken. */
  lemma OthersNameRefused(tournaments: map<int, Tournament>, teams: map<int, Team>, teamId: int, other: int)
    requires teamId in teams && other in teams && other != teamId
    requires teams[other].tournamentId == teams[teamId].tournamentId && teams[other].name != ""
    requires teams[teamId].tournamentId in tournaments && tournaments[teams[teamId].tournamentId].status == Planned
    ensures UpdateRefusal(tournaments, teams, teamId, teams[other].name) == Some(NameTaken)
  {
  }
}
