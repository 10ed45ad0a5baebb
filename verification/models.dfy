/**
 * The two ORM records of `models.py` whose methods update their own fields:
 * the cached table row `TournamentStanding` and the background `Task` row.
 */
module Models {
  import opened Wrappers
  import opened Domain
  import opened Standings

  class TournamentStanding {
    const teamId: int
    var points: int
    var matchesPlayed: int
    var wins: int
    var draws: int
    var losses: int
    var goalsFor: int
    var goalsAgainst: int
    var goalDifference: int

    /** The row as a value of the shared table type. */
    function AsRow(): Row
      reads this
    {
      Row(teamId, matchesPlayed, wins, draws, losses, goalsFor, goalsAgainst, points)
    }

    ghost predicate Valid()
      reads this
    {
      AsRow().Consistent() && goalDifference == goalsFor - goalsAgainst
    }

    /** A new standing: every counter at its column default 0. */
    constructor (teamId: int)
      ensures Valid() && this.teamId == teamId
      ensures AsRow() == EmptyRow(teamId) && goalDifference == 0
    {
      this.teamId := teamId;
      points, matchesPlayed, wins, draws, losses := 0, 0, 0, 0, 0;
      goalsFor, goalsAgainst, goalDifference := 0, 0, 0;
    }

    /**
     * `update_from_match`: an unfinished match changes nothing. Otherwise the
     * team is scored as team 1 iff its id is `team1_id`, else as team 2, and
     * the counters move as in the shared table. The scores are added and
     * compared without a `None` check: the first `None` raises `TypeError`
     * (`raised`), leaving the counters already incremented in place.
     */
    method UpdateFromMatch(m: Match) returns (raised: bool)
      modifies this
      ensures m.status != Finished ==> !raised && AsRow() == old(AsRow()) && goalDifference == old(goalDifference)
      ensures raised <==> m.status == Finished && (Own(m, teamId).None? || Opp(m, teamId).None?)
      ensures m.status == Finished && !raised ==>
        Some(AsRow()) == Score(old(AsRow()), Own(m, teamId), Opp(m, teamId))
        && goalDifference == goalsFor - goalsAgainst
      ensures m.status == Finished && Own(m, teamId).None? ==>
        AsRow() == old(AsRow()).(played := old(matchesPlayed) + 1) && goalDifference == old(goalDifference)
      ensures m.status == Finished && Own(m, teamId).Some? && Opp(m, teamId).None? ==>
        AsRow() == old(AsRow()).(played := old(matchesPlayed) + 1, goalsFor := old(goalsFor) + Own(m, teamId).value)
        && goalDifference == old(goalDifference)
      ensures old(Valid()) && !raised ==> Valid()
    {
      if m.status != Finished {
        return false;
      }
      var isTeam1 := teamId == m.team1;
      var own := if isTeam1 then m.score1 else m.score2;
      var opp := if isTeam1 then m.score2 else m.score1;
      if own.None? {
        matchesPlayed := matchesPlayed + 1;
        return true;
      }
      if opp.None? {
        matchesPlayed := matchesPlayed + 1;
        goalsFor := goalsFor + own.value;
        return true;
      }
      AddScores(own.value, opp.value);
      raised := false;
    }

    /** The counters moved by one match with both scores known. */
    method AddScores(own: int, opp: int)
      modifies this
      ensures Some(AsRow()) == Score(old(AsRow()), Some(own), Some(opp))
      ensures goalDifference == goalsFor - goalsAgainst
      ensures old(Valid()) ==> Valid()
    {
      matchesPlayed := matchesPlayed + 1;
      goalsFor := goalsFor + own;
      goalsAgainst := goalsAgainst + opp;
      goalDifference := goalsFor - goalsAgainst;
      if own > opp {
        wins := wins + 1;
        points := points + 3;
      } else if own == opp {
        draws := draws + 1;
        points := points + 1;
      } else {
        losses := losses + 1;
      }
    }
  }

  /** The `status` strings a `Task` row takes through its own methods. */
  datatype RecordStatus = RecordPending | RecordCompleted | RecordFailed

  class TaskRecord {
    var kind: string
    var data: map<string, string>
    var status: RecordStatus
    var completedAt: Option<int>
    var errorMessage: Option<string>

    /** `Task(type, data=None)`: pending, with `data` defaulting to an empty map. */
    constructor (kind: string, data: Option<map<string, string>>)
      ensures this.kind == kind && status == RecordPending
      ensures this.data == (if data.Some? then data.value else map[])
      ensures completedAt == None && errorMessage == None
    {
      this.kind := kind;
      this.data := if data.Some? then data.value else map[];
      status := RecordPending;
      completedAt := None;
      errorMessage := None;
    }

    /** `complete()`: completed at `now`; the error message is kept. */
    method Complete(now: int)
      modifies this
      ensures status == RecordCompleted && completedAt == Some(now)
      ensures kind == old(kind) && data == old(data) && errorMessage == old(errorMessage)
    {
      status := RecordCompleted;
      completedAt := Some(now);
    }

    /** `fail(error_message)`: failed at `now` with the message. */
    method Fail(message: string, now: int)
      modifies this
      ensures status == RecordFailed && completedAt == Some(now) && errorMessage == Some(message)
      ensures kind == old(kind) && data == old(data)
    {
      status := RecordFailed;
      completedAt := Some(now);
      errorMessage := Some(message);
    }
  }
}
