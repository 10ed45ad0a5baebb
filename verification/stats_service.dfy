/**
 * Read-only statistics (`services/stats_service.py`): a tournament summary
 * with its sorted table, a team's match history, and one match's summary.
 * Query results are parameters: the tournament (or `None`), its team ids
 * and its matches, or the match table in start-time order.
 */
module StatsService {
  import opened Wrappers
  import opened Domain
  import opened Standings

  datatype TournamentStats = TournamentStats(
    name: string,
    status: Status,
    totalTeams: nat,
    totalMatches: nat,
    matchesPlayed: nat,
    matchesRemaining: nat,
    totalGoals: int,
    teams: seq<Row>
  )

  function CountFinished(ms: seq<Match>): nat {
    if ms == [] then 0 else (if ms[0].status == Finished then 1 else 0) + CountFinished(ms[1..])
  }

  function CountUnfinished(ms: seq<Match>): nat {
    if ms == [] then 0 else (if ms[0].status != Finished then 1 else 0) + CountUnfinished(ms[1..])
  }

  /** Goals of the finished matches, a missing score counted as 0. */
  function FinishedGoals(ms: seq<Match>): int {
    if ms == [] then 0
    else (if ms[0].status == Finished then OrZero(ms[0].score1) + OrZero(ms[0].score2) else 0)
         + FinishedGoals(ms[1..])
  }

  /** Every match is either played or remaining. */
  lemma {:induction false} PlayedPlusRemaining(ms: seq<Match>)
    ensures CountFinished(ms) + CountUnfinished(ms) == |ms|
    decreases |ms|
  {
    if ms != [] {
      PlayedPlusRemaining(ms[1..]);
    }
  }

  /**
   * `get_tournament_stats`: `None` for an unknown tournament, and also when
   * a finished match of one of its teams lacks a score (the comparison
   * raises and the handler returns `None`). Otherwise played plus remaining
   * is the number of matches, the goal total counts finished matches only,
   * and the team rows are the tournament's rows in table order.
   */
  method GetTournamentStats(t: Option<Tournament>, teamIds: seq<int>, ms: seq<Match>)
    returns (r: Option<TournamentStats>)
    ensures t.None? ==> r.None?
    ensures t.Some? ==> (r.None? <==> exists k :: 0 <= k < |teamIds| && Incomparable(ms, teamIds[k]))
    ensures r.Some? ==> r.value.totalMatches == |ms| && r.value.totalTeams == |teamIds|
    ensures r.Some? ==> r.value.matchesPlayed + r.value.matchesRemaining == r.value.totalMatches
    ensures r.Some? ==> r.value.matchesPlayed == CountFinished(ms)
    ensures r.Some? ==> r.value.totalGoals == FinishedGoals(ms)
    ensures r.Some? ==> SortedRows(r.value.teams) && |r.value.teams| == |teamIds|
    ensures r.Some? ==> forall k :: 0 <= k < |teamIds| ==>
      TeamRow(teamIds[k], ms).Some? && TeamRow(teamIds[k], ms).value in r.value.teams
    ensures r.Some? ==> forall row :: row in r.value.teams ==>
      row.Consistent() && exists k :: 0 <= k < |teamIds| && TeamRow(teamIds[k], ms) == Some(row)
  {
    if t.None? {
      return None;
    }
    PlayedPlusRemaining(ms);
    var table := Table(teamIds, ms);
    forall k | 0 <= k < |teamIds| ensures TeamRow(teamIds[k], ms).None? <==> Incomparable(ms, teamIds[k]) {
      TeamRowSpec(teamIds[k], ms);
    }
    if table.None? {
      return None;
    }
    var rows := table.value;
    var sorted := Sort(rows);
    SortSpec(rows);
    forall row | row in sorted
      ensures row.Consistent() && exists k :: 0 <= k < |teamIds| && TeamRow(teamIds[k], ms) == Some(row)
    {
      assert row in multiset(rows);
      var k :| 0 <= k < |rows| && rows[k] == row;
      TeamRowSpec(teamIds[k], ms);
    }
    forall k | 0 <= k < |teamIds| ensures TeamRow(teamIds[k], ms).value in sorted {
      assert rows[k] in multiset(sorted);
    }
    r := Some(TournamentStats(t.value.name, t.value.status, |teamIds|, |ms|, CountFinished(ms),
                              CountUnfinished(ms), FinishedGoals(ms), sorted));
  }

  datatype HistoryEntry = HistoryEntry(
    date: Option<int>,
    opponent: int,
    goalsScored: Option<int>,
    goalsConceded: Option<int>,
    result: char
  )

  datatype TeamHistory = TeamHistory(
    teamName: string,
    matches: seq<HistoryEntry>,
    totalMatches: nat,
    totalGoalsScored: int,
    totalGoalsConceded: int,
    formLast5: seq<char>
  )

  /** The finished matches of team `teamId`, in the order given. */
  function Played(all: seq<Match>, teamId: int): (r: seq<Match>)
    ensures forall i :: 0 <= i < |r| ==> r[i].status == Finished && Involves(r[i], teamId)
    ensures |r| <= |all|
  {
    if all == [] then []
    else (if all[0].status == Finished && Involves(all[0], teamId) then [all[0]] else [])
         + Played(all[1..], teamId)
  }

  /** `W`, `L` or `D` from the team's side; `None` when a score is missing. */
  function Letter(m: Match, teamId: int): (r: Option<char>)
    ensures r.None? <==> m.score1.None? || m.score2.None?
    ensures r == Some('W') <==> Judge(Own(m, teamId), Opp(m, teamId)) == Some(Win)
    ensures r == Some('L') <==> Judge(Own(m, teamId), Opp(m, teamId)) == Some(Loss)
    ensures r == Some('D') <==> Judge(Own(m, teamId), Opp(m, teamId)) == Some(Draw)
  {
    match Judge(Own(m, teamId), Opp(m, teamId))
    case None => None
    case Some(Win) => Some('W')
    case Some(Loss) => Some('L')
    case Some(Draw) => Some('D')
  }

  function Entry(m: Match, teamId: int, letter: char): HistoryEntry {
    HistoryEntry(m.startTime, if m.team1 == teamId then m.team2 else m.team1,
                 Own(m, teamId), Opp(m, teamId), letter)
  }

  function ScoredSum(es: seq<HistoryEntry>): int {
    if es == [] then 0 else ScoredSum(es[..|es| - 1]) + OrZero(es[|es| - 1].goalsScored)
  }

  function ConcededSum(es: seq<HistoryEntry>): int {
    if es == [] then 0 else ConcededSum(es[..|es| - 1]) + OrZero(es[|es| - 1].goalsConceded)
  }

  function Results(es: seq<HistoryEntry>): (r: seq<char>)
    ensures |r| == |es| && forall i :: 0 <= i < |es| ==> r[i] == es[i].result
  {
    if es == [] then [] else Results(es[..|es| - 1]) + [es[|es| - 1].result]
  }

  function Min(a: int, b: int): int { if a <= b then a else b }

  /**
   * `get_team_history`: `None` for an unknown team or when a finished match
   * lacks a score. Otherwise one entry per finished match of the team in
   * start-time order, each with W/L/D from the team's side; the totals sum
   * the scores with a missing one as 0, and `form_last_5` holds the results
   * of the FIRST five matches, in order.
   */
  method GetTeamHistory(team: Option<Team>, teamId: int, all: seq<Match>) returns (r: Option<TeamHistory>)
    ensures team.None? ==> r.None?
    ensures team.Some? ==> (r.None? <==> exists i :: 0 <= i < |Played(all, teamId)| &&
                                             Letter(Played(all, teamId)[i], teamId).None?)
    ensures r.Some? ==> var ms := Played(all, teamId);
      |r.value.matches| == |ms| == r.value.totalMatches
      && (forall i :: 0 <= i < |ms| ==>
            Letter(ms[i], teamId) == Some(r.value.matches[i].result)
            && r.value.matches[i] == Entry(ms[i], teamId, r.value.matches[i].result))
      && r.value.totalGoalsScored == ScoredSum(r.value.matches)
      && r.value.totalGoalsConceded == ConcededSum(r.value.matches)
      && r.value.formLast5 == Results(r.value.matches)[..Min(5, |ms|)]
  {
    if team.None? {
      return None;
    }
    var ms := Played(all, teamId);
    r := Tally(team.value.name, ms, teamId);
    if r.None? {
      var i :| 0 <= i < |ms| && Letter(ms[i], teamId).None?;
      assert Letter(Played(all, teamId)[i], teamId).None?;
    }
  }

  /** The loop of `get_team_history` over the team's finished matches `ms`. */
  method Tally(name: string, ms: seq<Match>, teamId: int) returns (r: Option<TeamHistory>)
    ensures r.None? <==> exists i :: 0 <= i < |ms| && Letter(ms[i], teamId).None?
    ensures r.Some? ==>
      |r.value.matches| == |ms| == r.value.totalMatches
      && (forall i :: 0 <= i < |ms| ==>
            Letter(ms[i], teamId) == Some(r.value.matches[i].result)
            && r.value.matches[i] == Entry(ms[i], teamId, r.value.matches[i].result))
      && r.value.totalGoalsScored == ScoredSum(r.value.matches)
      && r.value.totalGoalsConceded == ConcededSum(r.value.matches)
      && r.value.formLast5 == Results(r.value.matches)[..Min(5, |ms|)]
  {
    var entries: seq<HistoryEntry> := [];
    var scored, conceded := 0, 0;
    var form: seq<char> := [];
    var i := 0;
    while i < |ms|
      invariant 0 <= i <= |ms| && |entries| == i
      invariant forall j :: 0 <= j < i ==>
        Letter(ms[j], teamId) == Some(entries[j].result) && entries[j] == Entry(ms[j], teamId, entries[j].result)
      invariant scored == ScoredSum(entries) && conceded == ConcededSum(entries)
      invariant |form| == Min(5, i) && forall j :: 0 <= j < |form| ==> form[j] == entries[j].result
    {
      var letter := Letter(ms[i], teamId);
      if letter.None? {
        return None;
      }
      var e := Entry(ms[i], teamId, letter.value);
      SumsStep(entries, e);
      entries := entries + [e];
      scored := scored + OrZero(e.goalsScored);
      conceded := conceded + OrZero(e.goalsConceded);
      if |form| < 5 {
        form := form + [e.result];
      }
      i := i + 1;
    }
    assert form == Results(entries)[..Min(5, |ms|)];
    r := Some(TeamHistory(name, entries, |ms|, scored, conceded, form));
  }

  /** One more entry adds its goals to the totals. */
  lemma SumsStep(entries: seq<HistoryEntry>, e: HistoryEntry)
    ensures ScoredSum(entries + [e]) == ScoredSum(entries) + OrZero(e.goalsScored)
    ensures ConcededSum(entries + [e]) == ConcededSum(entries) + OrZero(e.goalsConceded)
  {
    assert (entries + [e])[..|entries|] == entries;
  }

  datatype MatchStats = MatchStats(
    team1Score: int,
    team2Score: int,
    status: Status,
    startTime: Option<int>,
    duration: Option<int>,
    winner: Option<string>,
    totalGoals: int
  )

  /**
   * `get_match_stats`: `None` for an unknown match, or a finished one that
   * lacks a score. Scores are shown with a missing one as 0; the winner is
   * set only for a finished match: the higher scorer's name, or `Remis`.
   */
  function GetMatchStats(m: Option<Match>, name1: string, name2: string): (r: Option<MatchStats>)
    ensures m.None? ==> r.None?
    ensures m.Some? ==> (r.None? <==> m.value.status == Finished && (m.value.score1.None? || m.value.score2.None?))
    ensures r.Some? ==> r.value.team1Score == OrZero(m.value.score1) && r.value.team2Score == OrZero(m.value.score2)
    ensures r.Some? ==> r.value.totalGoals == r.value.team1Score + r.value.team2Score
    ensures r.Some? ==> (r.value.winner.Some? <==> m.value.status == Finished)
    ensures r.Some? && m.value.status == Finished ==>
      (r.value.winner == Some(name1) || r.value.winner == Some(name2) || r.value.winner == Some("Remis"))
    ensures r.Some? && m.value.status == Finished && m.value.score1.value > m.value.score2.value ==>
      r.value.winner == Some(name1)
    ensures r.Some? && m.value.status == Finished && m.value.score2.value > m.value.score1.value ==>
      r.value.winner == Some(name2)
    ensures r.Some? && m.value.status == Finished && m.value.score1 == m.value.score2 ==>
      r.value.winner == Some("Remis")
    ensures r.Some? ==> r.value.duration == if m.value.status == Finished then m.value.elapsed else None
  {
    if m.None? then None
    else
      var x := m.value;
      var s1, s2 := OrZero(x.score1), OrZero(x.score2);
      if x.status != Finished then
        Some(MatchStats(s1, s2, x.status, x.startTime, None, None, s1 + s2))
      else if x.score1.None? || x.score2.None? then None
      else
        var winner := if x.score1.value > x.score2.value then name1
                      else if x.score2.value > x.score1.value then name2
                      else "Remis";
        Some(MatchStats(s1, s2, x.status, x.startTime, x.elapsed, Some(winner), s1 + s2))
  }
}
