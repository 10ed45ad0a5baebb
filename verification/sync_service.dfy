/**
 * The standings rebuild and the per-team form summary of the statistics
 * synchronisation job (`services/sync_task_service.py`). Both are written
 * against the input dictionaries the two functions read: per-team counters
 * with missing keys defaulting to 0, and a team's match list.
 */
module SyncService {
  import opened Wrappers
  import opened Standings
  import StatsService

  /** One element of `team_stats`: the team and its history's `stats` counters. */
  datatype TeamStats = TeamStats(teamId: int, name: string, stats: map<string, int>)

  /** A written `TournamentStanding` row. */
  datatype StoredStanding = StoredStanding(tournamentId: int, row: Row, position: int)

  /** `stats.get(key, 0)`. */
  function Get(stats: map<string, int>, key: string): int {
    if key in stats then stats[key] else 0
  }

  /** The standing built from one team's counters; points are always `3 * wins + draws`. */
  function FromStats(t: TeamStats): (r: Row)
    ensures r.teamId == t.teamId
    ensures r.points == 3 * r.wins + r.draws
    ensures r.wins == Get(t.stats, "wins") && r.draws == Get(t.stats, "draws") && r.losses == Get(t.stats, "losses")
    ensures r.played == Get(t.stats, "matches_played")
    ensures r.goalsFor == Get(t.stats, "goals_scored") && r.goalsAgainst == Get(t.stats, "goals_conceded")
  {
    var s := t.stats;
    Row(t.teamId, Get(s, "matches_played"), Get(s, "wins"), Get(s, "draws"), Get(s, "losses"),
        Get(s, "goals_scored"), Get(s, "goals_conceded"), Get(s, "wins") * 3 + Get(s, "draws"))
  }

  function Rows(ts: seq<TeamStats>): (r: seq<Row>)
    ensures |r| == |ts| && forall i :: 0 <= i < |ts| ==> r[i] == FromStats(ts[i])
  {
    if ts == [] then [] else [FromStats(ts[0])] + Rows(ts[1..])
  }

  /**
   * The `enumerate(standings, 1)` loop: the sorted rows, in order, with
   * consecutive positions from 1.
   */
  method Positioned(tournamentId: int, sorted: seq<Row>) returns (out: seq<StoredStanding>)
    ensures |out| == |sorted|
    ensures forall i :: 0 <= i < |out| ==> out[i] == StoredStanding(tournamentId, sorted[i], i + 1)
  {
    out := [];
    var position := 1;
    while position <= |sorted|
      invariant 1 <= position <= |sorted| + 1 && |out| == position - 1
      invariant forall i :: 0 <= i < |out| ==> out[i] == StoredStanding(tournamentId, sorted[i], i + 1)
    {
      out := out + [StoredStanding(tournamentId, sorted[position - 1], position)];
      position := position + 1;
    }
  }

  function RowsOf(s: seq<StoredStanding>): (r: seq<Row>)
    ensures |r| == |s| && forall i :: 0 <= i < |s| ==> r[i] == s[i].row
  {
    if s == [] then [] else [s[0].row] + RowsOf(s[1..])
  }

  /** The rows of other tournaments. */
  function OtherTournaments(rows: seq<StoredStanding>, tournamentId: int): (r: seq<StoredStanding>)
    ensures forall x :: x in r <==> x in rows && x.tournamentId != tournamentId
  {
    if rows == [] then []
    else (if rows[0].tournamentId != tournamentId then [rows[0]] else []) + OtherTournaments(rows[1..], tournamentId)
  }

  /**
   * The new standings of a tournament: one per team with
   * `points = 3 * wins + draws`, ordered by (-points, -goal difference,
   * -goals for), with positions 1..n.
   */
  predicate Rebuilt(added: seq<StoredStanding>, tournamentId: int, teams: seq<TeamStats>) {
    |added| == |teams|
    && (forall i :: 0 <= i < |added| ==> added[i].tournamentId == tournamentId && added[i].position == i + 1)
    && (forall i :: 0 <= i < |added| ==> added[i].row.points == 3 * added[i].row.wins + added[i].row.draws)
    && SortedRows(RowsOf(added))
    && multiset(RowsOf(added)) == multiset(Rows(teams))
  }

  /** Builds, sorts and numbers the standings of `_update_tournament_standings`. */
  method BuildStandings(tournamentId: int, teams: seq<TeamStats>) returns (added: seq<StoredStanding>)
    ensures Rebuilt(added, tournamentId, teams)
  {
    var standings := Rows(teams);
    var sorted := Sort(standings);
    SortSpec(standings);
    PointsSurvive(standings, sorted);
    added := Positioned(tournamentId, sorted);
    assert RowsOf(added) == sorted;
  }

  /** Rows all of whose points are `3 * wins + draws` keep that under any reordering. */
  lemma PointsSurvive(rows: seq<Row>, reordered: seq<Row>)
    requires forall i :: 0 <= i < |rows| ==> rows[i].points == 3 * rows[i].wins + rows[i].draws
    requires multiset(reordered) == multiset(rows)
    ensures forall i :: 0 <= i < |reordered| ==> reordered[i].points == 3 * reordered[i].wins + reordered[i].draws
  {
    forall i | 0 <= i < |reordered| ensures reordered[i].points == 3 * reordered[i].wins + reordered[i].draws {
      assert reordered[i] in multiset(rows);
    }
  }

  /** The `TournamentStanding` table. */
  class StandingsTable {
    var rows: seq<StoredStanding>

    constructor ()
      ensures rows == []
    {
      rows := [];
    }

    /**
     * `_update_tournament_standings`: deletes the tournament's old standings
     * and writes the rebuilt ones, so they are replaced, not appended.
     */
    method Update(tournamentId: int, teams: seq<TeamStats>) returns (ok: bool)
      modifies this
      ensures ok
      ensures |OtherTournaments(old(rows), tournamentId)| <= |rows|
      ensures rows[..|OtherTournaments(old(rows), tournamentId)|] == OtherTournaments(old(rows), tournamentId)
      ensures Rebuilt(rows[|OtherTournaments(old(rows), tournamentId)|..], tournamentId, teams)
    {
      var added := BuildStandings(tournamentId, teams);
      var kept := OtherTournaments(rows, tournamentId);
      rows := kept + added;
      assert rows[..|kept|] == kept && rows[|kept|..] == added;
      ok := true;
    }
  }

  /** A key of a history entry: missing, present as `None`, or a number. */
  datatype Slot = Absent | Null | Num(n: int)

  /** One entry of a team history's `matches` list, as `_calculate_advanced_stats` reads it. */
  datatype HistoryMatch = HistoryMatch(result: string, teamScore: Slot, opponentScore: Slot)

  /** `win` gives `W`, `loss` gives `L`, anything else `D`. */
  function FormLetter(result: string): (c: char)
    ensures c == 'W' <==> result == "win"
    ensures c == 'L' <==> result == "loss"
    ensures c == 'D' || c == 'W' || c == 'L'
  {
    if result == "win" then 'W' else if result == "loss" then 'L' else 'D'
  }

  /** `m.get('opponent_score', 0) == 0`: a missing key counts as 0, a `None` does not. */
  predicate CleanSheet(m: HistoryMatch) {
    m.opponentScore == Absent || m.opponentScore == Num(0)
  }

  function CleanSheets(ms: seq<HistoryMatch>): (n: nat)
    ensures n <= |ms|
  {
    if ms == [] then 0 else (if CleanSheet(ms[0]) then 1 else 0) + CleanSheets(ms[1..])
  }

  /** Some present score is `None`, so one of the two `sum` calls raises. */
  predicate HasNull(ms: seq<HistoryMatch>) {
    exists i :: 0 <= i < |ms| && (ms[i].teamScore == Null || ms[i].opponentScore == Null)
  }

  datatype AdvancedStats = AdvancedStats(recentForm: string, cleanSheets: nat, matchesAnalyzed: nat)

  /**
   * `_calculate_advanced_stats` without the averages: `None` for no matches
   * and, through the handler, when a `sum` meets a `None` score; otherwise
   * the form letters of the LAST five matches in order, the number of clean
   * sheets, and the number of matches.
   */
  method CalculateAdvancedStats(ms: seq<HistoryMatch>) returns (r: Option<AdvancedStats>)
    ensures r.None? <==> ms == [] || HasNull(ms)
    ensures r.Some? ==> var k := if |ms| < 5 then |ms| else 5;
      |r.value.recentForm| == k
      && (forall i :: 0 <= i < k ==> r.value.recentForm[i] == FormLetter(ms[|ms| - k + i].result))
      && r.value.cleanSheets == CleanSheets(ms)
      && r.value.matchesAnalyzed == |ms|
  {
    if ms == [] {
      return None;
    }
    var recent := if |ms| < 5 then ms else ms[|ms| - 5..];
    var form: string := [];
    var i := 0;
    while i < |recent|
      invariant 0 <= i <= |recent| && |form| == i
      invariant forall j :: 0 <= j < i ==> form[j] == FormLetter(recent[j].result)
    {
      form := form + [FormLetter(recent[i].result)];
      i := i + 1;
    }
    if HasNull(ms) {
      return None;
    }
    r := Some(AdvancedStats(form, CleanSheets(ms), |ms|));
  }

  /**
   * An entry of `get_team_history` as `_calculate_advanced_stats` reads it:
   * the result is a letter and the scores sit under `goals_scored` and
   * `goals_conceded`, so `team_score` and `opponent_score` are missing.
   */
  function AsRead(e: StatsService.HistoryEntry): HistoryMatch {
    HistoryMatch([e.result], Absent, Absent)
  }

  function AllAsRead(es: seq<StatsService.HistoryEntry>): (hs: seq<HistoryMatch>)
    ensures |hs| == |es| && forall i :: 0 <= i < |es| ==> hs[i] == AsRead(es[i])
  {
    if es == [] then [] else [AsRead(es[0])] + AllAsRead(es[1..])
  }

  /**
   * Fed a team history, the advanced statistics see no score at all: every
   * form letter is `D`, every match is a clean sheet, and no `sum` raises.
   */
  lemma {:induction false} HistoryReadAsDraws(es: seq<StatsService.HistoryEntry>)
    ensures forall i :: 0 <= i < |es| ==> FormLetter(AllAsRead(es)[i].result) == 'D'
    ensures CleanSheets(AllAsRead(es)) == |es|
    ensures !HasNull(AllAsRead(es))
    decreases |es|
  {
    if es != [] {
      HistoryReadAsDraws(es[1..]);
      assert AllAsRead(es)[1..] == AllAsRead(es[1..]);
    }
  }

  /**
   * The entry the calculator expects: the letter spelled out as its result
   * and the two scores under its own keys (a history entry always has both,
   * since `get_team_history` fails on a missing score).
   */
  function AsIntended(e: StatsService.HistoryEntry): (m: HistoryMatch)
    ensures e.result in {'W', 'L', 'D'} ==> FormLetter(m.result) == e.result
    ensures e.goalsConceded.Some? ==> (CleanSheet(m) <==> e.goalsConceded == Some(0))
    ensures e.goalsScored.Some? && e.goalsConceded.Some? ==> m.teamScore != Null && m.opponentScore != Null
  {
    HistoryMatch(if e.result == 'W' then "win" else if e.result == 'L' then "loss" else "draw",
                 if e.goalsScored.Some? then Num(e.goalsScored.value) else Null,
                 if e.goalsConceded.Some? then Num(e.goalsConceded.value) else Null)
  }

  /** A lost match, 0:3: read as written it is a draw and a clean sheet; as intended a loss, no clean sheet. */
  lemma LostMatchReadAsCleanDraw()
    ensures var e := StatsService.HistoryEntry(None, 2, Some(0), Some(3), 'L');
      FormLetter(AsRead(e).result) == 'D' && CleanSheet(AsRead(e))
      && FormLetter(AsIntended(e).result) == 'L' && !CleanSheet(AsIntended(e))
  {
  }
}
