/**
 * The league table shared by the statistics service and the result pages:
 * each finished match gives 3 points for a win, 1 for a draw and 0 for a
 * loss, goals count with a missing score as 0, and the rows sort by points,
 * then goal difference, then goals for, all descending.
 *
 * The result is compared on the raw, nullable scores, so a finished match
 * with a missing score raises `TypeError` in Python; here that is `None`.
 */
module Standings {
  import opened Wrappers
  import opened Domain

  datatype Verdict = Win | Draw | Loss

  /** How a match ended for the side scoring `own` against `opp`. */
  function Judge(own: Option<int>, opp: Option<int>): (r: Option<Verdict>)
    ensures r.None? <==> own.None? || opp.None?
    ensures r == Some(Win) <==> own.Some? && opp.Some? && own.value > opp.value
    ensures r == Some(Draw) <==> own.Some? && opp.Some? && own.value == opp.value
    ensures r == Some(Loss) <==> own.Some? && opp.Some? && own.value < opp.value
  {
    if own.None? || opp.None? then None
    else if own.value > opp.value then Some(Win)
    else if own.value == opp.value then Some(Draw)
    else Some(Loss)
  }

  /** Judging from the other side swaps wins and losses. */
  lemma JudgeSwap(a: Option<int>, b: Option<int>)
    ensures Judge(a, b) == Some(Win) <==> Judge(b, a) == Some(Loss)
    ensures Judge(a, b) == Some(Draw) <==> Judge(b, a) == Some(Draw)
  {
  }

  datatype Row = Row(
    teamId: int,
    played: int,
    wins: int,
    draws: int,
    losses: int,
    goalsFor: int,
    goalsAgainst: int,
    points: int
  )
  {
    function GoalDifference(): int { goalsFor - goalsAgainst }

    /** The invariants of a table row. */
    predicate Consistent() {
      played == wins + draws + losses && points == 3 * wins + draws
      && 0 <= wins && 0 <= draws && 0 <= losses
    }
  }

  function EmptyRow(teamId: int): (r: Row)
    ensures r.Consistent() && r.teamId == teamId && r.played == 0
    ensures r.goalsFor == 0 && r.goalsAgainst == 0
  {
    Row(teamId, 0, 0, 0, 0, 0, 0, 0)
  }

  /** The row after one more counted match with scores `own` and `opp`. */
  function Score(row: Row, own: Option<int>, opp: Option<int>): (r: Option<Row>)
  {
    match Judge(own, opp)
    case None => None
    case Some(v) =>
      var base := row.(played := row.played + 1,
                       goalsFor := row.goalsFor + OrZero(own),
                       goalsAgainst := row.goalsAgainst + OrZero(opp));
      Some(match v
           case Win => base.(wins := row.wins + 1, points := row.points + 3)
           case Draw => base.(draws := row.draws + 1, points := row.points + 1)
           case Loss => base.(losses := row.losses + 1))
  }

  /**
   * One match seen by the row's team: ignored unless finished; scored as
   * team 1 when the team is team 1, else as team 2 when it is team 2.
   */
  function AddMatch(row: Row, m: Match): Option<Row>
  {
    if m.status != Finished then Some(row)
    else if m.team1 == row.teamId then Score(row, m.score1, m.score2)
    else if m.team2 == row.teamId then Score(row, m.score2, m.score1)
    else Some(row)
  }

  /** The own and the opponent's score of a match seen by team `teamId`. */
  function Own(m: Match, teamId: int): Option<int> {
    if m.team1 == teamId then m.score1 else m.score2
  }

  function Opp(m: Match, teamId: int): Option<int> {
    if m.team1 == teamId then m.score2 else m.score1
  }

  /** A match that the team's row counts. */
  predicate Counted(m: Match, teamId: int) {
    m.status == Finished && Involves(m, teamId)
  }

  /** Folds the matches, in order, into the row; `None` once a comparison raises. */
  function Fold(row: Row, ms: seq<Match>): Option<Row>
    decreases |ms|
  {
    if ms == [] then Some(row)
    else match AddMatch(row, ms[0])
      case None => None
      case Some(next) => Fold(next, ms[1..])
  }

  /** The table row of team `teamId` over the matches `ms`. */
  function TeamRow(teamId: int, ms: seq<Match>): Option<Row> {
    Fold(EmptyRow(teamId), ms)
  }

  /** The number of matches the row of `teamId` counts, and its goal sums. */
  function CountedCount(ms: seq<Match>, teamId: int): nat {
    if ms == [] then 0 else (if Counted(ms[0], teamId) then 1 else 0) + CountedCount(ms[1..], teamId)
  }

  function GoalsFor(ms: seq<Match>, teamId: int): int {
    if ms == [] then 0
    else (if Counted(ms[0], teamId) then OrZero(Own(ms[0], teamId)) else 0) + GoalsFor(ms[1..], teamId)
  }

  function GoalsAgainst(ms: seq<Match>, teamId: int): int {
    if ms == [] then 0
    else (if Counted(ms[0], teamId) then OrZero(Opp(ms[0], teamId)) else 0) + GoalsAgainst(ms[1..], teamId)
  }

  /** A counted match whose result cannot be compared. */
  predicate Incomparable(ms: seq<Match>, teamId: int) {
    exists i :: 0 <= i < |ms| && Counted(ms[i], teamId) && (ms[i].score1.None? || ms[i].score2.None?)
  }

  lemma {:induction false} AddMatchSpec(row: Row, m: Match)
    requires row.Consistent()
    ensures AddMatch(row, m).None? <==> Counted(m, row.teamId) && (m.score1.None? || m.score2.None?)
    ensures AddMatch(row, m).Some? ==> AddMatch(row, m).value.Consistent()
    ensures AddMatch(row, m).Some? ==> AddMatch(row, m).value.teamId == row.teamId
    ensures !Counted(m, row.teamId) ==> AddMatch(row, m) == Some(row)
    ensures AddMatch(row, m).Some? && Counted(m, row.teamId) ==>
      var r := AddMatch(row, m).value;
      r.played == row.played + 1
      && r.goalsFor == row.goalsFor + OrZero(Own(m, row.teamId))
      && r.goalsAgainst == row.goalsAgainst + OrZero(Opp(m, row.teamId))
  {
  }

  /**
   * The fold counts exactly the finished matches involving the team, sums
   * their goals with a missing score as 0, keeps the row consistent, and
   * fails exactly when one of those matches lacks a score.
   */
  lemma {:induction false} FoldSpec(row: Row, ms: seq<Match>)
    requires row.Consistent()
    ensures Fold(row, ms).None? <==> Incomparable(ms, row.teamId)
    ensures Fold(row, ms).Some? ==>
      var r := Fold(row, ms).value;
      r.Consistent() && r.teamId == row.teamId
      && r.played == row.played + CountedCount(ms, row.teamId)
      && r.goalsFor == row.goalsFor + GoalsFor(ms, row.teamId)
      && r.goalsAgainst == row.goalsAgainst + GoalsAgainst(ms, row.teamId)
    decreases |ms|
  {
    if ms != [] {
      AddMatchSpec(row, ms[0]);
      var tail := ms[1..];
      assert Incomparable(ms, row.teamId) <==>
        (Counted(ms[0], row.teamId) && (ms[0].score1.None? || ms[0].score2.None?)) || Incomparable(tail, row.teamId)
      by {
        if Incomparable(tail, row.teamId) {
          var i :| 0 <= i < |tail| && Counted(tail[i], row.teamId) && (tail[i].score1.None? || tail[i].score2.None?);
          assert ms[i + 1] == tail[i];
        }
        if Incomparable(ms, row.teamId) {
          var i :| 0 <= i < |ms| && Counted(ms[i], row.teamId) && (ms[i].score1.None? || ms[i].score2.None?);
          if i > 0 { assert tail[i - 1] == ms[i]; }
        }
      }
      if AddMatch(row, ms[0]).Some? {
        FoldSpec(AddMatch(row, ms[0]).value, tail);
      }
    }
  }

  /**
   * A team's row: matches played is the number of finished matches it took
   * part in, `played = wins + draws + losses`, `points = 3 * wins + draws`,
   * and the goal totals sum its own and its opponents' scores.
   */
  lemma TeamRowSpec(teamId: int, ms: seq<Match>)
    ensures TeamRow(teamId, ms).None? <==> Incomparable(ms, teamId)
    ensures TeamRow(teamId, ms).Some? ==>
      var r := TeamRow(teamId, ms).value;
      r.Consistent() && r.teamId == teamId
      && r.played == CountedCount(ms, teamId)
      && r.goalsFor == GoalsFor(ms, teamId) && r.goalsAgainst == GoalsAgainst(ms, teamId)
      && r.GoalDifference() == GoalsFor(ms, teamId) - GoalsAgainst(ms, teamId)
  {
    FoldSpec(EmptyRow(teamId), ms);
  }

  /** Matches that are not finished do not change any row. */
  lemma {:induction false} UnfinishedIgnored(row: Row, ms: seq<Match>, m: Match)
    requires m.status != Finished
    ensures Fold(row, ms + [m]) == Fold(row, ms)
    decreases |ms|
  {
    if ms == [] {
      assert [m][1..] == [];
    } else {
      assert (ms + [m])[1..] == ms[1..] + [m];
      match AddMatch(row, ms[0]) {
        case None =>
        case Some(next) => UnfinishedIgnored(next, ms[1..], m);
      }
    }
  }

  /**
   * The nested loops of the result pages: one row per team, in team order,
   * each folded over all matches; `None` if a comparison raised.
   */
  method Table(teamIds: seq<int>, ms: seq<Match>) returns (r: Option<seq<Row>>)
    ensures r.None? <==> exists k :: 0 <= k < |teamIds| && TeamRow(teamIds[k], ms).None?
    ensures r.Some? ==> |r.value| == |teamIds|
    ensures r.Some? ==> forall k :: 0 <= k < |teamIds| ==> TeamRow(teamIds[k], ms) == Some(r.value[k])
  {
    var rows: seq<Row> := [];
    var t := 0;
    while t < |teamIds|
      invariant 0 <= t <= |teamIds| && |rows| == t
      invariant forall k :: 0 <= k < t ==> TeamRow(teamIds[k], ms) == Some(rows[k])
    {
      var row := EmptyRow(teamIds[t]);
      var i := 0;
      while i < |ms|
        invariant 0 <= i <= |ms|
        invariant Fold(EmptyRow(teamIds[t]), ms) == Fold(row, ms[i..])
      {
        assert ms[i..][1..] == ms[i + 1..];
        var next := AddMatch(row, ms[i]);
        if next.None? {
          return None;
        }
        row := next.value;
        i := i + 1;
      }
      rows := rows + [row];
      t := t + 1;
    }
    r := Some(rows);
  }

  /** `a` may precede `b`: the sort key `(-points, -goal difference, -goals for)` of `a` is not larger. */
  predicate Ahead(a: Row, b: Row) {
    a.points > b.points
    || (a.points == b.points && (a.GoalDifference() > b.GoalDifference()
       || (a.GoalDifference() == b.GoalDifference() && a.goalsFor >= b.goalsFor)))
  }

  predicate SortedRows(s: seq<Row>) {
    forall i, j :: 0 <= i < j < |s| ==> Ahead(s[i], s[j])
  }

  function Insert(x: Row, s: seq<Row>): seq<Row>
    decreases |s|
  {
    if s == [] then [x]
    else if Ahead(x, s[0]) then [x] + s
    else [s[0]] + Insert(x, s[1..])
  }

  /** The sorted table (the stable library sort by the key above). */
  function Sort(s: seq<Row>): seq<Row>
    decreases |s|
  {
    if s == [] then [] else Insert(s[0], Sort(s[1..]))
  }

  lemma {:induction false} InsertSpec(x: Row, s: seq<Row>)
    requires SortedRows(s)
    ensures SortedRows(Insert(x, s))
    ensures multiset(Insert(x, s)) == multiset(s) + multiset{x}
    decreases |s|
  {
    if s != [] && !Ahead(x, s[0]) {
      InsertSpec(x, s[1..]);
      var rest := Insert(x, s[1..]);
      assert s == [s[0]] + s[1..];
      HeadAheadOfAll(s, x, rest);
      PrependSorted(s[0], rest);
    }
  }

  /** The head of a sorted table that `x` does not precede is ahead of every row of a mix of its tail and `x`. */
  lemma HeadAheadOfAll(s: seq<Row>, x: Row, rest: seq<Row>)
    requires s != [] && SortedRows(s) && !Ahead(x, s[0])
    requires multiset(rest) == multiset(s[1..]) + multiset{x}
    ensures forall k :: 0 <= k < |rest| ==> Ahead(s[0], rest[k])
  {
    forall k | 0 <= k < |rest| ensures Ahead(s[0], rest[k]) {
      assert rest[k] in multiset(rest);
      if rest[k] != x {
        assert rest[k] in multiset(s[1..]);
        var j :| 0 <= j < |s[1..]| && s[1..][j] == rest[k];
        assert s[j + 1] == rest[k];
      }
    }
  }

  lemma PrependSorted(a: Row, rest: seq<Row>)
    requires SortedRows(rest) && forall k :: 0 <= k < |rest| ==> Ahead(a, rest[k])
    ensures SortedRows([a] + rest)
  {
    var t := [a] + rest;
    forall i, j | 0 <= i < j < |t| ensures Ahead(t[i], t[j]) {
      if i == 0 {
        assert t[j] == rest[j - 1];
      } else {
        assert t[i] == rest[i - 1] && t[j] == rest[j - 1];
      }
    }
  }

  /** The table is ordered by the key and holds exactly the input rows. */
  lemma {:induction false} SortSpec(s: seq<Row>)
    ensures SortedRows(Sort(s))
    ensures multiset(Sort(s)) == multiset(s)
    ensures |Sort(s)| == |s|
    decreases |s|
  {
    if s != [] {
      SortSpec(s[1..]);
      InsertSpec(s[0], Sort(s[1..]));
      assert multiset(s) == multiset(s[1..]) + multiset{s[0]} by {
        assert s == [s[0]] + s[1..];
      }
    }
    assert |multiset(Sort(s))| == |Sort(s)|;
  }

  /**
   * The result pages: one row per team of the tournament, sorted by the
   * key; each row counts exactly the team's finished matches, keeps
   * `played = wins + draws + losses` and `points = 3 * wins + draws`, and
   * sums the goals with a missing score as 0. `None` when a finished match
   * of some team lacks a score (the comparison raises).
   */
  method ResultsTable(teamIds: seq<int>, ms: seq<Match>) returns (r: Option<seq<Row>>)
    ensures r.None? <==> exists k :: 0 <= k < |teamIds| && Incomparable(ms, teamIds[k])
    ensures r.Some? ==> |r.value| == |teamIds| && SortedRows(r.value)
    ensures r.Some? ==> forall k :: 0 <= k < |teamIds| ==>
      TeamRow(teamIds[k], ms).Some? && TeamRow(teamIds[k], ms).value in r.value
    ensures r.Some? ==> forall row :: row in r.value ==>
      row.teamId in teamIds && TeamRow(row.teamId, ms) == Some(row) && row.Consistent()
      && row.played == CountedCount(ms, row.teamId)
      && row.goalsFor == GoalsFor(ms, row.teamId) && row.goalsAgainst == GoalsAgainst(ms, row.teamId)
  {
    forall k | 0 <= k < |teamIds| ensures TeamRow(teamIds[k], ms).None? <==> Incomparable(ms, teamIds[k]) {
      TeamRowSpec(teamIds[k], ms);
    }
    var rows := Table(teamIds, ms);
    if rows.None? {
      return None;
    }
    var sorted := Sort(rows.value);
    SortSpec(rows.value);
    forall row | row in sorted
      ensures row.teamId in teamIds && TeamRow(row.teamId, ms) == Some(row) && row.Consistent()
      ensures row.played == CountedCount(ms, row.teamId)
      ensures row.goalsFor == GoalsFor(ms, row.teamId) && row.goalsAgainst == GoalsAgainst(ms, row.teamId)
    {
      assert row in multiset(rows.value);
      var k :| 0 <= k < |rows.value| && rows.value[k] == row;
      TeamRowSpec(teamIds[k], ms);
    }
    forall k | 0 <= k < |teamIds| ensures TeamRow(teamIds[k], ms).value in sorted {
      assert rows.value[k] in multiset(sorted);
    }
    r := Some(sorted);
  }
}
