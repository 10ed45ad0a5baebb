/**
 * The administration routes of `views.py` that change matches and
 * tournaments, reduced to their guards and updates: the quick score
 * buttons, the timer toggle, starting, ending (with the re-timing of the
 * field's remaining matches), adding, editing and deleting matches, the
 * preview of a generated round robin, starting and ending a tournament,
 * and the upload-name check.
 *
 * A route either answers normally (`Ok`), refuses with a message
 * (`Refused`), or ends in its `except` handler after a rollback (`Failed`);
 * `get_or_404` on a missing row raises inside the `try`, so it is a
 * `Failed` answer as well. Times are integer seconds; lengths stored on a
 * tournament are minutes.
 */
module Views {
  import opened Wrappers
  import opened Domain
  import TournamentService

  /** The refusal messages of the routes. */
  datatype Refusal =
    | BadParams             // missing or malformed request fields
    | MissingField          // "Wszystkie pola są wymagane"
    | NotPlanned            // the match (or tournament) is not planned
    | NotOngoing            // the match (or tournament) is not ongoing
    | TournamentNotOngoing  // a match can only start in an ongoing tournament
    | TournamentFinished    // no matches are added to a finished tournament
    | NotPrimary            // only the primary admin adds matches to an ongoing tournament
    | SameTeams             // "Drużyny muszą być różne"
    | ForeignTeam           // a team of another tournament
    | TooFewTeams           // fewer than two teams
    | NoMatches             // a tournament without matches cannot start
    | UncoveredTeams        // some team has no match
    | InPast                // a preview starting before now

  /** The answer of a route. */
  datatype Reply<T> = Ok(value: T) | Refused(why: Refusal) | Failed

  // ---------------------------------------------------------------------
  // quick_update_match_score

  /** The score of side `team` ("1" or anything else meaning "2"). */
  function Side(m: Match, team: string): Option<int> {
    if team == "1" then m.score1 else m.score2
  }

  function WithSide(m: Match, team: string, s: Option<int>): Match {
    if team == "1" then m.(score1 := s) else m.(score2 := s)
  }

  /**
   * One press of a score button: `add` raises the side's score by one (a
   * missing score counts as 0); `subtract` lowers it only when it is above
   * 0. Comparing a missing score with 0 raises (`None`).
   */
  function Bumped(m: Match, team: string, action: string): (r: Option<Match>)
    requires team in {"1", "2"} && action in {"add", "subtract"}
    ensures r.None? <==> action == "subtract" && Side(m, team).None?
    ensures r.Some? ==> Side(r.value, if team == "1" then "2" else "1") == Side(m, if team == "1" then "2" else "1")
    ensures r.Some? ==> r.value == WithSide(m, team, Side(r.value, team))
    ensures action == "add" ==> r == Some(WithSide(m, team, Some(OrZero(Side(m, team)) + 1)))
    ensures action == "subtract" && r.Some? ==>
      Side(r.value, team) == Some(if Side(m, team).value > 0 then Side(m, team).value - 1 else Side(m, team).value)
    ensures r.Some? && OrZero(Side(m, team)) >= 0 ==> OrZero(Side(r.value, team)) >= 0
  {
    var own := Side(m, team);
    if action == "add" then Some(WithSide(m, team, Some(OrZero(own) + 1)))
    else if own.None? then None
    else if own.value > 0 then Some(WithSide(m, team, Some(own.value - 1)))
    else Some(m)
  }

  /** `add` then `subtract` leaves the side at what it was, a missing score becoming 0. */
  lemma AddThenSubtract(m: Match, team: string)
    requires team in {"1", "2"} && OrZero(Side(m, team)) >= 0
    ensures Bumped(m, team, "add").Some?
    ensures var up := Bumped(m, team, "add").value;
      Bumped(up, team, "subtract") == Some(WithSide(m, team, Some(OrZero(Side(m, team)))))
  {
  }

  /** A score that is never negative stays so under any sequence of presses. */
  lemma {:induction false} PressesKeepScoresNonNegative(m: Match, team: string, actions: seq<string>)
    requires team in {"1", "2"}
    requires forall k :: 0 <= k < |actions| ==> actions[k] in {"add", "subtract"}
    requires OrZero(m.score1) >= 0 && OrZero(m.score2) >= 0
    ensures Presses(m, team, actions).Some? ==>
      OrZero(Presses(m, team, actions).value.score1) >= 0 && OrZero(Presses(m, team, actions).value.score2) >= 0
    decreases |actions|
  {
    if actions != [] {
      var next := Bumped(m, team, actions[0]);
      if next.Some? {
        assert OrZero(Side(next.value, team)) >= 0;
        PressesKeepScoresNonNegative(next.value, team, actions[1..]);
      }
    }
  }

  /** Several presses in a row on one side; `None` once one raises. */
  function Presses(m: Match, team: string, actions: seq<string>): Option<Match>
    requires team in {"1", "2"}
    requires forall k :: 0 <= k < |actions| ==> actions[k] in {"add", "subtract"}
    decreases |actions|
  {
    if actions == [] then Some(m)
    else match Bumped(m, team, actions[0])
      case None => None
      case Some(next) => Presses(next, team, actions[1..])
  }

  /** The request names a match (a zero id is falsy), a side and an action. */
  predicate ValidPress(id: int, team: string, action: string) {
    id != 0 && team in {"1", "2"} && action in {"add", "subtract"}
  }

  /**
   * `quick_update_match_score`: refused for bad parameters and for a match
   * that is not ongoing; a missing match and a subtract on a missing score
   * end in the handler. Otherwise the one side changes as `Bumped` says and
   * both scores are answered, a missing one as 0.
   */
  method QuickUpdateScore(db: Db, id: int, team: string, action: string) returns (r: Reply<(int, int)>)
    modifies db
    ensures db.OnlyMatches()
    ensures !ValidPress(id, team, action) ==> r == Refused(BadParams)
    ensures ValidPress(id, team, action) && id !in old(db.matches) ==> r == Failed
    ensures ValidPress(id, team, action) && id in old(db.matches) && old(db.matches)[id].status != Ongoing ==>
      r == Refused(NotOngoing)
    ensures r.Ok? <==> ValidPress(id, team, action) && id in old(db.matches) && old(db.matches)[id].status == Ongoing
                       && Bumped(old(db.matches)[id], team, action).Some?
    ensures r.Ok? ==> var m := Bumped(old(db.matches)[id], team, action).value;
      db.matches == old(db.matches)[id := m] && r.value == (OrZero(m.score1), OrZero(m.score2))
    ensures !r.Ok? ==> db.matches == old(db.matches)
  {
    if !ValidPress(id, team, action) {
      return Refused(BadParams);
    }
    if id !in db.matches {
      return Failed;
    }
    var m := db.matches[id];
    if m.status != Ongoing {
      return Refused(NotOngoing);
    }
    var next := Bumped(m, team, action);
    if next.None? {
      return Failed;
    }
    db.matches := db.matches[id := next.value];
    r := Ok((OrZero(next.value.score1), OrZero(next.value.score2)));
  }

  // ---------------------------------------------------------------------
  // toggle_match_timer

  /**
   * The timer toggle of a match with a start time, at `now`: the flag flips;
   * a pause stores the seconds since the start; a resume with a stored
   * value moves the start forward by the length of the pause and clears
   * the stored value.
   */
  function Toggled(m: Match, now: int): (r: Match)
    requires m.startTime.Some?
    ensures r.paused == !m.paused && r.status == m.status && r.score1 == m.score1 && r.score2 == m.score2
    ensures r.paused ==> r.elapsed == Some(now - m.startTime.value) && r.startTime == m.startTime
    ensures !r.paused && m.elapsed.Some? ==>
      r.elapsed == None && r.startTime.Some? && now - r.startTime.value == m.elapsed.value
    ensures !r.paused && m.elapsed.None? ==> r == m.(paused := false)
  {
    var elapsedSeconds := now - m.startTime.value;
    if !m.paused then m.(paused := true, elapsed := Some(elapsedSeconds))
    else if m.elapsed.Some? then
      m.(paused := false, startTime := Some(m.startTime.value + (elapsedSeconds - m.elapsed.value)), elapsed := None)
    else m.(paused := false)
  }

  /**
   * Pausing a running match at `t1` and resuming it at `t2`: the start moves
   * forward by the pause, so at any later `t` the running time is the time
   * run before the pause plus the time since the resume.
   */
  lemma {:induction false} ToggleRoundTrip(m: Match, t1: int, t2: int, t: int)
    requires !m.paused && m.startTime.Some?
    ensures var back := Toggled(Toggled(m, t1), t2);
      !back.paused && back.elapsed == None && back.startTime.Some?
      && t - back.startTime.value == (t1 - m.startTime.value) + (t - t2)
  {
    var p := Toggled(m, t1);
    assert p.paused && p.elapsed == Some(t1 - m.startTime.value);
    var back := Toggled(p, t2);
    assert t2 - back.startTime.value == t1 - m.startTime.value;
  }

  /** What the toggle answers: the new flag and the stored (else the current) running time. */
  function TimerAnswer(m: Match, now: int): (bool, int)
    requires m.startTime.Some?
  {
    var n := Toggled(m, now);
    (n.paused, if n.elapsed.Some? then n.elapsed.value else now - m.startTime.value)
  }

  /**
   * `toggle_match_timer`: refused unless the match is ongoing. A match
   * without a start time falls off the end of the route without a commit
   * (the change is discarded), like a missing match.
   */
  method ToggleTimer(db: Db, id: int, now: int) returns (r: Reply<(bool, int)>)
    modifies db
    ensures db.OnlyMatches()
    ensures id !in old(db.matches) ==> r == Failed
    ensures id in old(db.matches) && old(db.matches)[id].status != Ongoing ==> r == Refused(NotOngoing)
    ensures r.Ok? <==> id in old(db.matches) && old(db.matches)[id].status == Ongoing && old(db.matches)[id].startTime.Some?
    ensures r.Ok? ==> var m := old(db.matches)[id];
      db.matches == old(db.matches)[id := Toggled(m, now)] && r.value == TimerAnswer(m, now)
    ensures !r.Ok? ==> db.matches == old(db.matches)
  {
    if id !in db.matches {
      return Failed;
    }
    var m := db.matches[id];
    if m.status != Ongoing {
      return Refused(NotOngoing);
    }
    if m.startTime.None? {
      return Failed;
    }
    db.matches := db.matches[id := Toggled(m, now)];
    r := Ok(TimerAnswer(m, now));
  }

  // ---------------------------------------------------------------------
  // start_match, delete_match, edit_match, add_match

  /**
   * `start_match`: refused unless the tournament is ongoing and then unless
   * the match is planned; the match becomes ongoing from `now`, running,
   * with 0 seconds elapsed.
   */
  method StartMatch(db: Db, id: int, now: int) returns (r: Reply<()>)
    modifies db
    ensures db.OnlyMatches()
    ensures id !in old(db.matches) || old(db.matches)[id].tournamentId !in old(db.tournaments) ==> r == Failed
    ensures r.Ok? <==> id in old(db.matches) && old(db.matches)[id].tournamentId in old(db.tournaments)
                       && old(db.tournaments)[old(db.matches)[id].tournamentId].status == Ongoing
                       && old(db.matches)[id].status == Planned
    ensures r.Refused? ==> r.why in {TournamentNotOngoing, NotPlanned}
    ensures r.Ok? ==> db.matches == old(db.matches)[id :=
      old(db.matches)[id].(status := Ongoing, startTime := Some(now), paused := false, elapsed := Some(0))]
    ensures !r.Ok? ==> db.matches == old(db.matches)
  {
    if id !in db.matches || db.matches[id].tournamentId !in db.tournaments {
      return Failed;
    }
    var m := db.matches[id];
    if db.tournaments[m.tournamentId].status != Ongoing {
      return Refused(TournamentNotOngoing);
    }
    if m.status != Planned {
      return Refused(NotPlanned);
    }
    db.matches := db.matches[id := m.(status := Ongoing, startTime := Some(now), paused := false, elapsed := Some(0))];
    r := Ok(());
  }

  /** `delete_match`: only a planned match is deleted. */
  method DeleteMatch(db: Db, id: int) returns (r: Reply<()>)
    modifies db
    ensures db.OnlyMatches()
    ensures id !in old(db.matches) ==> r == Failed
    ensures id in old(db.matches) && old(db.matches)[id].status != Planned ==> r == Refused(NotPlanned)
    ensures r.Ok? <==> id in old(db.matches) && old(db.matches)[id].status == Planned
    ensures r.Ok? ==> db.matches == old(db.matches) - {id}
    ensures !r.Ok? ==> db.matches == old(db.matches)
  {
    if id !in db.matches {
      return Failed;
    }
    if db.matches[id].status != Planned {
      return Refused(NotPlanned);
    }
    db.matches := db.matches - {id};
    r := Ok(());
  }

  /**
   * `edit_match`: only a planned match is edited, all of both teams and the
   * start are required and the teams must differ; the teams and the start
   * are replaced, the field only when one is given. Team membership in the
   * tournament is not checked.
   */
  method EditMatch(db: Db, id: int, team1: Option<int>, team2: Option<int>, start: Option<int>, field: Option<int>)
    returns (r: Reply<()>)
    modifies db
    ensures db.OnlyMatches()
    ensures id !in old(db.matches) ==> r == Failed
    ensures id in old(db.matches) && old(db.matches)[id].status != Planned ==> r == Refused(NotPlanned)
    ensures id in old(db.matches) && old(db.matches)[id].status == Planned && (team1.None? || team2.None? || start.None?) ==>
      r == Refused(MissingField)
    ensures r.Ok? <==> id in old(db.matches) && old(db.matches)[id].status == Planned
                       && team1.Some? && team2.Some? && start.Some? && team1 != team2
    ensures r.Ok? ==> var m := old(db.matches)[id];
      db.matches == old(db.matches)[id := m.(team1 := team1.value, team2 := team2.value,
                                              startTime := start, field := field.GetOr(m.field))]
    ensures !r.Ok? ==> db.matches == old(db.matches)
  {
    if id !in db.matches {
      return Failed;
    }
    var m := db.matches[id];
    if m.status != Planned {
      return Refused(NotPlanned);
    }
    if team1.None? || team2.None? || start.None? {
      return Refused(MissingField);
    }
    if team1 == team2 {
      return Refused(SameTeams);
    }
    var f := if field.Some? then field.value else m.field;
    db.matches := db.matches[id := m.(team1 := team1.value, team2 := team2.value, startTime := start, field := f)];
    r := Ok(());
  }

  /** What a route hands to `local_to_utc`: form text, or a `datetime` it has already parsed. */
  datatype StampArg = Text(s: string) | Parsed(t: int)

  /** The outcome of `local_to_utc`: a returned value, or an exception that leaves the function. */
  datatype Conversion = Returned(t: Option<int>) | Raises

  /**
   * The module-level `local_to_utc` of `views.py`. `None` gives `None`; text
   * is tried in its two formats (`parse` stands for the two `strptime` calls
   * and the zone shift). Anything `strptime` refuses, a `datetime` included,
   * lands in the handler, which names an `app` that exists only inside
   * `init_views`, so the call raises.
   */
  function LocalToUtcAsWritten(arg: Option<StampArg>, parse: string -> Option<int>): (r: Conversion)
    ensures arg.Some? && arg.value.Parsed? ==> r == Raises
    ensures arg.Some? && arg.value.Text? ==> (r == Raises <==> parse(arg.value.s).None?)
    ensures r.Returned? ==> r.t.Some? <==> arg.Some?
  {
    match arg
    case None => Returned(None)
    case Some(Parsed(_)) => Raises
    case Some(Text(s)) => if parse(s).Some? then Returned(parse(s)) else Raises
  }

  /**
   * `edit_match` as written: the same guards as `EditMatch`, but once they
   * pass the parsed start goes to `LocalToUtcAsWritten`, which raises, and
   * the handler answers with an error; no edit is ever saved.
   */
  function EditMatchAsWritten(matches: map<int, Match>, id: int, team1: Option<int>, team2: Option<int>, start: Option<int>)
    : (r: Reply<()>)
    ensures !r.Ok?
    ensures r == Failed <==>
      id !in matches || (matches[id].status == Planned && team1.Some? && team2.Some? && start.Some? && team1 != team2)
    ensures id in matches && matches[id].status != Planned ==> r == Refused(NotPlanned)
  {
    if id !in matches then Failed
    else if matches[id].status != Planned then Refused(NotPlanned)
    else if team1.None? || team2.None? || start.None? then Refused(MissingField)
    else if team1 == team2 then Refused(SameTeams)
    else Failed
  }

  /** A planned match, two different teams and a start: `EditMatch` edits it, the route as written fails. */
  method EditMatchNeverEdits() returns (intended: Reply<()>, written: Reply<()>)
    ensures intended.Ok? && written == Failed
  {
    var db := new Db();
    db.matches := map[1 := NewMatch(1, 1, 2, Some(0))];
    written := EditMatchAsWritten(db.matches, 1, Some(2), Some(1), Some(60));
    intended := EditMatch(db, 1, Some(2), Some(1), Some(60), None);
  }

  /** Every match plays two teams registered in its own tournament. */
  predicate TeamsBelong(matches: map<int, Match>, teams: map<int, Team>) {
    forall id :: id in matches ==>
      matches[id].team1 in teams && teams[matches[id].team1].tournamentId == matches[id].tournamentId
      && matches[id].team2 in teams && teams[matches[id].team2].tournamentId == matches[id].tournamentId
  }

  /** The answer `add_match` refuses or fails with, in the route's order; `None` when the match is added. */
  function AddMatchCheck(tournaments: map<int, Tournament>, teams: map<int, Team>, tid: Option<int>,
                         team1: Option<int>, team2: Option<int>, start: Option<int>, primary: bool): (r: Option<Reply<()>>)
    ensures r.None? <==>
      tid.Some? && team1.Some? && team2.Some? && start.Some? && tid.value in tournaments
      && tournaments[tid.value].status != Finished && (tournaments[tid.value].status == Ongoing ==> primary)
      && team1 != team2 && team1.value in teams && team2.value in teams
      && teams[team1.value].tournamentId == tid.value && teams[team2.value].tournamentId == tid.value
    ensures r.Some? ==> !r.value.Ok?
  {
    if tid.None? || team1.None? || team2.None? || start.None? then Some(Refused(MissingField))
    else if tid.value !in tournaments then Some(Failed)
    else if tournaments[tid.value].status == Finished then Some(Refused(TournamentFinished))
    else if tournaments[tid.value].status == Ongoing && !primary then Some(Refused(NotPrimary))
    else if team1 == team2 then Some(Refused(SameTeams))
    else if team1.value !in teams || team2.value !in teams then Some(Failed)
    else if teams[team1.value].tournamentId != tid.value || teams[team2.value].tournamentId != tid.value then
      Some(Refused(ForeignTeam))
    else None
  }

  /**
   * `add_match`: after the checks of `AddMatchCheck` a planned match of the
   * two teams is inserted under the new id; matches added this way play
   * teams of their own tournament.
   */
  method AddMatch(db: Db, tid: Option<int>, team1: Option<int>, team2: Option<int>, start: Option<int>,
                  primary: bool, id: int) returns (r: Reply<()>)
    requires id !in db.matches
    modifies db
    ensures db.OnlyMatches()
    ensures var c := AddMatchCheck(old(db.tournaments), old(db.teams), tid, team1, team2, start, primary);
      (c.Some? ==> r == c.value && db.matches == old(db.matches))
      && (c.None? ==> r == Ok(()) && db.matches == old(db.matches)[id := NewMatch(tid.value, team1.value, team2.value, start)])
    ensures TeamsBelong(old(db.matches), db.teams) ==> TeamsBelong(db.matches, db.teams)
  {
    var c := AddMatchCheck(db.tournaments, db.teams, tid, team1, team2, start, primary);
    if c.Some? {
      return c.value;
    }
    db.matches := db.matches[id := NewMatch(tid.value, team1.value, team2.value, start)];
    r := Ok(());
  }

  /**
   * `add_match` of `views.py` as written: once all fields are given the
   * parsed start goes to `LocalToUtcAsWritten`, which raises, and the
   * handler answers with an error before any other check; no match is added.
   */
  function AddMatchAsWritten(tid: Option<int>, team1: Option<int>, team2: Option<int>, start: Option<int>): (r: Reply<()>)
    ensures !r.Ok?
    ensures r == Refused(MissingField) <==> tid.None? || team1.None? || team2.None? || start.None?
    ensures r == Failed <==> tid.Some? && team1.Some? && team2.Some? && start.Some?
  {
    if tid.None? || team1.None? || team2.None? || start.None? then Refused(MissingField)
    else Failed
  }

  /** A planned tournament with teams 1 and 2: `AddMatch` adds their match, the route as written fails. */
  method AddMatchNeverAdds() returns (intended: Reply<()>, written: Reply<()>)
    ensures intended.Ok? && written == Failed
  {
    var db := new Db();
    db.tournaments := map[1 := NewTournament("A", 1)];
    db.teams := map[1 := Team("a", 1), 2 := Team("b", 1)];
    written := AddMatchAsWritten(Some(1), Some(1), Some(2), Some(60));
    intended := AddMatch(db, Some(1), Some(1), Some(2), Some(60), false, 1);
  }

  // ---------------------------------------------------------------------
  // end_match

  /** A match that `end_match` re-times after `ended`: planned, same tournament, same field. */
  predicate Follows(m: Match, ended: Match) {
    m.tournamentId == ended.tournamentId && m.field == ended.field && m.status == Planned
  }

  /** Ascending start order with a missing start first (the database's NULL ordering). */
  predicate NotLater(a: Option<int>, b: Option<int>) {
    a.None? || (b.Some? && a.value <= b.value)
  }

  /**
   * `q` is what the `order_by(Match.start_time)` query returns: each
   * following match exactly once, in start order.
   */
  predicate Queue(ms: map<int, Match>, ended: Match, q: seq<int>) {
    (forall i, j :: 0 <= i < j < |q| ==> q[i] != q[j])
    && (forall i :: 0 <= i < |q| ==> q[i] in ms && Follows(ms[q[i]], ended))
    && (forall id :: id in ms && Follows(ms[id], ended) ==> id in q)
    && (forall i, j :: 0 <= i < j < |q| ==> NotLater(ms[q[i]].startTime, ms[q[j]].startTime))
  }

  /** The new start of the `k`-th re-timed match: a break after `now`, then one slot per match. */
  function Retime(now: int, breakLength: int, matchLength: int, k: nat): int {
    now + 60 * breakLength + k * (60 * (matchLength + breakLength))
  }

  /**
   * Re-timed matches follow each other at `match_length + break_length`
   * minutes, so with non-negative lengths consecutive matches do not
   * overlap and the order of the queue is kept.
   */
  lemma {:induction false} RetimeSpacing(now: int, breakLength: int, matchLength: int, i: nat, j: nat)
    requires i <= j
    ensures Retime(now, breakLength, matchLength, j) - Retime(now, breakLength, matchLength, i)
         == (j - i) * (60 * (matchLength + breakLength))
    ensures matchLength + breakLength >= 0 && i < j ==>
      Retime(now, breakLength, matchLength, j) >= Retime(now, breakLength, matchLength, i) + 60 * (matchLength + breakLength)
    decreases j - i
  {
    var d := 60 * (matchLength + breakLength);
    if i < j {
      RetimeSpacing(now, breakLength, matchLength, i, j - 1);
      assert j * d == (j - 1) * d + d;
      assert (j - i) * d == (j - 1 - i) * d + d;
      if d >= 0 && i < j - 1 {
        assert (j - 1 - i) * d >= 0;
      }
    }
  }

  /**
   * `end_match`: refused unless the match is ongoing (a missing match or
   * tournament ends in the handler). The match is finished and the
   * following planned matches of its field, in start order, start at
   * `now + break`, then one `match_length + break_length` slot apart.
   */
  method EndMatch(db: Db, id: int, now: int, q: seq<int>) returns (r: Reply<()>)
    requires id in db.matches ==> Queue(db.matches, db.matches[id], q)
    modifies db
    ensures db.OnlyMatches()
    ensures id !in old(db.matches) ==> r == Failed
    ensures r.Ok? <==> id in old(db.matches) && old(db.matches)[id].status == Ongoing
                       && old(db.matches)[id].tournamentId in old(db.tournaments)
    ensures !r.Ok? ==> db.matches == old(db.matches)
    ensures r.Ok? ==> var t := old(db.tournaments)[old(db.matches)[id].tournamentId];
      db.matches.Keys == old(db.matches).Keys
      && db.matches[id] == old(db.matches)[id].(status := Finished)
      && (forall k :: 0 <= k < |q| ==>
            db.matches[q[k]] == old(db.matches)[q[k]].(startTime := Some(Retime(now, t.breakLength, t.matchLength, k))))
      && (forall x :: x in old(db.matches) && x != id && x !in q ==> db.matches[x] == old(db.matches)[x])
  {
    if id !in db.matches {
      return Failed;
    }
    var m := db.matches[id];
    if m.status != Ongoing {
      return Refused(NotOngoing);
    }
    if m.tournamentId !in db.tournaments {
      return Failed;
    }
    var t := db.tournaments[m.tournamentId];
    assert id !in q;
    assert forall i :: 0 <= i < |q| ==> q[i] in db.matches;
    db.matches := RetimeAll(db.matches[id := m.(status := Finished)], q, now, t.breakLength, t.matchLength);
    r := Ok(());
  }

  /**
   * The loop of `end_match` over the following matches: the `k`-th of them
   * starts at `Retime(now, ..., k)`; no other match changes.
   */
  method RetimeAll(ms: map<int, Match>, q: seq<int>, now: int, breakLength: int, matchLength: int)
    returns (ms': map<int, Match>)
    requires forall i, j :: 0 <= i < j < |q| ==> q[i] != q[j]
    requires forall i :: 0 <= i < |q| ==> q[i] in ms
    ensures ms'.Keys == ms.Keys
    ensures forall k :: 0 <= k < |q| ==> ms'[q[k]] == ms[q[k]].(startTime := Some(Retime(now, breakLength, matchLength, k)))
    ensures forall x :: x in ms && x !in q ==> ms'[x] == ms[x]
  {
    ms' := ms;
    var next := now + 60 * breakLength;
    var k := 0;
    while k < |q|
      invariant 0 <= k <= |q|
      invariant next == Retime(now, breakLength, matchLength, k)
      invariant ms'.Keys == ms.Keys
      invariant forall j :: 0 <= j < k ==> ms'[q[j]] == ms[q[j]].(startTime := Some(Retime(now, breakLength, matchLength, j)))
      invariant forall x :: x in ms && x !in q[..k] ==> ms'[x] == ms[x]
    {
      var x := q[k];
      ms' := ms'[x := ms[x].(startTime := Some(next))];
      RetimeNext(now, breakLength, matchLength, k);
      next := next + 60 * (matchLength + breakLength);
      k := k + 1;
      assert q[..k] == q[..k - 1] + [x];
    }
    assert q[..|q|] == q;
  }

  lemma RetimeNext(now: int, breakLength: int, matchLength: int, k: nat)
    ensures Retime(now, breakLength, matchLength, k + 1) == Retime(now, breakLength, matchLength, k) + 60 * (matchLength + breakLength)
  {
    var d := 60 * (matchLength + breakLength);
    assert (k + 1) * d == k * d + d;
  }

  // ---------------------------------------------------------------------
  // generate_tournament_matches (preview)

  /** Python's `a % b`: the remainder takes the sign of the divisor. */
  function PyMod(a: int, b: int): (r: int)
    requires b != 0
    ensures b > 0 ==> 0 <= r < b && r == a % b
    ensures b < 0 ==> b < r <= 0
  {
    if b > 0 || a % b == 0 then a % b else a % b + b
  }

  /** The field of the `k`-th previewed match: 1, then `(field % number_of_fields) + 1` each time. */
  function FieldAt(k: nat, fields: int): int
    requires fields != 0
  {
    if k == 0 then 1 else PyMod(FieldAt(k - 1, fields), fields) + 1
  }

  /** With at least one field the preview cycles `1, 2, ..., F, 1, ...`. */
  lemma {:induction false} FieldsCycle(k: nat, fields: int)
    requires fields >= 1
    ensures FieldAt(k, fields) == k % fields + 1
    ensures 1 <= FieldAt(k, fields) <= fields
    decreases k
  {
    if k == 0 {
      TournamentService.DivModUnique(0, fields, 0, 0);
    } else {
      FieldsCycle(k - 1, fields);
      var r := (k - 1) % fields;
      TournamentService.DivModStep(k - 1, fields);
      assert FieldAt(k, fields) == PyMod(r + 1, fields) + 1;
      if r < fields - 1 {
        TournamentService.DivModUnique(r + 1, fields, 0, r + 1);
      } else {
        TournamentService.DivModUnique(fields, fields, 1, 0);
      }
    }
  }

  /** One previewed match. */
  datatype PreviewRow = PreviewRow(team1: int, team2: int, start: int, field: int)

  /** The start of the `k`-th previewed match: the shared clock advanced `k` times by one slot. */
  function Clock(start: int, slot: int, k: nat): int {
    if k == 0 then start else Clock(start, slot, k - 1) + slot
  }

  /** The `k`-th previewed match starts `k` slots after the start. */
  lemma {:induction false} ClockClosed(start: int, slot: int, k: nat)
    ensures Clock(start, slot, k) == start + k * slot
    decreases k
  {
    if k > 0 {
      ClockClosed(start, slot, k - 1);
      assert k * slot == (k - 1) * slot + slot;
    }
  }

  /** The previewed matches pair the teams as the round robin does, with clock and field of each position. */
  predicate PreviewOf(rows: seq<PreviewRow>, ps: seq<TournamentService.Pair>, start: int, slot: int, fields: int)
    requires fields != 0
  {
    |rows| == |ps|
    && forall k :: 0 <= k < |rows| ==>
         rows[k] == PreviewRow(ps[k].home, ps[k].away, Clock(start, slot, k), FieldAt(k, fields))
  }

  /** The inner loop `for j in range(i + 1, len(teams))`: team `t` against each later team. */
  method PreviewAgainst(t: int, rest: seq<int>, rows: seq<PreviewRow>, ghost done: seq<TournamentService.Pair>,
                        clock: int, field: int, start: int, slot: int, fields: int)
    returns (rows': seq<PreviewRow>, ghost done': seq<TournamentService.Pair>, clock': int, field': int)
    requires fields != 0 && PreviewOf(rows, done, start, slot, fields)
    requires clock == Clock(start, slot, |rows|) && field == FieldAt(|rows|, fields)
    ensures done' == done + TournamentService.Against(t, rest)
    ensures PreviewOf(rows', done', start, slot, fields)
    ensures clock' == Clock(start, slot, |rows'|) && field' == FieldAt(|rows'|, fields)
  {
    rows', done', clock', field' := rows, done, clock, field;
    var j := 0;
    while j < |rest|
      invariant 0 <= j <= |rest|
      invariant done' + TournamentService.Against(t, rest[j..]) == done + TournamentService.Against(t, rest)
      invariant PreviewOf(rows', done', start, slot, fields)
      invariant clock' == Clock(start, slot, |rows'|) && field' == FieldAt(|rows'|, fields)
    {
      assert rest[j..][1..] == rest[j + 1..];
      var p := TournamentService.Pair(t, rest[j]);
      rows' := rows' + [PreviewRow(t, rest[j], clock', field')];
      done' := done' + [p];
      clock' := clock' + slot;
      field' := PyMod(field', fields) + 1;
      j := j + 1;
    }
    assert rest[|rest|..] == [];
  }

  lemma PairsUnroll(ts: seq<int>, i: nat)
    requires i < |ts|
    ensures TournamentService.Pairs(ts[i..]) == TournamentService.Against(ts[i], ts[i + 1..]) + TournamentService.Pairs(ts[i + 1..])
  {
    assert ts[i..][1..] == ts[i + 1..];
  }

  /** The pairs still to come shrink by the ones team `ts[i]` just played. */
  lemma PairsStep(ts: seq<int>, i: nat, before: seq<TournamentService.Pair>, done: seq<TournamentService.Pair>)
    requires i < |ts| && before + TournamentService.Pairs(ts[i..]) == TournamentService.Pairs(ts)
    requires done == before + TournamentService.Against(ts[i], ts[i + 1..])
    ensures done + TournamentService.Pairs(ts[i + 1..]) == TournamentService.Pairs(ts)
  {
    PairsUnroll(ts, i);
    Regroup(before, TournamentService.Against(ts[i], ts[i + 1..]), TournamentService.Pairs(ts[i + 1..]), TournamentService.Pairs(ts[i..]), TournamentService.Pairs(ts));
  }

  lemma Regroup<T>(before: seq<T>, a: seq<T>, p: seq<T>, rest: seq<T>, whole: seq<T>)
    requires before + rest == whole && rest == a + p
    ensures (before + a) + p == whole
  {
    assert (before + a) + p == before + (a + p);
  }

  /**
   * The nested loop of the preview: every pair `i < j` of teams in order,
   * each starting one slot after the previous one, the field number
   * cycling. With no field the `%` raises after the first match (`None`).
   */
  method PreviewLoop(ts: seq<int>, start: int, slot: int, fields: int) returns (r: Option<seq<PreviewRow>>)
    ensures r.None? <==> fields == 0 && |ts| >= 2
    ensures r.Some? && fields != 0 ==> PreviewOf(r.value, TournamentService.Pairs(ts), start, slot, fields)
  {
    if fields == 0 {
      if |ts| >= 2 {
        return None;
      }
      return Some([]);
    }
    var rows: seq<PreviewRow> := [];
    var clock := start;
    var field := 1;
    ghost var done: seq<TournamentService.Pair> := [];
    var i := 0;
    while i < |ts|
      invariant 0 <= i <= |ts|
      invariant done + TournamentService.Pairs(ts[i..]) == TournamentService.Pairs(ts)
      invariant PreviewOf(rows, done, start, slot, fields)
      invariant clock == Clock(start, slot, |rows|) && field == FieldAt(|rows|, fields)
    {
      ghost var before := done;
      rows, done, clock, field := PreviewAgainst(ts[i], ts[i + 1..], rows, done, clock, field, start, slot, fields);
      PairsStep(ts, i, before, done);
      i := i + 1;
    }
    assert ts[|ts|..] == [];
    r := Some(rows);
  }

  /**
   * The preview branch of `generate_tournament_matches`: refused unless the
   * tournament is planned, has two teams and a start that is not in the
   * past; then the previewed matches, one slot of `match_length +
   * break_length` minutes apart regardless of the field.
   */
  method GeneratePreview(t: Tournament, teamIds: seq<int>, start: Option<int>, now: int)
    returns (r: Reply<seq<PreviewRow>>)
    ensures t.status != Planned ==> r == Refused(NotPlanned)
    ensures t.status == Planned && |teamIds| < 2 ==> r == Refused(TooFewTeams)
    ensures r == Failed <==> t.status == Planned && |teamIds| >= 2 && start.Some? && start.value >= now && t.numberOfFields == 0
    ensures r.Ok? <==> t.status == Planned && |teamIds| >= 2 && start.Some? && start.value >= now && t.numberOfFields != 0
    ensures r.Ok? ==> PreviewOf(r.value, TournamentService.Pairs(teamIds), start.value, 60 * (t.matchLength + t.breakLength), t.numberOfFields)
    ensures r.Ok? ==> 2 * |r.value| == |teamIds| * (|teamIds| - 1)
  {
    if t.status != Planned {
      return Refused(NotPlanned);
    }
    if |teamIds| < 2 {
      return Refused(TooFewTeams);
    }
    if start.None? {
      return Refused(MissingField);
    }
    if start.value < now {
      return Refused(InPast);
    }
    var rows := PreviewLoop(teamIds, start.value, 60 * (t.matchLength + t.breakLength), t.numberOfFields);
    if rows.None? {
      return Failed;
    }
    TournamentService.PairsCount(teamIds);
    r := Ok(rows.value);
  }

  /**
   * The preview as written: the first three guards of `GeneratePreview`,
   * then the parsed start goes to `LocalToUtcAsWritten`; what it raises is
   * not the `ValueError` the inner handler expects, so the outer handler
   * answers 500 and no preview is ever shown.
   */
  function GeneratePreviewAsWritten(t: Tournament, teamIds: seq<int>, start: Option<int>): (r: Reply<seq<PreviewRow>>)
    ensures !r.Ok?
    ensures r == Failed <==> t.status == Planned && |teamIds| >= 2 && start.Some?
    ensures t.status != Planned ==> r == Refused(NotPlanned)
    ensures t.status == Planned && |teamIds| < 2 ==> r == Refused(TooFewTeams)
  {
    if t.status != Planned then Refused(NotPlanned)
    else if |teamIds| < 2 then Refused(TooFewTeams)
    else if start.None? then Refused(MissingField)
    else Failed
  }

  /** A planned tournament with two teams and a start ahead: one previewed match intended, a failure as written. */
  method PreviewNeverShown() returns (intended: Reply<seq<PreviewRow>>, written: Reply<seq<PreviewRow>>)
    ensures intended.Ok? && |intended.value| == 1
    ensures written == Failed
  {
    var t := NewTournament("A", 1);
    intended := GeneratePreview(t, [1, 2], Some(60), 0);
    written := GeneratePreviewAsWritten(t, [1, 2], Some(60));
  }

  /**
   * Unlike the service's generator, the preview runs everything on one
   * clock: with several fields, two matches on different fields never
   * overlap, and consecutive matches on one field are `F` slots apart.
   */
  lemma PreviewIsSequential(start: int, slot: int, fields: int, k: nat)
    requires fields >= 1
    ensures Clock(start, slot, k + 1) == Clock(start, slot, k) + slot
    ensures FieldAt(k + fields, fields) == FieldAt(k, fields)
    ensures Clock(start, slot, k + fields) == Clock(start, slot, k) + fields * slot
  {
    FieldsCycle(k, fields);
    FieldsCycle(k + fields, fields);
    ModShift(k, fields);
    ClockShift(start, slot, k, fields);
  }

  lemma ModShift(k: nat, f: int)
    requires f >= 1
    ensures (k + f) % f == k % f
  {
    var q, r := k / f, k % f;
    assert k == f * q + r;
    assert k + f == f * (q + 1) + r;
    TournamentService.DivModUnique(k + f, f, q + 1, r);
  }

  lemma ClockShift(start: int, slot: int, k: nat, n: nat)
    ensures Clock(start, slot, k + n) == Clock(start, slot, k) + n * slot
  {
    ClockClosed(start, slot, k);
    ClockClosed(start, slot, k + n);
    assert (k + n) * slot == k * slot + n * slot;
  }

  // ---------------------------------------------------------------------
  // start_tournament, end_tournament

  /** The teams named by some match of the tournament, on either side. */
  function Covered(ms: map<int, Match>, tid: int): (r: set<int>)
    ensures forall x :: x in r <==> exists id :: id in ms && ms[id].tournamentId == tid && Involves(ms[id], x)
  {
    var r := (set id | id in ms && ms[id].tournamentId == tid :: ms[id].team1)
           + (set id | id in ms && ms[id].tournamentId == tid :: ms[id].team2);
    assert forall x :: x in r ==> exists id :: id in ms && ms[id].tournamentId == tid && Involves(ms[id], x);
    r
  }

  predicate HasMatches(ms: map<int, Match>, tid: int) {
    exists id :: id in ms && ms[id].tournamentId == tid
  }

  /**
   * The checks of `start_tournament` as written: the last one compares the
   * number of distinct team ids named by the matches with the number of
   * teams, not the sets themselves.
   */
  function StartRefusalAsWritten(t: Tournament, teams: set<int>, covered: set<int>, hasMatches: bool): (r: Option<Refusal>)
    ensures r.None? <==> t.status == Planned && |teams| >= 2 && hasMatches && |covered| >= |teams|
  {
    if t.status != Planned then Some(NotPlanned)
    else if |teams| < 2 then Some(TooFewTeams)
    else if !hasMatches then Some(NoMatches)
    else if |covered| < |teams| then Some(UncoveredTeams)
    else None
  }

  /** The checks as intended: every team of the tournament plays some match. */
  function StartRefusal(t: Tournament, teams: set<int>, covered: set<int>, hasMatches: bool): (r: Option<Refusal>)
    ensures r.None? <==> t.status == Planned && |teams| >= 2 && hasMatches && teams <= covered
    ensures r == Some(UncoveredTeams) <==> t.status == Planned && |teams| >= 2 && hasMatches && !(teams <= covered)
  {
    if t.status != Planned then Some(NotPlanned)
    else if |teams| < 2 then Some(TooFewTeams)
    else if !hasMatches then Some(NoMatches)
    else if !(teams <= covered) then Some(UncoveredTeams)
    else None
  }

  lemma SubsetCard(a: set<int>, b: set<int>)
    requires a <= b
    ensures |a| <= |b|
    ensures |a| == |b| ==> a == b
  {
    var d := b - a;
    assert b == a + d && a * d == {};
    assert |b| == |a| + |d|;
    if |a| == |b| {
      assert d == {};
    }
  }

  /** Whatever the intended checks let through, the count check lets through too. */
  lemma CountCheckWeaker(t: Tournament, teams: set<int>, covered: set<int>, hasMatches: bool)
    ensures StartRefusal(t, teams, covered, hasMatches).None? ==> StartRefusalAsWritten(t, teams, covered, hasMatches).None?
  {
    if teams <= covered {
      SubsetCard(teams, covered);
    }
  }

  /** When every match names only teams of the tournament, the count check is the intended one. */
  lemma CountCheckExactWhenClosed(t: Tournament, teams: set<int>, covered: set<int>, hasMatches: bool)
    requires covered <= teams
    ensures StartRefusalAsWritten(t, teams, covered, hasMatches) == StartRefusal(t, teams, covered, hasMatches)
  {
    SubsetCard(covered, teams);
  }

  /**
   * On a database whose matches play teams of their own tournament, which
   * every modelled route keeps, the written checks of `start_tournament`
   * decide as the intended ones.
   */
  lemma StartChecksAgreeWhenTeamsBelong(matches: map<int, Match>, teams: map<int, Team>, t: Tournament, tid: int)
    requires TeamsBelong(matches, teams)
    ensures Covered(matches, tid) <= TeamsOf(teams, tid)
    ensures StartRefusalAsWritten(t, TeamsOf(teams, tid), Covered(matches, tid), HasMatches(matches, tid))
         == StartRefusal(t, TeamsOf(teams, tid), Covered(matches, tid), HasMatches(matches, tid))
  {
    forall x | x in Covered(matches, tid) ensures x in TeamsOf(teams, tid) {
      var id :| id in matches && matches[id].tournamentId == tid && Involves(matches[id], x);
    }
    CountCheckExactWhenClosed(t, TeamsOf(teams, tid), Covered(matches, tid), HasMatches(matches, tid));
  }

  /**
   * Teams 1, 2 and 3, and matches naming teams 1, 2 and 4 (team 4 of
   * another tournament): three distinct ids pass the count check, though
   * team 3 has no match. No modelled route produces such matches, so the
   * weakness is latent (`StartChecksAgreeWhenTeamsBelong`).
   */
  lemma CountCheckMissesUncoveredTeam(t: Tournament)
    requires t.status == Planned
    ensures StartRefusalAsWritten(t, {1, 2, 3}, {1, 2, 4}, true).None?
    ensures StartRefusal(t, {1, 2, 3}, {1, 2, 4}, true) == Some(UncoveredTeams)
  {
    assert |{1, 2, 3}| == 3 && |{1, 2, 4}| == 3;
    assert 3 !in {1, 2, 4};
  }

  /**
   * `EditMatch` checks no team membership, so with a working date conversion
   * an edit could leave a match naming a team of another tournament; as
   * written no edit is saved (`EditMatchNeverEdits`).
   */
  method EditBreaksMembership() returns (db: Db)
    ensures !TeamsBelong(db.matches, db.teams)
  {
    db := new Db();
    db.tournaments := map[1 := NewTournament("A", 1), 2 := NewTournament("B", 1)];
    db.teams := map[1 := Team("a", 1), 2 := Team("b", 1), 3 := Team("c", 2)];
    db.matches := map[1 := NewMatch(1, 1, 2, Some(0))];
    var r := EditMatch(db, 1, Some(1), Some(3), Some(0), None);
    assert db.matches[1].team2 == 3;
  }

  /** `start_tournament` as written: the checks above, then the status becomes ongoing. */
  method StartTournamentAsWritten(db: Db, tid: int) returns (r: Reply<()>)
    modifies db
    ensures db.OnlyTournaments()
    ensures tid !in old(db.tournaments) ==> r == Failed
    ensures tid in old(db.tournaments) ==>
      var c := StartRefusalAsWritten(old(db.tournaments)[tid], TeamsOf(old(db.teams), tid),
                                     Covered(old(db.matches), tid), HasMatches(old(db.matches), tid));
      (c.Some? ==> r == Refused(c.value) && db.tournaments == old(db.tournaments))
      && (c.None? ==> r == Ok(()) && db.tournaments == old(db.tournaments)[tid := old(db.tournaments)[tid].(status := Ongoing)])
  {
    if tid !in db.tournaments {
      return Failed;
    }
    var c := StartRefusalAsWritten(db.tournaments[tid], TeamsOf(db.teams, tid), Covered(db.matches, tid), HasMatches(db.matches, tid));
    if c.Some? {
      return Refused(c.value);
    }
    db.tournaments := db.tournaments[tid := db.tournaments[tid].(status := Ongoing)];
    r := Ok(());
  }

  /**
   * `start_tournament` with the intended last check: a tournament starts
   * only when it is planned, has two teams and matches, and every one of
   * its teams plays in one of its matches.
   */
  method StartTournament(db: Db, tid: int) returns (r: Reply<()>)
    modifies db
    ensures db.OnlyTournaments()
    ensures tid !in old(db.tournaments) ==> r == Failed
    ensures r.Ok? <==> tid in old(db.tournaments) && old(db.tournaments)[tid].status == Planned
                       && |TeamsOf(old(db.teams), tid)| >= 2 && HasMatches(old(db.matches), tid)
                       && TeamsOf(old(db.teams), tid) <= Covered(old(db.matches), tid)
    ensures r.Ok? ==> db.tournaments == old(db.tournaments)[tid := old(db.tournaments)[tid].(status := Ongoing)]
    ensures r.Ok? ==> forall team :: team in db.teams && db.teams[team].tournamentId == tid ==>
      exists id :: id in db.matches && db.matches[id].tournamentId == tid && Involves(db.matches[id], team)
    ensures !r.Ok? ==> db.tournaments == old(db.tournaments)
  {
    if tid !in db.tournaments {
      return Failed;
    }
    var c := StartRefusal(db.tournaments[tid], TeamsOf(db.teams, tid), Covered(db.matches, tid), HasMatches(db.matches, tid));
    if c.Some? {
      return Refused(c.value);
    }
    db.tournaments := db.tournaments[tid := db.tournaments[tid].(status := Ongoing)];
    r := Ok(());
  }

  /**
   * `end_tournament` of the views: refused unless ongoing. Unlike the
   * service it does not look at the tournament's matches, so ongoing ones
   * stay ongoing.
   */
  method EndTournament(db: Db, tid: int) returns (r: Reply<()>)
    modifies db
    ensures db.OnlyTournaments()
    ensures tid !in old(db.tournaments) ==> r == Failed
    ensures r.Ok? <==> tid in old(db.tournaments) && old(db.tournaments)[tid].status == Ongoing
    ensures r.Ok? ==> db.tournaments == old(db.tournaments)[tid := old(db.tournaments)[tid].(status := Finished)]
    ensures !r.Ok? ==> db.tournaments == old(db.tournaments)
  {
    if tid !in db.tournaments {
      return Failed;
    }
    if db.tournaments[tid].status != Ongoing {
      return Refused(NotOngoing);
    }
    db.tournaments := db.tournaments[tid := db.tournaments[tid].(status := Finished)];
    r := Ok(());
  }

  // ---------------------------------------------------------------------
  // allowed_file

  const AllowedExtensions: set<string> := {"png", "jpg", "jpeg", "gif"}

  /** `str.lower()` on ASCII letters. */
  function Lower(s: string): (r: string)
    ensures |r| == |s|
    ensures forall i :: 0 <= i < |s| ==> r[i] == LowerChar(s[i])
  {
    if s == [] then [] else Lower(s[..|s| - 1]) + [LowerChar(s[|s| - 1])]
  }

  /** An ASCII capital becomes its small letter; every other character stays. */
  function LowerChar(c: char): char {
    if 'A' <= c <= 'Z' then c - 'A' + 'a' else c
  }

  /** `s.rsplit('.', 1)[1]` for a name with a dot: everything after the last dot. */
  function LastExtension(s: string): (r: string)
    ensures '.' !in r
    ensures |r| <= |s| && r == s[|s| - |r|..]
    ensures |r| < |s| ==> s[|s| - |r| - 1] == '.'
    ensures |r| == |s| ==> '.' !in s
  {
    if s == [] then []
    else if s[|s| - 1] == '.' then []
    else LastExtension(s[..|s| - 1]) + [s[|s| - 1]]
  }

  /** `allowed_file`: the name has a dot and its last extension, lower-cased, is an image type. */
  function AllowedFile(name: string): (r: bool)
    ensures r ==> '.' in name && |LastExtension(name)| < |name|
  {
    '.' in name && Lower(LastExtension(name)) in AllowedExtensions
  }

  /** A name `base.ext` with a dot-free `ext` is accepted iff `ext`, lower-cased, is an image type. */
  lemma {:induction false} AllowedByExtension(base: string, ext: string)
    requires '.' !in ext
    ensures LastExtension(base + "." + ext) == ext
    ensures AllowedFile(base + "." + ext) <==> Lower(ext) in AllowedExtensions
    decreases |ext|
  {
    var s := base + "." + ext;
    if ext == [] {
      assert s[|s| - 1] == '.';
    } else {
      assert s[..|s| - 1] == base + "." + ext[..|ext| - 1];
      assert ext[|ext| - 1] != '.' by { assert ext[|ext| - 1] in ext; }
      AllowedByExtension(base, ext[..|ext| - 1]);
      assert ext == ext[..|ext| - 1] + [ext[|ext| - 1]];
    }
    assert s[|base|] == '.';
  }

  /** A name without a dot is never accepted, whatever it ends with. */
  lemma NoDotRejected(name: string)
    requires '.' !in name
    ensures !AllowedFile(name)
  {
  }

  lemma LowerIdempotent(s: string)
    ensures Lower(Lower(s)) == Lower(s)
    ensures '.' !in s ==> '.' !in Lower(s)
  {
    var l := Lower(s);
    forall i | 0 <= i < |l| ensures Lower(l)[i] == l[i] {
      assert l[i] == LowerChar(s[i]);
    }
    if '.' in l {
      var i :| 0 <= i < |l| && l[i] == '.';
      assert s[i] == '.';
    }
  }

  /** The case of the extension does not matter. */
  lemma CaseIgnored(base: string, ext: string)
    requires '.' !in ext
    ensures AllowedFile(base + "." + ext) == AllowedFile(base + "." + Lower(ext))
  {
    LowerIdempotent(ext);
    AllowedByExtension(base, ext);
    AllowedByExtension(base, Lower(ext));
  }
}
