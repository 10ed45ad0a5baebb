/**
 * Match lifecycle and match timer of the match service
 * (`services/match_service.py`), over the match table of `Db`.
 *
 * The timer stores `elapsed_time` (seconds) while paused; while running the
 * elapsed time is `now - start_time`, and resuming moves `start_time` back
 * by the stored elapsed time.
 */
module MatchService {
  import opened Wrappers
  import opened Domain

  /** What `_calculate_elapsed_time` yields: a (nullable) number, or a `TypeError`. */
  datatype Reading = Reads(seconds: Option<int>) | Raises

  /**
   * `_calculate_elapsed_time`: the stored value while paused, else the
   * seconds since `start_time` (which raises when there is none).
   */
  function CalculateElapsed(m: Match, now: int): (r: Reading)
    ensures m.paused ==> r == Reads(m.elapsed)
    ensures !m.paused && m.startTime.Some? ==> r == Reads(Some(now - m.startTime.value))
    ensures r == Raises <==> !m.paused && m.startTime.None?
  {
    if m.paused then Reads(m.elapsed)
    else if m.startTime.None? then Raises
    else Reads(Some(now - m.startTime.value))
  }

  /** The match as `pause_match_timer` leaves it: the flag is set first. */
  function PausedAsWritten(m: Match, now: int): (r: Match)
    ensures r.paused && r.elapsed == m.elapsed
  {
    var flagged := m.(paused := true);
    match CalculateElapsed(flagged, now)
    case Reads(e) => flagged.(elapsed := e)
    case Raises => flagged
  }

  /** The flag is set before the elapsed time is read, so the stored value never changes. */
  lemma PauseAsWrittenKeepsStoredElapsed(m: Match, now: int)
    ensures PausedAsWritten(m, now) == m.(paused := true)
  {
  }

  /**
   * A match that has run for 100 seconds since its (re)start: pausing it as
   * written keeps 0 seconds, and after resuming the clock reads 0 again.
   */
  lemma PauseAsWrittenLosesRunningTime()
    ensures var m := Match(1, 1, 2, Some(0), Some(0), Some(0), 1, Ongoing, false, Some(0));
      var p := PausedAsWritten(m, 100);
      CalculateElapsed(m, 100) == Reads(Some(100))
      && p.elapsed == Some(0)
      && CalculateElapsed(Resumed(p, 100), 100) == Reads(Some(0))
  {
  }

  /**
   * The evidently intended pause: read the running time first, then set the
   * flag. A paused match keeps its stored value.
   */
  function Paused(m: Match, now: int): (r: Match)
    requires CalculateElapsed(m, now).Reads?
    ensures r.paused && r.elapsed == CalculateElapsed(m, now).seconds
    ensures r.(paused := m.paused, elapsed := m.elapsed) == m
  {
    m.(paused := true, elapsed := CalculateElapsed(m, now).seconds)
  }

  /** `resume_match_timer` on a match with a stored elapsed time. */
  function Resumed(m: Match, now: int): (r: Match)
    requires m.elapsed.Some?
    ensures !r.paused && r.startTime == Some(now - m.elapsed.value)
    ensures r.(paused := m.paused, startTime := m.startTime) == m
  {
    m.(paused := false, startTime := Some(now - m.elapsed.value))
  }

  /** Pausing again changes nothing: while paused the reading is the stored value. */
  lemma PauseIdempotent(m: Match, t1: int, t2: int)
    requires CalculateElapsed(m, t1).Reads?
    ensures Paused(Paused(m, t1), t2) == Paused(m, t1)
  {
  }

  /**
   * Right after a resume the timer reads the value frozen at the pause, and
   * it then advances one second per second.
   */
  lemma ResumeContinuesFromStored(m: Match, now: int, later: int)
    requires m.elapsed.Some?
    ensures CalculateElapsed(Resumed(m, now), now) == Reads(m.elapsed)
    ensures CalculateElapsed(Resumed(m, now), later) == Reads(Some(m.elapsed.value + (later - now)))
  {
  }

  /**
   * Pause at `t1` and resume at `t2` of a running match: at `t3` the timer
   * reads the running time before the pause plus the time since the resume;
   * the pause itself is not counted.
   */
  lemma {:induction false} PauseResumeRoundTrip(m: Match, t1: int, t2: int, t3: int)
    requires !m.paused && m.startTime.Some?
    ensures CalculateElapsed(m, t1).Reads? && Paused(m, t1).elapsed.Some?
    ensures CalculateElapsed(Resumed(Paused(m, t1), t2), t3)
         == Reads(Some((t1 - m.startTime.value) + (t3 - t2)))
  {
    var p := Paused(m, t1);
    assert CalculateElapsed(m, t1) == Reads(Some(t1 - m.startTime.value));
    assert p.elapsed == Some(t1 - m.startTime.value);
    ResumeContinuesFromStored(p, t2, t3);
  }

  /**
   * `create_match`: refused (`None`) unless the tournament exists, is
   * planned and has both teams; otherwise a planned match is inserted
   * under the new id `id`.
   */
  method CreateMatch(db: Db, tournamentId: int, team1: int, team2: int, start: int, field: int, id: int)
    returns (r: Option<int>)
    requires id !in db.matches
    modifies db
    ensures db.OnlyMatches()
    ensures r.Some? <==> tournamentId in old(db.tournaments) && old(db.tournaments[tournamentId]).status == Planned
                         && team1 in TeamsOf(old(db.teams), tournamentId) && team2 in TeamsOf(old(db.teams), tournamentId)
    ensures r.Some? ==> r == Some(id) && db.matches == old(db.matches)[id := NewMatch(tournamentId, team1, team2, Some(start)).(field := field)]
    ensures r.None? ==> db.matches == old(db.matches)
  {
    if tournamentId !in db.tournaments || db.tournaments[tournamentId].status != Planned {
      return None;
    }
    var teamIds := TeamsOf(db.teams, tournamentId);
    if team1 !in teamIds || team2 !in teamIds {
      return None;
    }
    db.matches := db.matches[id := NewMatch(tournamentId, team1, team2, Some(start)).(field := field)];
    r := Some(id);
  }

  /**
   * `create_match` as written: after the commit it schedules
   * `notify_match_created`, which the notification service does not
   * define, so the call raises although the match was inserted.
   */
  method CreateMatchAsWritten(db: Db, tournamentId: int, team1: int, team2: int, start: int, field: int, id: int)
    returns (r: Result<Option<int>>)
    requires id !in db.matches
    modifies db
    ensures db.OnlyMatches()
    ensures r == Failure <==> id in db.matches && id !in old(db.matches)
    ensures r != Failure ==> r == Success(None) && db.matches == old(db.matches)
  {
    var created := CreateMatch(db, tournamentId, team1, team2, start, field, id);
    r := if created.Some? then Failure else Success(None);
  }

  /** `update_match_time`: only a planned match gets the new start time. */
  method UpdateMatchTime(db: Db, id: int, start: int) returns (ok: bool)
    modifies db
    ensures db.OnlyMatches()
    ensures ok <==> id in old(db.matches) && old(db.matches[id]).status == Planned
    ensures ok ==> db.matches == old(db.matches)[id := old(db.matches[id]).(startTime := Some(start))]
    ensures !ok ==> db.matches == old(db.matches)
  {
    if id !in db.matches || db.matches[id].status != Planned {
      return false;
    }
    db.matches := db.matches[id := db.matches[id].(startTime := Some(start))];
    ok := true;
  }

  /**
   * `update_match_time` as written: the change is committed, then the
   * notification call lacks its `user_id` argument and raises.
   */
  method UpdateMatchTimeAsWritten(db: Db, id: int, start: int) returns (r: Result<bool>)
    modifies db
    ensures db.OnlyMatches()
    ensures r == Failure <==> id in old(db.matches) && old(db.matches[id]).status == Planned
    ensures r == Failure ==> db.matches == old(db.matches)[id := old(db.matches[id]).(startTime := Some(start))]
    ensures r != Failure ==> r == Success(false) && db.matches == old(db.matches)
  {
    var ok := UpdateMatchTime(db, id, start);
    r := if ok then Failure else Success(false);
  }

  /**
   * `start_match`: `planned -> ongoing`, starting the clock at `now`. The
   * change is committed before the notification task is submitted;
   * `scheduled` is whether that submission succeeds. When it raises, the
   * handler's `self.rollback()` (which `BaseService` does not define)
   * raises in turn, so the call fails with the change in place.
   */
  method StartMatch(db: Db, id: int, now: int, scheduled: bool) returns (r: Result<bool>)
    modifies db
    ensures db.OnlyMatches()
    ensures r.Success? && r.value <==> scheduled && id in old(db.matches) && old(db.matches[id]).status == Planned
    ensures r == Failure <==> !scheduled && id in old(db.matches) && old(db.matches[id]).status == Planned
    ensures r != Success(false) ==>
      db.matches == old(db.matches)[id := old(db.matches[id]).(status := Ongoing, startTime := Some(now))]
      && Rank(db.matches[id].status) == Rank(old(db.matches[id]).status) + 1
    ensures r == Success(false) ==> db.matches == old(db.matches)
  {
    if id !in db.matches || db.matches[id].status != Planned {
      return Success(false);
    }
    db.matches := db.matches[id := db.matches[id].(status := Ongoing, startTime := Some(now))];
    r := if scheduled then Success(true) else Failure;
  }

  /** `end_match`: `ongoing -> finished`; the notification submission as in `StartMatch`. */
  method EndMatch(db: Db, id: int, scheduled: bool) returns (r: Result<bool>)
    modifies db
    ensures db.OnlyMatches()
    ensures r.Success? && r.value <==> scheduled && id in old(db.matches) && old(db.matches[id]).status == Ongoing
    ensures r == Failure <==> !scheduled && id in old(db.matches) && old(db.matches[id]).status == Ongoing
    ensures r != Success(false) ==>
      db.matches == old(db.matches)[id := old(db.matches[id]).(status := Finished)]
      && Rank(db.matches[id].status) == Rank(old(db.matches[id]).status) + 1
    ensures r == Success(false) ==> db.matches == old(db.matches)
  {
    if id !in db.matches || db.matches[id].status != Ongoing {
      return Success(false);
    }
    db.matches := db.matches[id := db.matches[id].(status := Finished)];
    r := if scheduled then Success(true) else Failure;
  }

  /** `update_score`: refused only for an unknown or a planned match; sets both scores. */
  method UpdateScore(db: Db, id: int, score1: int, score2: int) returns (ok: bool)
    modifies db
    ensures db.OnlyMatches()
    ensures ok <==> id in old(db.matches) && old(db.matches[id]).status != Planned
    ensures ok ==> db.matches == old(db.matches)[id := old(db.matches[id]).(score1 := Some(score1), score2 := Some(score2))]
    ensures !ok ==> db.matches == old(db.matches)
  {
    if id !in db.matches || db.matches[id].status == Planned {
      return false;
    }
    db.matches := db.matches[id := db.matches[id].(score1 := Some(score1), score2 := Some(score2))];
    ok := true;
  }

  /**
   * `update_score` as written: the scores are committed, then the
   * notification call lacks its `user_id` argument and raises.
   */
  method UpdateScoreAsWritten(db: Db, id: int, score1: int, score2: int) returns (r: Result<bool>)
    modifies db
    ensures db.OnlyMatches()
    ensures r == Failure <==> id in old(db.matches) && old(db.matches[id]).status != Planned
    ensures r == Failure ==> db.matches == old(db.matches)[id := old(db.matches[id]).(score1 := Some(score1), score2 := Some(score2))]
    ensures r != Failure ==> r == Success(false) && db.matches == old(db.matches)
  {
    var ok := UpdateScore(db, id, score1, score2);
    r := if ok then Failure else Success(false);
  }

  /** `pause_match_timer` as written: only an ongoing match; the stored elapsed time is kept. */
  method PauseTimerAsWritten(db: Db, id: int, now: int) returns (ok: bool)
    modifies db
    ensures db.OnlyMatches()
    ensures ok <==> id in old(db.matches) && old(db.matches[id]).status == Ongoing
    ensures ok ==> db.matches == old(db.matches)[id := PausedAsWritten(old(db.matches[id]), now)]
    ensures !ok ==> db.matches == old(db.matches)
  {
    if id !in db.matches || db.matches[id].status != Ongoing {
      return false;
    }
    var m := db.matches[id].(paused := true);
    m := match CalculateElapsed(m, now) case Reads(e) => m.(elapsed := e) case Raises => m;
    db.matches := db.matches[id := m];
    ok := true;
  }

  /**
   * The intended `pause_match_timer`: stores the running time, then pauses.
   * A running match without a start time makes the reading raise; the
   * error escapes through the missing `rollback` and nothing is stored.
   */
  method PauseTimer(db: Db, id: int, now: int) returns (r: Result<bool>)
    modifies db
    ensures db.OnlyMatches()
    ensures r == Success(true) <==> id in old(db.matches) && old(db.matches[id]).status == Ongoing
                                    && CalculateElapsed(old(db.matches[id]), now).Reads?
    ensures r == Failure <==> id in old(db.matches) && old(db.matches[id]).status == Ongoing
                              && CalculateElapsed(old(db.matches[id]), now) == Raises
    ensures r == Success(true) ==> db.matches == old(db.matches)[id := Paused(old(db.matches[id]), now)]
    ensures r != Success(true) ==> db.matches == old(db.matches)
  {
    if id !in db.matches || db.matches[id].status != Ongoing {
      return Success(false);
    }
    if CalculateElapsed(db.matches[id], now) == Raises {
      return Failure;
    }
    db.matches := db.matches[id := Paused(db.matches[id], now)];
    r := Success(true);
  }

  /**
   * `resume_match_timer`: only an ongoing match; the clock restarts at
   * `now - elapsed_time`. Without a stored elapsed time the subtraction
   * raises and nothing changes.
   */
  method ResumeTimer(db: Db, id: int, now: int) returns (r: Result<bool>)
    modifies db
    ensures db.OnlyMatches()
    ensures r == Success(true) <==>
      id in old(db.matches) && old(db.matches[id]).status == Ongoing && old(db.matches[id]).elapsed.Some?
    ensures r == Failure <==>
      id in old(db.matches) && old(db.matches[id]).status == Ongoing && old(db.matches[id]).elapsed.None?
    ensures r == Success(true) ==> db.matches == old(db.matches)[id := Resumed(old(db.matches[id]), now)]
    ensures r != Success(true) ==> db.matches == old(db.matches)
  {
    if id !in db.matches || db.matches[id].status != Ongoing {
      return Success(false);
    }
    if db.matches[id].elapsed.None? {
      return Failure;
    }
    db.matches := db.matches[id := Resumed(db.matches[id], now)];
    r := Success(true);
  }

  datatype MatchStatusView = MatchStatusView(
    tournamentId: int,
    score1: Option<int>,
    score2: Option<int>,
    status: Status,
    startTime: Option<int>,
    field: int,
    paused: bool,
    elapsed: Option<int>
  )

  /**
   * `get_match_status`: empty (`None`) for an unknown match; the elapsed
   * time is the timer reading for an ongoing match and 0 otherwise. A
   * failing reading also gives the empty answer.
   */
  function GetMatchStatus(m: Option<Match>, now: int): (r: Option<MatchStatusView>)
    ensures m.None? ==> r.None?
    ensures m.Some? && m.value.status != Ongoing ==> r.Some? && r.value.elapsed == Some(0)
    ensures m.Some? && m.value.status == Ongoing ==>
      (r.None? <==> CalculateElapsed(m.value, now) == Raises)
      && (r.Some? ==> Reads(r.value.elapsed) == CalculateElapsed(m.value, now))
    ensures r.Some? ==> r.value.status == m.value.status && r.value.paused == m.value.paused
                        && r.value.score1 == m.value.score1 && r.value.score2 == m.value.score2
  {
    if m.None? then None
    else
      var x := m.value;
      var elapsed := if x.status == Ongoing then CalculateElapsed(x, now) else Reads(Some(0));
      match elapsed
      case Raises => None
      case Reads(e) => Some(MatchStatusView(x.tournamentId, x.score1, x.score2, x.status, x.startTime,
                                            x.field, x.paused, e))
  }
}
