/**
 * The JSON API blueprint (`blueprints/api.py`): the lifecycle transitions
 * of tournaments and matches and the score update. A transition the status
 * does not allow answers 400 and changes nothing; an unknown id raises a
 * 404 inside the handler's `try`, which answers 500 after a rollback
 * (`Failed`). Each lifecycle route applies `Step` to the status.
 */
module Api {
  import opened Wrappers
  import opened Domain
  import opened Views

  /** `POST /api/tournaments/<id>/start`: only a planned tournament starts, and its start time becomes now. */
  method StartTournament(db: Db, id: int, now: int) returns (r: Reply<()>)
    modifies db
    ensures db.OnlyTournaments()
    ensures id !in old(db.tournaments) ==> r == Failed
    ensures r.Ok? <==> id in old(db.tournaments) && old(db.tournaments)[id].status == Planned
    ensures r.Refused? ==> r.why == NotPlanned
    ensures r.Ok? ==> db.tournaments == old(db.tournaments)[id := old(db.tournaments)[id].(status := Ongoing, startTime := Some(now))]
    ensures id in old(db.tournaments) ==> id in db.tournaments && db.tournaments[id].status == Step(old(db.tournaments)[id].status, Start)
    ensures !r.Ok? ==> db.tournaments == old(db.tournaments)
  {
    if id !in db.tournaments {
      return Failed;
    }
    var t := db.tournaments[id];
    if t.status != Planned {
      return Refused(NotPlanned);
    }
    db.tournaments := db.tournaments[id := t.(status := Ongoing, startTime := Some(now))];
    r := Ok(());
  }

  /**
   * `POST /api/tournaments/<id>/end`: only an ongoing tournament ends; unlike
   * the tournament service, matches still being played do not prevent it.
   */
  method EndTournament(db: Db, id: int) returns (r: Reply<()>)
    modifies db
    ensures db.OnlyTournaments()
    ensures id !in old(db.tournaments) ==> r == Failed
    ensures r.Ok? <==> id in old(db.tournaments) && old(db.tournaments)[id].status == Ongoing
    ensures r.Refused? ==> r.why == NotOngoing
    ensures r.Ok? ==> db.tournaments == old(db.tournaments)[id := old(db.tournaments)[id].(status := Finished)]
    ensures id in old(db.tournaments) ==> id in db.tournaments && db.tournaments[id].status == Step(old(db.tournaments)[id].status, End)
    ensures !r.Ok? ==> db.tournaments == old(db.tournaments)
  {
    if id !in db.tournaments {
      return Failed;
    }
    var t := db.tournaments[id];
    if t.status != Ongoing {
      return Refused(NotOngoing);
    }
    db.tournaments := db.tournaments[id := t.(status := Finished)];
    r := Ok(());
  }

  /** `POST /api/matches/<id>/start`: only a planned match starts, and its start time becomes now. */
  method StartMatch(db: Db, id: int, now: int) returns (r: Reply<()>)
    modifies db
    ensures db.OnlyMatches()
    ensures id !in old(db.matches) ==> r == Failed
    ensures r.Ok? <==> id in old(db.matches) && old(db.matches)[id].status == Planned
    ensures r.Refused? ==> r.why == NotPlanned
    ensures r.Ok? ==> db.matches == old(db.matches)[id := old(db.matches)[id].(status := Ongoing, startTime := Some(now))]
    ensures id in old(db.matches) ==> id in db.matches && db.matches[id].status == Step(old(db.matches)[id].status, Start)
    ensures !r.Ok? ==> db.matches == old(db.matches)
  {
    if id !in db.matches {
      return Failed;
    }
    var m := db.matches[id];
    if m.status != Planned {
      return Refused(NotPlanned);
    }
    db.matches := db.matches[id := m.(status := Ongoing, startTime := Some(now))];
    r := Ok(());
  }

  /** `POST /api/matches/<id>/end`: only an ongoing match ends. */
  method EndMatch(db: Db, id: int) returns (r: Reply<()>)
    modifies db
    ensures db.OnlyMatches()
    ensures id !in old(db.matches) ==> r == Failed
    ensures r.Ok? <==> id in old(db.matches) && old(db.matches)[id].status == Ongoing
    ensures r.Refused? ==> r.why == NotOngoing
    ensures r.Ok? ==> db.matches == old(db.matches)[id := old(db.matches)[id].(status := Finished)]
    ensures id in old(db.matches) ==> id in db.matches && db.matches[id].status == Step(old(db.matches)[id].status, End)
    ensures !r.Ok? ==> db.matches == old(db.matches)
  {
    if id !in db.matches {
      return Failed;
    }
    var m := db.matches[id];
    if m.status != Ongoing {
      return Refused(NotOngoing);
    }
    db.matches := db.matches[id := m.(status := Finished)];
    r := Ok(());
  }

  /**
   * `POST /api/matches/<id>/score`: only an ongoing match, and only with
   * both scores in the request; both are then written, and nothing else.
   */
  method UpdateScore(db: Db, id: int, score1: Option<int>, score2: Option<int>) returns (r: Reply<()>)
    modifies db
    ensures db.OnlyMatches()
    ensures id !in old(db.matches) ==> r == Failed
    ensures r.Ok? <==> id in old(db.matches) && old(db.matches)[id].status == Ongoing && score1.Some? && score2.Some?
    ensures r.Refused? ==> r.why == (if old(db.matches)[id].status != Ongoing then NotOngoing else MissingField)
    ensures r.Ok? ==> db.matches == old(db.matches)[id := old(db.matches)[id].(score1 := score1, score2 := score2)]
    ensures !r.Ok? ==> db.matches == old(db.matches)
  {
    if id !in db.matches {
      return Failed;
    }
    var m := db.matches[id];
    if m.status != Ongoing {
      return Refused(NotOngoing);
    }
    if score1.None? || score2.None? {
      return Refused(MissingField);
    }
    db.matches := db.matches[id := m.(score1 := score1, score2 := score2)];
    r := Ok(());
  }

  /** The two lifecycle calls of the API. */
  datatype Call = Start | End

  /** The status after one call: start moves planned to ongoing, end moves ongoing to finished, anything else is refused. */
  function Step(s: Status, c: Call): (r: Status)
    ensures r != s <==> (c == Start && s == Planned) || (c == End && s == Ongoing)
    ensures r != s ==> Rank(r) == Rank(s) + 1
  {
    match c
    case Start => if s == Planned then Ongoing else s
    case End => if s == Ongoing then Finished else s
  }

  /** The status after a sequence of calls, in order. */
  function Run(s: Status, calls: seq<Call>): Status
    decreases |calls|
  {
    if calls == [] then s else Run(Step(s, calls[0]), calls[1..])
  }

  /**
   * Whatever calls arrive, a status only moves forward, a finished one stays
   * finished, and the status changes at most twice: it ends planned only
   * if it started planned.
   */
  lemma {:induction false} RunMonotone(s: Status, calls: seq<Call>)
    ensures Rank(Run(s, calls)) >= Rank(s)
    ensures s == Finished ==> Run(s, calls) == Finished
    ensures Run(s, calls) == Planned ==> s == Planned
    decreases |calls|
  {
    if calls != [] {
      RunMonotone(Step(s, calls[0]), calls[1..]);
    }
  }

  /** Start then end takes a planned tournament or match to finished; end first is refused and start alone then applies. */
  lemma CallOrder()
    ensures Run(Planned, [Start, End]) == Finished
    ensures Run(Planned, [End, Start]) == Ongoing
  {
  }
}
