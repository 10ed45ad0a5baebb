/**
 * Tournament lifecycle and round-robin match generation of the tournament
 * service (`services/tournament_service.py`), over the tables of `Db`.
 *
 * `generate_matches` pairs every two teams once and places each pair on the
 * field that becomes free first (ties to the lowest field number); that
 * field is then busy for `match_length + break_length` minutes. Fields run
 * in parallel.
 */
module TournamentService {
  import opened Wrappers
  import opened Domain

  /** One generated pairing: `team1` plays `team2`. */
  datatype Pair = Pair(home: int, away: int)

  /** A scheduled pairing: its start time (seconds) and field number (from 1). */
  datatype Slot = Slot(pair: Pair, start: int, field: int)

  /** The pairings of `t` with each team after it, in order. */
  function Against(t: int, rest: seq<int>): (r: seq<Pair>)
    ensures |r| == |rest| && forall k :: 0 <= k < |rest| ==> r[k] == Pair(t, rest[k])
  {
    if rest == [] then [] else [Pair(t, rest[0])] + Against(t, rest[1..])
  }

  /** Every pair `(teams[i], teams[j])` with `i < j`, row by row. */
  function Pairs(ts: seq<int>): (r: seq<Pair>)
    ensures forall k :: 0 <= k < |r| ==> r[k].home in ts && r[k].away in ts
  {
    if ts == [] then [] else Against(ts[0], ts[1..]) + Pairs(ts[1..])
  }

  /** n teams give n(n-1)/2 pairings. */
  lemma {:induction false} PairsCount(ts: seq<int>)
    ensures 2 * |Pairs(ts)| == |ts| * (|ts| - 1)
    decreases |ts|
  {
    if ts != [] {
      PairsCount(ts[1..]);
      var n := |ts|;
      assert 2 * |Pairs(ts)| == 2 * (n - 1) + (n - 1) * (n - 2);
      assert (n - 1) * (n - 2) == (n - 1) * n - 2 * (n - 1);
    }
  }

  /** A pairing is generated iff it is `(teams[i], teams[j])` for some `i < j`. */
  lemma {:induction false} PairsExactly(ts: seq<int>, p: Pair)
    ensures p in Pairs(ts) <==> exists i, j :: 0 <= i < j < |ts| && p == Pair(ts[i], ts[j])
    decreases |ts|
  {
    if ts != [] {
      var rest := ts[1..];
      PairsExactly(rest, p);
      if p in Pairs(ts) {
        if p in Against(ts[0], rest) {
          var k :| 0 <= k < |rest| && Against(ts[0], rest)[k] == p;
          assert p == Pair(ts[0], ts[k + 1]);
        } else {
          assert p in Pairs(rest);
          var i, j :| 0 <= i < j < |rest| && p == Pair(rest[i], rest[j]);
          assert p == Pair(ts[i + 1], ts[j + 1]);
        }
      }
      if exists i, j :: 0 <= i < j < |ts| && p == Pair(ts[i], ts[j]) {
        var i, j :| 0 <= i < j < |ts| && p == Pair(ts[i], ts[j]);
        if i == 0 {
          assert Against(ts[0], rest)[j - 1] == p;
        } else {
          assert p == Pair(rest[i - 1], rest[j - 1]);
          assert p in Pairs(rest);
        }
      }
    }
  }

  /** The inner loop `for team2 in teams[i+1:]`: `t` against each later team. */
  method PairsWith(t: int, rest: seq<int>) returns (ps: seq<Pair>)
    ensures ps == Against(t, rest)
  {
    ps := [];
    var j := 0;
    while j < |rest|
      invariant 0 <= j <= |rest| && |ps| == j
      invariant forall k :: 0 <= k < j ==> ps[k] == Pair(t, rest[k])
    {
      ps := ps + [Pair(t, rest[j])];
      j := j + 1;
    }
  }

  /** The nested `for i, team1 in enumerate(teams): for team2 in teams[i+1:]` loop. */
  method MakePairs(ts: seq<int>) returns (ps: seq<Pair>)
    ensures ps == Pairs(ts)
  {
    ps := [];
    var i := 0;
    while i < |ts|
      invariant 0 <= i <= |ts|
      invariant ps + Pairs(ts[i..]) == Pairs(ts)
    {
      assert ts[i..][1..] == ts[i + 1..];
      assert Pairs(ts[i..]) == Against(ts[i], ts[i + 1..]) + Pairs(ts[i + 1..]);
      var row := PairsWith(ts[i], ts[i + 1..]);
      ps := ps + row;
      i := i + 1;
    }
  }

  /**
   * `min(field_times, key=field_times.get)` with `field_times[f]` at index
   * `f - 1`: the index of a least value, the lowest such index on ties.
   */
  function ArgMin(ts: seq<int>): (k: nat)
    requires |ts| > 0
    ensures k < |ts|
  {
    if |ts| == 1 then 0
    else
      var k := ArgMin(ts[..|ts| - 1]);
      if ts[|ts| - 1] < ts[k] then |ts| - 1 else k
  }

  /** The chosen index holds a least value, and every index before it a greater one. */
  lemma {:induction false} ArgMinLeast(ts: seq<int>)
    requires |ts| > 0
    ensures forall j :: 0 <= j < |ts| ==> ts[ArgMin(ts)] <= ts[j]
    ensures forall j :: 0 <= j < ArgMin(ts) ==> ts[ArgMin(ts)] < ts[j]
  {
    if |ts| > 1 {
      var init := ts[..|ts| - 1];
      ArgMinLeast(init);
      assert forall j :: 0 <= j < |init| ==> init[j] == ts[j];
    }
  }

  /** Every field free at `start`. */
  function Uniform(fields: nat, start: int): (r: seq<int>)
    ensures |r| == fields && forall j :: 0 <= j < fields ==> r[j] == start
  {
    seq(fields, _ => start)
  }

  /**
   * The greedy placement: each pairing in turn takes the field free first,
   * which then becomes free `d` seconds later.
   */
  function Greedy(ps: seq<Pair>, times: seq<int>, d: int): (r: seq<Slot>)
    requires |times| > 0
    ensures |r| == |ps|
  {
    if ps == [] then []
    else
      var k := ArgMin(times);
      [Slot(ps[0], times[k], k + 1)] + Greedy(ps[1..], times[k := times[k] + d], d)
  }

  /** Greedy placement keeps the pairings in order and uses only existing fields. */
  lemma {:induction false} GreedyShape(ps: seq<Pair>, times: seq<int>, d: int)
    requires |times| > 0
    ensures forall i :: 0 <= i < |ps| ==> Greedy(ps, times, d)[i].pair == ps[i] && 1 <= Greedy(ps, times, d)[i].field <= |times|
    decreases |ps|
  {
    if ps != [] {
      var k := ArgMin(times);
      var next := times[k := times[k] + d];
      GreedyShape(ps[1..], next, d);
      var r := Greedy(ps, times, d);
      forall i | 1 <= i < |ps| ensures r[i] == Greedy(ps[1..], next, d)[i - 1] { }
    }
  }

  /** The scheduling loop of `generate_matches` over the `field_times` table. */
  method Schedule(ps: seq<Pair>, start: int, fields: int, d: int) returns (slots: seq<Slot>)
    requires fields >= 1
    ensures slots == Greedy(ps, Uniform(fields, start), d)
  {
    var fieldTimes := Uniform(fields, start);
    ghost var plan := Greedy(ps, fieldTimes, d);
    slots := [];
    var i := 0;
    assert ps[0..] == ps;
    while i < |ps|
      invariant 0 <= i <= |ps| && |fieldTimes| == fields
      invariant slots + Greedy(ps[i..], fieldTimes, d) == plan
    {
      var f := ArgMin(fieldTimes);
      var s := Slot(ps[i], fieldTimes[f], f + 1);
      var next := fieldTimes[f := fieldTimes[f] + d];
      ghost var rest := Greedy(ps[i + 1..], next, d);
      GreedyStep(ps, i, fieldTimes, d, f);
      Shift(slots, s, rest, plan);
      slots := slots + [s];
      fieldTimes := next;
      i := i + 1;
    }
    assert ps[|ps|..] == [];
  }

  lemma Shift<T>(done: seq<T>, x: T, rest: seq<T>, whole: seq<T>)
    requires done + ([x] + rest) == whole
    ensures (done + [x]) + rest == whole
  {
    assert (done + [x]) + rest == done + ([x] + rest);
  }

  /** One placement of the greedy loop. */
  lemma {:induction false} GreedyStep(ps: seq<Pair>, i: int, times: seq<int>, d: int, k: nat)
    requires 0 <= i < |ps| && |times| > 0 && k == ArgMin(times)
    ensures Greedy(ps[i..], times, d) == [Slot(ps[i], times[k], k + 1)] + Greedy(ps[i + 1..], times[k := times[k] + d], d)
  {
    var q := ps[i..];
    assert q[1..] == ps[i + 1..];
    GreedyUnfold(q, times, d);
  }

  lemma {:induction false} GreedyUnfold(q: seq<Pair>, times: seq<int>, d: int)
    requires q != [] && |times| > 0
    ensures Greedy(q, times, d) == [Slot(q[0], times[ArgMin(times)], ArgMin(times) + 1)] + Greedy(q[1..], times[ArgMin(times) := times[ArgMin(times)] + d], d)
  {
    var k := ArgMin(times);
    var next := times[k := times[k] + d];
    assert Greedy(q, times, d) == [Slot(q[0], times[k], k + 1)] + Greedy(q[1..], next, d);
  }

  /** No match on field `f + 1` starts before that field is free. */
  lemma {:induction false} GreedyNotBefore(ps: seq<Pair>, times: seq<int>, d: int, f: int)
    requires d >= 0 && 0 <= f < |times|
    ensures forall i :: 0 <= i < |Greedy(ps, times, d)| && Greedy(ps, times, d)[i].field == f + 1 ==>
      Greedy(ps, times, d)[i].start >= times[f]
    decreases |ps|
  {
    if ps != [] {
      var k := ArgMin(times);
      var next := times[k := times[k] + d];
      var r := Greedy(ps, times, d);
      var tail := Greedy(ps[1..], next, d);
      assert r == [Slot(ps[0], times[k], k + 1)] + tail;
      GreedyNotBefore(ps[1..], next, d, f);
      assert next[f] >= times[f];
      forall i | 0 <= i < |r| && r[i].field == f + 1 ensures r[i].start >= times[f] {
        if i > 0 {
          assert r[i] == tail[i - 1];
          assert tail[i - 1].field == f + 1;
          assert tail[i - 1].start >= next[f];
        } else {
          assert r[i] == Slot(ps[0], times[k], k + 1);
          assert k == f;
        }
      }
    }
  }

  /**
   * Matches on one field never overlap: a later match on the same field
   * starts at least `d` after an earlier one.
   */
  lemma {:induction false} GreedyNoOverlap(ps: seq<Pair>, times: seq<int>, d: int)
    requires d >= 0 && |times| > 0
    ensures forall i, j :: 0 <= i < j < |Greedy(ps, times, d)| && Greedy(ps, times, d)[i].field == Greedy(ps, times, d)[j].field ==>
      Greedy(ps, times, d)[j].start >= Greedy(ps, times, d)[i].start + d
    decreases |ps|
  {
    if ps != [] {
      var k := ArgMin(times);
      var next := times[k := times[k] + d];
      var r := Greedy(ps, times, d);
      var tail := Greedy(ps[1..], next, d);
      assert r == [Slot(ps[0], times[k], k + 1)] + tail;
      GreedyNoOverlap(ps[1..], next, d);
      GreedyNotBefore(ps[1..], next, d, k);
      forall i, j | 0 <= i < j < |r| && r[i].field == r[j].field
        ensures r[j].start >= r[i].start + d
      {
        if i > 0 {
          assert r[i] == tail[i - 1] && r[j] == tail[j - 1];
        } else {
          assert r[i] == Slot(ps[0], times[k], k + 1);
          assert r[j] == tail[j - 1] && tail[j - 1].field == k + 1;
          assert tail[j - 1].start >= next[k] == times[k] + d;
        }
      }
    }
  }

  lemma {:induction false} MulAtLeast(a: int, f: int)
    requires a >= 1 && f >= 1
    ensures a * f >= f
    decreases a
  {
    if a > 1 {
      MulAtLeast(a - 1, f);
      assert a * f == (a - 1) * f + f;
    }
  }

  lemma DivModUnique(n: int, f: int, q: int, r: int)
    requires f >= 1 && 0 <= r < f && n == f * q + r
    ensures n / f == q && n % f == r
  {
    var q', r' := n / f, n % f;
    assert n == f * q' + r';
    assert f * (q - q') == r' - r;
    if q - q' >= 1 {
      MulAtLeast(q - q', f);
      assert false;
    } else if q' - q >= 1 {
      MulAtLeast(q' - q, f);
      assert false;
    }
  }

  lemma DivModStep(n: nat, f: int)
    requires f >= 1
    ensures n % f < f - 1 ==> (n + 1) / f == n / f && (n + 1) % f == n % f + 1
    ensures n % f == f - 1 ==> (n + 1) / f == n / f + 1 && (n + 1) % f == 0
  {
    var q, r := n / f, n % f;
    assert n == f * q + r;
    if r < f - 1 {
      DivModUnique(n + 1, f, q, r + 1);
    } else {
      assert n + 1 == f * (q + 1) + 0;
      DivModUnique(n + 1, f, q + 1, 0);
    }
  }

  /**
   * The field table after `n` placements of equal length `d` from `start`,
   * placed round-robin: placement `m` moves field `m mod F` on by `d`.
   */
  function Table(n: nat, fields: int, start: int, d: int): (r: seq<int>)
    requires fields >= 1
    ensures |r| == fields
  {
    if n == 0 then Uniform(fields, start)
    else Table(n - 1, fields, start, d)[(n - 1) % fields := Kickoff(n - 1, fields, start, d) + d]
  }

  /** Placement `n` moves field `n mod F` on by `d`. */
  lemma TableNext(n: nat, fields: int, start: int, d: int)
    requires fields >= 1
    ensures Table(n + 1, fields, start, d) == Table(n, fields, start, d)[n % fields := Kickoff(n, fields, start, d) + d]
  {
  }

  /** After `n` placements, field `j` is free at kickoff `n`, plus `d` if it is one of the first `n mod F`. */
  lemma {:induction false} TableClosed(n: nat, fields: int, start: int, d: int)
    requires fields >= 1
    ensures forall j :: 0 <= j < fields ==>
      Table(n, fields, start, d)[j] == Kickoff(n, fields, start, d) + (if j < n % fields then d else 0)
  {
    if n > 0 {
      var m: nat := n - 1;
      TableClosed(m, fields, start, d);
      KickoffStep(m, fields, start, d);
      var t := Table(m, fields, start, d);
      forall j | 0 <= j < fields
        ensures Table(n, fields, start, d)[j] == Kickoff(n, fields, start, d) + (if j < n % fields then d else 0)
      {
        if j != m % fields {
          assert Table(n, fields, start, d)[j] == t[j];
        }
      }
    }
  }

  /** One more placement moves to the next field, or back to the first one a round later. */
  lemma KickoffStep(m: nat, fields: int, start: int, d: int)
    requires fields >= 1
    ensures m % fields < fields - 1 ==> (m + 1) % fields == m % fields + 1 && Kickoff(m + 1, fields, start, d) == Kickoff(m, fields, start, d)
    ensures m % fields == fields - 1 ==> (m + 1) % fields == 0 && Kickoff(m + 1, fields, start, d) == Kickoff(m, fields, start, d) + d
  {
    var q := m / fields;
    DivModStep(m, fields);
    assert (q + 1) * d == q * d + d;
  }

  /** With equal lengths, the field free first after `n` placements is `n mod F`, free at kickoff `n`. */
  lemma ArgMinTable(n: nat, fields: int, start: int, d: int)
    requires fields >= 1 && d > 0
    ensures ArgMin(Table(n, fields, start, d)) == n % fields
    ensures Table(n, fields, start, d)[n % fields] == Kickoff(n, fields, start, d)
  {
    TableClosed(n, fields, start, d);
    LeastAfterRaised(Table(n, fields, start, d), n % fields, Kickoff(n, fields, start, d), d);
  }

  /** In a table whose first `r` entries are `lo + d` and the rest `lo`, the first least entry is at `r`. */
  lemma LeastAfterRaised(t: seq<int>, r: int, lo: int, d: int)
    requires 0 <= r < |t| && d > 0
    requires forall j :: 0 <= j < |t| ==> t[j] == lo + (if j < r then d else 0)
    ensures ArgMin(t) == r && t[r] == lo
  {
    ArgMinLeast(t);
  }

  /** The field of the match placed `m`-th: `(m mod F) + 1`. */
  function Lane(m: nat, fields: int): int
    requires fields >= 1
  {
    m % fields + 1
  }

  /** The start of the match placed `m`-th: `start + (m div F) * d`. */
  function Kickoff(m: nat, fields: int, start: int, d: int): int
    requires fields >= 1
  {
    start + (m / fields) * d
  }

  /** The slots of round-robin placement from the `n`-th placement on. */
  function Placed(ps: seq<Pair>, n: nat, fields: int, start: int, d: int): (r: seq<Slot>)
    requires fields >= 1
    ensures |r| == |ps|
    decreases |ps|
  {
    if ps == [] then [] else [Slot(ps[0], Kickoff(n, fields, start, d), Lane(n, fields))] + Placed(ps[1..], n + 1, fields, start, d)
  }

  /** The greedy placement after `n` equal ones is round-robin placement. */
  lemma {:induction false} RoundRobinFrom(ps: seq<Pair>, n: nat, fields: int, start: int, d: int)
    requires fields >= 1 && d > 0
    ensures Greedy(ps, Table(n, fields, start, d), d) == Placed(ps, n, fields, start, d)
    decreases |ps|
  {
    if ps != [] {
      RoundRobinHead(ps, n, fields, start, d);
      RoundRobinFrom(ps[1..], n + 1, fields, start, d);
    }
  }

  /** The first placement after `n` equal ones goes to lane and kickoff number `n`. */
  lemma RoundRobinHead(ps: seq<Pair>, n: nat, fields: int, start: int, d: int)
    requires fields >= 1 && d > 0 && ps != []
    ensures Greedy(ps, Table(n, fields, start, d), d)
      == [Slot(ps[0], Kickoff(n, fields, start, d), Lane(n, fields))] + Greedy(ps[1..], Table(n + 1, fields, start, d), d)
  {
    ArgMinTable(n, fields, start, d);
    TableNext(n, fields, start, d);
    GreedyFirst(ps, Table(n, fields, start, d), d, n % fields, Kickoff(n, fields, start, d), Table(n + 1, fields, start, d));
  }

  /** Greedy placement, given where its first match goes and the table after it. */
  lemma GreedyFirst(ps: seq<Pair>, t: seq<int>, d: int, k: int, kick: int, next: seq<int>)
    requires ps != [] && 0 <= k < |t|
    requires ArgMin(t) == k && t[k] == kick && t[k := kick + d] == next
    ensures Greedy(ps, t, d) == [Slot(ps[0], kick, k + 1)] + Greedy(ps[1..], next, d)
  {
    GreedyUnfold(ps, t, d);
  }

  /** The `k`-th round-robin slot from `n` on is lane and kickoff number `n + k`. */
  lemma {:induction false} PlacedAt(ps: seq<Pair>, n: nat, fields: int, start: int, d: int)
    requires fields >= 1
    ensures forall k :: 0 <= k < |ps| ==>
      Placed(ps, n, fields, start, d)[k] == Slot(ps[k], Kickoff(n + k, fields, start, d), Lane(n + k, fields))
    decreases |ps|
  {
    if ps != [] {
      var r := Placed(ps, n, fields, start, d);
      var tail := Placed(ps[1..], n + 1, fields, start, d);
      PlacedAt(ps[1..], n + 1, fields, start, d);
      forall k | 0 <= k < |ps|
        ensures r[k] == Slot(ps[k], Kickoff(n + k, fields, start, d), Lane(n + k, fields))
      {
        if k > 0 {
          var m: nat := n + 1 + (k - 1);
          assert m == n + k;
          assert r[k] == tail[k - 1] == Slot(ps[1..][k - 1], Kickoff(m, fields, start, d), Lane(m, fields));
        }
      }
    }
  }

  /**
   * With all fields free at `start` and every match taking `d` seconds,
   * match k goes to field `(k mod F) + 1` at `start + (k div F) * d`.
   */
  lemma RoundRobin(ps: seq<Pair>, fields: int, start: int, d: int)
    requires fields >= 1 && d > 0
    ensures var r := Greedy(ps, Uniform(fields, start), d);
      forall k :: 0 <= k < |r| ==> r[k].field == k % fields + 1 && r[k].start == start + (k / fields) * d
  {
    RoundRobinFrom(ps, 0, fields, start, d);
    PlacedAt(ps, 0, fields, start, d);
    var r := Greedy(ps, Uniform(fields, start), d);
    forall k | 0 <= k < |r| ensures r[k].field == k % fields + 1 && r[k].start == start + (k / fields) * d {
      assert 0 + k == k;
    }
  }

  /** The generated match of a slot: planned, with the column defaults. */
  function MatchOf(tid: int, s: Slot): (m: Match)
    ensures m.status == Planned && m.tournamentId == tid && m.field == s.field && m.startTime == Some(s.start)
    ensures m.team1 == s.pair.home && m.team2 == s.pair.away && m.score1.None? && m.score2.None?
  {
    NewMatch(tid, s.pair.home, s.pair.away, Some(s.start)).(field := s.field)
  }

  /**
   * The match table after the tournament's old matches are deleted and the
   * slots are inserted under ids `nextId, nextId + 1, ...`.
   */
  function Replaced(ms: map<int, Match>, tid: int, nextId: int, slots: seq<Slot>): (r: map<int, Match>)
    requires forall id :: id in ms ==> id < nextId
    ensures forall id :: id in r <==> (id in ms && ms[id].tournamentId != tid) || nextId <= id < nextId + |slots|
    ensures forall id :: id in ms && ms[id].tournamentId != tid ==> r[id] == ms[id]
    ensures forall i :: 0 <= i < |slots| ==> r[nextId + i] == MatchOf(tid, slots[i])
  {
    if slots == [] then map id | id in ms && ms[id].tournamentId != tid :: ms[id]
    else Replaced(ms, tid, nextId, slots[..|slots| - 1])[nextId + |slots| - 1 := MatchOf(tid, slots[|slots| - 1])]
  }

  /** The delete of the tournament's matches followed by the `self.add(match)` loop. */
  method Store(ms: map<int, Match>, tid: int, nextId: int, slots: seq<Slot>) returns (table: map<int, Match>)
    requires forall id :: id in ms ==> id < nextId
    ensures table == Replaced(ms, tid, nextId, slots)
  {
    table := map id | id in ms && ms[id].tournamentId != tid :: ms[id];
    var i := 0;
    while i < |slots|
      invariant 0 <= i <= |slots|
      invariant table == Replaced(ms, tid, nextId, slots[..i])
    {
      assert slots[..i + 1][..i] == slots[..i];
      table := table[nextId + i := MatchOf(tid, slots[i])];
      i := i + 1;
    }
    assert slots[..|slots|] == slots;
  }

  /** The seconds a field is busy per match: `match_length + break_length` minutes. */
  function SlotLength(t: Tournament): int {
    60 * (t.matchLength + t.breakLength)
  }

  /** The tournament is one `generate_matches` will schedule. */
  predicate CanGenerate(t: Tournament, teamCount: int) {
    t.status == Planned && teamCount >= 2 && t.startTime.Some?
  }

  /**
   * `generate_matches`, given the tournament's teams in list order. Refused
   * (`false`, nothing changes) for a missing or non-planned tournament,
   * fewer than two teams or no start time. With no fields, `min` of the
   * empty table raises and the handler's `self.session.rollback()` raises
   * in turn (`BaseService` has no `session`): the call fails with nothing
   * changed. Otherwise the tournament's matches are replaced by the greedy
   * schedule of all pairings.
   */
  method GenerateMatches(db: Db, tid: int, teamIds: seq<int>, nextId: int) returns (r: Result<bool>)
    requires forall id :: id in db.matches ==> id < nextId
    modifies db
    ensures db.OnlyMatches()
    ensures r == Failure <==>
      tid in old(db.tournaments) && CanGenerate(old(db.tournaments[tid]), |teamIds|) && old(db.tournaments[tid]).numberOfFields < 1
    ensures r == Success(true) <==>
      tid in old(db.tournaments) && CanGenerate(old(db.tournaments[tid]), |teamIds|) && old(db.tournaments[tid]).numberOfFields >= 1
    ensures r != Success(true) ==> db.matches == old(db.matches)
    ensures r == Success(true) ==> var t := old(db.tournaments[tid]);
      db.matches == Replaced(old(db.matches), tid, nextId,
                             Greedy(Pairs(teamIds), Uniform(t.numberOfFields, t.startTime.value), SlotLength(t)))
  {
    if tid !in db.tournaments || !CanGenerate(db.tournaments[tid], |teamIds|) {
      r := Success(false);
    } else if db.tournaments[tid].numberOfFields < 1 {
      r := Failure;
    } else {
      db.matches := Regenerate(db.matches, tid, teamIds, db.tournaments[tid], nextId);
      r := Success(true);
    }
  }

  /** The success path of `generate_matches`: all pairings, scheduled greedily, replace the tournament's matches. */
  method Regenerate(ms: map<int, Match>, tid: int, teamIds: seq<int>, t: Tournament, nextId: int) returns (table: map<int, Match>)
    requires forall id :: id in ms ==> id < nextId
    requires t.startTime.Some? && t.numberOfFields >= 1
    ensures table == Replaced(ms, tid, nextId, Greedy(Pairs(teamIds), Uniform(t.numberOfFields, t.startTime.value), SlotLength(t)))
  {
    var pairs := MakePairs(teamIds);
    var slots := Schedule(pairs, t.startTime.value, t.numberOfFields, SlotLength(t));
    table := Store(ms, tid, nextId, slots);
  }

  /**
   * Every generated match lies on a field `1..number_of_fields`, the schedule
   * holds one match per pairing in pair order, n(n-1)/2 in all, and the
   * matches of each field are at least one slot length apart.
   */
  lemma GeneratedSchedule(teamIds: seq<int>, fields: int, start: int, d: int)
    requires fields >= 1 && d >= 0
    ensures var r := Greedy(Pairs(teamIds), Uniform(fields, start), d);
      2 * |r| == |teamIds| * (|teamIds| - 1)
      && (forall i :: 0 <= i < |r| ==> 1 <= r[i].field <= fields && r[i].pair == Pairs(teamIds)[i] && r[i].start >= start)
      && (forall i, j :: 0 <= i < j < |r| && r[i].field == r[j].field ==> r[j].start >= r[i].start + d)
  {
    var ps := Pairs(teamIds);
    var u := Uniform(fields, start);
    var r := Greedy(ps, u, d);
    PairsCount(teamIds);
    GreedyShape(ps, u, d);
    GreedyNoOverlap(ps, u, d);
    forall i | 0 <= i < |r| ensures r[i].start >= start {
      GreedyNotBefore(ps, u, d, r[i].field - 1);
    }
  }

  /**
   * `start_tournament`: `planned -> ongoing`. The change is committed before
   * the notification task is submitted; `scheduled` is whether that
   * submission succeeds. When it raises, the handler's `self.rollback()`
   * (which `BaseService` does not define) raises in turn.
   */
  method StartTournament(db: Db, tid: int, scheduled: bool) returns (r: Result<bool>)
    modifies db
    ensures db.OnlyTournaments()
    ensures r.Success? && r.value <==> scheduled && tid in old(db.tournaments) && old(db.tournaments[tid]).status == Planned
    ensures r == Failure <==> !scheduled && tid in old(db.tournaments) && old(db.tournaments[tid]).status == Planned
    ensures r != Success(false) ==> db.tournaments == old(db.tournaments)[tid := old(db.tournaments[tid]).(status := Ongoing)]
    ensures r == Success(false) ==> db.tournaments == old(db.tournaments)
  {
    if tid !in db.tournaments || db.tournaments[tid].status != Planned {
      return Success(false);
    }
    db.tournaments := db.tournaments[tid := db.tournaments[tid].(status := Ongoing)];
    r := if scheduled then Success(true) else Failure;
  }

  /** Some match of the tournament is `ongoing`. */
  predicate HasOngoing(ms: map<int, Match>, tid: int) {
    exists id :: id in ms && ms[id].tournamentId == tid && ms[id].status == Ongoing
  }

  /**
   * `end_tournament`: `ongoing -> finished`, refused while any of its
   * matches is `ongoing`; the notification submission as in `StartTournament`.
   */
  method EndTournament(db: Db, tid: int, scheduled: bool) returns (r: Result<bool>)
    modifies db
    ensures db.OnlyTournaments()
    ensures r.Success? && r.value <==>
      (scheduled && tid in old(db.tournaments) && old(db.tournaments[tid]).status == Ongoing && !HasOngoing(db.matches, tid))
    ensures r == Failure <==>
      (!scheduled && tid in old(db.tournaments) && old(db.tournaments[tid]).status == Ongoing && !HasOngoing(db.matches, tid))
    ensures r != Success(false) ==> db.tournaments == old(db.tournaments)[tid := old(db.tournaments[tid]).(status := Finished)]
    ensures r == Success(false) ==> db.tournaments == old(db.tournaments)
  {
    if tid !in db.tournaments || db.tournaments[tid].status != Ongoing {
      return Success(false);
    }
    if HasOngoing(db.matches, tid) {
      return Success(false);
    }
    db.tournaments := db.tournaments[tid := db.tournaments[tid].(status := Finished)];
    r := if scheduled then Success(true) else Failure;
  }

  /** `add_team_to_tournament`: only into a planned tournament; no name check here. */
  method AddTeamToTournament(db: Db, tid: int, name: string, id: int) returns (r: Option<int>)
    requires id !in db.teams
    modifies db
    ensures db.OnlyTeamsAndMatches() && db.matches == old(db.matches)
    ensures r.Some? <==> tid in db.tournaments && db.tournaments[tid].status == Planned
    ensures r.Some? ==> r.value == id && db.teams == old(db.teams)[id := Team(name, tid)]
    ensures r.None? ==> db.teams == old(db.teams)
  {
    if tid !in db.tournaments || db.tournaments[tid].status != Planned {
      return None;
    }
    db.teams := db.teams[id := Team(name, tid)];
    r := Some(id);
  }

  /** Some match of ANY tournament has the team on either side. */
  predicate PlaysAnywhere(ms: map<int, Match>, teamId: int) {
    exists id :: id in ms && Involves(ms[id], teamId)
  }

  /**
   * `remove_team_from_tournament`: refused unless the tournament is planned
   * and no match anywhere involves the team. The delete is filtered by both
   * ids, so a team of another tournament stays, yet the answer is `true`.
   */
  method RemoveTeamFromTournament(db: Db, tid: int, teamId: int) returns (ok: bool)
    modifies db
    ensures db.OnlyTeamsAndMatches() && db.matches == old(db.matches)
    ensures ok <==> tid in db.tournaments && db.tournaments[tid].status == Planned && !PlaysAnywhere(db.matches, teamId)
    ensures ok && teamId in old(db.teams) && old(db.teams[teamId]).tournamentId == tid ==>
      db.teams == old(db.teams) - {teamId}
    ensures !(ok && teamId in old(db.teams) && old(db.teams[teamId]).tournamentId == tid) ==>
      db.teams == old(db.teams)
  {
    if tid !in db.tournaments || db.tournaments[tid].status != Planned {
      return false;
    }
    if PlaysAnywhere(db.matches, teamId) {
      return false;
    }
    if teamId in db.teams && db.teams[teamId].tournamentId == tid {
      db.teams := db.teams - {teamId};
    }
    ok := true;
  }

  /**
   * The keyword arguments of `update_tournament` that name tournament
   * attributes; a keyword naming no attribute is skipped by `hasattr`, so
   * it has no place here.
   */
  datatype TournamentEdit = TournamentEdit(
    name: Option<string>,
    yearId: Option<int>,
    status: Option<Status>,
    startTime: Option<Option<int>>,
    numberOfFields: Option<int>,
    matchLength: Option<int>,
    breakLength: Option<int>
  )

  /** `update_tournament`: `false` for an unknown tournament; otherwise only the given attributes change. */
  method UpdateTournament(db: Db, tid: int, e: TournamentEdit) returns (ok: bool)
    modifies db
    ensures db.OnlyTournaments()
    ensures ok <==> tid in old(db.tournaments)
    ensures !ok ==> db.tournaments == old(db.tournaments)
    ensures ok ==> db.tournaments.Keys == old(db.tournaments).Keys
    ensures ok ==> forall id :: id in db.tournaments && id != tid ==> db.tournaments[id] == old(db.tournaments[id])
    ensures ok ==> var t, u := old(db.tournaments[tid]), db.tournaments[tid];
      u.name == e.name.GetOr(t.name) && u.yearId == e.yearId.GetOr(t.yearId)
      && u.status == e.status.GetOr(t.status) && u.startTime == e.startTime.GetOr(t.startTime)
      && u.numberOfFields == e.numberOfFields.GetOr(t.numberOfFields)
      && u.matchLength == e.matchLength.GetOr(t.matchLength) && u.breakLength == e.breakLength.GetOr(t.breakLength)
  {
    if tid !in db.tournaments {
      return false;
    }
    var t := db.tournaments[tid];
    t := Tournament(e.name.GetOr(t.name), e.yearId.GetOr(t.yearId), e.status.GetOr(t.status),
                    e.startTime.GetOr(t.startTime), e.numberOfFields.GetOr(t.numberOfFields),
                    e.matchLength.GetOr(t.matchLength), e.breakLength.GetOr(t.breakLength));
    db.tournaments := db.tournaments[tid := t];
    ok := true;
  }
}
