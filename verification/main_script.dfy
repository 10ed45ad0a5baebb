/**
 * Helpers of the page script (`static/js/main.js`): the clock text of
 * `RealTimeUpdates.formatTime`, the theme cycle of `toggleTheme`, the
 * interval registry of `RealTimeUpdates`, the page detection that decides
 * which updates run, and the two label tables. Timers are identified by
 * the ids `setInterval` hands out; the callbacks they run (fetches and DOM
 * updates) are left out.
 */
module MainScript {
  import opened Wrappers
  import CacheService

  // ---------------------------------------------------------------------
  // formatTime
  // ---------------------------------------------------------------------

  function DigitChar(d: int): char
    requires 0 <= d < 10
  {
    "0123456789"[d]
  }

  function DigitValue(c: char): int {
    if '0' <= c <= '9' then c as int - '0' as int else 0
  }

  /** The decimal text of a natural number, as `String(n)` writes it. */
  function NatText(n: nat): (r: string)
    ensures |r| >= 1
    decreases n
  {
    if n < 10 then [DigitChar(n)] else NatText(n / 10) + [DigitChar(n % 10)]
  }

  /** The decimal text of an integer: a minus sign before a negative one. */
  function IntText(n: int): string {
    if n < 0 then "-" + NatText(-n) else NatText(n)
  }

  /** The value of a string of decimal digits. */
  function DigitsValue(s: string): int
    decreases |s|
  {
    if s == [] then 0 else 10 * DigitsValue(s[..|s| - 1]) + DigitValue(s[|s| - 1])
  }

  lemma {:induction false} NatTextRoundTrip(n: nat)
    ensures DigitsValue(NatText(n)) == n
    decreases n
  {
    if n >= 10 {
      NatTextRoundTrip(n / 10);
      var s := NatText(n);
      assert s[..|s| - 1] == NatText(n / 10);
    }
  }

  /** JavaScript's `%`: the remainder takes the sign of the dividend. */
  function JsRem(a: int, b: int): (r: int)
    requires b > 0
    ensures a >= 0 ==> r == a % b
    ensures a < 0 ==> r <= 0 && -r == (-a) % b
  {
    if a >= 0 then a % b else -((-a) % b)
  }

  /** `s.padStart(2, '0')`. */
  function PadTwo(s: string): (r: string)
    ensures |s| >= 2 ==> r == s
  {
    if |s| == 0 then "00" else if |s| == 1 then "0" + s else s
  }

  /** `formatTime`: whole minutes (rounded down), a colon, and the seconds left padded to two places. */
  function FormatTime(seconds: int): (r: string)
    ensures |r| >= 4
    ensures seconds >= 0 ==> r[|r| - 3] == ':'
  {
    var text := IntText(seconds / 60) + ":" + PadTwo(IntText(JsRem(seconds, 60)));
    if seconds >= 0 then SecondsText(seconds % 60); text else text
  }

  /** Reads `m:ss` back: the digits before the colon are minutes, the last two seconds. */
  function ParseClock(t: string): Option<int> {
    if |t| >= 4 && t[|t| - 3] == ':' then Some(60 * DigitsValue(t[..|t| - 3]) + DigitsValue(t[|t| - 2..])) else None
  }

  /** The seconds part: always two digits, reading back as the seconds. */
  lemma {:induction false} SecondsText(secs: int)
    requires 0 <= secs < 60
    ensures |PadTwo(NatText(secs))| == 2 && DigitsValue(PadTwo(NatText(secs))) == secs
  {
    NatTextRoundTrip(secs);
    if secs < 10 {
      var s := "0" + NatText(secs);
      assert s[..1] == "0";
      assert DigitsValue("0") == 0 by { assert "0"[..0] == []; }
    } else {
      assert NatText(secs) == NatText(secs / 10) + [DigitChar(secs % 10)];
    }
  }

  /** A text of the form `m:ss` reads back as sixty times `m` plus `ss`. */
  lemma ClockSplit(m: string, s: string)
    requires |m| >= 1 && |s| == 2
    ensures ParseClock(m + ":" + s) == Some(60 * DigitsValue(m) + DigitsValue(s))
  {
    var t := m + ":" + s;
    assert |t| == |m| + 3 && t[|m|] == ':';
    assert t[..|m|] == m;
    assert t[|m| + 1..] == s;
  }

  /**
   * For a non-negative count of seconds the text has exactly two second
   * digits after the colon and reads back as the same count: minutes times
   * sixty plus seconds.
   */
  lemma {:induction false} FormatTimeRoundTrip(seconds: nat)
    ensures var t := FormatTime(seconds); |t| >= 4 && t[|t| - 3] == ':'
    ensures ParseClock(FormatTime(seconds)) == Some(seconds)
  {
    var mins := seconds / 60;
    var secs := seconds % 60;
    assert FormatTime(seconds) == NatText(mins) + ":" + PadTwo(NatText(secs));
    NatTextRoundTrip(mins);
    SecondsText(secs);
    ClockSplit(NatText(mins), PadTwo(NatText(secs)));
  }

  /** A negative count is not clamped: five seconds before zero reads `-1:-5`. */
  lemma NegativeTime()
    ensures FormatTime(-5) == "-1:-5"
  {
    assert -5 / 60 == -1;
    assert NatText(1) == "1" && NatText(5) == "5";
  }

  // ---------------------------------------------------------------------
  // toggleTheme
  // ---------------------------------------------------------------------

  const Themes: seq<string> := ["light", "dark", "auto"]

  /** `themes.indexOf(t)`: the position, or -1. */
  function IndexOf(t: string): (i: int)
    ensures -1 <= i < |Themes|
    ensures i >= 0 ==> Themes[i] == t
    ensures i == -1 <==> t !in Themes
  {
    if t == "light" then 0 else if t == "dark" then 1 else if t == "auto" then 2 else -1
  }

  /** `toggleTheme`: a missing attribute counts as `auto`; the next theme in the cycle, with an unknown one going to `light`. */
  function NextTheme(current: Option<string>): (r: string)
    ensures r in Themes
    ensures current.None? ==> r == "light"
    ensures current.Some? && current.value !in Themes ==> r == "light"
  {
    Themes[(IndexOf(current.GetOr("auto")) + 1) % |Themes|]
  }

  /** Three toggles from a known theme return to it, and the cycle visits every theme. */
  lemma {:induction false} ThemeCycle(t: string)
    requires t in Themes
    ensures NextTheme(Some(NextTheme(Some(NextTheme(Some(t)))))) == t
    ensures {t, NextTheme(Some(t)), NextTheme(Some(NextTheme(Some(t))))} == set x | x in Themes
  {
    assert Themes[0] == "light" && Themes[1] == "dark" && Themes[2] == "auto";
  }

  // ---------------------------------------------------------------------
  // detectPageType, getStatusText, getAlertIcon
  // ---------------------------------------------------------------------

  datatype PageUpdates = MatchUpdates | TournamentUpdates | DashboardUpdates | NoUpdates

  /** `detectPageType`: matches pages of a tournament, then tournament pages, then the admin dashboard. */
  function DetectPageType(path: string): (r: PageUpdates)
    ensures r == MatchUpdates <==> CacheService.Contains(path, "/tournament/") && CacheService.Contains(path, "/matches")
    ensures r == TournamentUpdates <==> CacheService.Contains(path, "/tournament/") && !CacheService.Contains(path, "/matches")
    ensures r == DashboardUpdates <==> !CacheService.Contains(path, "/tournament/") && CacheService.Contains(path, "/admin/dashboard")
  {
    if CacheService.Contains(path, "/tournament/") && CacheService.Contains(path, "/matches") then MatchUpdates
    else if CacheService.Contains(path, "/tournament/") then TournamentUpdates
    else if CacheService.Contains(path, "/admin/dashboard") then DashboardUpdates
    else NoUpdates
  }

  /** `getStatusText` of the page script: the Polish label of a match status, else the status itself. */
  function StatusText(status: string): (r: string)
    ensures status !in {"planned", "ongoing", "paused", "finished"} ==> r == status
    ensures status in {"planned", "ongoing", "paused", "finished"} ==> r != status && r != []
  {
    match status
    case "planned" => "Zaplanowany"
    case "ongoing" => "W trakcie"
    case "paused" => "Przerwa"
    case "finished" => "Zako\U{144}czony"
    case _ => status
  }

  /** `getAlertIcon`: the icon of a known alert type, else `info-circle`. */
  function AlertIcon(kind: string): (r: string)
    ensures kind !in {"success", "danger", "warning"} ==> r == "info-circle"
    ensures kind == "danger" || kind == "warning" ==> r == "exclamation-triangle"
    ensures kind == "success" ==> r == "check-circle"
  {
    match kind
    case "success" => "check-circle"
    case "danger" => "exclamation-triangle"
    case "warning" => "exclamation-triangle"
    case "info" => "info-circle"
    case _ => "info-circle"
  }

  // ---------------------------------------------------------------------
  // The interval registry of RealTimeUpdates
  // ---------------------------------------------------------------------

  const MatchPeriod: int := 5000
  const TournamentPeriod: int := 30000

  /** A registered interval: the timer id and its period in milliseconds. */
  datatype Interval = Interval(id: nat, period: int)

  /** `RealTimeUpdates`: the `intervals` object and the timers running in the browser. */
  class RealTimeUpdates {
    var intervals: map<string, Interval>
    /** The timers `setInterval` started and `clearInterval` has not stopped. */
    var running: set<nat>
    /** The id the next `setInterval` returns; ids are positive and never reused. */
    var nextTimer: nat

    /** Every running timer is the one registered under some key, and ids are never shared. */
    ghost predicate Valid()
      reads this
    {
      nextTimer >= 1
      && (forall k :: k in intervals ==> 0 < intervals[k].id < nextTimer)
      && (forall k, l :: k in intervals && l in intervals && k != l ==> intervals[k].id != intervals[l].id)
      && (forall t :: t in running ==> exists k :: k in intervals && intervals[k].id == t)
    }

    constructor ()
      ensures Valid() && intervals == map[] && running == {}
    {
      intervals := map[];
      running := {};
      nextTimer := 1;
    }

    /**
     * The common body of `startMatchUpdate`, `startTournamentUpdate` and
     * `startDashboardUpdate`: the key's old timer is cleared and a new one
     * registered in its place, so a key never has two timers running.
     */
    method StartUpdate(key: string, period: int)
      requires Valid()
      modifies this
      ensures Valid()
      ensures intervals == old(intervals)[key := Interval(old(nextTimer), period)]
      ensures running == (if key in old(intervals) then old(running) - {old(intervals)[key].id} else old(running)) + {old(nextTimer)}
    {
      if key in intervals {
        running := running - {intervals[key].id};
      }
      var id := nextTimer;
      nextTimer := nextTimer + 1;
      intervals := intervals[key := Interval(id, period)];
      running := running + {id};
      forall t | t in running ensures exists k :: k in intervals && intervals[k].id == t {
        if t != id {
          var k :| k in old(intervals) && old(intervals)[k].id == t;
          assert k != key;
          assert intervals[k].id == t;
        } else {
          assert intervals[key].id == t;
        }
      }
    }

    /** `startMatchUpdate`: key `match_<id>`, every five seconds. */
    method StartMatchUpdate(matchId: string)
      requires Valid()
      modifies this
      ensures Valid()
      ensures intervals == old(intervals)["match_" + matchId := Interval(old(nextTimer), MatchPeriod)]
      ensures old(nextTimer) in running
    {
      StartUpdate("match_" + matchId, MatchPeriod);
    }

    /** `startTournamentUpdate`: key `tournament_<id>`, every thirty seconds. */
    method StartTournamentUpdate(tournamentId: string)
      requires Valid()
      modifies this
      ensures Valid()
      ensures intervals == old(intervals)["tournament_" + tournamentId := Interval(old(nextTimer), TournamentPeriod)]
      ensures old(nextTimer) in running
    {
      StartUpdate("tournament_" + tournamentId, TournamentPeriod);
    }

    /** `startDashboardUpdate`: key `dashboard`, at the tournament period. */
    method StartDashboardUpdate()
      requires Valid()
      modifies this
      ensures Valid()
      ensures intervals == old(intervals)["dashboard" := Interval(old(nextTimer), TournamentPeriod)]
      ensures old(nextTimer) in running
    {
      StartUpdate("dashboard", TournamentPeriod);
    }

    /** `pauseUpdates`: every timer is cleared but the entries stay. */
    method PauseUpdates()
      requires Valid()
      modifies this
      ensures Valid()
      ensures running == {} && intervals == old(intervals) && nextTimer == old(nextTimer)
    {
      running := {};
    }

    /** `stopAllUpdates`: every timer is cleared and the registry emptied. */
    method StopAllUpdates()
      requires Valid()
      modifies this
      ensures Valid()
      ensures running == {} && intervals == map[] && nextTimer == old(nextTimer)
    {
      running := {};
      intervals := map[];
    }
  }

  /**
   * However often a key is restarted, at most one timer per key runs: two
   * restarts of the same key leave only the second timer of that key, and
   * the first is cleared.
   */
  method RestartTwice(key: string) returns (r: RealTimeUpdates, first: nat, second: nat)
    ensures r.Valid() && first != second
    ensures second in r.running && first !in r.running
    ensures key in r.intervals && r.intervals[key].id == second
  {
    r := new RealTimeUpdates();
    first := r.nextTimer;
    r.StartUpdate(key, MatchPeriod);
    second := r.nextTimer;
    r.StartUpdate(key, MatchPeriod);
  }
}
