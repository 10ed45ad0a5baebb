/**
 * System configuration (`services/config_service.py`): stored settings are
 * rows `(key, value)` of the settings table with keys `section.key`; they
 * are merged over the built-in defaults, written with a type check against
 * the default, and validated by a few range rules.
 */
module ConfigService {
  import opened Wrappers

  /** A setting value as Python sees it; `Other` is any other type (None, a list, ...). */
  datatype Value = Int(i: int) | Bool(b: bool) | Str(s: string) | Other

  /** One stored settings row. */
  datatype Row = Row(key: string, value: Value)

  /** `isinstance(v, type(d))`; `bool` is a subclass of `int`. */
  predicate IsInstance(v: Value, d: Value) {
    match d
    case Int(_) => v.Int? || v.Bool?
    case Bool(_) => v.Bool?
    case Str(_) => v.Str?
    case Other => v.Other?
  }

  const Sections: seq<string> := ["tournament", "match", "notifications", "system", "ui"]

  const TournamentDefaults: seq<(string, Value)> := [
    ("default_match_length", Int(20)), ("default_break_length", Int(5)), ("min_teams", Int(2)),
    ("max_teams", Int(16)), ("points_for_win", Int(3)), ("points_for_draw", Int(1)), ("points_for_loss", Int(0))]

  const MatchDefaults: seq<(string, Value)> := [
    ("allow_score_edit_after_end", Bool(false)), ("auto_end_after_length", Bool(true)),
    ("show_timer", Bool(true)), ("allow_pause", Bool(true))]

  const NotificationDefaults: seq<(string, Value)> := [
    ("enable_email_notifications", Bool(false)), ("notify_match_start", Bool(true)),
    ("notify_match_end", Bool(true)), ("notify_tournament_start", Bool(true)), ("notify_tournament_end", Bool(true))]

  const SystemDefaults: seq<(string, Value)> := [
    ("maintenance_mode", Bool(false)), ("debug_mode", Bool(false)), ("log_retention_days", Int(90)),
    ("notification_retention_days", Int(30)), ("max_export_rows", Int(10000)), ("session_timeout", Int(3600))]

  const UiDefaults: seq<(string, Value)> := [
    ("items_per_page", Int(20)), ("refresh_interval", Int(30)), ("show_team_logos", Bool(true)),
    ("enable_dark_mode", Bool(false)), ("language", Str("pl"))]

  /** The defaults of a section in declaration order; none for an unknown section. */
  function DefaultSection(section: string): (r: seq<(string, Value)>)
    ensures section !in Sections ==> r == []
  {
    if section == "tournament" then TournamentDefaults
    else if section == "match" then MatchDefaults
    else if section == "notifications" then NotificationDefaults
    else if section == "system" then SystemDefaults
    else if section == "ui" then UiDefaults
    else []
  }

  /** The value of `key` in an ordered list of pairs. */
  function Lookup(entries: seq<(string, Value)>, key: string): (r: Option<Value>)
  {
    if entries == [] then None
    else if entries[0].0 == key then Some(entries[0].1)
    else Lookup(entries[1..], key)
  }

  /** The value found is the first entry with the key, and there is one iff some entry has it. */
  lemma {:induction false} LookupFinds(entries: seq<(string, Value)>, key: string)
    ensures Lookup(entries, key).Some? <==> exists i :: 0 <= i < |entries| && entries[i].0 == key
    ensures Lookup(entries, key).Some? ==> exists i :: 0 <= i < |entries| && entries[i] == (key, Lookup(entries, key).value)
    decreases |entries|
  {
    if entries != [] && entries[0].0 != key {
      LookupFinds(entries[1..], key);
      assert forall i :: 0 < i < |entries| ==> entries[i] == entries[1..][i - 1];
    }
  }

  /** `DEFAULT_CONFIG.get(section, {}).get(key)`. */
  function DefaultValue(section: string, key: string): Option<Value> {
    Lookup(DefaultSection(section), key)
  }

  /** `s.split('.')`: the pieces between dots, none of which contains a dot. */
  function SplitDots(s: string): (r: seq<string>)
    ensures |r| >= 1
    ensures forall i :: 0 <= i < |r| ==> '.' !in r[i]
  {
    if s == [] then [[]]
    else
      var rest := SplitDots(s[1..]);
      if s[0] == '.' then [[]] + rest else [[s[0]] + rest[0]] + rest[1..]
  }

  /** `".".join(parts)`. */
  function JoinDots(parts: seq<string>): string
    requires |parts| >= 1
  {
    if |parts| == 1 then parts[0] else parts[0] + "." + JoinDots(parts[1..])
  }

  /** Splitting at the dots and joining with dots gives the key back. */
  lemma {:induction false} JoinSplit(s: string)
    ensures JoinDots(SplitDots(s)) == s
    decreases |s|
  {
    if s != [] {
      var rest := SplitDots(s[1..]);
      JoinSplit(s[1..]);
      if s[0] == '.' {
        assert SplitDots(s) == [[]] + rest;
        assert ([[]] + rest)[1..] == rest;
      } else {
        var r := [[s[0]] + rest[0]] + rest[1..];
        assert SplitDots(s) == r;
        if |rest| == 1 {
          assert JoinDots(r) == [s[0]] + rest[0] == [s[0]] + s[1..];
        } else {
          assert r[1..] == rest[1..];
          assert JoinDots(rest) == rest[0] + "." + JoinDots(rest[1..]);
          assert JoinDots(r) == ([s[0]] + rest[0]) + "." + JoinDots(rest[1..]);
          assert JoinDots(r) == [s[0]] + JoinDots(rest);
        }
      }
    }
  }

  /** A dot-free section and key, joined by one dot, split back into exactly those two. */
  lemma {:induction false} SplitJoined(a: string, b: string)
    requires '.' !in a && '.' !in b
    ensures SplitDots(a + "." + b) == [a, b]
    decreases |a|
  {
    if a == [] {
      assert a + "." + b == ['.'] + b;
      SplitNoDot(b);
      assert SplitDots(['.'] + b) == [[]] + SplitDots((['.'] + b)[1..]);
      assert (['.'] + b)[1..] == b;
    } else {
      var s := a + "." + b;
      SplitJoined(a[1..], b);
      assert s[1..] == a[1..] + "." + b;
      assert s[0] == a[0] && a[0] != '.';
      assert [a[0]] + a[1..] == a;
    }
  }

  lemma {:induction false} SplitNoDot(b: string)
    requires '.' !in b
    ensures SplitDots(b) == [b]
    decreases |b|
  {
    if b != [] {
      SplitNoDot(b[1..]);
      assert [b[0]] + b[1..] == b;
    }
  }

  /** For a dot-free section and key, a row key splits into them iff it is `section.key`. */
  lemma SplitsInto(key: string, s: string, k: string)
    requires '.' !in s && '.' !in k
    ensures SplitDots(key) == [s, k] <==> key == s + "." + k
  {
    if SplitDots(key) == [s, k] {
      JoinSplit(key);
      assert JoinDots([s, k]) == s + "." + JoinDots([k]);
    }
    if key == s + "." + k {
      SplitJoined(s, k);
    }
  }

  /** The value the loading loop keeps for `section.key`: that of the last row splitting into them. */
  function Stored(rows: seq<Row>, s: string, k: string): Option<Value>
  {
    if rows == [] then None
    else if SplitDots(rows[|rows| - 1].key) == [s, k] then Some(rows[|rows| - 1].value)
    else Stored(rows[..|rows| - 1], s, k)
  }

  /** The sections named by rows whose key has exactly two parts. */
  function StoredSections(rows: seq<Row>): set<string>
  {
    if rows == [] then {}
    else
      var parts := SplitDots(rows[|rows| - 1].key);
      (if |parts| == 2 then {parts[0]} else {}) + StoredSections(rows[..|rows| - 1])
  }

  /** The value `get_config` reports for `section.key`: stored, else the default. */
  function Effective(rows: seq<Row>, s: string, k: string): Option<Value> {
    if Stored(rows, s, k).Some? then Stored(rows, s, k) else DefaultValue(s, k)
  }

  /** The whole configuration or one section, as `get_config` returns them. */
  datatype ConfigView = All(sections: map<string, map<string, Value>>) | One(entries: map<string, Value>)

  /** `if section and ...`: the empty string counts as no section. */
  predicate Requested(section: Option<string>) {
    section.Some? && section.value != ""
  }

  /** The stored keys of section `s` with the values the loading loop keeps for them. */
  function StoredOnly(rows: seq<Row>, s: string): (m: map<string, Value>)
    ensures forall k :: k in m <==> Stored(rows, s, k).Some?
    ensures forall k :: k in m ==> Some(m[k]) == Stored(rows, s, k)
  {
    if rows == [] then map[]
    else
      var parts := SplitDots(rows[|rows| - 1].key);
      var m := StoredOnly(rows[..|rows| - 1], s);
      if |parts| == 2 && parts[0] == s then m[parts[1] := rows[|rows| - 1].value] else m
  }

  /** A section is among the stored sections iff it stores some key. */
  lemma {:induction false} StoredSectionsNonEmpty(rows: seq<Row>, s: string)
    ensures s in StoredSections(rows) <==> StoredOnly(rows, s) != map[]
    decreases |rows|
  {
    if rows != [] {
      var parts := SplitDots(rows[|rows| - 1].key);
      StoredSectionsNonEmpty(rows[..|rows| - 1], s);
      if |parts| == 2 && parts[0] == s {
        assert parts[1] in StoredOnly(rows, s);
      }
    }
  }

  /** The first loop of `get_config`: each two-part key is put under its section. */
  method Load(rows: seq<Row>) returns (cur: map<string, map<string, Value>>)
    ensures forall s :: s in cur <==> s in StoredSections(rows)
    ensures forall s :: s in cur ==> cur[s] == StoredOnly(rows, s)
  {
    cur := map[];
    var i := 0;
    while i < |rows|
      invariant 0 <= i <= |rows|
      invariant forall s :: s in cur <==> s in StoredSections(rows[..i])
      invariant forall s :: s in cur ==> cur[s] == StoredOnly(rows[..i], s)
    {
      LoadStep(rows, i);
      var parts := SplitDots(rows[i].key);
      if |parts| == 2 {
        var s, k := parts[0], parts[1];
        if s !in cur {
          StoredSectionsNonEmpty(rows[..i], s);
          cur := cur[s := map[]];
        }
        cur := cur[s := cur[s][k := rows[i].value]];
      }
      i := i + 1;
    }
    assert rows[..|rows|] == rows;
  }

  /** One more row adds its section and its key, when its key has two parts. */
  lemma LoadStep(rows: seq<Row>, i: int)
    requires 0 <= i < |rows|
    ensures var parts := SplitDots(rows[i].key);
      StoredSections(rows[..i + 1]) == StoredSections(rows[..i]) + (if |parts| == 2 then {parts[0]} else {})
    ensures var parts := SplitDots(rows[i].key);
      forall s :: StoredOnly(rows[..i + 1], s) ==
        if |parts| == 2 && parts[0] == s then StoredOnly(rows[..i], s)[parts[1] := rows[i].value] else StoredOnly(rows[..i], s)
  {
    assert rows[..i + 1][..i] == rows[..i];
  }

  /** The inner fill loop: every default key missing from the section gets its default. */
  method FillSection(entries: map<string, Value>, defaults: seq<(string, Value)>) returns (out: map<string, Value>)
    ensures forall k :: k in out <==> k in entries || Lookup(defaults, k).Some?
    ensures forall k :: k in out ==> out[k] == if k in entries then entries[k] else Lookup(defaults, k).value
  {
    out := entries;
    var j := 0;
    while j < |defaults|
      invariant 0 <= j <= |defaults|
      invariant forall k :: k in out <==> k in entries || Lookup(defaults[..j], k).Some?
      invariant forall k :: k in out ==> out[k] == if k in entries then entries[k] else Lookup(defaults[..j], k).value
    {
      LookupExtend(defaults, j);
      var (key, value) := defaults[j];
      if key !in out {
        out := out[key := value];
      }
      j := j + 1;
    }
    assert defaults[..|defaults|] == defaults;
  }

  /** What looking up `k` gives once entry `e` follows entries that gave `prev`. */
  function LookupStep(prev: Option<Value>, e: (string, Value), k: string): Option<Value> {
    if prev.Some? then prev else if k == e.0 then Some(e.1) else None
  }

  lemma {:induction false} LookupExtend(entries: seq<(string, Value)>, j: int)
    requires 0 <= j < |entries|
    ensures forall k :: Lookup(entries[..j + 1], k) == LookupStep(Lookup(entries[..j], k), entries[j], k)
    decreases j
  {
    forall k ensures Lookup(entries[..j + 1], k) == LookupStep(Lookup(entries[..j], k), entries[j], k)
    {
      if j > 0 {
        assert entries[..j + 1][1..] == entries[1..][..j];
        assert entries[..j][1..] == entries[1..][..j - 1];
        LookupExtend(entries[1..], j - 1);
      }
    }
  }

  /** The default keys of section `s`. */
  function DefaultKeys(s: string): (r: set<string>)
    ensures forall k :: k in r <==> DefaultValue(s, k).Some?
  {
    LookupKeys(DefaultSection(s));
    set e | e in DefaultSection(s) :: e.0
  }

  /** A key has a value in the list iff some entry carries it. */
  lemma LookupKeys(entries: seq<(string, Value)>)
    ensures forall k :: Lookup(entries, k).Some? <==> k in (set e | e in entries :: e.0)
  {
    forall k ensures Lookup(entries, k).Some? <==> k in (set e | e in entries :: e.0) {
      LookupFinds(entries, k);
      if k in (set e | e in entries :: e.0) {
        var e :| e in entries && e.0 == k;
        var i :| 0 <= i < |entries| && entries[i] == e;
      }
    }
  }

  /**
   * One section as `get_config` reports it: each default key with its
   * stored value or else its default, plus the other stored keys.
   */
  function SectionOf(rows: seq<Row>, s: string): (m: map<string, Value>)
    ensures forall k :: k in m <==> Effective(rows, s, k).Some?
    ensures forall k :: k in m ==> Some(m[k]) == Effective(rows, s, k)
  {
    map k | k in StoredOnly(rows, s).Keys + DefaultKeys(s) :: Effective(rows, s, k).value
  }

  /** The whole configuration: every default section and every stored section. */
  function AllOf(rows: seq<Row>): (cfg: map<string, map<string, Value>>)
    ensures forall s :: s in cfg <==> s in Sections || s in StoredSections(rows)
    ensures forall s :: s in cfg ==> cfg[s] == SectionOf(rows, s)
  {
    map s | s in (set x | x in Sections) + StoredSections(rows) :: SectionOf(rows, s)
  }

  /**
   * `get_config`: an unknown non-empty section gives an empty map; a known
   * one gives that section; no section (or `""`) gives the whole
   * configuration. Keys that do not split into exactly two parts are ignored.
   */
  method GetConfig(rows: seq<Row>, section: Option<string>) returns (r: ConfigView)
    ensures Requested(section) && section.value !in Sections ==> r == One(map[])
    ensures Requested(section) && section.value in Sections ==> r == One(SectionOf(rows, section.value))
    ensures !Requested(section) ==> r == All(AllOf(rows))
  {
    if Requested(section) && section.value !in Sections {
      return One(map[]);
    }
    var loaded := Load(rows);
    var cur := FillWanted(rows, section, Sections, loaded);
    if Requested(section) {
      r := One(cur[section.value]);
    } else {
      WholeIsAllOf(rows, cur);
      r := All(cur);
    }
  }

  /**
   * The second loop of `get_config`: each of `names` that is wanted is
   * filled up with its defaults.
   */
  method FillWanted(rows: seq<Row>, section: Option<string>, names: seq<string>, loaded: map<string, map<string, Value>>)
    returns (cur: map<string, map<string, Value>>)
    requires forall i, j :: 0 <= i < j < |names| ==> names[i] != names[j]
    requires forall s :: s in loaded <==> s in StoredSections(rows)
    requires forall s :: s in loaded ==> loaded[s] == StoredOnly(rows, s)
    ensures forall s :: s in cur <==> s in StoredSections(rows) || (s in names && Wanted(section, s))
    ensures forall s :: s in cur ==>
      cur[s] == if s in names && Wanted(section, s) then SectionOf(rows, s) else StoredOnly(rows, s)
  {
    cur := loaded;
    var n := 0;
    while n < |names|
      invariant 0 <= n <= |names|
      invariant Filled(rows, section, names[..n], cur)
    {
      var name := names[n];
      assert names[..n + 1] == names[..n] + [name];
      ghost var before := cur;
      if Wanted(section, name) {
        assert name !in names[..n];
        var entries := if name in cur then cur[name] else map[];
        if name !in cur {
          StoredSectionsNonEmpty(rows, name);
        }
        var filled := FillSection(entries, DefaultSection(name));
        FilledIsSection(rows, name, filled);
        cur := cur[name := filled];
      }
      FilledStep(rows, section, names[..n], name, before, cur);
      n := n + 1;
    }
    assert names[..|names|] == names;
  }

  /** After the wanted ones of `done`: those sections are filled, every other stored one is as loaded. */
  ghost predicate Filled(rows: seq<Row>, section: Option<string>, done: seq<string>, cur: map<string, map<string, Value>>) {
    (forall s :: s in cur <==> s in StoredSections(rows) || (s in done && Wanted(section, s)))
    && (forall s :: s in cur ==> cur[s] == if s in done && Wanted(section, s) then SectionOf(rows, s) else StoredOnly(rows, s))
  }

  lemma FilledStep(rows: seq<Row>, section: Option<string>, done: seq<string>, name: string,
                   cur: map<string, map<string, Value>>, cur': map<string, map<string, Value>>)
    requires name !in done
    requires Filled(rows, section, done, cur)
    requires Wanted(section, name) ==> cur' == cur[name := SectionOf(rows, name)]
    requires !Wanted(section, name) ==> cur' == cur
    ensures Filled(rows, section, done + [name], cur')
  {
  }

  lemma FilledIsSection(rows: seq<Row>, s: string, filled: map<string, Value>)
    requires forall k :: k in filled <==> k in StoredOnly(rows, s) || Lookup(DefaultSection(s), k).Some?
    requires forall k :: k in filled ==>
      filled[k] == if k in StoredOnly(rows, s) then StoredOnly(rows, s)[k] else Lookup(DefaultSection(s), k).value
    ensures filled == SectionOf(rows, s)
  {
  }

  lemma WholeIsAllOf(rows: seq<Row>, cur: map<string, map<string, Value>>)
    requires forall s :: s in cur <==> s in StoredSections(rows) || s in Sections
    requires forall s :: s in cur ==> cur[s] == if s in Sections then SectionOf(rows, s) else StoredOnly(rows, s)
    ensures cur == AllOf(rows)
  {
    forall s | s in cur ensures cur[s] == AllOf(rows)[s] {
      if s !in Sections {
        assert StoredOnly(rows, s) == SectionOf(rows, s);
      }
    }
  }

  /** Whether the filling loop fills section `s` (`if section and section != section_name: continue`). */
  predicate Wanted(section: Option<string>, s: string) {
    !Requested(section) || section.value == s
  }

  /** The first row whose key is exactly `full` (`filter_by(key=...).first()`). */
  function FirstWithKey(rows: seq<Row>, full: string): Option<Value>
  {
    if rows == [] then None else if rows[0].key == full then Some(rows[0].value) else FirstWithKey(rows[1..], full)
  }

  /**
   * `get_config_value`: the value of the first row with key
   * `section.key`; else the default; else `None`.
   */
  function GetConfigValue(rows: seq<Row>, section: string, key: string): (r: Option<Value>)
    ensures FirstWithKey(rows, section + "." + key).Some? ==> r == FirstWithKey(rows, section + "." + key)
    ensures r.None? <==> FirstWithKey(rows, section + "." + key).None? && DefaultValue(section, key).None?
  {
    var stored := FirstWithKey(rows, section + "." + key);
    if stored.Some? then stored else DefaultValue(section, key)
  }

  /** The settings table keeps its keys unique. */
  predicate UniqueKeys(rows: seq<Row>) {
    forall i, j :: 0 <= i < j < |rows| ==> rows[i].key != rows[j].key
  }

  lemma {:induction false} StoredIsFirst(rows: seq<Row>, s: string, k: string)
    requires '.' !in s && '.' !in k && UniqueKeys(rows)
    ensures Stored(rows, s, k) == FirstWithKey(rows, s + "." + k)
    decreases |rows|
  {
    if rows != [] {
      var full := s + "." + k;
      var last := rows[|rows| - 1];
      var init := rows[..|rows| - 1];
      SplitsInto(last.key, s, k);
      StoredIsFirst(init, s, k);
      FirstOfSnoc(init, last, full);
      assert rows == init + [last];
      if last.key == full {
        FirstAbsent(init, full);
      }
    }
  }

  lemma {:induction false} FirstOfSnoc(init: seq<Row>, last: Row, full: string)
    ensures FirstWithKey(init + [last], full) ==
      if FirstWithKey(init, full).Some? then FirstWithKey(init, full)
      else if last.key == full then Some(last.value) else None
    decreases |init|
  {
    if init != [] {
      assert (init + [last])[1..] == init[1..] + [last];
      FirstOfSnoc(init[1..], last, full);
    }
  }

  lemma {:induction false} FirstAbsent(rows: seq<Row>, full: string)
    requires forall i :: 0 <= i < |rows| ==> rows[i].key != full
    ensures FirstWithKey(rows, full).None?
    decreases |rows|
  {
    if rows != [] {
      FirstAbsent(rows[1..], full);
    }
  }

  /**
   * With unique keys, `get_config_value(section, key)` agrees with the
   * value `get_config` reports for a dot-free section and key.
   */
  lemma ValueAgreesWithConfig(rows: seq<Row>, s: string, k: string)
    requires '.' !in s && '.' !in k && UniqueKeys(rows)
    ensures GetConfigValue(rows, s, k) == Effective(rows, s, k)
  {
    StoredIsFirst(rows, s, k);
  }

  /** The settings table. */
  class ConfigStore {
    var rows: seq<Row>

    constructor ()
      ensures rows == []
    {
      rows := [];
    }

    /**
     * `set_config_value`: refused (nothing written) for an unknown section
     * or key and for a value that is not an instance of the default's type.
     * Otherwise the first row with key `section.key` gets the value, or a
     * new row is appended.
     */
    method SetConfigValue(section: string, key: string, value: Value) returns (ok: bool)
      modifies this
      ensures ok <==> DefaultValue(section, key).Some? && IsInstance(value, DefaultValue(section, key).value)
      ensures !ok ==> rows == old(rows)
      ensures ok ==> GetConfigValue(rows, section, key) == Some(value)
      ensures ok ==> |rows| == |old(rows)| || rows == old(rows) + [Row(section + "." + key, value)]
      ensures ok ==> forall full :: full != section + "." + key ==> FirstWithKey(rows, full) == FirstWithKey(old(rows), full)
    {
      var default := DefaultValue(section, key);
      if default.None? || !IsInstance(value, default.value) {
        return false;
      }
      var full := section + "." + key;
      var i := 0;
      while i < |rows| && rows[i].key != full
        invariant 0 <= i <= |rows|
        invariant forall j :: 0 <= j < i ==> rows[j].key != full
      {
        i := i + 1;
      }
      if i < |rows| {
        ReplaceFirst(rows, i, value);
        rows := rows[i := Row(full, value)];
      } else {
        FirstOfSnoc(rows, Row(full, value), full);
        forall other | other != full ensures FirstWithKey(rows + [Row(full, value)], other) == FirstWithKey(rows, other) {
          FirstOfSnoc(rows, Row(full, value), other);
          if FirstWithKey(rows, other).None? {
            FirstAbsentAll(rows, other);
          }
        }
        FirstAbsent(rows, full);
        rows := rows + [Row(full, value)];
      }
      ok := true;
    }

    /**
     * `update_section`: refused for an unknown section; keys that are not
     * defaults of the section are skipped; success iff every attempted
     * write succeeded. Each accepted value is then the one reported, and
     * every other key reports what it reported before.
     */
    method UpdateSection(section: string, values: seq<(string, Value)>) returns (success: bool)
      requires forall i, j :: 0 <= i < j < |values| ==> values[i].0 != values[j].0
      modifies this
      ensures section !in Sections ==> !success && rows == old(rows)
      ensures success <==> section in Sections && forall i :: 0 <= i < |values| ==> !Rejected(section, values[i])
      ensures forall i :: 0 <= i < |values| && Accepted(section, values[i]) ==>
        GetConfigValue(rows, section, values[i].0) == Some(values[i].1)
      ensures KeepsOthers(old(rows), rows, section, values)
    {
      if section !in Sections {
        return false;
      }
      success := true;
      ghost var start := rows;
      var n := 0;
      while n < |values|
        invariant 0 <= n <= |values|
        invariant success <==> AllTyped(section, values[..n])
        invariant ReportsAccepted(rows, section, values[..n])
        invariant KeepsOthers(start, rows, section, values[..n])
      {
        var key, value := values[n].0, values[n].1;
        TypedStep(section, values, n);
        if DefaultValue(section, key).Some? {
          ghost var before := rows;
          var ok := SetConfigValue(section, key, value);
          if !ok {
            success := false;
            ReportSkip(rows, section, values, n);
            FrameSkip(start, rows, section, values, n);
          } else {
            ReportNext(before, rows, section, values, n);
            FrameNext(start, before, rows, section, values, n);
          }
        } else {
          ReportSkip(rows, section, values, n);
          FrameSkip(start, rows, section, values, n);
        }
        n := n + 1;
      }
      assert values[..n] == values;
    }
  }

  /** No value of `kvs` is a default key of the section given a value of the wrong type. */
  ghost predicate AllTyped(section: string, kvs: seq<(string, Value)>) {
    forall i :: 0 <= i < |kvs| ==> !Rejected(section, kvs[i])
  }

  /** Every accepted value of `kvs` is the one `rows` reports for its key. */
  ghost predicate ReportsAccepted(rows: seq<Row>, section: string, kvs: seq<(string, Value)>) {
    forall i :: 0 <= i < |kvs| && Accepted(section, kvs[i]) ==> GetConfigValue(rows, section, kvs[i].0) == Some(kvs[i].1)
  }

  lemma TypedStep(section: string, values: seq<(string, Value)>, n: nat)
    requires n < |values|
    ensures AllTyped(section, values[..n + 1]) <==> AllTyped(section, values[..n]) && !Rejected(section, values[n])
  {
    assert forall i :: 0 <= i < n ==> values[..n + 1][i] == values[..n][i];
  }

  /** `full` is not the key of any accepted value of `kvs`. */
  ghost predicate Untouched(section: string, kvs: seq<(string, Value)>, full: string) {
    forall i :: 0 <= i < |kvs| && Accepted(section, kvs[i]) ==> full != section + "." + kvs[i].0
  }

  /** Every key that no accepted value of `kvs` names reads in `rows` as in `rows0`. */
  ghost predicate KeepsOthers(rows0: seq<Row>, rows: seq<Row>, section: string, kvs: seq<(string, Value)>) {
    forall full :: Untouched(section, kvs, full) ==> FirstWithKey(rows, full) == FirstWithKey(rows0, full)
  }

  /** A key untouched by a longer prefix is untouched by the shorter one. */
  lemma UntouchedPrefix(section: string, values: seq<(string, Value)>, n: nat, full: string)
    requires n < |values| && Untouched(section, values[..n + 1], full)
    ensures Untouched(section, values[..n], full)
    ensures Accepted(section, values[n]) ==> full != section + "." + values[n].0
  {
    var kvs := values[..n + 1];
    assert kvs[n] == values[n];
    forall i | 0 <= i < n && Accepted(section, values[..n][i])
      ensures full != section + "." + values[..n][i].0
    {
      assert kvs[i] == values[..n][i];
    }
  }

  /** A value that changes no row keeps the frame. */
  lemma FrameSkip(rows0: seq<Row>, rows: seq<Row>, section: string, values: seq<(string, Value)>, n: nat)
    requires n < |values| && KeepsOthers(rows0, rows, section, values[..n])
    ensures KeepsOthers(rows0, rows, section, values[..n + 1])
  {
    forall full | Untouched(section, values[..n + 1], full)
      ensures FirstWithKey(rows, full) == FirstWithKey(rows0, full)
    {
      UntouchedPrefix(section, values, n, full);
    }
  }

  /** An accepted write of the `n`-th value changes only its own key. */
  lemma FrameNext(rows0: seq<Row>, before: seq<Row>, after: seq<Row>, section: string, values: seq<(string, Value)>, n: nat)
    requires n < |values| && Accepted(section, values[n])
    requires forall full :: full != section + "." + values[n].0 ==> FirstWithKey(after, full) == FirstWithKey(before, full)
    requires KeepsOthers(rows0, before, section, values[..n])
    ensures KeepsOthers(rows0, after, section, values[..n + 1])
  {
    forall full | Untouched(section, values[..n + 1], full)
      ensures FirstWithKey(after, full) == FirstWithKey(rows0, full)
    {
      UntouchedPrefix(section, values, n, full);
    }
  }

  /** A value that is not accepted adds nothing to report. */
  lemma ReportSkip(rows: seq<Row>, section: string, values: seq<(string, Value)>, n: nat)
    requires n < |values| && !Accepted(section, values[n])
    requires ReportsAccepted(rows, section, values[..n])
    ensures ReportsAccepted(rows, section, values[..n + 1])
  {
    assert forall i :: 0 <= i < n ==> values[..n + 1][i] == values[..n][i];
  }

  /**
   * A write of the `n`-th value to its key leaves what the earlier, distinct
   * keys report, and then reports the `n`-th value too.
   */
  lemma ReportNext(before: seq<Row>, after: seq<Row>, section: string, values: seq<(string, Value)>, n: nat)
    requires n < |values|
    requires forall i, j :: 0 <= i < j < |values| ==> values[i].0 != values[j].0
    requires forall full :: full != section + "." + values[n].0 ==> FirstWithKey(after, full) == FirstWithKey(before, full)
    requires GetConfigValue(after, section, values[n].0) == Some(values[n].1)
    requires ReportsAccepted(before, section, values[..n])
    ensures ReportsAccepted(after, section, values[..n + 1])
  {
    var kvs := values[..n + 1];
    forall i | 0 <= i < |kvs| && Accepted(section, kvs[i])
      ensures GetConfigValue(after, section, kvs[i].0) == Some(kvs[i].1)
    {
      if i < n {
        assert kvs[i] == values[..n][i] == values[i];
        DotJoinInjective(section, values[i].0, values[n].0);
      }
    }
  }

  /** `set_config_value` accepts this key and value for the section. */
  predicate Accepted(section: string, kv: (string, Value)) {
    DefaultValue(section, kv.0).Some? && IsInstance(kv.1, DefaultValue(section, kv.0).value)
  }

  /** A default key of the section given a value of the wrong type. */
  predicate Rejected(section: string, kv: (string, Value)) {
    DefaultValue(section, kv.0).Some? && !IsInstance(kv.1, DefaultValue(section, kv.0).value)
  }

  lemma {:induction false} FirstAbsentAll(rows: seq<Row>, full: string)
    requires FirstWithKey(rows, full).None?
    ensures forall i :: 0 <= i < |rows| ==> rows[i].key != full
    decreases |rows|
  {
    if rows != [] {
      FirstAbsentAll(rows[1..], full);
    }
  }

  lemma {:induction false} ReplaceFirst(rows: seq<Row>, i: int, value: Value)
    requires 0 <= i < |rows| && forall j :: 0 <= j < i ==> rows[j].key != rows[i].key
    ensures FirstWithKey(rows[i := Row(rows[i].key, value)], rows[i].key) == Some(value)
    ensures forall full :: full != rows[i].key ==> FirstWithKey(rows[i := Row(rows[i].key, value)], full) == FirstWithKey(rows, full)
    decreases i
  {
    var u := rows[i := Row(rows[i].key, value)];
    if i > 0 {
      ReplaceFirst(rows[1..], i - 1, value);
      assert u[1..] == rows[1..][i - 1 := Row(rows[i].key, value)];
    }
  }

  lemma DotJoinInjective(s: string, a: string, b: string)
    requires a != b
    ensures s + "." + a != s + "." + b
  {
    assert (s + "." + a)[|s| + 1..] == a;
    assert (s + "." + b)[|s| + 1..] == b;
  }

  /** A validation message of `validate_config`. */
  datatype Issue =
    | Missing(key: string)
    | WrongType(key: string)
    | MinTeamsBelowTwo
    | MaxTeamsBelowMin
    | DaysBelowOne(key: string)
    | TimeoutBelowFiveMinutes
    | Crashed  // an exception inside the check: the answer is `(False, {'system': [message]})`

  /** The integer of a numeric value (`bool` included). */
  function Numeric(v: Value): Option<int> {
    match v
    case Int(i) => Some(i)
    case Bool(b) => Some(if b then 1 else 0)
    case _ => None
  }

  /** Code-point order on strings, as Python's `<`. */
  predicate StrLess(a: string, b: string) {
    if a == [] then b != []
    else if b == [] then false
    else if a[0] != b[0] then a[0] < b[0]
    else StrLess(a[1..], b[1..])
  }

  /** Python's `a < b`; `None` where it raises `TypeError`. */
  function Less(a: Value, b: Value): (r: Option<bool>)
    ensures Numeric(a).Some? && Numeric(b).Some? ==> r == Some(Numeric(a).value < Numeric(b).value)
    ensures r.None? <==> !((Numeric(a).Some? && Numeric(b).Some?) || (a.Str? && b.Str?))
  {
    if Numeric(a).Some? && Numeric(b).Some? then Some(Numeric(a).value < Numeric(b).value)
    else if a.Str? && b.Str? then Some(StrLess(a.s, b.s))
    else None
  }

  predicate EndsWith(s: string, suffix: string) {
    |suffix| <= |s| && s[|s| - |suffix|..] == suffix
  }

  /**
   * The extra rule checked for one present key: `None` when the
   * comparison raises, else the message it adds (if any).
   */
  function RangeIssue(section: string, key: string, v: Value, minTeams: Option<Value>): Option<seq<Issue>>
  {
    if section == "tournament" then
      if key == "min_teams" then
        match Less(v, Int(2)) case None => None case Some(b) => Some(if b then [MinTeamsBelowTwo] else [])
      else if key == "max_teams" then
        if minTeams.None? then None
        else match Less(v, minTeams.value) case None => None case Some(b) => Some(if b then [MaxTeamsBelowMin] else [])
      else Some([])
    else if section == "system" then
      if EndsWith(key, "_days") then
        match Less(v, Int(1)) case None => None case Some(b) => Some(if b then [DaysBelowOne(key)] else [])
      else if key == "session_timeout" then
        match Less(v, Int(300)) case None => None case Some(b) => Some(if b then [TimeoutBelowFiveMinutes] else [])
      else Some([])
    else Some([])
  }

  /** The section's `min_teams`, which the `max_teams` rule compares against (a `KeyError` when absent). */
  function MinTeams(entries: map<string, Value>): Option<Value> {
    if "min_teams" in entries then Some(entries["min_teams"]) else None
  }

  /** Default entry `e` of section `s` is present, of the default's type, and within its range. */
  predicate KeyPasses(cfg: map<string, map<string, Value>>, s: string, e: (string, Value)) {
    s in cfg && e.0 in cfg[s] && IsInstance(cfg[s][e.0], e.1) && RangeIssue(s, e.0, cfg[s][e.0], MinTeams(cfg[s])) == Some([])
  }

  /** The messages for the default keys `keys` of one section; `None` if a check raises. */
  function KeyIssues(cfg: map<string, map<string, Value>>, section: string, keys: seq<(string, Value)>): Option<seq<Issue>>
  {
    if keys == [] then Some([])
    else
      var prev := KeyIssues(cfg, section, keys[..|keys| - 1]);
      var (key, default) := keys[|keys| - 1];
      if prev.None? then None
      else if section !in cfg || key !in cfg[section] then Some(prev.value + [Missing(key)])
      else
        var v := cfg[section][key];
        var typed := if IsInstance(v, default) then [] else [WrongType(key)];
        match RangeIssue(section, key, v, MinTeams(cfg[section]))
        case None => None
        case Some(extra) => Some(prev.value + typed + extra)
  }

  /** The error table of `validate_config` over the sections `names`; `None` if a check raises. */
  function Issues(cfg: map<string, map<string, Value>>, names: seq<string>): Option<map<string, seq<Issue>>>
  {
    if names == [] then Some(map[])
    else
      var prev := Issues(cfg, names[..|names| - 1]);
      var name := names[|names| - 1];
      if prev.None? then None
      else match KeyIssues(cfg, name, DefaultSection(name))
        case None => None
        case Some(found) => Some(if found == [] then prev.value else prev.value[name := found])
  }

  /** The checks of one section in `validate_config`; `None` when one of them raises. */
  method CheckSection(cfg: map<string, map<string, Value>>, name: string, defaults: seq<(string, Value)>)
    returns (found: Option<seq<Issue>>)
    ensures found == KeyIssues(cfg, name, defaults)
  {
    var issues: seq<Issue> := [];
    var j := 0;
    while j < |defaults|
      invariant 0 <= j <= |defaults|
      invariant KeyIssues(cfg, name, defaults[..j]) == Some(issues)
    {
      assert defaults[..j + 1][..j] == defaults[..j];
      var (key, default) := defaults[j];
      if name !in cfg || key !in cfg[name] {
        issues := issues + [Missing(key)];
      } else {
        var v := cfg[name][key];
        var typed := if IsInstance(v, default) then [] else [WrongType(key)];
        var extra := RangeIssue(name, key, v, MinTeams(cfg[name]));
        if extra.None? {
          CrashPersists(cfg, name, defaults, j + 1);
          assert defaults[..|defaults|] == defaults;
          return None;
        }
        issues := issues + typed + extra.value;
      }
      j := j + 1;
    }
    assert defaults[..|defaults|] == defaults;
    found := Some(issues);
  }

  /** The loop of `validate_config` over the sections `names`; `None` when a check raises. */
  method CheckSections(cfg: map<string, map<string, Value>>, names: seq<string>) returns (table: Option<map<string, seq<Issue>>>)
    ensures table == Issues(cfg, names)
  {
    var errors := map[];
    var n := 0;
    while n < |names|
      invariant 0 <= n <= |names|
      invariant Issues(cfg, names[..n]) == Some(errors)
    {
      var name := names[n];
      var found := CheckSection(cfg, name, DefaultSection(name));
      if found.None? {
        CrashStep(cfg, names, n);
        return None;
      }
      IssuesStep(cfg, names, n, errors, found.value);
      if found.value != [] {
        errors := errors[name := found.value];
      }
      n := n + 1;
    }
    assert names[..|names|] == names;
    table := Some(errors);
  }

  /** One more section that raises nothing adds its messages, if any, to the table. */
  lemma IssuesStep(cfg: map<string, map<string, Value>>, names: seq<string>, n: int, errors: map<string, seq<Issue>>, found: seq<Issue>)
    requires 0 <= n < |names|
    requires Issues(cfg, names[..n]) == Some(errors)
    requires KeyIssues(cfg, names[n], DefaultSection(names[n])) == Some(found)
    ensures Issues(cfg, names[..n + 1]) == Some(if found == [] then errors else errors[names[n] := found])
  {
    assert names[..n + 1][..n] == names[..n];
  }

  /** A section that raises makes the whole check raise, whatever follows it. */
  lemma CrashStep(cfg: map<string, map<string, Value>>, names: seq<string>, n: int)
    requires 0 <= n < |names|
    requires Issues(cfg, names[..n]).Some?
    requires KeyIssues(cfg, names[n], DefaultSection(names[n])).None?
    ensures Issues(cfg, names).None?
  {
    assert names[..n + 1][..n] == names[..n];
    CrashPersistsSections(cfg, names, n + 1);
  }

  /** Every default key of every section passes its checks. */
  ghost predicate AllPass(cfg: map<string, map<string, Value>>) {
    forall s, e :: s in Sections && e in DefaultSection(s) ==> KeyPasses(cfg, s, e)
  }

  /**
   * `validate_config`: checks every default key of every section of the
   * whole configuration. Valid iff no section reports a message, that is
   * iff every default key is present, typed like its default and in
   * range; an exception yields invalid with the single `Crashed` message.
   */
  method ValidateConfig(rows: seq<Row>) returns (valid: bool, errors: map<string, seq<Issue>>)
    ensures Issues(AllOf(rows), Sections).None? ==> !valid && errors == map["system" := [Crashed]]
    ensures Issues(AllOf(rows), Sections).Some? ==> errors == Issues(AllOf(rows), Sections).value
    ensures valid <==> errors == map[]
    ensures valid <==> AllPass(AllOf(rows))
  {
    var view := GetConfig(rows, None);
    var cfg := view.sections;
    var table := CheckSections(cfg, Sections);
    if table.None? {
      CleanIffAllPass(cfg);
      valid, errors := false, map["system" := [Crashed]];
      assert "system" in errors;
      return;
    }
    errors := table.value;
    valid := |errors| == 0;
    if |errors| == 0 {
      assert errors.Keys == {};
    }
    CleanIffAllPass(cfg);
  }

  lemma CleanIffAllPass(cfg: map<string, map<string, Value>>)
    ensures Issues(cfg, Sections) == Some(map[]) <==> AllPass(cfg)
  {
    TableEmptyIff(cfg, Sections);
    forall s | s in Sections {
      SectionCleanIff(cfg, s, DefaultSection(s));
    }
  }

  lemma {:induction false} CrashPersists(cfg: map<string, map<string, Value>>, name: string, keys: seq<(string, Value)>, j: int)
    requires 0 < j <= |keys| && KeyIssues(cfg, name, keys[..j]).None?
    ensures forall m :: j <= m <= |keys| ==> KeyIssues(cfg, name, keys[..m]).None?
    decreases |keys| - j
  {
    if j < |keys| {
      var next := keys[..j + 1];
      assert next[..|next| - 1] == keys[..j];
      assert KeyIssues(cfg, name, next).None?;
      CrashPersists(cfg, name, keys, j + 1);
    }
  }

  lemma {:induction false} CrashPersistsSections(cfg: map<string, map<string, Value>>, names: seq<string>, n: int)
    requires 0 < n <= |names| && Issues(cfg, names[..n]).None?
    ensures Issues(cfg, names).None?
    decreases |names| - n
  {
    if n < |names| {
      var next := names[..n + 1];
      assert next[..|next| - 1] == names[..n];
      assert Issues(cfg, next).None?;
      CrashPersistsSections(cfg, names, n + 1);
    } else {
      assert names[..n] == names;
      assert Issues(cfg, names) == Issues(cfg, names[..n]);
    }
  }

  /** A section reports nothing iff every one of its default keys passes. */
  lemma {:induction false} SectionCleanIff(cfg: map<string, map<string, Value>>, s: string, keys: seq<(string, Value)>)
    ensures KeyIssues(cfg, s, keys) == Some([]) <==> forall i :: 0 <= i < |keys| ==> KeyPasses(cfg, s, keys[i])
    decreases |keys|
  {
    if keys != [] {
      var init := keys[..|keys| - 1];
      SectionCleanIff(cfg, s, init);
      assert forall i :: 0 <= i < |init| ==> init[i] == keys[i];
      LastKeyClean(cfg, s, keys);
    }
  }

  /** A section's keys report nothing iff the earlier ones report nothing and the last one passes. */
  lemma LastKeyClean(cfg: map<string, map<string, Value>>, s: string, keys: seq<(string, Value)>)
    requires keys != []
    ensures KeyIssues(cfg, s, keys) == Some([]) <==>
      KeyIssues(cfg, s, keys[..|keys| - 1]) == Some([]) && KeyPasses(cfg, s, keys[|keys| - 1])
  {
    var prev := KeyIssues(cfg, s, keys[..|keys| - 1]);
    var (key, default) := keys[|keys| - 1];
    if prev.Some? && s in cfg && key in cfg[s] {
      var v := cfg[s][key];
      var typed := if IsInstance(v, default) then [] else [WrongType(key)];
      var extra := RangeIssue(s, key, v, MinTeams(cfg[s]));
      if extra.Some? {
        assert |prev.value + typed + extra.value| == |prev.value| + |typed| + |extra.value|;
      }
    }
  }

  /** The error table is empty iff every section reports nothing. */
  lemma {:induction false} TableEmptyIff(cfg: map<string, map<string, Value>>, names: seq<string>)
    ensures Issues(cfg, names) == Some(map[]) <==>
      forall i :: 0 <= i < |names| ==> KeyIssues(cfg, names[i], DefaultSection(names[i])) == Some([])
    decreases |names|
  {
    if names != [] {
      var init := names[..|names| - 1];
      TableEmptyIff(cfg, init);
      assert forall i :: 0 <= i < |init| ==> init[i] == names[i];
      LastSectionClean(cfg, names);
    }
  }

  /** The table is empty iff it was before the last section and that section reports nothing. */
  lemma LastSectionClean(cfg: map<string, map<string, Value>>, names: seq<string>)
    requires names != []
    ensures var name := names[|names| - 1];
      Issues(cfg, names) == Some(map[]) <==>
        Issues(cfg, names[..|names| - 1]) == Some(map[]) && KeyIssues(cfg, name, DefaultSection(name)) == Some([])
  {
    var name := names[|names| - 1];
    var prev := Issues(cfg, names[..|names| - 1]);
    var found := KeyIssues(cfg, name, DefaultSection(name));
    if prev.Some? && found.Some? && found.value != [] {
      assert name in prev.value[name := found.value];
    }
    if prev.Some? && prev.value != map[] {
      var x :| x in prev.value;
      if found.Some? {
        assert x in Issues(cfg, names).value;
      }
    }
  }
}
