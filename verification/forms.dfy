/**
 * The administration forms (`forms/admin.py`) as predicates over the
 * submitted values. A missing value is `None`. `DataRequired` refuses a
 * missing value, a falsy one (0 for an integer) and a string of only
 * whitespace; `Length` counts characters of the value as submitted;
 * `NumberRange` is inclusive at both ends.
 */
module Forms {
  import opened Wrappers

  /** `str.strip()` would leave nothing (ASCII whitespace). */
  predicate Blank(s: string) {
    forall i :: 0 <= i < |s| ==> s[i] in {' ', '\t', '\n', '\r', '\U{B}', '\U{C}'}
  }

  /** `DataRequired` on a string field. */
  predicate RequiredText(s: Option<string>) {
    s.Some? && !Blank(s.value)
  }

  /** `DataRequired` on an integer field: present and non-zero. */
  predicate RequiredNumber(n: Option<int>) {
    n.Some? && n.value != 0
  }

  /** A required text of `min..max` characters. */
  predicate TextIn(s: Option<string>, min: int, max: int) {
    RequiredText(s) && min <= |s.value| <= max
  }

  /** A required number in `min..max`. */
  predicate NumberIn(n: Option<int>, min: int, max: int) {
    RequiredNumber(n) && min <= n.value <= max
  }

  /** `YearForm`: a year from 1900 up to the current year. */
  predicate YearFormValid(year: Option<int>, currentYear: int): (b: bool)
    ensures b ==> year.Some? && 1900 <= year.value <= currentYear
  {
    NumberIn(year, 1900, currentYear)
  }

  /**
   * `TournamentForm`: a name of 3..100 characters, an address of 3..200,
   * 1..10 fields, matches of 5..90 minutes and breaks of 1..30 minutes.
   */
  predicate TournamentFormValid(name: Option<string>, address: Option<string>, fields: Option<int>,
                                matchLength: Option<int>, breakLength: Option<int>): (b: bool)
    ensures b ==> name.Some? && address.Some? && 3 <= |name.value| <= 100 && 3 <= |address.value| <= 200
    ensures b ==> fields.Some? && matchLength.Some? && breakLength.Some?
    ensures b ==> 1 <= fields.value <= 10 && 5 <= matchLength.value <= 90 && 1 <= breakLength.value <= 30
  {
    TextIn(name, 3, 100) && TextIn(address, 3, 200) && NumberIn(fields, 1, 10)
    && NumberIn(matchLength, 5, 90) && NumberIn(breakLength, 1, 30)
  }

  /** `TeamForm`: a name of 3..100 characters. */
  predicate TeamFormValid(name: Option<string>): (b: bool)
    ensures b ==> name.Some? && 3 <= |name.value| <= 100 && !Blank(name.value)
  {
    TextIn(name, 3, 100)
  }

  /**
   * `MatchForm`: both teams and the field chosen from their choice lists
   * (a select refuses any other value), a start time, and
   * `validate_team2_id`: the second team differs from the first.
   */
  predicate MatchFormValid(team1: Option<int>, team2: Option<int>, start: Option<int>, field: Option<int>,
                           teamChoices: set<int>, fieldChoices: set<int>): (b: bool)
    ensures b ==> team1.Some? && team2.Some? && team1.value != team2.value && field.Some? && field.value in fieldChoices
  {
    RequiredNumber(team1) && team1.value in teamChoices
    && RequiredNumber(team2) && team2.value in teamChoices && team2 != team1
    && start.Some?
    && RequiredNumber(field) && field.value in fieldChoices
  }

  /** `AdminForm` without the e-mail syntax check: a password of at least 6 characters, repeated exactly. */
  predicate AdminFormValid(password: Option<string>, confirm: Option<string>): (b: bool)
    ensures b ==> password.Some? && |password.value| >= 6 && confirm == password
  {
    RequiredText(password) && |password.value| >= 6 && RequiredText(confirm) && confirm == password
  }

  /**
   * A tournament entered through the form has at least one field and a
   * slot (match plus break) of at least 6 minutes, so the schedules built
   * from it never divide by zero and never overlap.
   */
  lemma TournamentFormBounds(name: Option<string>, address: Option<string>, fields: Option<int>,
                             matchLength: Option<int>, breakLength: Option<int>)
    requires TournamentFormValid(name, address, fields, matchLength, breakLength)
    ensures 1 <= fields.value <= 10
    ensures 6 <= matchLength.value + breakLength.value <= 120
    ensures 360 <= 60 * (matchLength.value + breakLength.value)
  {
  }

  /** Three spaces are long enough for `Length` but refused by `DataRequired`. */
  lemma BlankNameRefused()
    ensures !TeamFormValid(Some("   "))
    ensures TeamFormValid(Some("abc"))
  {
    assert !Blank("abc") by { assert "abc"[0] == 'a'; }
    assert Blank("   ");
  }

  /** The same team on both sides is never a valid match. */
  lemma SameTeamRefused(t: int, start: Option<int>, field: Option<int>, teamChoices: set<int>, fieldChoices: set<int>)
    ensures !MatchFormValid(Some(t), Some(t), start, field, teamChoices, fieldChoices)
  {
  }

  /** A valid match form names two distinct teams from the choices and a field from the choices. */
  lemma MatchFormSound(team1: Option<int>, team2: Option<int>, start: Option<int>, field: Option<int>,
                       teamChoices: set<int>, fieldChoices: set<int>)
    requires MatchFormValid(team1, team2, start, field, teamChoices, fieldChoices)
    ensures team1.value != team2.value && {team1.value, team2.value} <= teamChoices && field.value in fieldChoices
  {
  }

  /** A password confirmed by a different string is refused, however long both are. */
  lemma MismatchRefused(p: string, c: string)
    requires p != c
    ensures !AdminFormValid(Some(p), Some(c))
  {
  }
}
