/** The deadline-phrase resolver of the task routes
    (`parseSuggestedDeadline`): a fixed, ordered table of case-insensitive
    keyword tests, each moving `now` by a whole number of days. */
module Deadline {
  import opened Text
  import opened Time

  /** The rows of the keyword table, in the order they are tried. */
  datatype Rule = Tomorrow | ThisWeek | NextWeek | NextMonday | Fallback

  /** The keyword each rule tests for; the fallback has none. */
  function Keyword(rule: Rule): string {
    match rule
    case Tomorrow => "tomorrow"
    case ThisWeek => "this week"
    case NextWeek => "next week"
    case NextMonday => "monday"
    case Fallback => ""
  }

  /** A rule's place in the table. */
  function Order(rule: Rule): nat {
    match rule
    case Tomorrow => 0
    case ThisWeek => 1
    case NextWeek => 2
    case NextMonday => 3
    case Fallback => 4
  }

  /** The first rule whose keyword the lower-cased phrase contains: the
      chosen keyword occurs, and the keyword of every rule tried before it
      does not, wherever the keywords sit in the text. */
  function RuleFor(suggestion: string): (r: Rule)
    ensures r != Fallback ==> Contains(ToLower(suggestion), Keyword(r))
    ensures forall e: Rule :: e != Fallback && Order(e) < Order(r) ==> !Contains(ToLower(suggestion), Keyword(e))
  {
    var lower := ToLower(suggestion);
    if Contains(lower, "tomorrow") then Tomorrow
    else if Contains(lower, "this week") then ThisWeek
    else if Contains(lower, "next week") then NextWeek
    else if Contains(lower, "monday") then NextMonday
    else Fallback
  }

  /** How many days after today a rule lands, given today's weekday
      (0 = Sunday). */
  function DaysAhead(rule: Rule, weekday: int): (r: int)
    requires 0 <= weekday < 7
    ensures 0 <= r <= 7
  {
    match rule
    case Tomorrow => 1
    case ThisWeek => 7 - weekday
    case NextWeek => 7
    case NextMonday => (1 + 7 - weekday) % 7
    case Fallback => 7
  }

  /** The instant a phrase resolves to. */
  function Resolved(suggestion: string, now: int): (r: int)
    ensures now <= r <= now + 7 * MsPerDay
    ensures (r - now) % MsPerDay == 0
  {
    now + DaysAhead(RuleFor(suggestion), Weekday(Day(now))) * MsPerDay
  }

  /** `parseSuggestedDeadline`, with the clock reading passed in as `now`:
      builds the three candidate dates by moving copies of `now`, then
      picks one by the keyword table. */
  method ParseSuggestedDeadline(suggestion: string, now: int) returns (r: int)
    ensures r == Resolved(suggestion, now)
    ensures TimeOfDay(r) == TimeOfDay(now)
    ensures Day(now) <= Day(r) <= Day(now) + 7
  {
    var today := new Date(now);
    var tomorrow := new Date(now);
    tomorrow.ShiftDate(1);
    var nextWeek := new Date(now);
    nextWeek.ShiftDate(7);
    var thisWeekEnd := new Date(now);
    thisWeekEnd.ShiftDate(7 - today.GetDay());
    var lower := ToLower(suggestion);
    if Contains(lower, "tomorrow") {
      r := tomorrow.ms;
    } else if Contains(lower, "this week") {
      r := thisWeekEnd.ms;
    } else if Contains(lower, "next week") {
      r := nextWeek.ms;
    } else if Contains(lower, "monday") {
      var nextMonday := new Date(now);
      nextMonday.ShiftDate((1 + 7 - today.GetDay()) % 7);
      r := nextMonday.ms;
    } else {
      r := nextWeek.ms;
    }
    ShiftDays(now, DaysAhead(RuleFor(suggestion), Weekday(Day(now))));
  }

  /** Whatever the phrase, the result keeps the time of day of `now` and
      lies on the day `DaysAhead` names. */
  lemma ResolvedDay(suggestion: string, now: int)
    ensures Day(Resolved(suggestion, now)) == Day(now) + DaysAhead(RuleFor(suggestion), Weekday(Day(now)))
    ensures TimeOfDay(Resolved(suggestion, now)) == TimeOfDay(now)
  {
    ShiftDays(now, DaysAhead(RuleFor(suggestion), Weekday(Day(now))));
  }

  /** "tomorrow" anywhere, in any case, wins over every other keyword and
      gives exactly one day later at the same time of day. */
  lemma TomorrowRule(suggestion: string, now: int)
    requires Contains(ToLower(suggestion), "tomorrow")
    ensures RuleFor(suggestion) == Tomorrow
    ensures Resolved(suggestion, now) == now + MsPerDay
    ensures Day(Resolved(suggestion, now)) == Day(now) + 1
  {
    ResolvedDay(suggestion, now);
  }

  /** "this week" (without "tomorrow") lands on the coming Sunday, one to
      seven days ahead. */
  lemma ThisWeekRule(suggestion: string, now: int)
    requires RuleFor(suggestion) == ThisWeek
    ensures Weekday(Day(Resolved(suggestion, now))) == 0
    ensures Day(now) + 1 <= Day(Resolved(suggestion, now)) <= Day(now) + 7
  {
    ResolvedDay(suggestion, now);
    WeekdayShift(Day(now), 7 - Weekday(Day(now)));
  }

  /** "monday" lands on a Monday zero to six days ahead: on a Monday it
      gives `now` itself, not the following Monday. */
  lemma MondayRule(suggestion: string, now: int)
    requires RuleFor(suggestion) == NextMonday
    ensures Weekday(Day(Resolved(suggestion, now))) == 1
    ensures Day(now) <= Day(Resolved(suggestion, now)) <= Day(now) + 6
    ensures Weekday(Day(now)) == 1 <==> Resolved(suggestion, now) == now
  {
    var w := Weekday(Day(now));
    ResolvedDay(suggestion, now);
    WeekdayShift(Day(now), (8 - w) % 7);
  }

  /** "next week", and any phrase that matches no keyword, give seven days
      later; the resolver never fails. */
  lemma FallbackRule(suggestion: string, now: int)
    requires RuleFor(suggestion) == NextWeek || RuleFor(suggestion) == Fallback
    ensures Resolved(suggestion, now) == now + 7 * MsPerDay
    ensures Weekday(Day(Resolved(suggestion, now))) == Weekday(Day(now))
  {
    ResolvedDay(suggestion, now);
    WeekdayShift(Day(now), 7);
  }

  /** Matching ignores letter case: an upper-cased phrase resolves to the
      same instant. */
  lemma CaseInsensitive(suggestion: string, now: int)
    ensures RuleFor(ToUpper(suggestion)) == RuleFor(suggestion)
    ensures Resolved(ToUpper(suggestion), now) == Resolved(suggestion, now)
  {
    LowerOfUpper(suggestion);
  }

  /** Precedence goes by the table, not by position: "next week" written
      before "tomorrow" still resolves to tomorrow. */
  lemma TomorrowBeatsNextWeek()
    ensures RuleFor("Next week, or TOMORROW") == Tomorrow
  {
    var a := ToLower("Next week, or TOMORROW");
    assert a == "next week, or tomorrow";
    assert a[14..22] == "tomorrow";
    ContainsAt(a, "tomorrow", 14);
  }

  /** "Monday" written before "this week" still resolves to the end of this
      week. */
  lemma ThisWeekBeatsMonday()
    ensures RuleFor("Monday this week") == ThisWeek
  {
    var c := ToLower("Monday this week");
    assert c == "monday this week";
    assert c[7..16] == "this week";
    ContainsAt(c, "this week", 7);
    NoTomorrow(c);
  }

  /** A text in which no 't' is followed by 'o' cannot contain "tomorrow". */
  lemma {:induction false} NoTomorrow(s: string)
    requires forall i :: 0 <= i < |s| - 1 && s[i] == 't' ==> s[i + 1] != 'o'
    ensures !Contains(s, "tomorrow")
    decreases |s|
  {
    if |s| >= 2 {
      assert s[0] != 't' || s[1] != 'o';
    }
    if |s| > 0 {
      NoTomorrow(s[1..]);
    }
  }
}
