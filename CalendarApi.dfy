/** The calendar formatters and the date-argument parser. Dates are what
    the formatter reads off them (local hour and minute) and what the parser
    decides about its input (which shape it has); building and reading real
    `Date` objects is not part of the model. */
module CalendarApi {
  import opened Wrappers
  import opened Text

  type Hour = h: nat | h < 24
  type Minute = m: nat | m < 60

  /** `new Date(dateTime)` as the formatter reads it: a local hour and minute,
      or an Invalid Date (from a missing or unparsable `dateTime`). */
  datatype Clock = At(hour: Hour, minute: Minute) | InvalidTime

  /** A calendar event: `start` is absent when the event has no
      `start.dateTime` (an all-day event); `end` is absent when
      `end.dateTime` is. */
  datatype Event = Event(start: Option<Clock>, end: Option<Clock>, summary: Option<string>)

  const AllDay: string := "종일"
  const NoEvents: string := "오늘 일정이 없습니다."
  const Untitled: string := "(제목 없음)"

  /** `getHours()`/`getMinutes()` zero-padded to two digits and joined by
      ':'; an Invalid Date prints `NaN` for both. */
  function ClockString(c: Clock): (s: string)
    ensures '\n' !in s
    ensures c.At? ==> |s| == 5 && s[2] == ':'
  {
    match c
    case At(h, m) =>
      PadDigits(h, 2);
      PadDigits(m, 2);
      JoinedPairs(Pad(h, 2), ':', Pad(m, 2));
      Pad(h, 2) + ":" + Pad(m, 2)
    case InvalidTime => "NaN:NaN"
  }

  /** `formatEventTime`: "종일" for an event without a start time, otherwise
      the two clocks around " - "; never a newline. */
  function FormatEventTime(e: Event): (s: string)
    ensures e.start.None? ==> s == AllDay
    ensures '\n' !in s
  {
    if e.start.Some? then ClockString(e.start.value) + " - " + ClockString(e.end.GetOr(InvalidTime))
    else AllDay
  }

  /** `event.summary || '(제목 없음)'`. */
  function Title(e: Event): (t: string)
    ensures e.summary.Some? && e.summary.value != "" ==> t == e.summary.value
    ensures e.summary.None? || e.summary.value == "" ==> t == Untitled
  {
    if e.summary.Some? && e.summary.value != "" then e.summary.value else Untitled
  }

  /** One line of the listing: `**<time>** <title>`. */
  function Line(e: Event): string {
    "**" + FormatEventTime(e) + "** " + Title(e)
  }

  /** `events.map(...)`: one line per event, in order. */
  function Lines(events: seq<Event>): (lines: seq<string>)
    ensures |lines| == |events|
    ensures forall i :: 0 <= i < |events| ==> lines[i] == Line(events[i])
  {
    seq(|events|, i requires 0 <= i < |events| => Line(events[i]))
  }

  /** `formatEventsForDiscord`: the fixed sentence for no events, otherwise
      the lines joined by newlines, beginning with the first event's line. */
  function FormatEventsForDiscord(events: seq<Event>): (s: string)
    ensures |events| == 0 ==> s == NoEvents
    ensures |events| > 0 ==> Line(events[0]) <= s
  {
    if |events| == 0 then NoEvents
    else
      var lines := Lines(events);
      JoinStartsWithFirst(lines, '\n');
      Join(lines, '\n')
  }

  /** A timed event prints as `HH:MM - HH:MM`: 13 characters, the start
      clock, " - ", then the end clock (whose digits read back by
      `ClockDigits`). */
  lemma TimedEventTime(e: Event, h1: Hour, m1: Minute, h2: Hour, m2: Minute)
    requires e.start == Some(At(h1, m1)) && e.end == Some(At(h2, m2))
    ensures var s := FormatEventTime(e);
      && |s| == 13 && s[..5] == ClockString(At(h1, m1))
      && s[5..8] == " - " && s[8..] == ClockString(At(h2, m2))
  {
    var a, b := ClockString(At(h1, m1)), ClockString(At(h2, m2));
    var s := FormatEventTime(e);
    assert s == a + " - " + b;
    SliceConcat3(a, " - ", b);
  }

  lemma SliceConcat3(a: string, b: string, c: string)
    ensures var s := a + b + c;
      s[..|a|] == a && s[|a|..|a| + |b|] == b && s[|a| + |b|..] == c
  {
  }

  /** `HH:MM` of a valid time: its digit pairs read back as hour and minute. */
  lemma ClockDigits(h: Hour, m: Minute)
    ensures var s := ClockString(At(h, m));
      && |s| == 5 && s[2] == ':'
      && AllDigits(s[..2]) && DigitsValue(s[..2]) == h
      && AllDigits(s[3..]) && DigitsValue(s[3..]) == m
  {
    PadDigits(h, 2);
    PadDigits(m, 2);
    JoinedPairs(Pad(h, 2), ':', Pad(m, 2));
  }

  /** Two digit pairs joined by a separator, and sliced back. */
  lemma JoinedPairs(a: string, sep: char, b: string)
    requires |a| == 2 && |b| == 2 && AllDigits(a) && AllDigits(b)
    ensures var s := a + [sep] + b;
      && |s| == 5 && s[2] == sep && s[..2] == a && s[3..] == b
      && (sep != '\n' ==> '\n' !in s)
  {
    var s := a + [sep] + b;
    assert s == [a[0], a[1], sep, b[0], b[1]];
  }

  /** The time reads "종일" exactly when the event has no start time. */
  lemma AllDayIff(e: Event)
    ensures FormatEventTime(e) == AllDay <==> e.start.None?
  {
    if e.start.Some? {
      assert |FormatEventTime(e)| >= 3 + |ClockString(e.start.value)|;
    }
  }

  /** A line never contains a newline when the summary does not. */
  lemma LineHasNoNewline(e: Event)
    requires e.summary.Some? ==> '\n' !in e.summary.value
    ensures '\n' !in Line(e)
  {
    var t := FormatEventTime(e);
    assert '\n' !in t;
    assert '\n' !in Untitled;
  }

  /** The listing is the fixed message exactly when there are no events. */
  lemma EmptyListingIff(events: seq<Event>)
    ensures FormatEventsForDiscord(events) == NoEvents <==> |events| == 0
  {
    if |events| > 0 {
      var lines := Lines(events);
      var s := FormatEventsForDiscord(events);
      assert s[0] == '*' by {
        if |lines| == 1 {
          assert s == lines[0];
        } else {
          assert s == lines[0] + ['\n'] + Join(lines[1..], '\n');
        }
      }
    }
  }

  /** A non-empty listing splits back, at its newlines, into one line per
      event in order; so it holds exactly `n - 1` newlines. */
  lemma ListingLines(events: seq<Event>)
    requires |events| >= 1
    requires forall i :: 0 <= i < |events| ==> (events[i].summary.Some? ==> '\n' !in events[i].summary.value)
    ensures Split(FormatEventsForDiscord(events), '\n') == Lines(events)
    ensures Count(FormatEventsForDiscord(events), '\n') == |events| - 1
  {
    var lines := Lines(events);
    forall i | 0 <= i < |lines|
      ensures '\n' !in lines[i]
    {
      LineHasNoNewline(events[i]);
    }
    SplitJoin(lines, '\n');
    JoinCount(lines, '\n');
  }

  // ---------------------------------------------------------------------------
  // parseDate

  /** What `parseDate` returns, by kind: today; a full date or a current-year
      month and day, with the numbers the digits spell (unchecked, as the
      regular expressions check only the shape); today plus a number of days;
      an Invalid Date; or null. */
  datatype DateQuery =
    | Today
    | FullDate(year: nat, month: nat, day: nat)
    | MonthDay(month: nat, day: nat)
    | DaysAhead(days: nat)
    | InvalidDate
    | NoDate

  /** `/^\d{4}-\d{2}-\d{2}$/`. */
  predicate FullDateShape(s: string) {
    |s| == 10 && AllDigits(s[..4]) && s[4] == '-' && AllDigits(s[5..7]) && s[7] == '-' && AllDigits(s[8..])
  }

  /** `/^\d{2}-\d{2}$/`. */
  predicate MonthDayShape(s: string) {
    |s| == 5 && AllDigits(s[..2]) && s[2] == '-' && AllDigits(s[3..])
  }

  /** The keyword object: 오늘 (today), 내일 (tomorrow), 모레 (the day after). */
  const Keywords: map<string, nat> := map["오늘" := 0, "내일" := 1, "모레" := 2]

  /** The properties every object literal inherits from `Object.prototype`. */
  const ObjectPrototypeNames: set<string> := {
    "constructor", "hasOwnProperty", "isPrototypeOf", "propertyIsEnumerable",
    "toLocaleString", "toString", "valueOf", "__proto__",
    "__defineGetter__", "__defineSetter__", "__lookupGetter__", "__lookupSetter__"
  }

  /** The outcome of reading `keywords[dateStr]`. */
  datatype Property = Own(value: nat) | Inherited | Undefined

  /** `keywords[key]` on the object literal: its own keys first, then the
      names inherited from `Object.prototype`. */
  function LiteralLookup(key: string): (p: Property)
    ensures p.Own? <==> key in Keywords
    ensures p.Undefined? <==> key !in Keywords && key !in ObjectPrototypeNames
  {
    if key in Keywords then Own(Keywords[key])
    else if key in ObjectPrototypeNames then Inherited
    else Undefined
  }

  /** An own-property lookup (`Object.hasOwn(keywords, key)`). */
  function OwnLookup(key: string): (p: Property)
    ensures p.Own? <==> key in Keywords
    ensures !p.Inherited?
  {
    if key in Keywords then Own(Keywords[key]) else Undefined
  }

  /** The branches of `parseDate` after the two shape tests, given how the
      keyword was looked up: a number is added to the day; an inherited
      function or object added to a number gives NaN, and so an Invalid Date. */
  function Classify(s: string, keyword: Property): DateQuery {
    if FullDateShape(s) then FullDate(DigitsValue(s[..4]), DigitsValue(s[5..7]), DigitsValue(s[8..]))
    else if MonthDayShape(s) then MonthDay(DigitsValue(s[..2]), DigitsValue(s[3..]))
    else match keyword
      case Own(days) => DaysAhead(days)
      case Inherited => InvalidDate
      case Undefined => NoDate
  }

  /** `parseDate` as written: an absent or empty argument is today; the
      keyword test reads `keywords[dateStr] !== undefined`. */
  function ParseDateAsWritten(input: Option<string>): (d: DateQuery)
    ensures d.Today? <==> input.None? || input.value == ""
    ensures d.FullDate? <==> input.Some? && FullDateShape(input.value)
    ensures d.MonthDay? <==> input.Some? && MonthDayShape(input.value)
    ensures d.DaysAhead? <==> input.Some? && input.value in Keywords
    ensures d.InvalidDate? <==> input.Some? && input.value in ObjectPrototypeNames
  {
    PrototypeNamesAreWords(input);
    if input.None? || input.value == "" then Today
    else Classify(input.value, LiteralLookup(input.value))
  }

  /** No inherited name is empty, a keyword, or of either date shape. */
  lemma PrototypeNamesAreWords(input: Option<string>)
    ensures input.Some? && input.value in ObjectPrototypeNames ==>
      && input.value != "" && input.value !in Keywords
      && !FullDateShape(input.value) && !MonthDayShape(input.value)
  {
    if input.Some? && input.value in ObjectPrototypeNames {
      assert |input.value| > 5 && |input.value| != 10;
    }
  }

  /** `parseDate` with the keyword test restricted to the object's own keys,
      so that anything but the three keywords and the two shapes is null. */
  function ParseDate(input: Option<string>): (d: DateQuery)
    ensures d.Today? <==> input.None? || input.value == ""
    ensures d.FullDate? <==> input.Some? && FullDateShape(input.value)
    ensures d.MonthDay? <==> input.Some? && MonthDayShape(input.value)
    ensures d.DaysAhead? <==> input.Some? && input.value in Keywords
    ensures d.DaysAhead? ==> d.days == Keywords[input.value] <= 2
    ensures !d.InvalidDate?
    ensures d.NoDate? <==> input.Some? && input.value != "" && !FullDateShape(input.value)
                            && !MonthDayShape(input.value) && input.value !in Keywords
  {
    if input.None? || input.value == "" then Today
    else Classify(input.value, OwnLookup(input.value))
  }

  /** The zero-padded spelling of a date parses back to its numbers. */
  lemma FullDateRoundTrip(year: nat, month: nat, day: nat)
    requires year < 10000 && month < 100 && day < 100
    ensures ParseDate(Some(Pad(year, 4) + "-" + Pad(month, 2) + "-" + Pad(day, 2))) == FullDate(year, month, day)
  {
    var s := Pad(year, 4) + "-" + Pad(month, 2) + "-" + Pad(day, 2);
    DateSlices(year, month, day);
    assert FullDateShape(s);
  }

  lemma DateSlices(year: nat, month: nat, day: nat)
    requires year < 10000 && month < 100 && day < 100
    ensures var s := Pad(year, 4) + "-" + Pad(month, 2) + "-" + Pad(day, 2);
      && |s| == 10 && s[4] == '-' && s[7] == '-'
      && AllDigits(s[..4]) && DigitsValue(s[..4]) == year
      && AllDigits(s[5..7]) && DigitsValue(s[5..7]) == month
      && AllDigits(s[8..]) && DigitsValue(s[8..]) == day
  {
    assert Pow10(4) == 10000;
    PadDigits(year, 4);
    PadDigits(month, 2);
    PadDigits(day, 2);
    DashedSlices(Pad(year, 4), Pad(month, 2), Pad(day, 2));
  }

  /** Slicing `a-b-c` back into its parts. */
  lemma DashedSlices(a: string, b: string, c: string)
    requires |a| == 4 && |b| == 2 && |c| == 2
    ensures var s := a + "-" + b + "-" + c;
      |s| == 10 && s[4] == '-' && s[7] == '-' && s[..4] == a && s[5..7] == b && s[8..] == c
  {
  }

  /** A month-day argument is exactly the spelling of the numbers it
      yields, in both directions; months and days are not range-checked. */
  lemma MonthDayIff(s: string, month: nat, day: nat)
    requires month < 100 && day < 100
    ensures ParseDate(Some(s)) == MonthDay(month, day) <==> s == Pad(month, 2) + "-" + Pad(day, 2)
  {
    if ParseDate(Some(s)) == MonthDay(month, day) {
      MonthDaySpelling(s);
    }
    if s == Pad(month, 2) + "-" + Pad(day, 2) {
      PadDigits(month, 2);
      PadDigits(day, 2);
      JoinedPairs(Pad(month, 2), '-', Pad(day, 2));
      assert !FullDateShape(s);
    }
  }

  /** A month-day argument is the padded spelling of the numbers it spells. */
  lemma MonthDaySpelling(s: string)
    requires MonthDayShape(s)
    ensures DigitsValue(s[..2]) < 100 && DigitsValue(s[3..]) < 100
    ensures s == Pad(DigitsValue(s[..2]), 2) + "-" + Pad(DigitsValue(s[3..]), 2)
  {
    var a, b := s[..2], s[3..];
    PadOfTwoDigits(a);
    PadOfTwoDigits(b);
    AroundMiddle(s);
    assert [s[2]] == "-";
  }

  lemma AroundMiddle(s: string)
    requires |s| == 5
    ensures s == s[..2] + [s[2]] + s[3..]
  {
  }

  /** The three keywords are offsets of 0, 1 and 2 days. */
  lemma KeywordOffsets()
    ensures ParseDate(Some("오늘")) == DaysAhead(0)
    ensures ParseDate(Some("내일")) == DaysAhead(1)
    ensures ParseDate(Some("모레")) == DaysAhead(2)
  {
  }

  /** The two versions differ only on the inherited names, where the code as
      written gives an Invalid Date instead of null. */
  lemma PrototypeNameFinding(s: string)
    ensures s !in ObjectPrototypeNames ==> ParseDateAsWritten(Some(s)) == ParseDate(Some(s))
    ensures s in ObjectPrototypeNames ==>
      ParseDateAsWritten(Some(s)) == InvalidDate && ParseDate(Some(s)) == NoDate
  {
    if s in ObjectPrototypeNames {
      assert |s| > 5 && s !in Keywords;
    }
  }

  /** The concrete instance: `parseDate("toString")`. */
  lemma ToStringIsNotNull()
    ensures ParseDateAsWritten(Some("toString")) == InvalidDate
    ensures ParseDate(Some("toString")) == NoDate
  {
    PrototypeNameFinding("toString");
  }
}
