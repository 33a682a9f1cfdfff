/**
  The pure parts of the bot's command surface: the greeting chosen from the hour, the report
  phrases and the query string they lead to, and the validation of the "schedule report" and
  "delete scheduled report" commands, gathered in Classify, the dispatch a message reaches once
  both credential fields are filled.
 */
module Commands {
  import opened Wrappers
  import opened JsText
  import opened JsNumber

  // ---------------------------------------------------------------- greeting

  /** greetUser's salutation for an hour of the local clock (new Date().getHours()). */
  function Greeting(hour: int): (r: string)
    ensures r == "Good Morning!" <==> hour < 12
    ensures r == "Good Afternoon!" <==> 12 <= hour < 18
    ensures r == "Good Evening!" <==> 18 <= hour
  {
    if hour < 12 then "Good Morning!"
    else if hour < 18 then "Good Afternoon!"
    else "Good Evening!"
  }

  /** The reply to /start. */
  function WelcomeMessage(hour: int): (r: string)
    ensures StartsWith(r, Greeting(hour))
  {
    Greeting(hour) + " Welcome! Type 'login' to start the login process."
  }

  /** A later hour never gets an earlier part of the day's greeting. */
  lemma GreetingMonotone(h1: int, h2: int)
    requires h1 <= h2
    ensures Greeting(h1) == "Good Evening!" ==> Greeting(h2) == "Good Evening!"
    ensures Greeting(h2) == "Good Morning!" ==> Greeting(h1) == "Good Morning!"
  {
  }

  // ---------------------------------------------------------------- sales reports

  /** The time windows the report endpoint is asked for from the command surface. */
  datatype Filter = Quarter | Week | Month | Today

  function FilterName(f: Filter): string {
    match f
    case Quarter => "quarter"
    case Week => "week"
    case Month => "month"
    case Today => "today"
  }

  /** The four report phrases and "get sales report" (no filter); None for any other text. */
  function ReportRequest(t: string): (r: Option<Option<Filter>>)
    ensures r.Some? ==> t == ReportPhrase(r.value)
  {
    if t == "get quarterly sales report" then Some(Some(Quarter))
    else if t == "get weekly sales report" then Some(Some(Week))
    else if t == "get monthly sales report" then Some(Some(Month))
    else if t == "get daily sales report" then Some(Some(Today))
    else if t == "get sales report" then Some(None)
    else None
  }

  /** The phrase that asks for a report with the given filter. */
  function ReportPhrase(f: Option<Filter>): string {
    match f
    case None => "get sales report"
    case Some(Quarter) => "get quarterly sales report"
    case Some(Week) => "get weekly sales report"
    case Some(Month) => "get monthly sales report"
    case Some(Today) => "get daily sales report"
  }

  /** Each filter has exactly one phrase, and the phrase is recognised as that filter. */
  lemma ReportRequestIsPhrase(t: string, f: Option<Filter>)
    ensures ReportRequest(t) == Some(f) <==> t == ReportPhrase(f)
  {
  }

  /** The query string appended to the report endpoint: "" without a filter, "?filter=<name>" with one. */
  function QuerySuffix(filter: Option<Filter>): (r: string)
    ensures filter.None? <==> r == ""
    ensures filter.Some? ==> StartsWith(r, "?filter=")
  {
    match filter
    case None => ""
    case Some(f) => "?filter=" + FilterName(f)
  }

  /** Reading a query string back: the receiving side's view of QuerySuffix. */
  function QueryFilter(q: string): Option<Option<Filter>> {
    if q == "" then Some(None)
    else if q == "?filter=quarter" then Some(Some(Quarter))
    else if q == "?filter=week" then Some(Some(Week))
    else if q == "?filter=month" then Some(Some(Month))
    else if q == "?filter=today" then Some(Some(Today))
    else None
  }

  /** The query string names exactly the filter of the phrase: the endpoint sees the window asked for. */
  lemma QuerySuffixRoundTrip(f: Option<Filter>)
    ensures QueryFilter(QuerySuffix(f)) == Some(f)
  {
    match f
    case None =>
    case Some(Quarter) => assert QuerySuffix(f) == "?filter=quarter";
    case Some(Week) => assert QuerySuffix(f) == "?filter=week";
    case Some(Month) => assert QuerySuffix(f) == "?filter=month";
    case Some(Today) => assert QuerySuffix(f) == "?filter=today";
  }

  // ---------------------------------------------------------------- scheduling

  /** The report types "schedule report" accepts. */
  const ReportTypes: seq<string> := ["daily", "weekly", "monthly", "quarterly"]

  /**
    The regular expression ^\d{2}:\d{2}$: \d is 0-9, and without the m flag ^ and $ are the ends of
    the whole input. A matching time is one word.
   */
  function IsClockPattern(t: string): (r: bool)
    ensures r ==> |t| == 5 && ' ' !in t
  {
    |t| == 5 && IsDigit(t[0]) && IsDigit(t[1]) && t[2] == ':' && IsDigit(t[3]) && IsDigit(t[4])
  }

  function TwoDigits(n: nat): (r: string)
    requires n < 100
    ensures |r| == 2
  {
    [DigitChar(n / 10), DigitChar(n % 10)]
  }

  /** Every pair of two-digit numbers, written HH:MM, matches; hours and minutes are not range-checked. */
  lemma ClockPatternAccepts(h: nat, m: nat)
    requires h < 100 && m < 100
    ensures IsClockPattern(TwoDigits(h) + ":" + TwoDigits(m))
  {
  }

  /** Whatever matches is some HH:MM with two-digit numbers. */
  lemma ClockPatternDecodes(t: string)
    requires IsClockPattern(t)
    ensures exists h: nat, m: nat | h < 100 && m < 100 :: t == TwoDigits(h) + ":" + TwoDigits(m)
  {
    var h := DigitValue(t[0]) * 10 + DigitValue(t[1]);
    var m := DigitValue(t[3]) * 10 + DigitValue(t[4]);
    assert h / 10 == DigitValue(t[0]) && h % 10 == DigitValue(t[1]);
    assert m / 10 == DigitValue(t[3]) && m % 10 == DigitValue(t[4]);
    assert DigitChar(DigitValue(t[0])) == t[0];
    assert DigitChar(DigitValue(t[1])) == t[1];
    assert DigitChar(DigitValue(t[3])) == t[3];
    assert DigitChar(DigitValue(t[4])) == t[4];
    assert t == TwoDigits(h) + ":" + TwoDigits(m);
  }

  /** What the text after "schedule report" leads to. */
  datatype ScheduleOutcome =
    | ScheduleAccepted(reportType: string, time: string)  // scheduleReport(chatId, reportType, time) is called
    | ScheduleRejected                                     // the format reply
    | ScheduleMissingTime                                  // time.match on undefined throws a TypeError

  /**
    Bot.js:211-226 on the normalized text: the third and fourth space-separated tokens are the type
    and the time; a missing type fails the whitelist, a missing time after a valid type throws.
   */
  function ScheduleCommand(t: string): (r: ScheduleOutcome)
    ensures r.ScheduleAccepted? ==> r.reportType in ReportTypes && IsClockPattern(r.time)
    ensures r.ScheduleAccepted? ==> ' ' !in r.reportType && ' ' !in r.time
    ensures r.ScheduleAccepted? <==>
      |Split(t, ' ')| >= 4 && Split(t, ' ')[2] in ReportTypes && IsClockPattern(Split(t, ' ')[3])
    ensures r.ScheduleAccepted? ==> r.reportType == Split(t, ' ')[2] && r.time == Split(t, ' ')[3]
    ensures r.ScheduleMissingTime? <==> |Split(t, ' ')| == 3 && Split(t, ' ')[2] in ReportTypes
  {
    var parts := Split(t, ' ');
    if |parts| < 3 || parts[2] !in ReportTypes then ScheduleRejected
    else if |parts| < 4 then ScheduleMissingTime
    else if IsClockPattern(parts[3]) then ScheduleAccepted(parts[2], parts[3])
    else ScheduleRejected
  }

  /** The task number of "delete scheduled report {n}": parseInt of the fourth token, NaN as None. */
  function DeleteCommand(t: string): (n: Option<int>)
    ensures |Split(t, ' ')| < 4 ==> n.None?
    ensures n.Some? ==> |Split(t, ' ')| >= 4 && n == ParseInt(Split(t, ' ')[3])
    ensures |Split(t, ' ')| >= 4 ==> n == ParseInt(Split(t, ' ')[3])
  {
    var parts := Split(t, ' ');
    ParseIntUndefined();
    ParseInt(if |parts| >= 4 then parts[3] else "undefined")
  }

  // ---------------------------------------------------------------- dispatch

  /** What a message does once it reaches command dispatch (Bot.js:199-239). */
  datatype Command =
    | GetReport(filter: Option<Filter>)
    | Schedule(outcome: ScheduleOutcome)
    | ShowSchedules
    | DeleteTask(taskNumber: int)
    | InvalidTaskNumber
    | Unrecognized

  /** The if/else-if chain of the dispatch: exact phrases first, then the two prefix commands in source order. */
  function Classify(t: string): (c: Command)
    ensures c.GetReport? <==> ReportRequest(t).Some?
    ensures c.Schedule? ==> StartsWith(t, "schedule report")
    ensures c.ShowSchedules? <==> t == "show scheduled reports"
    ensures c.DeleteTask? || c.InvalidTaskNumber? ==> StartsWith(t, "delete scheduled report")
  {
    match ReportRequest(t)
    case Some(f) => GetReport(f)
    case None =>
      if StartsWith(t, "schedule report") then
        // "schedule report" and "show scheduled reports" first differ at index 1, so a text with the
        // schedule prefix is never the show command.
        assert t[1] == 'c';
        Schedule(ScheduleCommand(t))
      else if t == "show scheduled reports" then ShowSchedules
      else if StartsWith(t, "delete scheduled report") then
        match DeleteCommand(t)
        case None => InvalidTaskNumber
        case Some(n) => DeleteTask(n)
      else Unrecognized
  }

  /** The command prefixes, word by word. */
  lemma SchedulePhraseWords()
    ensures "schedule report" == "schedule" + [' '] + "report"
    ensures "schedule report " == "schedule report" + [' ']
  {
  }

  lemma DeletePhraseWords()
    ensures "delete scheduled report" == "delete" + [' '] + ("scheduled" + [' '] + "report")
    ensures "delete scheduled report " == "delete scheduled report" + [' ']
  {
  }

  /** Regrouping a command's text into word, space, rest of the text. */
  lemma RegroupTwoWords(a: string, b: string, x: string)
    ensures a + [' '] + b + [' '] + x == a + [' '] + (b + [' '] + x)
  {
  }

  lemma RegroupThreeWords(a: string, b: string, c: string, x: string)
    ensures a + [' '] + (b + [' '] + c) + x == a + [' '] + (b + [' '] + (c + x))
  {
  }

  lemma RegroupFourWords(a: string, b: string, c: string, d: string, x: string)
    ensures a + [' '] + b + [' '] + c + [' '] + d + x == a + [' '] + (b + [' '] + (c + [' '] + (d + x)))
  {
  }

  lemma RegroupDeleteWords(a: string, b: string, c: string, d: string, x: string)
    ensures a + [' '] + (b + [' '] + c) + [' '] + d + x == a + [' '] + (b + [' '] + (c + [' '] + (d + x)))
  {
  }

  /** A command text starts with the literal it was built from. */
  lemma StartsWithPhrase(p: string, a: string, b: string, c: string)
    ensures StartsWith(p + a + b + c, p)
  {
    StartsWithAppend(p + a + b, c);
    StartsWithShorter(p + a + b + c, p + a, b);
    StartsWithShorter(p + a + b + c, p, a);
  }

  /** The first three space-separated words of a command, and the rest of it. */
  lemma SplitThreeWords(w0: string, w1: string, w2: string, tail: string)
    requires ' ' !in w0 && ' ' !in w1 && ' ' !in w2
    ensures Split(w0 + [' '] + (w1 + [' '] + (w2 + [' '] + tail)), ' ') == [w0, w1, w2] + Split(tail, ' ')
  {
    SplitAfterWord(w2, tail, ' ');
    SplitAfterWord(w1, w2 + [' '] + tail, ' ');
    SplitAfterWord(w0, w1 + [' '] + (w2 + [' '] + tail), ' ');
  }

  /** A word followed by nothing or by a space is the first piece. */
  lemma FirstPiece(w: string, rest: string)
    requires ' ' !in w
    requires rest == [] || rest[0] == ' '
    ensures Split(w + rest, ' ')[0] == w
  {
    if rest == [] {
      assert w + rest == w;
      SplitNoSeparator(w, ' ');
    } else {
      assert w + rest == w + [' '] + rest[1..];
      SplitAfterWord(w, rest[1..], ' ');
    }
  }

  /** All the report phrases begin with 'g', so no other text is one. */
  lemma NoReportPhrase(t: string)
    requires t != [] && t[0] != 'g'
    ensures ReportRequest(t) == None
  {
    assert "get quarterly sales report"[0] == 'g';
    assert "get weekly sales report"[0] == 'g';
    assert "get monthly sales report"[0] == 'g';
    assert "get daily sales report"[0] == 'g';
    assert "get sales report"[0] == 'g';
  }

  /** Every report phrase is classified as a request with its own filter. */
  lemma ClassifyReportPhrase(f: Option<Filter>)
    ensures ReportPhrase(f) != [] && ReportPhrase(f)[0] == 'g'
    ensures Classify(ReportPhrase(f)) == GetReport(f)
  {
    ReportRequestIsPhrase(ReportPhrase(f), f);
  }

  /** Prefix matches: any text starting with "schedule report" goes to the schedule validation. */
  lemma ClassifySchedulePrefix(t: string)
    requires StartsWith(t, "schedule report")
    ensures Classify(t) == Schedule(ScheduleCommand(t))
  {
    StartsWithFirst(t, "schedule report");
    NoReportPhrase(t);
  }

  /** Any text starting with "delete scheduled report" goes to the task-number parse. */
  lemma ClassifyDeletePrefix(t: string)
    requires StartsWith(t, "delete scheduled report")
    ensures Classify(t) == match DeleteCommand(t) case None => InvalidTaskNumber case Some(n) => DeleteTask(n)
  {
    StartsWithFirst(t, "delete scheduled report");
    NoReportPhrase(t);
    assert !StartsWith(t, "schedule report") by {
      if StartsWith(t, "schedule report") {
        StartsWithFirst(t, "schedule report");
      }
    }
    assert t != "show scheduled reports" by {
      assert "show scheduled reports"[0] == 's';
    }
  }

  /**
    Every well-formed schedule command is accepted with its own type and time, and words after the
    time are ignored.
   */
  lemma ScheduleAcceptsWellFormed(reportType: string, time: string, rest: string)
    requires reportType in ReportTypes && IsClockPattern(time)
    requires rest == [] || rest[0] == ' '
    ensures Classify("schedule report " + reportType + " " + time + rest)
         == Schedule(ScheduleAccepted(reportType, time))
  {
    ReportTypeIsWord(reportType);
    ScheduleWords(reportType, time, rest);
  }

  /** The type and the time are the third and fourth words of a schedule command, and it has the schedule prefix. */
  lemma ScheduleWords(reportType: string, time: string, rest: string)
    requires ' ' !in reportType && ' ' !in time
    requires rest == [] || rest[0] == ' '
    ensures var t := "schedule report " + reportType + " " + time + rest;
      && Classify(t) == Schedule(ScheduleCommand(t))
      && |Split(t, ' ')| >= 4 && Split(t, ' ')[2] == reportType && Split(t, ' ')[3] == time
  {
    var t := "schedule report " + reportType + " " + time + rest;
    SchedulePhraseWords();
    RegroupFourWords("schedule", "report", reportType, time, rest);
    SplitThreeWords("schedule", "report", reportType, time + rest);
    FirstPiece(time, rest);
    StartsWithPhrase("schedule report" + [' '] + reportType, [' '], time, rest);
    StartsWithShorter(t, "schedule report" + [' '], reportType);
    StartsWithShorter(t, "schedule report", [' ']);
    ClassifySchedulePrefix(t);
  }

  lemma ReportTypeIsWord(reportType: string)
    requires reportType in ReportTypes
    ensures ' ' !in reportType
  {
  }

  /**
    The rejection direction: a schedule command whose type is not whitelisted, or whose time does
    not match HH:MM, gets the format reply, whatever words follow.
   */
  lemma ScheduleRejectsMalformed(reportType: string, time: string, rest: string)
    requires ' ' !in reportType && ' ' !in time
    requires rest == [] || rest[0] == ' '
    requires reportType !in ReportTypes || !IsClockPattern(time)
    ensures Classify("schedule report " + reportType + " " + time + rest) == Schedule(ScheduleRejected)
  {
    ScheduleWords(reportType, time, rest);
  }

  /** A valid type with no time makes the handler throw; an unknown type is rejected before the time is looked at. */
  lemma ScheduleWithoutTime(reportType: string)
    requires ' ' !in reportType
    ensures reportType in ReportTypes ==> ScheduleCommand("schedule report " + reportType) == ScheduleMissingTime
    ensures reportType !in ReportTypes ==> ScheduleCommand("schedule report " + reportType) == ScheduleRejected
  {
    var t := "schedule report " + reportType;
    SchedulePhraseWords();
    RegroupTwoWords("schedule", "report", reportType);
    SplitAfterWord("schedule", "report" + [' '] + reportType, ' ');
    SplitAfterWord("report", reportType, ' ');
    SplitNoSeparator(reportType, ' ');
  }

  /** Any integer typed after "delete scheduled report", 0 and negative numbers included, reaches deleteScheduledTask. */
  lemma DeleteAcceptsEveryInteger(n: int, rest: string)
    requires rest == [] || rest[0] == ' '
    ensures Classify("delete scheduled report " + ShowInt(n) + rest) == DeleteTask(n)
  {
    var w := ShowInt(n);
    var t := "delete scheduled report " + w + rest;
    DeleteWords(w, rest);
    ParseIntShowInt(n, []);
    assert w + [] == w;
    ClassifyDeletePrefix(t);
  }

  lemma DeleteWords(w: string, rest: string)
    requires ' ' !in w
    requires rest == [] || rest[0] == ' '
    ensures StartsWith("delete scheduled report " + w + rest, "delete scheduled report")
    ensures |Split("delete scheduled report " + w + rest, ' ')| >= 4
    ensures Split("delete scheduled report " + w + rest, ' ')[3] == w
  {
    DeletePhraseWords();
    RegroupDeleteWords("delete", "scheduled", "report", w, rest);
    SplitThreeWords("delete", "scheduled", "report", w + rest);
    FirstPiece(w, rest);
    StartsWithPhrase("delete scheduled report", [' '], w, rest);
  }

  /**
    Whatever the fourth word w is, the delete command carries parseInt(w, 10): a number, in any form
    parseInt accepts, is the task number, and NaN gets the task-number reply.
   */
  lemma DeleteReadsParseInt(w: string, rest: string)
    requires ' ' !in w
    requires rest == [] || rest[0] == ' '
    ensures Classify("delete scheduled report " + w + rest)
         == match ParseInt(w) case None => InvalidTaskNumber case Some(n) => DeleteTask(n)
  {
    DeleteWords(w, rest);
    ClassifyDeletePrefix("delete scheduled report " + w + rest);
  }

  /**
    Numbers not in canonical form reach deleteScheduledTask too: an optional sign, digits with any
    leading zeros and a tail that does not start with a digit, such as "+3", "007" or "5abc".
   */
  lemma DeleteLooseNumber(sign: string, d: string, tail: string, v: int, t: string)
    requires sign == "" || sign == "+" || sign == "-"
    requires d != [] && AllDigits(d) && v == DigitsValue(d)
    requires tail == [] || !IsDigit(tail[0])
    requires ' ' !in sign + d + tail
    requires t == "delete scheduled report " + (sign + d + tail)
    ensures sign != "-" ==> Classify(t) == DeleteTask(v)
    ensures sign == "-" ==> Classify(t) == DeleteTask(-v)
  {
    var w := sign + d + tail;
    ParseIntWord(sign, d, tail, w, v);
    DeleteReadsParseInt(w, []);
    assert t == "delete scheduled report " + w + [];
  }

  /** "delete scheduled report +3" deletes task 3. */
  lemma DeletePlusThree()
    ensures Classify("delete scheduled report +3") == DeleteTask(3)
  {
    assert "+" + "3" + [] == "+3";
    DeleteLooseNumber("+", "3", [], 3, "delete scheduled report +3");
  }

  /** "delete scheduled report" with no fourth word gets the task-number reply. */
  lemma DeleteWithoutNumber(suffix: string)
    requires ' ' !in suffix
    ensures Classify("delete scheduled report" + suffix) == InvalidTaskNumber
  {
    var t := "delete scheduled report" + suffix;
    DeletePhraseWords();
    RegroupThreeWords("delete", "scheduled", "report", suffix);
    SplitAfterWord("delete", "scheduled" + [' '] + ("report" + suffix), ' ');
    SplitAfterWord("scheduled", "report" + suffix, ' ');
    SplitNoSeparator("report" + suffix, ' ');
    assert DeleteCommand(t) == None;
    StartsWithAppend("delete scheduled report", suffix);
    ClassifyDeletePrefix(t);
  }
}
