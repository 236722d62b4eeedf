/**
 * Grouping of the session history by date (backend/python/main.py, get_session_history), and
 * the orders its two sorted lists come in.
 */
module History {
  import opened Text
  import opened StringOrder

  datatype Status = Running | Completed | Ended

  /** A date with a four-digit year. */
  datatype Date = Date(year: nat, month: nat, day: nat)

  predicate IsDate(d: Date) {
    1000 <= d.year <= 9999 && 1 <= d.month <= 12 && 1 <= d.day <= 31
  }

  /** A fetched row: a session, the date it was created on and its status. */
  datatype Row = Row(session: string, date: Date, status: Status)

  // ---- Dates as text ----

  function TwoDigits(n: nat): string
    requires n < 100
  {
    [DigitChar(n / 10), DigitChar(n % 10)]
  }

  function FourDigits(n: nat): string
    requires n < 10000
  {
    TwoDigits(n / 100) + TwoDigits(n % 100)
  }

  /** `%Y-%m-%d`. */
  function Iso(d: Date): string
    requires IsDate(d)
  {
    FourDigits(d.year) + "-" + TwoDigits(d.month) + "-" + TwoDigits(d.day)
  }

  function MonthName(m: nat): string
    requires 1 <= m <= 12
  {
    ["Jan", "Feb", "Mar", "Apr", "May", "Jun", "Jul", "Aug", "Sep", "Oct", "Nov", "Dec"][m - 1]
  }

  /** `%b %d, %Y`, the date a past day is labelled and sorted by. */
  function Label(d: Date): string
    requires IsDate(d)
  {
    MonthName(d.month) + " " + TwoDigits(d.day) + ", " + FourDigits(d.year)
  }

  predicate Earlier(a: Date, b: Date) {
    a.year < b.year || (a.year == b.year && (a.month < b.month || (a.month == b.month && a.day < b.day)))
  }

  lemma TwoDigitsOrder(m: nat, n: nat)
    requires m < 100 && n < 100
    ensures KeyLess(TwoDigits(m), TwoDigits(n)) <==> m < n
    ensures TwoDigits(m) == TwoDigits(n) <==> m == n
  {
    var s, t := TwoDigits(m), TwoDigits(n);
    assert s[1..][1..] == "" && t[1..][1..] == "";
    assert KeyLess(s[1..], t[1..]) <==> s[1] < t[1];
    assert KeyLess(s, t) <==> s[0] < t[0] || (s[0] == t[0] && s[1] < t[1]);
    assert s == t ==> s[0] == t[0] && s[1] == t[1];
  }

  lemma FourDigitsOrder(m: nat, n: nat)
    requires m < 10000 && n < 10000
    ensures KeyLess(FourDigits(m), FourDigits(n)) <==> m < n
    ensures FourDigits(m) == FourDigits(n) <==> m == n
    ensures |FourDigits(m)| == 4
  {
    TwoDigitsOrder(m / 100, n / 100);
    TwoDigitsOrder(m % 100, n % 100);
    TwoDigitsLength(m);
    TwoDigitsLength(n);
    PrefixFirst(TwoDigits(m / 100), TwoDigits(n / 100), TwoDigits(m % 100), TwoDigits(n % 100));
    assert FourDigits(m)[..2] == TwoDigits(m / 100) && FourDigits(m)[2..] == TwoDigits(m % 100);
    assert FourDigits(n)[..2] == TwoDigits(n / 100) && FourDigits(n)[2..] == TwoDigits(n % 100);
  }

  lemma TwoDigitsLength(n: nat)
    requires n < 10000
    ensures |TwoDigits(n / 100)| == 2 && |TwoDigits(n % 100)| == 2
  {
  }

  /** The order of the ISO texts is the order of the dates. */
  lemma IsoOrder(a: Date, b: Date)
    requires IsDate(a) && IsDate(b)
    ensures KeyLess(Iso(a), Iso(b)) <==> Earlier(a, b)
  {
    hide KeyLess, FourDigits, TwoDigits;
    FourDigitsOrder(a.year, b.year); FourDigitsOrder(b.year, a.year);
    TwoDigitsOrder(a.month, b.month);
    TwoDigitsOrder(a.day, b.day);
    var ra, rb := TwoDigits(a.month) + ("-" + TwoDigits(a.day)), TwoDigits(b.month) + ("-" + TwoDigits(b.day));
    assert Iso(a) == FourDigits(a.year) + ("-" + ra) && Iso(b) == FourDigits(b.year) + ("-" + rb);
    TwoLong(a.month); TwoLong(b.month);
    PrefixFirst(FourDigits(a.year), FourDigits(b.year), "-" + ra, "-" + rb);
    PrefixFirst("-", "-", ra, rb);
    PrefixFirst(TwoDigits(a.month), TwoDigits(b.month), "-" + TwoDigits(a.day), "-" + TwoDigits(b.day));
    PrefixFirst("-", "-", TwoDigits(a.day), TwoDigits(b.day));
    KeyTotal("-", "-");
  }

  lemma IsoInjective(a: Date, b: Date)
    requires IsDate(a) && IsDate(b) && Iso(a) == Iso(b)
    ensures a == b
  {
    hide KeyLess, Iso;
    IsoOrder(a, b);
    IsoOrder(b, a);
    KeyTotal(Iso(a), Iso(b));
  }

  lemma TwoLong(n: nat)
    requires n < 100
    ensures |TwoDigits(n)| == 2
  {
  }

  /** Month names first, then days, then years. */
  predicate NameOrder(a: Date, b: Date)
    requires IsDate(a) && IsDate(b)
  {
    || KeyLess(MonthName(a.month), MonthName(b.month))
    || (MonthName(a.month) == MonthName(b.month) && (a.day < b.day || (a.day == b.day && a.year < b.year)))
  }

  /**
   * The order of the labels compares month names first, then days, then years: it is the order
   * of the dates only as far as that agrees.
   */
  lemma LabelOrder(a: Date, b: Date)
    requires IsDate(a) && IsDate(b)
    ensures KeyLess(Label(a), Label(b)) <==> NameOrder(a, b)
  {
    hide KeyLess, FourDigits, TwoDigits;
    FourDigitsOrder(a.year, b.year);
    TwoDigitsOrder(a.day, b.day);
    var ra, rb := TwoDigits(a.day) + (", " + FourDigits(a.year)), TwoDigits(b.day) + (", " + FourDigits(b.year));
    assert Label(a) == MonthName(a.month) + (" " + ra) && Label(b) == MonthName(b.month) + (" " + rb);
    MonthLength(a.month); MonthLength(b.month); TwoLong(a.day); TwoLong(b.day);
    PrefixFirst(MonthName(a.month), MonthName(b.month), " " + ra, " " + rb);
    PrefixFirst(" ", " ", ra, rb);
    PrefixFirst(TwoDigits(a.day), TwoDigits(b.day), ", " + FourDigits(a.year), ", " + FourDigits(b.year));
    PrefixFirst(", ", ", ", FourDigits(a.year), FourDigits(b.year));
    KeyTotal(" ", " ");
    KeyTotal(", ", ", ");
  }

  lemma MonthLength(m: nat)
    requires 1 <= m <= 12
    ensures |MonthName(m)| == 3
  {
  }

  /** The two texts of a date, and the names of the months. */
  lemma DateTexts()
    ensures Iso(Date(2024, 9, 30)) == "2024-09-30" && Label(Date(2024, 9, 30)) == "Sep 30, 2024"
    ensures MonthName(1) == "Jan" && MonthName(2) == "Feb" && MonthName(3) == "Mar" && MonthName(4) == "Apr"
    ensures MonthName(5) == "May" && MonthName(6) == "Jun" && MonthName(7) == "Jul" && MonthName(8) == "Aug"
    ensures MonthName(9) == "Sep" && MonthName(10) == "Oct" && MonthName(11) == "Nov" && MonthName(12) == "Dec"
  {
  }

  // ---- The list of past days ----

  /** Different days, sorted by their labels, the greatest first: the past days in their order. */
  predicate SortedPast(days: seq<Date>) {
    && (forall i :: 0 <= i < |days| ==> IsDate(days[i]))
    && (forall i, j :: 0 <= i < j < |days| ==> days[i] != days[j] && !KeyLess(Label(days[i]), Label(days[j])))
  }

  predicate NewestFirst(days: seq<Date>) {
    forall i, j :: 0 <= i < j < |days| ==> Earlier(days[j], days[i])
  }

  lemma MonthInjective(m: nat, n: nat)
    requires 1 <= m <= 12 && 1 <= n <= 12 && MonthName(m) == MonthName(n)
    ensures m == n
  {
    var s := MonthName(m);
    assert s[0] == MonthName(n)[0] && s[1] == MonthName(n)[1] && s[2] == MonthName(n)[2];
  }

  /** Different dates are comparable in both orders. */
  lemma Comparable(a: Date, b: Date)
    requires IsDate(a) && IsDate(b) && a != b
    ensures Earlier(a, b) != Earlier(b, a)
    ensures NameOrder(a, b) != NameOrder(b, a)
  {
    hide KeyLess, MonthName;
    KeyTotal(MonthName(a.month), MonthName(b.month));
    if MonthName(a.month) == MonthName(b.month) { MonthInjective(a.month, b.month); }
  }

  /**
   * The past days are listed newest first exactly when every earlier day among them also comes
   * earlier by month name, day and year.
   */
  lemma PastChronological(days: seq<Date>)
    requires SortedPast(days)
    ensures NewestFirst(days) <==>
      forall i, j :: 0 <= i < |days| && 0 <= j < |days| && Earlier(days[i], days[j]) ==> NameOrder(days[i], days[j])
  {
    hide KeyLess, Earlier, NameOrder, Label;
    forall i, j | 0 <= i < j < |days|
      ensures NameOrder(days[j], days[i]) && !NameOrder(days[i], days[j])
      ensures Earlier(days[i], days[j]) != Earlier(days[j], days[i])
    {
      LabelOrder(days[i], days[j]);
      Comparable(days[i], days[j]);
    }
    forall i | 0 <= i < |days| ensures !Earlier(days[i], days[i]) { NotEarlier(days[i]); }
  }

  lemma NotEarlier(d: Date)
    ensures !Earlier(d, d)
  {
  }

  /** The last day of September is listed before the first of October. */
  lemma PastOrderWrong()
    ensures var days := [Date(2024, 9, 30), Date(2024, 10, 1)];
            SortedPast(days) && !NewestFirst(days) && Earlier(days[0], days[1])
  {
    var days := [Date(2024, 9, 30), Date(2024, 10, 1)];
    LabelOrder(days[0], days[1]);
    assert MonthName(10) == "Oct" && MonthName(9) == "Sep";
    assert KeyLess("Oct", "Sep") && !KeyLess("Sep", "Oct");
  }

  /** Past days of one month come out right. */
  lemma MonthChronological(days: seq<Date>)
    requires SortedPast(days)
    requires forall i, j :: 0 <= i < j < |days| ==> days[i].year == days[j].year && days[i].month == days[j].month
    ensures NewestFirst(days)
  {
    hide KeyLess, Label;
    forall i, j | 0 <= i < j < |days| ensures Earlier(days[j], days[i]) {
      LabelOrder(days[i], days[j]);
      Comparable(days[i], days[j]);
      KeyTotal(MonthName(days[i].month), MonthName(days[j].month));
    }
  }

  // ---- Grouping ----

  /** One entry of the calendar, keyed by its ISO date. */
  datatype CalendarDay = CalendarDay(date: string, sessionCount: nat, hasCompleted: bool)

  predicate DatedRows(rows: seq<Row>) {
    forall i :: 0 <= i < |rows| ==> IsDate(rows[i].date)
  }

  predicate Counts(s: Status) { s == Completed || s == Ended }

  /** The rows of one ISO date, in order. */
  function OnDate(rows: seq<Row>, date: string): seq<Row>
    requires DatedRows(rows)
  {
    if rows == [] then []
    else
      var r := rows[|rows| - 1];
      OnDate(rows[..|rows| - 1], date) + (if Iso(r.date) == date then [r] else [])
  }

  predicate AnyCounts(rows: seq<Row>) {
    exists i :: 0 <= i < |rows| && Counts(rows[i].status)
  }

  function DateSet(rows: seq<Row>): set<string>
    requires DatedRows(rows)
  {
    set i | 0 <= i < |rows| :: Iso(rows[i].date)
  }

  /** The entry the calendar holds for a date that has the rows `rs`. */
  function Tally(date: string, rs: seq<Row>): CalendarDay {
    CalendarDay(date, |rs|, AnyCounts(rs))
  }

  predicate CalendarOf(calendar: map<string, CalendarDay>, rows: seq<Row>)
    requires DatedRows(rows)
  {
    calendar.Keys == DateSet(rows) && forall d :: d in calendar ==> calendar[d] == Tally(d, OnDate(rows, d))
  }

  /** The past groups: the rows of every date but today's, each under its date. */
  predicate PastOf(past: map<string, seq<Row>>, rows: seq<Row>, today: string)
    requires DatedRows(rows)
  {
    past.Keys == DateSet(rows) - {today} && forall d :: d in past ==> past[d] == OnDate(rows, d)
  }

  lemma DateSetGrows(rows: seq<Row>, r: Row)
    requires DatedRows(rows) && IsDate(r.date)
    ensures DatedRows(rows + [r]) && DateSet(rows + [r]) == DateSet(rows) + {Iso(r.date)}
    ensures forall d :: OnDate(rows + [r], d) == OnDate(rows, d) + (if Iso(r.date) == d then [r] else [])
    ensures forall d :: d !in DateSet(rows) ==> OnDate(rows, d) == []
  {
    hide Iso;
    var all := rows + [r];
    assert all[..|rows|] == rows;
    assert Iso(all[|rows|].date) in DateSet(all);
    forall d | d in DateSet(rows) ensures d in DateSet(all) {
      var i :| 0 <= i < |rows| && Iso(rows[i].date) == d;
      assert Iso(all[i].date) == d;
    }
    forall d | d in DateSet(all) ensures d in DateSet(rows) + {Iso(r.date)} {
      var i :| 0 <= i < |all| && Iso(all[i].date) == d;
      if i < |rows| { assert Iso(rows[i].date) == d; }
    }
    forall d | d !in DateSet(rows) ensures OnDate(rows, d) == [] { NoneOnDate(rows, d); }
  }

  lemma {:induction false} NoneOnDate(rows: seq<Row>, date: string)
    requires DatedRows(rows) && date !in DateSet(rows)
    ensures OnDate(rows, date) == []
  {
    hide Iso;
    if rows != [] {
      var n := |rows| - 1;
      assert Iso(rows[n].date) in DateSet(rows);
      forall d | d in DateSet(rows[..n]) ensures d in DateSet(rows) {
        var i :| 0 <= i < n && Iso(rows[..n][i].date) == d;
        assert Iso(rows[i].date) == d;
      }
      NoneOnDate(rows[..n], date);
    }
  }

  lemma AnyCountsGrows(rs: seq<Row>, r: Row)
    ensures AnyCounts(rs + [r]) <==> AnyCounts(rs) || Counts(r.status)
  {
    if AnyCounts(rs) {
      var i :| 0 <= i < |rs| && Counts(rs[i].status);
      assert (rs + [r])[i] == rs[i];
    }
    assert (rs + [r])[|rs|] == r;
  }

  /** The calendar part of one turn of the loop. */
  method CountRow(calendar: map<string, CalendarDay>, ghost rows: seq<Row>, row: Row)
    returns (next: map<string, CalendarDay>)
    requires DatedRows(rows) && IsDate(row.date) && CalendarOf(calendar, rows)
    ensures DatedRows(rows + [row]) && CalendarOf(next, rows + [row])
  {
    hide Iso, OnDate, DateSet, AnyCounts;
    DateSetGrows(rows, row);
    var date := Iso(row.date);
    AnyCountsGrows(OnDate(rows, date), row);
    NothingCounts();
    next := calendar;
    if date !in next {
      next := next[date := CalendarDay(date, 0, false)];
    }
    next := next[date := next[date].(sessionCount := next[date].sessionCount + 1)];
    if Counts(row.status) {
      next := next[date := next[date].(hasCompleted := true)];
    }
    assert OnDate(rows + [row], date) == OnDate(rows, date) + [row];
    assert next[date] == Tally(date, OnDate(rows, date) + [row]);
    assert forall d :: d in next && d != date ==> d in calendar && OnDate(rows + [row], d) == OnDate(rows, d);
  }

  /** The past part of one turn of the loop, for a row of another day. */
  method AddPast(past: map<string, seq<Row>>, ghost rows: seq<Row>, row: Row, today: Date)
    returns (next: map<string, seq<Row>>)
    requires DatedRows(rows) && IsDate(row.date) && IsDate(today) && row.date != today
    requires PastOf(past, rows, Iso(today))
    ensures DatedRows(rows + [row]) && PastOf(next, rows + [row], Iso(today))
  {
    hide Iso, OnDate, DateSet;
    DateSetGrows(rows, row);
    var date := Iso(row.date);
    if date == Iso(today) { IsoInjective(row.date, today); }
    next := past;
    if date !in next {
      next := next[date := []];
    }
    next := next[date := next[date] + [row]];
  }

  lemma SamePast(past: map<string, seq<Row>>, rows: seq<Row>, row: Row, today: Date)
    requires DatedRows(rows) && IsDate(row.date) && row.date == today && PastOf(past, rows, Iso(today))
    ensures DatedRows(rows + [row]) && PastOf(past, rows + [row], Iso(today))
  {
    hide Iso, OnDate, DateSet;
    DateSetGrows(rows, row);
  }

  lemma TodayGrows(rows: seq<Row>, row: Row, today: Date)
    requires DatedRows(rows) && IsDate(row.date) && IsDate(today)
    ensures DatedRows(rows + [row])
    ensures OnDate(rows + [row], Iso(today)) == OnDate(rows, Iso(today)) + (if row.date == today then [row] else [])
  {
    hide Iso, OnDate, DateSet;
    DateSetGrows(rows, row);
    if Iso(row.date) == Iso(today) { IsoInjective(row.date, today); }
  }

  /** The grouping loop. */
  method Group(rows: seq<Row>, today: Date)
    returns (todaySessions: seq<Row>, past: map<string, seq<Row>>, calendar: map<string, CalendarDay>)
    requires DatedRows(rows) && IsDate(today)
    ensures todaySessions == OnDate(rows, Iso(today))
    ensures PastOf(past, rows, Iso(today))
    ensures CalendarOf(calendar, rows)
    ensures forall r :: r in todaySessions <==> r in rows && r.date == today
    ensures forall d :: d in past <==> d != Iso(today) && exists r :: r in rows && Iso(r.date) == d
    ensures forall d :: d in past ==> past[d] == OnDate(rows, d)
    ensures forall d :: d in calendar <==> exists r :: r in rows && Iso(r.date) == d
    ensures forall d :: d in calendar ==>
              && calendar[d].date == d && calendar[d].sessionCount == |OnDate(rows, d)|
              && (calendar[d].hasCompleted <==>
                    exists r :: r in OnDate(rows, d) && (r.status == Completed || r.status == Ended))
  {
    hide Iso, OnDate, DateSet, PastOf, CalendarOf;
    todaySessions, past, calendar := [], map[], map[];
    NothingGrouped(Iso(today));
    var i := 0;
    while i < |rows|
      invariant 0 <= i <= |rows| && DatedRows(rows[..i])
      invariant todaySessions == OnDate(rows[..i], Iso(today))
      invariant PastOf(past, rows[..i], Iso(today))
      invariant CalendarOf(calendar, rows[..i])
    {
      var row := rows[i];
      assert rows[..i + 1] == rows[..i] + [row];
      TodayGrows(rows[..i], row, today);
      calendar := CountRow(calendar, rows[..i], row);
      if row.date == today {
        SamePast(past, rows[..i], row, today);
        todaySessions := todaySessions + [row];
      } else {
        past := AddPast(past, rows[..i], row, today);
      }
      i := i + 1;
    }
    assert rows[..|rows|] == rows;
    CalendarMeans(calendar, rows);
    GroupsMean(rows, today, past, calendar);
  }

  lemma {:induction false} OnDateIs(rows: seq<Row>, date: string)
    requires DatedRows(rows)
    ensures forall r :: r in OnDate(rows, date) <==> r in rows && Iso(r.date) == date
  {
    hide Iso;
    if rows != [] {
      var n := |rows| - 1;
      OnDateIs(rows[..n], date);
      assert forall r :: r in rows <==> r in rows[..n] || r == rows[n];
    }
  }

  lemma GroupsMean(rows: seq<Row>, today: Date, past: map<string, seq<Row>>, calendar: map<string, CalendarDay>)
    requires DatedRows(rows) && IsDate(today) && PastOf(past, rows, Iso(today)) && CalendarOf(calendar, rows)
    ensures forall r :: r in OnDate(rows, Iso(today)) <==> r in rows && r.date == today
    ensures forall d :: d in past <==> d != Iso(today) && exists r :: r in rows && Iso(r.date) == d
    ensures forall d :: d in past ==> past[d] == OnDate(rows, d)
    ensures forall d :: d in calendar <==> exists r :: r in rows && Iso(r.date) == d
  {
    hide Iso, OnDate, AnyCounts;
    OnDateIs(rows, Iso(today));
    forall r | r in rows && Iso(r.date) == Iso(today) ensures r.date == today {
      IsoInjective(r.date, today);
    }
    forall d ensures d in DateSet(rows) <==> exists r :: r in rows && Iso(r.date) == d {
      if d in DateSet(rows) {
        var i :| 0 <= i < |rows| && Iso(rows[i].date) == d;
        assert rows[i] in rows;
      }
      if r :| r in rows && Iso(r.date) == d {
        var i :| 0 <= i < |rows| && rows[i] == r;
        assert Iso(rows[i].date) == d;
      }
    }
  }

  lemma CalendarMeans(calendar: map<string, CalendarDay>, rows: seq<Row>)
    requires DatedRows(rows) && CalendarOf(calendar, rows)
    ensures forall d :: d in calendar ==>
              && calendar[d].date == d && calendar[d].sessionCount == |OnDate(rows, d)|
              && (calendar[d].hasCompleted <==>
                    exists r :: r in OnDate(rows, d) && (r.status == Completed || r.status == Ended))
  {
    hide Iso, OnDate, DateSet;
    forall d | d in calendar
      ensures AnyCounts(OnDate(rows, d)) <==>
                exists r :: r in OnDate(rows, d) && (r.status == Completed || r.status == Ended)
    {
      var rs := OnDate(rows, d);
      if AnyCounts(rs) {
        var i :| 0 <= i < |rs| && Counts(rs[i].status);
        assert rs[i] in rs;
      }
    }
  }

  lemma NothingGrouped(today: string)
    ensures OnDate([], today) == [] && PastOf(map[], [], today) && CalendarOf(map[], [])
  {
  }

  lemma NothingCounts()
    ensures !AnyCounts([])
  {
  }

  // ---- The groups are a partition ----

  /** Every row is in exactly one group, as often as it was fetched. */
  lemma {:induction false} GroupsPartition(rows: seq<Row>, r: Row)
    requires DatedRows(rows) && IsDate(r.date)
    ensures multiset(OnDate(rows, Iso(r.date)))[r] == multiset(rows)[r]
    ensures forall d :: d != Iso(r.date) ==> r !in OnDate(rows, d)
  {
    hide Iso;
    if rows != [] {
      var n := |rows| - 1;
      GroupsPartition(rows[..n], r);
      OneMore(rows[..n], rows[n], r);
      OneMore(OnDate(rows[..n], Iso(r.date)), rows[n], r);
      assert rows == rows[..n] + [rows[n]];
    }
  }

  lemma OneMore(rows: seq<Row>, x: Row, r: Row)
    ensures multiset(rows + [x])[r] == multiset(rows)[r] + (if x == r then 1 else 0)
  {
  }

  /** A list of the dates of the calendar, each once. */
  ghost predicate Lists(dates: seq<string>, keys: set<string>) {
    && (forall d :: d in dates <==> d in keys)
    && (forall i, j :: 0 <= i < j < |dates| ==> dates[i] != dates[j])
  }

  /** Every row has its date in a list without repetition. */
  predicate Covers(dates: seq<string>, rows: seq<Row>)
    requires DatedRows(rows)
  {
    && (forall i :: 0 <= i < |rows| ==> Iso(rows[i].date) in dates)
    && (forall i, j :: 0 <= i < j < |dates| ==> dates[i] != dates[j])
  }

  /** Sum of the group sizes over some dates. */
  function Sizes(rows: seq<Row>, dates: seq<string>): nat
    requires DatedRows(rows)
  {
    if dates == [] then 0 else |OnDate(rows, dates[0])| + Sizes(rows, dates[1..])
  }

  lemma {:induction false} SizesGrow(rows: seq<Row>, r: Row, dates: seq<string>)
    requires DatedRows(rows) && IsDate(r.date)
    requires forall i, j :: 0 <= i < j < |dates| ==> dates[i] != dates[j]
    ensures DatedRows(rows + [r])
    ensures Sizes(rows + [r], dates) == Sizes(rows, dates) + (if Iso(r.date) in dates then 1 else 0)
    decreases |dates|
  {
    hide Iso, OnDate;
    DateSetGrows(rows, r);
    if dates != [] {
      SizesGrow(rows, r, dates[1..]);
      assert forall d :: d in dates <==> d == dates[0] || d in dates[1..];
    }
  }

  lemma {:induction false} SizesOfNothing(dates: seq<string>)
    ensures Sizes([], dates) == 0
  {
    if dates != [] { SizesOfNothing(dates[1..]); }
  }

  lemma {:induction false} SizesSum(rows: seq<Row>, dates: seq<string>)
    requires DatedRows(rows) && Covers(dates, rows)
    ensures Sizes(rows, dates) == |rows|
  {
    hide Iso, OnDate;
    if rows == [] {
      SizesOfNothing(dates);
    } else {
      var n := |rows| - 1;
      assert rows == rows[..n] + [rows[n]];
      SizesSum(rows[..n], dates);
      SizesGrow(rows[..n], rows[n], dates);
    }
  }

  function Total(calendar: map<string, CalendarDay>, dates: seq<string>): nat
    requires forall d :: d in dates ==> d in calendar
  {
    if dates == [] then 0 else calendar[dates[0]].sessionCount + Total(calendar, dates[1..])
  }

  lemma {:induction false} TotalIsSizes(rows: seq<Row>, calendar: map<string, CalendarDay>, dates: seq<string>)
    requires DatedRows(rows) && CalendarOf(calendar, rows) && forall d :: d in dates ==> d in calendar
    ensures Total(calendar, dates) == Sizes(rows, dates)
    decreases |dates|
  {
    hide Iso, OnDate, DateSet;
    if dates != [] { TotalIsSizes(rows, calendar, dates[1..]); }
  }

  /** The calendar's counts add up to the number of rows, over any listing of its dates. */
  lemma CalendarTotal(rows: seq<Row>, calendar: map<string, CalendarDay>, dates: seq<string>)
    requires DatedRows(rows) && CalendarOf(calendar, rows) && Lists(dates, calendar.Keys)
    ensures Total(calendar, dates) == |rows|
  {
    hide Iso, OnDate;
    assert forall i :: 0 <= i < |rows| ==> Iso(rows[i].date) in DateSet(rows);
    TotalIsSizes(rows, calendar, dates);
    SizesSum(rows, dates);
  }

  /** The calendar events, sorted by their date texts, are in strictly increasing date order. */
  lemma CalendarChronological(dates: seq<string>, keys: set<string>, i: nat, j: nat, a: Date, b: Date)
    requires Lists(dates, keys) && forall k, l :: 0 <= k < l < |dates| ==> !KeyLess(dates[l], dates[k])
    requires i < j < |dates| && IsDate(a) && IsDate(b) && dates[i] == Iso(a) && dates[j] == Iso(b)
    ensures Earlier(a, b)
  {
    hide Iso, KeyLess;
    KeyTotal(dates[i], dates[j]);
    IsoOrder(a, b);
  }
}
