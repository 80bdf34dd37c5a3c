/** The UTC timestamps of persisted records, in the extended format of ISO 8601. */
module Timestamps {
  import opened Wrappers
  import opened Decimals

  /** An instant in UTC, by its calendar fields. */
  datatype Timestamp = Timestamp(
    year: nat, month: nat, day: nat, hour: nat, minute: nat, second: nat, micro: nat)
  {
    predicate Valid() {
      && 1 <= year <= 9999 && 1 <= month <= 12 && 1 <= day <= DaysIn(year, month)
      && hour < 24 && minute < 60 && second < 60 && micro < 1000000
    }
  }

  predicate Leap(year: nat) {
    year % 4 == 0 && (year % 100 != 0 || year % 400 == 0)
  }

  function DaysIn(year: nat, month: nat): nat {
    if month == 2 then (if Leap(year) then 29 else 28)
    else if month in {4, 6, 9, 11} then 30
    else 31
  }

  // ----- writing -----

  function FormatFraction(micro: nat): string {
    if micro == 0 then "Z" else "." + (Padded(micro, 6) + "Z")
  }

  function FormatTime(t: Timestamp): string {
    Padded(t.hour, 2) + (":" + (Padded(t.minute, 2) + (":" + (Padded(t.second, 2) + FormatFraction(t.micro)))))
  }

  /** format_timestamp of a UTC instant: microseconds are written only when there are some. */
  function Format(t: Timestamp): string {
    Padded(t.year, 4) + ("-" + (Padded(t.month, 2) + ("-" + (Padded(t.day, 2) + ("T" + FormatTime(t))))))
  }

  // ----- reading -----

  /** A number of exactly width digits, and what follows it. */
  function Digits(s: string, width: nat): Option<(nat, string)> {
    if |s| >= width && AllDigits(s[..width]) then Some((Value(s[..width]), s[width..])) else None
  }

  function Skip(s: string, c: char): Option<string> {
    if s != "" && s[0] == c then Some(s[1..]) else None
  }

  function ParseFraction(s: string): Option<nat> {
    if s == "Z" then Some(0)
    else
      var rest :- Skip(s, '.');
      var micro :- Digits(rest, 6);
      if micro.1 == "Z" then Some(micro.0) else None
  }

  function ParseTime(s: string): Option<(nat, nat, nat, nat)> {
    var hour :- Digits(s, 2);
    var afterHour :- Skip(hour.1, ':');
    var minute :- Digits(afterHour, 2);
    var afterMinute :- Skip(minute.1, ':');
    var second :- Digits(afterMinute, 2);
    var micro :- ParseFraction(second.1);
    Some((hour.0, minute.0, second.0, micro))
  }

  /** parse_timestamp, on the UTC form that format_timestamp writes. */
  function Parse(s: string): Option<Timestamp> {
    var year :- Digits(s, 4);
    var afterYear :- Skip(year.1, '-');
    var month :- Digits(afterYear, 2);
    var afterMonth :- Skip(month.1, '-');
    var day :- Digits(afterMonth, 2);
    var afterDay :- Skip(day.1, 'T');
    var time :- ParseTime(afterDay);
    var t := Timestamp(year.0, month.0, day.0, time.0, time.1, time.2, time.3);
    if t.Valid() then Some(t) else None
  }

  // ----- round trip -----

  lemma DigitsRead(n: nat, width: nat, rest: string)
    requires width >= 1 && n < Power10(width)
    ensures Digits(Padded(n, width) + rest, width) == Some((n, rest))
  {
    PaddedLength(n, width);
    PaddedValue(n, width);
    var s := Padded(n, width) + rest;
    assert s[..width] == Padded(n, width) && s[width..] == rest;
  }

  lemma SkipRead(c: char, rest: string)
    ensures Skip([c] + rest, c) == Some(rest)
  {
    assert ([c] + rest)[1..] == rest;
  }

  lemma Powers()
    ensures Power10(2) == 100 && Power10(4) == 10000 && Power10(6) == 1000000
  {
    assert Power10(0) == 1 && Power10(1) == 10 && Power10(2) == 100 && Power10(3) == 1000;
    assert Power10(4) == 10000 && Power10(5) == 100000;
  }

  lemma FractionRoundTrip(micro: nat)
    requires micro < 1000000
    ensures ParseFraction(FormatFraction(micro)) == Some(micro)
  {
    if micro != 0 {
      Powers();
      SkipRead('.', Padded(micro, 6) + "Z");
      DigitsRead(micro, 6, "Z");
      assert FormatFraction(micro)[0] == '.';
    }
  }

  lemma TimeRoundTrip(t: Timestamp)
    requires t.Valid()
    ensures ParseTime(FormatTime(t)) == Some((t.hour, t.minute, t.second, t.micro))
  {
    hide Digits, Skip, Padded, ParseFraction, FormatFraction, Power10;
    Powers();
    var fraction := FormatFraction(t.micro);
    FractionRoundTrip(t.micro);
    DigitsRead(t.second, 2, fraction);
    SkipRead(':', Padded(t.second, 2) + fraction);
    DigitsRead(t.minute, 2, ":" + (Padded(t.second, 2) + fraction));
    SkipRead(':', Padded(t.minute, 2) + (":" + (Padded(t.second, 2) + fraction)));
    DigitsRead(t.hour, 2, ":" + (Padded(t.minute, 2) + (":" + (Padded(t.second, 2) + fraction))));
  }

  /** A formatted instant is parsed back to the same instant, to the microsecond. */
  lemma TimestampRoundTrip(t: Timestamp)
    requires t.Valid()
    ensures Parse(Format(t)) == Some(t)
  {
    hide Digits, Skip, Padded, ParseTime, FormatTime, Power10, DaysIn;
    Powers();
    TimeRoundTrip(t);
    var time := "T" + FormatTime(t);
    assert t.day <= 31 by {
      DaysBound(t.year, t.month);
    }
    SkipRead('T', FormatTime(t));
    DigitsRead(t.day, 2, time);
    SkipRead('-', Padded(t.day, 2) + time);
    DigitsRead(t.month, 2, "-" + (Padded(t.day, 2) + time));
    SkipRead('-', Padded(t.month, 2) + ("-" + (Padded(t.day, 2) + time)));
    DigitsRead(t.year, 4, "-" + (Padded(t.month, 2) + ("-" + (Padded(t.day, 2) + time))));
  }

  lemma DaysBound(year: nat, month: nat)
    ensures DaysIn(year, month) <= 31
  {
  }
}
