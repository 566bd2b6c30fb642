/**
 Hours, their order, and the object path of an hour.  Two hours never share a path, which is
 what lets one object stand for one hour.
 */
module HivePath {

  datatype Hour = Hour(year: nat, month: nat, day: nat, hour: nat)
  datatype Timestamp = Timestamp(hour: Hour, micros: nat) // micros within the hour

  predicate Before(a: Hour, b: Hour) {
    a.year < b.year || (a.year == b.year && (
      a.month < b.month || (a.month == b.month && (
        a.day < b.day || (a.day == b.day && a.hour < b.hour)))))
  }

  /** A calendar hour; months and days count from 1. */
  predicate OnCalendar(h: Hour) {
    1 <= h.month <= 12 && 1 <= h.day <= 31 && h.hour < 24
  }

  /** A number that grows with time, with room for 31 days in every month. */
  function Slot(h: Hour): nat {
    ((h.year * 12 + h.month) * 32 + h.day) * 24 + h.hour
  }

  /** The order of hours is the order of time. */
  lemma BeforeIsEarlier(a: Hour, b: Hour)
    requires OnCalendar(a) && OnCalendar(b)
    ensures Before(a, b) <==> Slot(a) < Slot(b)
    ensures a == b <==> Slot(a) == Slot(b)
  {
  }

  predicate Earlier(a: Timestamp, b: Timestamp) {
    Before(a.hour, b.hour) || (a.hour == b.hour && a.micros < b.micros)
  }

  function HourFloor(t: Timestamp): Timestamp {
    t.(micros := 0)
  }

  /** A cutoff on the hour separates whole hours: a row is older than it exactly when its
      hour is, so no chunk straddles the cutoff. */
  lemma CutoffSplitsHours(row: Timestamp, now: Timestamp)
    ensures Earlier(row, HourFloor(now)) <==> Before(row.hour, HourFloor(now).hour)
    ensures !Earlier(now, HourFloor(now))
    ensures forall h: Timestamp :: h.micros == 0 && !Earlier(now, h) ==> !Earlier(HourFloor(now), h)
  {
  }

  function Decimal(n: nat): string {
    if n < 10 then [Digit(n)] else Decimal(n / 10) + [Digit(n % 10)]
  }

  function Digit(d: nat): char
    requires d < 10
  {
    "0123456789"[d]
  }

  function TwoDigits(n: nat): string {
    if n < 10 then "0" + Decimal(n) else Decimal(n)
  }

  function HourPath(bucket: string, h: Hour): string {
    bucket + "/telemetry/year=" + (Decimal(h.year) + "/month="
      + (TwoDigits(h.month) + "/day="
         + (TwoDigits(h.day) + "/hour=" + (TwoDigits(h.hour) + "/data.parquet"))))
  }

  // ---- Injectivity --------------------------------------------------------------------

  function DigitValue(c: char): nat {
    if '0' <= c <= '9' then (c - '0') as nat else 0
  }

  function Number(s: string): nat {
    if s == "" then 0 else Number(s[..|s| - 1]) * 10 + DigitValue(s[|s| - 1])
  }

  lemma OneMoreDigit(s: string, d: nat)
    requires d < 10
    ensures Number(s + [Digit(d)]) == Number(s) * 10 + d && Digit(d) != '/'
  {
    assert (s + [Digit(d)])[..|s|] == s;
  }

  lemma {:induction false} DecimalReadsBack(n: nat)
    ensures Number(Decimal(n)) == n && '/' !in Decimal(n)
  {
    if n < 10 {
      OneMoreDigit("", n);
      assert "" + [Digit(n)] == Decimal(n);
    } else {
      var q, d := n / 10, n % 10;
      DecimalReadsBack(q);
      OneMoreDigit(Decimal(q), d);
    }
  }

  lemma TwoDigitsReadBack(n: nat)
    ensures Number(TwoDigits(n)) == n && '/' !in TwoDigits(n)
  {
    DecimalReadsBack(n);
    if n < 10 {
      assert TwoDigits(n)[..1] == "0" && "0"[..0] == "";
    }
  }

  lemma TwoDigitsWide(n: nat)
    ensures n < 100 ==> |TwoDigits(n)| == 2
  {
    if 10 <= n < 100 {
      assert |Decimal(n / 10)| == 1;
    }
  }

  /** A field that contains no slash ends where the next slash begins. */
  lemma FieldSplits(a: string, b: string, mark: string, x: string, y: string)
    requires '/' !in a && '/' !in b && mark != "" && mark[0] == '/'
    requires a + mark + x == b + mark + y
    ensures a == b && x == y
  {
    var s := a + mark + x;
    assert s[|a|] == '/' && s[|b|] == '/';
    assert forall i | 0 <= i < |a| :: s[i] == a[i] && s[i] in a;
    assert forall i | 0 <= i < |b| :: s[i] == b[i] && s[i] in b;
    assert a == s[..|a|] && b == s[..|b|];
    assert x == s[|a| + |mark|..] && y == s[|b| + |mark|..];
  }

  lemma HourPathInjective(bucket: string, g: Hour, h: Hour)
    ensures HourPath(bucket, g) == HourPath(bucket, h) <==> g == h
  {
    if HourPath(bucket, g) == HourPath(bucket, h) {
      DecimalReadsBack(g.year); DecimalReadsBack(h.year);
      TwoDigitsReadBack(g.month); TwoDigitsReadBack(h.month);
      TwoDigitsReadBack(g.day); TwoDigitsReadBack(h.day);
      TwoDigitsReadBack(g.hour); TwoDigitsReadBack(h.hour);
      var tg3, th3 := TwoDigits(g.hour) + "/data.parquet", TwoDigits(h.hour) + "/data.parquet";
      var tg2, th2 := TwoDigits(g.day) + "/hour=" + tg3, TwoDigits(h.day) + "/hour=" + th3;
      var tg1, th1 := TwoDigits(g.month) + "/day=" + tg2, TwoDigits(h.month) + "/day=" + th2;
      var tg0, th0 := Decimal(g.year) + "/month=" + tg1, Decimal(h.year) + "/month=" + th1;
      var start := bucket + "/telemetry/year=";
      assert HourPath(bucket, g) == start + tg0 && HourPath(bucket, h) == start + th0;
      assert (start + tg0)[|start|..] == tg0 && (start + th0)[|start|..] == th0;
      FieldSplits(Decimal(g.year), Decimal(h.year), "/month=", tg1, th1);
      FieldSplits(TwoDigits(g.month), TwoDigits(h.month), "/day=", tg2, th2);
      FieldSplits(TwoDigits(g.day), TwoDigits(h.day), "/hour=", tg3, th3);
      assert tg3 == tg3 + "" && th3 == th3 + "";
      FieldSplits(TwoDigits(g.hour), TwoDigits(h.hour), "/data.parquet", "", "");
    }
  }

  // ---- Reading a path back ------------------------------------------------------------

  function Split(s: string): (parts: seq<string>)
    ensures |parts| >= 1
    decreases s
  {
    if s == "" then [""]
    else
      var rest := Split(s[1..]);
      if s[0] == '/' then [""] + rest else [[s[0]] + rest[0]] + rest[1..]
  }

  /** The number in the first directory of the form key=number. */
  function Partition(parts: seq<string>, key: string): int
    decreases parts
  {
    if parts == [] then -1
    else if key + "=" <= parts[0] then Number(parts[0][|key| + 1..])
    else Partition(parts[1..], key)
  }

  lemma {:induction false} SplitPlain(a: string)
    requires '/' !in a
    ensures Split(a) == [a]
    decreases a
  {
    if a != "" {
      SplitPlain(a[1..]);
      assert a[0] in a && [a[0]] + a[1..] == a;
    }
  }

  lemma {:induction false} SplitAt(a: string, rest: string)
    requires '/' !in a
    ensures Split(a + ("/" + rest)) == [a] + Split(rest)
    decreases a
  {
    var s := a + ("/" + rest);
    if a == "" {
      assert s == "/" + rest && s[1..] == rest;
    } else {
      assert s[1..] == a[1..] + ("/" + rest) && s[0] == a[0] && a[0] in a;
      SplitAt(a[1..], rest);
      assert [a[0]] + a[1..] == a;
    }
  }

  function Directories(bucket: string, h: Hour): seq<string> {
    [bucket, "telemetry", "year=" + Decimal(h.year), "month=" + TwoDigits(h.month), "day=" + TwoDigits(h.day),
     "hour=" + TwoDigits(h.hour), "data.parquet"]
  }

  /** The path is its directories with slashes between them. */
  lemma PathIsJoined(bucket: string, h: Hour)
    ensures var d := Directories(bucket, h);
            HourPath(bucket, h) == d[0] + ("/" + (d[1] + ("/" + (d[2] + ("/" + (d[3] + ("/" + (d[4]
                                   + ("/" + (d[5] + ("/" + d[6])))))))))))
  {
    var y, m, d, o := Decimal(h.year), TwoDigits(h.month), TwoDigits(h.day), TwoDigits(h.hour);
    hide Decimal, TwoDigits;
    var t5 := "hour=" + o + ("/" + "data.parquet");
    var t4 := "day=" + d + ("/" + t5);
    var t3 := "month=" + m + ("/" + t4);
    var x5 := o + "/data.parquet";
    var x4 := d + "/hour=" + x5;
    var x3 := m + "/day=" + x4;
    assert "/hour=" + x5 == "/" + t5;
    assert "/day=" + x4 == "/" + t4;
    assert "/month=" + x3 == "/" + t3;
    var t2 := "year=" + y + ("/" + t3);
    assert "/year=" + (y + "/month=" + x3) == "/" + t2;
    assert bucket + "/telemetry/year=" + (y + "/month=" + x3) == bucket + ("/" + ("telemetry" + ("/" + t2)));
  }

  lemma PathSplits(bucket: string, h: Hour)
    requires '/' !in bucket
    ensures Split(HourPath(bucket, h)) == Directories(bucket, h)
  {
    DecimalReadsBack(h.year); TwoDigitsReadBack(h.month); TwoDigitsReadBack(h.day); TwoDigitsReadBack(h.hour);
    PathIsJoined(bucket, h);
    hide Decimal, TwoDigits, Split, HourPath;
    var d := Directories(bucket, h);
    var t5 := d[5] + ("/" + d[6]);
    var t4 := d[4] + ("/" + t5);
    var t3 := d[3] + ("/" + t4);
    var t2 := d[2] + ("/" + t3);
    SplitPlain(d[6]);
    SplitAt(d[5], d[6]);
    SplitAt(d[4], t5);
    SplitAt(d[3], t4);
    SplitAt(d[2], t3);
    SplitAt(d[1], t2);
    SplitAt(d[0], d[1] + ("/" + t2));
  }

  /** A reader of hive partitions finds the hour in the path: year, month, day and hour, each under
      its own name. */
  lemma HourReadsBack(bucket: string, h: Hour)
    requires '/' !in bucket
    ensures var parts := Split(HourPath(bucket, h));
            && |parts| == 7 && parts[0] == bucket && parts[1] == "telemetry" && parts[6] == "data.parquet"
            && Partition(parts[2..], "year") == h.year && Partition(parts[2..], "month") == h.month
            && Partition(parts[2..], "day") == h.day && Partition(parts[2..], "hour") == h.hour
            && (h.month < 100 ==> |parts[3]| == |"month=00"|) && (h.day < 100 ==> |parts[4]| == |"day=00"|)
            && (h.hour < 100 ==> |parts[5]| == |"hour=00"|)
  {
    TwoDigitsWide(h.month); TwoDigitsWide(h.day); TwoDigitsWide(h.hour);
    hide Decimal, TwoDigits, Split, HourPath, Number, Partition;
    PathSplits(bucket, h);
    DecimalReadsBack(h.year); TwoDigitsReadBack(h.month); TwoDigitsReadBack(h.day); TwoDigitsReadBack(h.hour);
    var p := Directories(bucket, h)[2..];
    Named(p, 0, "year", Decimal(h.year));
    Named(p, 1, "month", TwoDigits(h.month));
    Named(p, 2, "day", TwoDigits(h.day));
    Named(p, 3, "hour", TwoDigits(h.hour));
  }

  lemma {:induction false} Named(parts: seq<string>, k: nat, key: string, value: string)
    requires k < |parts| && key != "" && parts[k] == key + "=" + value
    requires forall i | 0 <= i < k :: parts[i] != "" && parts[i][0] != key[0]
    ensures Partition(parts, key) == Number(value)
    decreases k
  {
    if k == 0 {
      assert parts[0][|key| + 1..] == value;
    } else {
      assert (key + "=")[0] == key[0];
      Named(parts[1..], k - 1, key, value);
    }
  }
}
