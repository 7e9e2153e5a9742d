/**
 * Wall-clock readings as the ledger stores them. `datetime.now()` becomes a
 * `DateTime` value that the caller passes in; the date is kept as the
 * "%Y-%m-%d" text the tables hold and compare, the time of day as whole seconds
 * since midnight, which the tables store as "%H:%M:%S" text.
 */
module Clock {

  const SecondsPerDay: int := 86400

  /** Seconds since local midnight. */
  type SecondOfDay = s: int | 0 <= s < 86400

  /** One local reading of the clock: calendar date text and time of day. */
  datatype DateTime = DateTime(date: string, time: SecondOfDay)

  function Hour(s: SecondOfDay): (h: int)
    ensures 0 <= h < 24
  {
    s / 3600
  }

  function Minute(s: SecondOfDay): (m: int)
    ensures 0 <= m < 60
  {
    s % 3600 / 60
  }

  function Second(s: SecondOfDay): (c: int)
    ensures 0 <= c < 60
  {
    s % 60
  }

  /** The three fields of `strftime("%H:%M:%S")` determine the time of day. */
  lemma HourMinuteSecond(s: SecondOfDay)
    ensures s == 3600 * Hour(s) + 60 * Minute(s) + Second(s)
  {
  }

  function Digit(n: int): char
    requires 0 <= n < 10
  {
    ('0' as int + n) as char
  }

  predicate IsDigit(c: char)
  {
    '0' <= c <= '9'
  }

  /** The number a two-character decimal field reads as. */
  function TwoDigitValue(r: string): int
    requires |r| == 2
  {
    10 * (r[0] as int - '0' as int) + (r[1] as int - '0' as int)
  }

  /** A zero-padded two-digit field, as `%H`, `%M` and `%S` print it. */
  function TwoDigits(n: int): (r: string)
    requires 0 <= n < 100
    ensures |r| == 2 && IsDigit(r[0]) && IsDigit(r[1])
    ensures TwoDigitValue(r) == n
  {
    [Digit(n / 10), Digit(n % 10)]
  }

  /** The `hora` column: `strftime("%H:%M:%S")` of the time of day. */
  function HoraText(s: SecondOfDay): (r: string)
    ensures |r| == 8 && r[2] == ':' && r[5] == ':'
    ensures forall i :: 0 <= i < 8 && i != 2 && i != 5 ==> IsDigit(r[i])
    ensures TwoDigitValue(r[0..2]) == Hour(s)
    ensures TwoDigitValue(r[3..5]) == Minute(s)
    ensures TwoDigitValue(r[6..8]) == Second(s)
  {
    TwoDigits(Hour(s)) + (":" + (TwoDigits(Minute(s)) + (":" + TwoDigits(Second(s)))))
  }

  /**
   * SQLite's ordering of TEXT values under its default BINARY collation:
   * compare character by character; a proper prefix comes first.
   */
  predicate TextLess(a: string, b: string)
  {
    |b| > 0 && (|a| == 0 || a[0] < b[0] || (a[0] == b[0] && TextLess(a[1..], b[1..])))
  }

  /** Comparing two texts that start with equally long parts compares those parts first. */
  lemma {:induction false} TextLessConcat(x1: string, y1: string, x2: string, y2: string)
    requires |x1| == |x2|
    ensures TextLess(x1 + y1, x2 + y2) <==> TextLess(x1, x2) || (x1 == x2 && TextLess(y1, y2))
  {
    if |x1| == 0 {
      assert x1 + y1 == y1 && x2 + y2 == y2;
    } else {
      assert (x1 + y1)[1..] == x1[1..] + y1;
      assert (x2 + y2)[1..] == x2[1..] + y2;
      TextLessConcat(x1[1..], y1, x2[1..], y2);
      assert x1 == x2 <==> x1[0] == x2[0] && x1[1..] == x2[1..] by {
        if x1[0] == x2[0] && x1[1..] == x2[1..] {
          assert x1 == [x1[0]] + x1[1..] && x2 == [x2[0]] + x2[1..];
        }
      }
    }
  }

  lemma TwoDigitsOrder(a: int, b: int)
    requires 0 <= a < 100 && 0 <= b < 100
    ensures TextLess(TwoDigits(a), TwoDigits(b)) <==> a < b
    ensures TwoDigits(a) == TwoDigits(b) <==> a == b
  {
    var x, y := TwoDigits(a), TwoDigits(b);
    assert x[0] < y[0] <==> a / 10 < b / 10;
    assert x[0] == y[0] <==> a / 10 == b / 10;
    assert x[1] < y[1] <==> a % 10 < b % 10;
    assert x[1] == y[1] <==> a % 10 == b % 10;
    assert !TextLess([], []);
    assert TextLess(x[1..], y[1..]) <==> x[1] < y[1];
    assert x[1..][1..] == [] && y[1..][1..] == [];
    assert x[1..] == [Digit(a % 10)] && y[1..] == [Digit(b % 10)];
    assert a == 10 * (a / 10) + a % 10 && b == 10 * (b / 10) + b % 10;
    assert TextLess(x, y) <==> a / 10 < b / 10 || (a / 10 == b / 10 && a % 10 < b % 10);
  }

  /** Ordering the `hora` text (ORDER BY hora) is ordering by time of day. */
  lemma HoraTextOrder(s: SecondOfDay, t: SecondOfDay)
    ensures TextLess(HoraText(s), HoraText(t)) <==> s < t
    ensures HoraText(s) == HoraText(t) <==> s == t
  {
    var hs, ms, cs := Hour(s), Minute(s), Second(s);
    var ht, mt, ct := Hour(t), Minute(t), Second(t);
    TwoDigitsOrder(hs, ht);
    TwoDigitsOrder(ms, mt);
    TwoDigitsOrder(cs, ct);
    var rs := ":" + (TwoDigits(ms) + (":" + TwoDigits(cs)));
    var rt := ":" + (TwoDigits(mt) + (":" + TwoDigits(ct)));
    TextLessConcat(TwoDigits(hs), rs, TwoDigits(ht), rt);
    TextLessConcat(":", TwoDigits(ms) + (":" + TwoDigits(cs)), ":", TwoDigits(mt) + (":" + TwoDigits(ct)));
    TextLessConcat(TwoDigits(ms), ":" + TwoDigits(cs), TwoDigits(mt), ":" + TwoDigits(ct));
    TextLessConcat(":", TwoDigits(cs), ":", TwoDigits(ct));
    assert !TextLess(":", ":");
    HourMinuteSecond(s);
    HourMinuteSecond(t);
    assert TextLess(HoraText(s), HoraText(t)) <==>
      hs < ht || (hs == ht && (ms < mt || (ms == mt && cs < ct)));
  }
}
