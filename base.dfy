/** Shared building blocks: optional values, results, and the small pieces of
    JavaScript string and number behaviour the agenda code relies on
    (`toString`, `padStart(2, '0')`, `split`, `Number(...)`, `toLowerCase`). */
module Base {

  datatype Option<T> = None | Some(value: T)

  datatype Result<T, E> = Ok(value: T) | Err(error: E)

  /** A JavaScript string field is "falsy" when it is missing or empty;
      `x || null` then stores null. */
  function NullIfEmpty(s: Option<string>): (r: Option<string>)
    ensures r.None? <==> (s.None? || s.value == "")
    ensures r.Some? ==> r == s
  {
    if s.None? || s.value == "" then None else s
  }

  predicate IsDigit(c: char) {
    '0' <= c <= '9'
  }

  predicate AllDigits(s: string) {
    forall i :: 0 <= i < |s| ==> IsDigit(s[i])
  }

  function DigitChar(d: nat): (c: char)
    requires d < 10
    ensures IsDigit(c)
  {
    ((('0' as int) + d) as char)
  }

  function DigitValue(c: char): (d: nat)
    requires IsDigit(c)
    ensures d < 10
  {
    (c as int) - ('0' as int)
  }

  /** `n.toString()` for a non-negative integer: its base-10 digits, no leading zeros. */
  function DecimalString(n: nat): (s: string)
    ensures 1 <= |s|
    ensures n < 10 <==> |s| == 1
    decreases n
  {
    if n < 10 then [DigitChar(n)] else DecimalString(n / 10) + [DigitChar(n % 10)]
  }

  lemma {:induction false} DecimalDigits(n: nat)
    ensures AllDigits(DecimalString(n))
    decreases n
  {
    if n >= 10 {
      DecimalDigits(n / 10);
    }
  }

  /** `s.padStart(2, '0')`. */
  function PadStart2(s: string): (r: string)
    ensures |r| == if |s| < 2 then 2 else |s|
    ensures r[|r| - |s|..] == s
  {
    if |s| == 0 then "00" else if |s| == 1 then "0" + s else s
  }

  /** `String(n).padStart(2, '0')`: the two-digit rendering used for hours and
      minutes, spelled out digit by digit below 100. */
  function TwoDigits(n: nat): (r: string)
    ensures n < 100 ==> |r| == 2
  {
    if n < 10 then ['0', DigitChar(n)]
    else if n < 100 then [DigitChar(n / 10), DigitChar(n % 10)]
    else DecimalString(n)
  }

  /** The digit-by-digit spelling is `padStart(2, '0')` applied to `toString()`. */
  lemma TwoDigitsIsPadded(n: nat)
    ensures TwoDigits(n) == PadStart2(DecimalString(n))
  {
    if 10 <= n < 100 {
      assert DecimalString(n) == DecimalString(n / 10) + [DigitChar(n % 10)];
    }
  }

  lemma TwoDigitsDigits(n: nat)
    ensures AllDigits(TwoDigits(n))
  {
    if n >= 100 {
      DecimalDigits(n);
    }
  }

  /** The value of a string of decimal digits (leading zeros allowed, "" is 0). */
  function DigitsValue(s: string): nat
    requires AllDigits(s)
    decreases |s|
  {
    if s == [] then 0 else 10 * DigitsValue(s[..|s| - 1]) + DigitValue(s[|s| - 1])
  }

  /** JavaScript `Number(s)` restricted to the inputs the agenda code produces:
      "" is 0, a string of decimal digits is its value, anything else is NaN (None). */
  function NumberOf(s: string): (r: Option<int>)
    ensures r.Some? <==> AllDigits(s)
    ensures r.Some? ==> 0 <= r.value
  {
    if AllDigits(s) then Some(DigitsValue(s)) else None
  }

  /** `Number(parts[i])`, where reading past the end yields `undefined` and so NaN. */
  function NumberAt(parts: seq<string>, i: nat): (r: Option<int>)
    ensures i >= |parts| ==> r.None?
  {
    if i < |parts| then NumberOf(parts[i]) else None
  }

  lemma {:induction false} DigitsValueOfDecimalString(n: nat)
    ensures AllDigits(DecimalString(n))
    ensures DigitsValue(DecimalString(n)) == n
    decreases n
  {
    DecimalDigits(n);
    if n >= 10 {
      var s := DecimalString(n);
      assert s[..|s| - 1] == DecimalString(n / 10);
      DigitsValueOfDecimalString(n / 10);
    }
  }

  /** Reading back a padded number gives the number: `Number(String(n).padStart(2, '0')) == n`. */
  lemma NumberOfTwoDigits(n: nat)
    ensures NumberOf(TwoDigits(n)) == Some(n)
  {
    TwoDigitsDigits(n);
    var t := TwoDigits(n);
    if n < 100 {
      assert t[..1][..0] == [];
      assert DigitsValue(t) == 10 * DigitsValue(t[..1]) + DigitValue(t[1]);
    } else {
      DigitsValueOfDecimalString(n);
    }
  }

  /** `s.split(sep)`: the pieces between occurrences of `sep`; "" splits to [""]. */
  function Split(s: string, sep: char): (parts: seq<string>)
    ensures 1 <= |parts|
    decreases |s|
  {
    if s == [] then [[]]
    else if s[0] == sep then [[]] + Split(s[1..], sep)
    else
      var rest := Split(s[1..], sep);
      [[s[0]] + rest[0]] + rest[1..]
  }

  lemma {:induction false} SplitNoSeparator(s: string, sep: char)
    requires sep !in s
    ensures Split(s, sep) == [s]
    decreases |s|
  {
    if s != [] {
      SplitNoSeparator(s[1..], sep);
      assert [s[0]] + s[1..] == s;
    }
  }

  lemma {:induction false} SplitAtSeparator(a: string, sep: char, b: string)
    requires sep !in a
    ensures Split(a + [sep] + b, sep) == [a] + Split(b, sep)
    decreases |a|
  {
    if a == [] {
      assert a + [sep] + b == [sep] + b;
      assert ([sep] + b)[1..] == b;
    } else {
      var s := a + [sep] + b;
      assert s[0] == a[0];
      assert s[1..] == a[1..] + [sep] + b;
      SplitAtSeparator(a[1..], sep, b);
      assert [a[0]] + a[1..] == a;
    }
  }

  /** The two parts of an "HH:MM" label split on ':'. */
  lemma SplitClockLabel(h: nat, m: nat)
    ensures Split(TwoDigits(h) + ":" + TwoDigits(m), ':') == [TwoDigits(h), TwoDigits(m)]
  {
    var a, b := TwoDigits(h), TwoDigits(m);
    TwoDigitsDigits(h);
    TwoDigitsDigits(m);
    DigitsExclude(a, ':');
    DigitsExclude(b, ':');
    assert a + ":" + b == a + [':'] + b;
    SplitAtSeparator(a, ':', b);
    SplitNoSeparator(b, ':');
  }

  /** `time.split(':').map(Number)`, read as hours and minutes. */
  function ParseTime(time: string): (Option<int>, Option<int>) {
    var parts := Split(time, ':');
    (NumberAt(parts, 0), NumberAt(parts, 1))
  }

  lemma ParseClockLabel(h: nat, m: nat)
    ensures ParseTime(TwoDigits(h) + ":" + TwoDigits(m)) == (Some(h as int), Some(m as int))
  {
    SplitClockLabel(h, m);
    NumberOfTwoDigits(h);
    NumberOfTwoDigits(m);
  }

  /** `date.split('-').map(Number)`, read as year, month and day. */
  function ParseDate(date: string): (Option<int>, Option<int>, Option<int>) {
    var parts := Split(date, '-');
    (NumberAt(parts, 0), NumberAt(parts, 1), NumberAt(parts, 2))
  }

  /** A "YYYY-MM-DD" calendar date (four-digit years are those from 1000 to 9999). */
  function DateLabel(y: nat, m: nat, d: nat): string {
    DecimalString(y) + "-" + TwoDigits(m) + "-" + TwoDigits(d)
  }

  lemma SplitThree(a: string, b: string, c: string, sep: char)
    requires sep !in a && sep !in b && sep !in c
    ensures Split(a + [sep] + b + [sep] + c, sep) == [a, b, c]
  {
    assert a + [sep] + b + [sep] + c == a + [sep] + (b + [sep] + c);
    SplitAtSeparator(a, sep, b + [sep] + c);
    SplitAtSeparator(b, sep, c);
    SplitNoSeparator(c, sep);
  }

  lemma DigitsExclude(s: string, c: char)
    requires AllDigits(s) && !IsDigit(c)
    ensures c !in s
  {
  }

  lemma SplitDateLabel(y: nat, m: nat, d: nat)
    ensures Split(DateLabel(y, m, d), '-') == [DecimalString(y), TwoDigits(m), TwoDigits(d)]
  {
    var a, b, c := DecimalString(y), TwoDigits(m), TwoDigits(d);
    DecimalDigits(y);
    TwoDigitsDigits(m);
    TwoDigitsDigits(d);
    DigitsExclude(a, '-');
    DigitsExclude(b, '-');
    DigitsExclude(c, '-');
    assert DateLabel(y, m, d) == a + ['-'] + b + ['-'] + c;
    SplitThree(a, b, c, '-');
  }

  lemma ParseDateLabel(y: nat, m: nat, d: nat)
    ensures ParseDate(DateLabel(y, m, d)) == (Some(y as int), Some(m as int), Some(d as int))
  {
    SplitDateLabel(y, m, d);
    DigitsValueOfDecimalString(y);
    NumberOfTwoDigits(m);
    NumberOfTwoDigits(d);
  }

  /** ASCII lower-casing of one character. */
  function LowerChar(c: char): (r: char)
    ensures !('A' <= r <= 'Z')
  {
    if 'A' <= c <= 'Z' then (c as int + 32) as char else c
  }

  /** `s.toLowerCase()`, on ASCII letters. */
  function Lower(s: string): (r: string)
    ensures |r| == |s|
    ensures forall i :: 0 <= i < |r| ==> r[i] == LowerChar(s[i])
  {
    seq(|s|, i requires 0 <= i < |s| => LowerChar(s[i]))
  }

  lemma LowerIdempotent(s: string)
    ensures Lower(Lower(s)) == Lower(s)
  {
  }
}
