/** The text the copy run writes to standard output: one dot per periodic
    flush, then `".\nCopied %d documents"` and the line separator. */
module Report {
  import opened Batching
  import opened JavaInt

  /** `k` progress dots. */
  function Dots(k: nat): (s: string)
    ensures |s| == k && forall j :: 0 <= j < k ==> s[j] == '.'
    decreases k
  {
    if k == 0 then "" else Dots(k - 1) + "."
  }

  predicate IsDigit(ch: char) {
    '0' <= ch <= '9'
  }

  function DigitChar(d: nat): (ch: char)
    requires d < 10
    ensures IsDigit(ch) && ch as int - '0' as int == d
  {
    ('0' as int + d) as char
  }

  /** The `%d` rendering of a count: decimal digits, most significant first,
      no leading zeros. */
  function Decimal(n: nat): (s: string)
    ensures |s| >= 1 && forall j :: 0 <= j < |s| ==> IsDigit(s[j])
    ensures |s| > 1 ==> s[0] != '0'
    decreases n
  {
    if n < 10 then [DigitChar(n)] else Decimal(n / 10) + [DigitChar(n % 10)]
  }

  /** The value of a string of decimal digits. */
  function DigitsValue(s: string): (r: nat)
    requires forall j :: 0 <= j < |s| ==> IsDigit(s[j])
  {
    if s == [] then 0
    else
      assert IsDigit(s[|s| - 1]);
      10 * DigitsValue(s[..|s| - 1]) + (s[|s| - 1] as int - '0' as int)
  }

  /** Reading the printed count back gives the count. */
  lemma {:induction false} DecimalRoundTrip(n: nat)
    ensures DigitsValue(Decimal(n)) == n
    decreases n
  {
    var s := Decimal(n);
    if n >= 10 {
      DecimalRoundTrip(n / 10);
      assert s[..|s| - 1] == Decimal(n / 10);
    }
  }

  /** The `%d` rendering of an `int`: a minus sign before the digits of a
      negative value. */
  function Signed(n: int): (s: string)
    ensures |s| >= 1 && (s[0] == '-' <==> n < 0)
    ensures forall j :: 0 < j < |s| ==> IsDigit(s[j])
    ensures n >= 0 ==> IsDigit(s[0])
    ensures var d := if n < 0 then s[1..] else s; |d| >= 1 && (|d| > 1 ==> d[0] != '0')
  {
    if n < 0 then "-" + Decimal(-n) else Decimal(n)
  }

  /** The value of an optional minus sign followed by decimal digits. */
  function SignedValue(s: string): (r: int)
    requires forall j :: 0 < j < |s| ==> IsDigit(s[j])
    requires |s| >= 1 && (s[0] == '-' || IsDigit(s[0]))
  {
    if s[0] == '-' then -(DigitsValue(s[1..]) as int) else DigitsValue(s)
  }

  /** Reading the printed `int` back gives the value, negative ones included. */
  lemma SignedRoundTrip(n: int)
    ensures SignedValue(Signed(n)) == n
  {
    if n < 0 {
      DecimalRoundTrip(-n);
      assert Signed(n)[1..] == Decimal(-n);
    } else {
      DecimalRoundTrip(n);
    }
  }

  /** Everything the copy run prints: a dot per periodic flush, then the
      final dot and the value of the counter. */
  function Summary(ticks: nat, count: int32): (r: string) {
    Dots(ticks) + ".\nCopied " + Signed(count as int) + " documents\n"
  }

  /** Number of occurrences of `ch` in `s`. */
  function Occurrences(s: string, ch: char): (r: nat) {
    if s == [] then 0 else Occurrences(s[..|s| - 1], ch) + (if s[|s| - 1] == ch then 1 else 0)
  }

  lemma {:induction false} OccurrencesConcat(a: string, b: string, ch: char)
    ensures Occurrences(a + b, ch) == Occurrences(a, ch) + Occurrences(b, ch)
    decreases |b|
  {
    if b != [] {
      var b' := b[..|b| - 1];
      assert (a + b)[..|a + b| - 1] == a + b';
      OccurrencesConcat(a, b', ch);
    } else {
      assert a + b == a;
    }
  }

  lemma {:induction false} OccurrencesAll(s: string, ch: char)
    requires forall j :: 0 <= j < |s| ==> s[j] == ch
    ensures Occurrences(s, ch) == |s|
    decreases |s|
  {
    if s != [] { OccurrencesAll(s[..|s| - 1], ch); }
  }

  lemma {:induction false} OccurrencesNone(s: string, ch: char)
    requires forall j :: 0 <= j < |s| ==> s[j] != ch
    ensures Occurrences(s, ch) == 0
    decreases |s|
  {
    if s != [] { OccurrencesNone(s[..|s| - 1], ch); }
  }

  /** The run prints one dot more than it made periodic flushes: the extra
      one opens the final line. */
  lemma SummaryDots(ticks: nat, count: int32)
    ensures Occurrences(Summary(ticks, count), '.') == ticks + 1
  {
    var dots, head, digits, tail := Dots(ticks), ".\nCopied ", Signed(count as int), " documents\n";
    OccurrencesAll(dots, '.');
    OccurrencesConcat(dots, head, '.');
    assert head == "." + "\nCopied ";
    OccurrencesConcat(".", "\nCopied ", '.');
    OccurrencesAll(".", '.');
    OccurrencesNone("\nCopied ", '.');
    OccurrencesConcat(dots + head, digits, '.');
    OccurrencesNone(digits, '.');
    OccurrencesConcat(dots + head + digits, tail, '.');
    OccurrencesNone(tail, '.');
  }

  /** The text printed after 250 documents: two periodic dots, the final one,
      and the count. */
  lemma SummaryOfTwoHundredFifty()
    ensures Summary(2, 250) == "...\nCopied 250 documents\n"
  {
    assert Signed(250) == "250" by {
      assert Decimal(25) == "25";
    }
  }
}
