/**
 * The text that `exportToCSV` (src/context/FinanceContext.tsx) puts in its download:
 * a header line and one line per transaction, joined by newlines. Text fields are
 * wrapped in double quotes as they are, with no escaping of quotes or newlines inside
 * them. The Blob and the download itself are not modelled.
 */
module CsvExport {
  import opened Calendar
  import opened Records
  import opened Seqs

  const Header: string := "id,amount,description,category,date,type"

  function DigitChar(d: nat): char
    requires d < 10
  {
    ('0' as int + d) as char
  }

  predicate IsDigit(c: char) {
    '0' <= c <= '9'
  }

  function DigitValue(c: char): nat
    requires IsDigit(c)
  {
    (c - '0') as nat
  }

  predicate AllDigits(s: string) {
    forall i :: 0 <= i < |s| ==> IsDigit(s[i])
  }

  /** The decimal digits of `n`, most significant first, with no leading zeros. */
  function Digits(n: nat): (r: string)
    ensures |r| >= 1 && AllDigits(r)
  {
    if n < 10 then [DigitChar(n)] else Digits(n / 10) + [DigitChar(n % 10)]
  }

  /** The number a string of decimal digits denotes. */
  function Value(s: string): nat
    requires AllDigits(s)
  {
    if s == [] then 0 else Value(s[..|s| - 1]) * 10 + DigitValue(s[|s| - 1])
  }

  /** Reading the digits back gives the number. */
  lemma {:induction false} ValueOfDigits(n: nat)
    ensures Value(Digits(n)) == n
  {
    if n >= 10 {
      var d := Digits(n);
      assert d[..|d| - 1] == Digits(n / 10);
      ValueOfDigits(n / 10);
    }
  }

  /**
   * `${t.amount}` for an amount of whole cents: the JavaScript rendering of the
   * number, with no trailing zeros after the point and no point for whole amounts.
   */
  function AmountText(cents: nat): string {
    var whole, frac := Digits(cents / 100), cents % 100;
    if frac == 0 then whole
    else if frac % 10 == 0 then whole + "." + [DigitChar(frac / 10)]
    else whole + "." + [DigitChar(frac / 10), DigitChar(frac % 10)]
  }

  /** Reads a rendered amount back into cents: digits, then at most two after a point. */
  function ParseCents(s: string): Option<nat> {
    if '.' !in s then
      if AllDigits(s) then Some(Value(s) * 100) else None
    else
      var p := FirstIndex(s, '.');
      var w, f := s[..p], s[p + 1..];
      if AllDigits(w) && 1 <= |f| <= 2 && AllDigits(f) then
        Some(Value(w) * 100 + DigitValue(f[0]) * 10 + (if |f| == 2 then DigitValue(f[1]) else 0))
      else None
  }

  /** The amount column is exact: it reads back as the same number of cents. */
  lemma AmountTextRoundTrip(cents: nat)
    ensures ParseCents(AmountText(cents)) == Some(cents)
  {
    var whole, frac := Digits(cents / 100), cents % 100;
    ValueOfDigits(cents / 100);
    assert '.' !in whole by {
      forall i | 0 <= i < |whole| ensures whole[i] != '.' { assert IsDigit(whole[i]); }
    }
    if frac == 0 {
      assert AmountText(cents) == whole;
    } else {
      var f := if frac % 10 == 0 then [DigitChar(frac / 10)] else [DigitChar(frac / 10), DigitChar(frac % 10)];
      assert AmountText(cents) == whole + "." + f;
      ParseFraction(whole, f);
    }
  }

  /** A digit string, a point and one or two digits parse as whole part and fraction. */
  lemma ParseFraction(w: string, f: string)
    requires AllDigits(w) && 1 <= |f| <= 2 && AllDigits(f)
    ensures ParseCents(w + "." + f) ==
              Some(Value(w) * 100 + DigitValue(f[0]) * 10 + (if |f| == 2 then DigitValue(f[1]) else 0))
  {
    var s := w + "." + f;
    assert s[|w|] == '.';
    forall j | 0 <= j < |w| ensures s[j] != '.' {
      assert s[j] == w[j] && IsDigit(w[j]);
    }
    FirstIndexAt(s, '.', |w|);
    assert s[..|w|] == w;
    assert s[|w| + 1..] == f;
  }

  lemma FirstIndexAt(s: string, x: char, i: nat)
    requires i < |s| && s[i] == x && forall j :: 0 <= j < i ==> s[j] != x
    ensures FirstIndex(s, x) == i
  {
    FirstIndexUnique(s, x, i);
  }

  /** `n` in decimal, padded with zeros on the left to `width` characters. */
  function Padded(n: nat, width: nat): string {
    var d := Digits(n);
    if |d| >= width then d else seq(width - |d|, _ => '0') + d
  }

  /** The stored `YYYY-MM-DD` text of a date. */
  function DateText(d: Date): string {
    (if d.year < 0 then "-" else "") + Padded(if d.year < 0 then -d.year else d.year, 4)
      + "-" + Padded(d.month, 2) + "-" + Padded(d.day, 2)
  }

  function KindText(k: Kind): string {
    match k
    case Income => "income"
    case Expense => "expense"
  }

  /** `"${s}"`: the text between double quotes, as it is. */
  function Quoted(s: string): string {
    "\"" + s + "\""
  }

  /** The six columns of a transaction: id and amount bare, the other four quoted. */
  function Fields(t: Transaction): (r: seq<string>)
    ensures |r| == 6
  {
    [t.id, AmountText(t.amount), Quoted(t.description), Quoted(t.category),
     Quoted(DateText(t.date)), Quoted(KindText(t.kind))]
  }

  /** One transaction's line: its columns joined by commas. */
  function Line(t: Transaction): string {
    Join(Fields(t), ',')
  }

  function Lines(ts: seq<Transaction>): (r: seq<string>)
    ensures |r| == |ts| && forall i :: 0 <= i < |ts| ==> r[i] == Line(ts[i])
  {
    seq(|ts|, i requires 0 <= i < |ts| => Line(ts[i]))
  }

  /** `lines.join(sep)`. */
  function Join(lines: seq<string>, sep: char): string
    requires |lines| >= 1
  {
    if |lines| == 1 then lines[0] else lines[0] + [sep] + Join(lines[1..], sep)
  }

  /** `s.split(sep)`: the pieces between separators, so there is always at least one. */
  function Split(s: string, sep: char): (r: seq<string>)
    ensures |r| >= 1
  {
    if s == [] then [""]
    else
      var rest := Split(s[1..], sep);
      if s[0] == sep then [""] + rest else [[s[0]] + rest[0]] + rest[1..]
  }

  /** The exported text. */
  function TransactionsCsv(ts: seq<Transaction>): string {
    Join([Header] + Lines(ts), '\n')
  }

  /** A piece with no separator in it sticks to the front of whatever follows. */
  lemma {:induction false} SplitPrefix(a: string, b: string, sep: char)
    requires sep !in a
    ensures Split(a + b, sep) == [a + Split(b, sep)[0]] + Split(b, sep)[1..]
  {
    if a == [] {
      assert a + b == b;
      assert a + Split(b, sep)[0] == Split(b, sep)[0];
      assert Split(b, sep) == [Split(b, sep)[0]] + Split(b, sep)[1..];
    } else {
      assert (a + b)[0] == a[0] && a[0] != sep;
      assert (a + b)[1..] == a[1..] + b;
      assert sep !in a[1..];
      SplitPrefix(a[1..], b, sep);
      var rest := Split(a[1..] + b, sep);
      assert rest[0] == a[1..] + Split(b, sep)[0];
      assert rest[1..] == Split(b, sep)[1..];
      assert Split(a + b, sep) == [[a[0]] + rest[0]] + rest[1..];
      assert [a[0]] + (a[1..] + Split(b, sep)[0]) == a + Split(b, sep)[0];
    }
  }

  /** Splitting the joined lines gives the lines back, when no line holds the separator. */
  lemma {:induction false} SplitJoin(lines: seq<string>, sep: char)
    requires |lines| >= 1 && forall i :: 0 <= i < |lines| ==> sep !in lines[i]
    ensures Split(Join(lines, sep), sep) == lines
  {
    if |lines| == 1 {
      SplitPrefix(lines[0], [], sep);
      assert lines[0] + [] == lines[0];
      assert Split([], sep) == [""];
      assert lines[0] + "" == lines[0];
    } else {
      var rest := Join(lines[1..], sep);
      SplitJoin(lines[1..], sep);
      assert lines[0] + [sep] + rest == lines[0] + ([sep] + rest);
      SplitPrefix(lines[0], [sep] + rest, sep);
      assert ([sep] + rest)[1..] == rest;
      assert Split([sep] + rest, sep) == [""] + Split(rest, sep);
      assert lines[0] + "" == lines[0];
      assert lines == [lines[0]] + lines[1..];
    }
  }

  /** A character in none of the pieces and other than the separator is not in the joined text. */
  lemma {:induction false} NotInJoin(lines: seq<string>, sep: char, c: char)
    requires |lines| >= 1 && c != sep && forall i :: 0 <= i < |lines| ==> c !in lines[i]
    ensures c !in Join(lines, sep)
  {
    if |lines| > 1 {
      NotInJoin(lines[1..], sep, c);
      assert lines[0] in lines;
    }
  }

  /** A character of any piece is in the joined text. */
  lemma {:induction false} InJoin(lines: seq<string>, sep: char, c: char, k: nat)
    requires k < |lines| && c in lines[k]
    ensures c in Join(lines, sep)
  {
    if |lines| > 1 && k > 0 {
      InJoin(lines[1..], sep, c, k - 1);
    }
  }

  /** A text that holds the separator splits into at least two pieces. */
  lemma {:induction false} SplitAtSeparator(s: string, sep: char)
    requires sep in s
    ensures |Split(s, sep)| >= 2
  {
    if s[0] != sep {
      SplitAtSeparator(s[1..], sep);
    }
  }

  lemma AllDigitsNoNewline(s: string)
    requires AllDigits(s)
    ensures '\n' !in s && ',' !in s
  {
    forall i | 0 <= i < |s| ensures s[i] != '\n' && s[i] != ',' {
      assert IsDigit(s[i]);
    }
  }

  /** Padding only adds zeros. */
  lemma PaddedDigits(n: nat, width: nat)
    ensures AllDigits(Padded(n, width))
  {
  }

  /** An amount, a date and a type never hold a newline or a comma. */
  lemma NoSeparatorInGenerated(t: Transaction)
    ensures '\n' !in AmountText(t.amount) && '\n' !in DateText(t.date) && '\n' !in KindText(t.kind)
    ensures ',' !in AmountText(t.amount) && ',' !in DateText(t.date) && ',' !in KindText(t.kind)
  {
    AllDigitsNoNewline(Digits(t.amount / 100));
    var y := if t.date.year < 0 then -t.date.year else t.date.year;
    PaddedDigits(y, 4);
    PaddedDigits(t.date.month, 2);
    PaddedDigits(t.date.day, 2);
    AllDigitsNoNewline(Padded(y, 4));
    AllDigitsNoNewline(Padded(t.date.month, 2));
    AllDigitsNoNewline(Padded(t.date.day, 2));
  }

  /** No column of a transaction holds a newline unless its id, description or category does. */
  lemma LineHasNoNewline(t: Transaction)
    requires '\n' !in t.id && '\n' !in t.description && '\n' !in t.category
    ensures '\n' !in Line(t)
  {
    NoSeparatorInGenerated(t);
    NotInJoin(Fields(t), ',', '\n');
  }

  /**
   * The export has the header first and then exactly one line per transaction, in
   * order, as long as no id, description or category holds a newline.
   */
  lemma CsvLines(ts: seq<Transaction>)
    requires forall t :: t in ts ==> '\n' !in t.id && '\n' !in t.description && '\n' !in t.category
    ensures Split(TransactionsCsv(ts), '\n') == [Header] + Lines(ts)
  {
    var lines := [Header] + Lines(ts);
    forall i | 0 <= i < |lines| ensures '\n' !in lines[i] {
      if i > 0 {
        LineHasNoNewline(ts[i - 1]);
        assert lines[i] == Line(ts[i - 1]);
      }
    }
    SplitJoin(lines, '\n');
  }

  /**
   * Each line splits on commas into its six columns, as long as no id, description or
   * category holds a comma; a quote inside a quoted column is left as it is.
   */
  lemma LineColumns(t: Transaction)
    requires ',' !in t.id && ',' !in t.description && ',' !in t.category
    ensures Split(Line(t), ',') == Fields(t)
  {
    NoSeparatorInGenerated(t);
    SplitJoin(Fields(t), ',');
  }

  /**
   * Nothing is escaped: a description that holds a newline splits its transaction's
   * line in two, so the export has more lines than the header and the transactions.
   */
  lemma NewlineInDescriptionSplitsLine(ts: seq<Transaction>, k: nat)
    requires k < |ts| && '\n' in ts[k].description
    ensures |Split(TransactionsCsv(ts), '\n')| > |ts| + 1
  {
    var f := Fields(ts[k]);
    assert '\n' in f[2];
    InJoin(f, ',', '\n', 2);
    var lines := [Header] + Lines(ts);
    assert lines[k + 1] == Line(ts[k]);
    SplitJoinMore(lines, '\n', k + 1);
  }

  /** Splitting a concatenation: the piece at the seam is shared. */
  lemma {:induction false} SplitAppendCount(a: string, b: string, sep: char)
    ensures |Split(a + b, sep)| + 1 == |Split(a, sep)| + |Split(b, sep)|
  {
    if a == [] {
      assert a + b == b;
    } else {
      assert (a + b)[0] == a[0];
      assert (a + b)[1..] == a[1..] + b;
      SplitAppendCount(a[1..], b, sep);
    }
  }

  /** Joining with the separator and splitting again gives at least one piece per line. */
  lemma {:induction false} SplitJoinAtLeast(lines: seq<string>, sep: char)
    requires |lines| >= 1
    ensures |Split(Join(lines, sep), sep)| >= |lines|
  {
    if |lines| > 1 {
      var rest := Join(lines[1..], sep);
      SplitJoinAtLeast(lines[1..], sep);
      SplitAfterSeparator(rest, sep);
      assert lines[0] + [sep] + rest == lines[0] + ([sep] + rest);
      SplitAppendCount(lines[0], [sep] + rest, sep);
    }
  }

  /** A line that holds the separator gives more pieces than there are lines. */
  lemma {:induction false} SplitJoinMore(lines: seq<string>, sep: char, k: nat)
    requires k < |lines| && sep in lines[k]
    ensures |Split(Join(lines, sep), sep)| > |lines|
  {
    if |lines| == 1 {
      SplitAtSeparator(lines[0], sep);
    } else {
      var rest := Join(lines[1..], sep);
      if k == 0 {
        SplitAtSeparator(lines[0], sep);
        SplitJoinAtLeast(lines[1..], sep);
      } else {
        SplitJoinMore(lines[1..], sep, k - 1);
      }
      SplitAfterSeparator(rest, sep);
      assert lines[0] + [sep] + rest == lines[0] + ([sep] + rest);
      SplitAppendCount(lines[0], [sep] + rest, sep);
    }
  }

  /** A leading separator adds one empty piece. */
  lemma SplitAfterSeparator(s: string, sep: char)
    ensures |Split([sep] + s, sep)| == |Split(s, sep)| + 1
  {
    assert ([sep] + s)[1..] == s;
  }
}
