/** Text of the YAML printer: sorted keys, single-quoted strings, decimal numbers, and indented lines. */
module YamlText {
  import opened Sequences

  // ---- keys in order ----

  /** The order of strings: by the first character that differs, a prefix first. */
  predicate AtMost(a: string, b: string) {
    a == [] || (b != [] && (a[0] < b[0] || (a[0] == b[0] && AtMost(a[1..], b[1..]))))
  }

  lemma {:induction false} AtMostTotal(a: string, b: string)
    ensures AtMost(a, b) || AtMost(b, a)
  {
    if a != [] && b != [] && a[0] == b[0] {
      AtMostTotal(a[1..], b[1..]);
    }
  }

  lemma {:induction false} AtMostAntisymmetric(a: string, b: string)
    requires AtMost(a, b) && AtMost(b, a)
    ensures a == b
  {
    if a != [] && b != [] {
      AtMostAntisymmetric(a[1..], b[1..]);
      assert a == [a[0]] + a[1..] && b == [b[0]] + b[1..];
    }
  }

  lemma {:induction false} AtMostTransitive(a: string, b: string, c: string)
    requires AtMost(a, b) && AtMost(b, c)
    ensures AtMost(a, c)
  {
    if a != [] && a[0] == b[0] && b[0] == c[0] {
      AtMostTransitive(a[1..], b[1..], c[1..]);
    }
  }

  /** The first place where two strings differ, if they do before one of them ends, decides. */
  predicate FirstDiffers(a: string, b: string, k: nat) {
    k < |a| && k < |b| && a[..k] == b[..k] && a[k] < b[k]
  }

  lemma {:induction false} AtMostIff(a: string, b: string)
    ensures AtMost(a, b) <==> a <= b || exists k: nat :: FirstDiffers(a, b, k)
  {
    if a != [] && b != [] {
      AtMostIff(a[1..], b[1..]);
      if a[0] < b[0] {
        assert FirstDiffers(a, b, 0);
      } else if a[0] == b[0] {
        HeadTail(a);
        HeadTail(b);
        assert a <= b <==> a[1..] <= b[1..];
        forall k: nat | FirstDiffers(a[1..], b[1..], k) ensures FirstDiffers(a, b, k + 1) {
          assert a[..k + 1] == [a[0]] + a[1..][..k] && b[..k + 1] == [b[0]] + b[1..][..k];
        }
        forall k: nat | FirstDiffers(a, b, k) ensures k > 0 && FirstDiffers(a[1..], b[1..], k - 1) {
          assert a[1..][..k - 1] == a[..k][1..] && b[1..][..k - 1] == b[..k][1..];
        }
      }
    }
  }

  predicate Sorted(s: seq<string>) {
    forall i, j | 0 <= i < j < |s| :: AtMost(s[i], s[j])
  }

  function Insert(x: string, s: seq<string>): seq<string> {
    if s == [] then [x]
    else if AtMost(x, s[0]) then [x] + s
    else [s[0]] + Insert(x, s[1..])
  }

  function SortStrings(s: seq<string>): seq<string> {
    if s == [] then [] else Insert(s[0], SortStrings(s[1..]))
  }

  lemma {:induction false} InsertAdds(x: string, s: seq<string>)
    ensures multiset(Insert(x, s)) == multiset(s) + multiset{x}
  {
    if s != [] {
      HeadTail(s);
      InsertAdds(x, s[1..]);
    }
  }

  lemma {:induction false} InsertSorts(x: string, s: seq<string>)
    requires Sorted(s)
    ensures Sorted(Insert(x, s))
  {
    if s != [] {
      assert s == [s[0]] + s[1..];
      if AtMost(x, s[0]) {
        forall j | 0 < j < |s| ensures AtMost(x, s[j]) { AtMostTransitive(x, s[0], s[j]); }
      } else {
        AtMostTotal(x, s[0]);
        InsertSorts(x, s[1..]);
        InsertAdds(x, s[1..]);
        var r := Insert(x, s[1..]);
        forall j | 0 <= j < |r| ensures AtMost(s[0], r[j]) {
          assert r[j] in multiset(r);
          assert r[j] == x || r[j] in s[1..];
        }
      }
    }
  }

  lemma {:induction false} SortSorts(s: seq<string>)
    ensures Sorted(SortStrings(s)) && multiset(SortStrings(s)) == multiset(s)
  {
    if s != [] {
      SortSorts(s[1..]);
      InsertSorts(s[0], SortStrings(s[1..]));
      InsertAdds(s[0], SortStrings(s[1..]));
      assert s == [s[0]] + s[1..];
    }
  }

  /** There is one way to put the same strings in order. */
  lemma {:induction false} SortedUnique(a: seq<string>, b: seq<string>)
    requires Sorted(a) && Sorted(b) && multiset(a) == multiset(b)
    ensures a == b
  {
    assert |multiset(a)| == |a| && |multiset(b)| == |b|;
    if a != [] {
      SameFirst(a, b);
      assert a == [a[0]] + a[1..] && b == [b[0]] + b[1..];
      assert multiset(a[1..]) == multiset(a) - multiset{a[0]};
      assert multiset(b[1..]) == multiset(b) - multiset{b[0]};
      SortedUnique(a[1..], b[1..]);
    }
  }

  lemma SameFirst(a: seq<string>, b: seq<string>)
    requires Sorted(a) && Sorted(b) && multiset(a) == multiset(b) && a != [] && b != []
    ensures a[0] == b[0]
  {
    assert a[0] in multiset(b) && b[0] in multiset(a);
    if a[0] != b[0] {
      var i :| 0 <= i < |b| && b[i] == a[0];
      var j :| 0 <= j < |a| && a[j] == b[0];
      AtMostAntisymmetric(a[0], b[0]);
    }
  }

  /** The strings of a set in order. */
  ghost function SortedKeys(keys: set<string>): (s: seq<string>)
    ensures Sorted(s) && multiset(s) == multiset(keys)
  {
    var e := Enumerate(keys);
    SortSorts(e);
    SortStrings(e)
  }

  ghost function Enumerate(keys: set<string>): (s: seq<string>)
    ensures multiset(s) == multiset(keys)
  {
    if keys == {} then []
    else
      var k :| k in keys;
      var rest := Enumerate(keys - {k});
      assert multiset(keys) == multiset(keys - {k}) + multiset{k};
      [k] + rest
  }

  lemma SortedKeysUnique(keys: set<string>, s: seq<string>)
    requires multiset(s) == multiset(keys)
    ensures SortStrings(s) == SortedKeys(keys)
  {
    SortSorts(s);
    SortedUnique(SortStrings(s), SortedKeys(keys));
  }

  // ---- single-quoted strings ----

  /** The string with every quote doubled. */
  function Doubled(s: string): string {
    if s == [] then [] else (if s[0] == '\'' then "''" else [s[0]]) + Doubled(s[1..])
  }

  function Quoted(s: string): string {
    "'" + Doubled(s) + "'"
  }

  /** What the text after an opening quote stands for: a doubled quote is a quote, a single one ends it. */
  function Unquoted(s: string): string {
    if s == [] then []
    else if s[0] != '\'' then [s[0]] + Unquoted(s[1..])
    else if |s| > 1 && s[1] == '\'' then "'" + Unquoted(s[2..])
    else []
  }

  lemma {:induction false} UnquotedDoubled(s: string)
    ensures Unquoted(Doubled(s) + "'") == s
  {
    if s != [] {
      UnquotedDoubled(s[1..]);
      assert s == [s[0]] + s[1..];
      var t := Doubled(s) + "'";
      if s[0] == '\'' {
        assert t == "''" + (Doubled(s[1..]) + "'");
        assert t[2..] == Doubled(s[1..]) + "'";
      } else {
        assert t == [s[0]] + (Doubled(s[1..]) + "'");
        assert t[1..] == Doubled(s[1..]) + "'";
      }
    }
  }

  lemma StringsInPrint()
    ensures Quoted("") == "''" && Quoted("it's") == "'it''s'"
  {
    var s: string := "it's";
    assert s[3..] == "s" && s[2..] == "'s" && s[1..] == "t's";
    assert Doubled("s") == "s" + Doubled("s"[1..]) == "s";
    assert Doubled("'s") == "''" + Doubled("'s"[1..]);
    assert Doubled("t's") == "t" + Doubled("t's"[1..]);
  }

  predicate OneLine(s: string) {
    '\n' !in s
  }

  lemma {:induction false} DoubledOneLine(s: string)
    requires OneLine(s)
    ensures OneLine(Doubled(s))
  {
    if s != [] {
      DoubledOneLine(s[1..]);
    }
  }

  // ---- decimal numbers ----

  const DIGITS := "0123456789"

  function Digits(n: nat): (s: string)
    ensures s != [] && forall c <- s :: c in DIGITS
  {
    var d := [DIGITS[n % 10]];
    if n < 10 then d else Digits(n / 10) + d
  }

  function Decimal(n: int): (s: string)
    ensures s != [] && (s[0] in DIGITS || s[0] == '-') && OneLine(s)
  {
    if n < 0 then "-" + Digits(-n) else Digits(n)
  }

  function DigitValue(c: char): (d: int)
    ensures 0 <= d < 10
  {
    if '0' <= c <= '9' then c as int - '0' as int else 0
  }

  function NatOf(s: string): nat {
    if s == [] then 0 else 10 * NatOf(s[..|s| - 1]) + DigitValue(s[|s| - 1])
  }

  function IntOf(s: string): int {
    if s != [] && s[0] == '-' then 0 - NatOf(s[1..]) else NatOf(s)
  }

  lemma DigitAt(d: nat)
    requires d < 10
    ensures DigitValue(DIGITS[d]) == d
  {
    assert d == 0 || d == 1 || d == 2 || d == 3 || d == 4 || d == 5 || d == 6 || d == 7 || d == 8 || d == 9;
  }

  lemma {:induction false} NatOfDigits(n: nat)
    ensures NatOf(Digits(n)) == n
  {
    DigitAt(n % 10);
    if n < 10 {
      assert Digits(n)[..0] == [];
    } else {
      NatOfDigits(n / 10);
      var s := Digits(n);
      assert s[..|s| - 1] == Digits(n / 10);
    }
  }

  lemma IntOfDecimal(n: int)
    ensures IntOf(Decimal(n)) == n
  {
    if n < 0 {
      NatOfDigits(-n);
      assert Decimal(n)[1..] == Digits(-n);
    } else {
      NatOfDigits(n);
      assert Digits(n)[0] in DIGITS;
    }
  }

  lemma NumbersInPrint()
    ensures Decimal(0) == "0" && Decimal(-40) == "-40"
  {
    assert Digits(40) == Digits(4) + "0" == "40";
  }

  // ---- indented lines ----

  datatype Line = Line(indent: nat, content: string)

  /** A line whose indentation can be told from its content. */
  predicate Clear(line: Line) {
    OneLine(line.content) && (line.content == [] || line.content[0] != ' ')
  }

  function Spaces(n: nat): (s: string)
    ensures |s| == n && forall c <- s :: c == ' '
  {
    if n == 0 then [] else Spaces(n - 1) + " "
  }

  function LineText(line: Line): string {
    Spaces(line.indent) + line.content + "\n"
  }

  function Text(lines: seq<Line>): string {
    if lines == [] then [] else LineText(lines[0]) + Text(lines[1..])
  }

  lemma {:induction false} TextAppend(a: seq<Line>, b: seq<Line>)
    ensures Text(a + b) == Text(a) + Text(b)
  {
    if a == [] {
      assert a + b == b;
    } else {
      TextAppend(a[1..], b);
      assert (a + b)[1..] == a[1..] + b;
      Assoc(LineText(a[0]), Text(a[1..]), Text(b));
    }
  }

  /** The position of the first `c` from `k` on, or the length of the string. */
  function Find(s: string, c: char, k: nat): (i: nat)
    requires k <= |s|
    ensures k <= i <= |s| && (i < |s| ==> s[i] == c) && forall j | k <= j < i :: s[j] != c
    decreases |s| - k
  {
    if k == |s| || s[k] == c then k else Find(s, c, k + 1)
  }

  function Indent(s: string, k: nat): (i: nat)
    requires k <= |s|
    ensures k <= i <= |s| && (i < |s| ==> s[i] != ' ') && forall j | k <= j < i :: s[j] == ' '
    decreases |s| - k
  {
    if k == |s| || s[k] != ' ' then k else Indent(s, k + 1)
  }

  /** The lines of a text. */
  function Split(text: string): seq<Line>
    decreases |text|
  {
    if text == [] then []
    else
      var end := Find(text, '\n', 0);
      var i := Indent(text[..end], 0);
      [Line(i, text[i..end])] + if end == |text| then [] else Split(text[end + 1..])
  }

  lemma {:induction false} IndentIs(s: string, k: nat, i: nat)
    requires k <= i <= |s| && (i < |s| ==> s[i] != ' ') && forall j | k <= j < i :: s[j] == ' '
    ensures Indent(s, k) == i
    decreases i - k
  {
    if k < i {
      IndentIs(s, k + 1, i);
    }
  }

  lemma FirstLine(line: Line, rest: string)
    requires Clear(line)
    ensures var (text, end) := (LineText(line) + rest, line.indent + |line.content|);
            && Find(text, '\n', 0) == end < |text| && Indent(text[..end], 0) == line.indent
            && text[line.indent..end] == line.content && text[end + 1..] == rest
  {
    var (text, end) := (LineText(line) + rest, line.indent + |line.content|);
    forall k | 0 <= k < line.indent ensures text[k] == ' ' {
      assert text[k] == Spaces(line.indent)[k] && Spaces(line.indent)[k] in Spaces(line.indent);
    }
    forall k | line.indent <= k < end ensures text[k] == line.content[k - line.indent] && text[k] != '\n' {
      assert line.content[k - line.indent] in line.content;
    }
    assert text[end] == '\n';
    assert forall k | 0 <= k < end :: text[..end][k] == text[k];
    IndentIs(text[..end], 0, line.indent);
  }

  lemma {:induction false} SplitText(lines: seq<Line>)
    requires forall line <- lines :: Clear(line)
    ensures Split(Text(lines)) == lines
  {
    if lines != [] {
      SplitText(lines[1..]);
      FirstLine(lines[0], Text(lines[1..]));
      HeadTail(lines);
    }
  }
}
