/** Strings as the printers and parsers of the program build them. */
module Text {

  // ---- Whitespace ------------------------------------------------------------

  /** `char::is_whitespace`: the Unicode White_Space property. */
  predicate IsWhitespace(c: char) {
    var n := c as int;
    || 0x09 <= n <= 0x0D || n == 0x20 || n == 0x85 || n == 0xA0 || n == 0x1680 || 0x2000 <= n <= 0x200A
    || n == 0x2028 || n == 0x2029 || n == 0x202F || n == 0x205F || n == 0x3000
  }

  /** `str::trim` */
  function Trim(s: string): string
    decreases |s|
  {
    if s != "" && IsWhitespace(s[0]) then Trim(s[1..])
    else if s != "" && IsWhitespace(s[|s| - 1]) then Trim(s[..|s| - 1])
    else s
  }

  // ---- Decimal numbers -------------------------------------------------------

  function Digit(d: nat): (c: char)
    requires d < 10
    ensures '0' <= c <= '9'
  {
    '0' + d as char
  }

  predicate IsDigit(c: char) {
    '0' <= c <= '9'
  }

  function DigitValue(c: char): (d: nat)
    requires IsDigit(c)
    ensures d < 10
  {
    (c - '0') as nat
  }

  /** `format!("{n}")` for an unsigned integer: no sign, no leading zeros. */
  function Decimal(n: nat): (s: string)
    ensures s != ""
    ensures forall i :: 0 <= i < |s| ==> IsDigit(s[i])
  {
    if n < 10 then [Digit(n)] else Decimal(n / 10) + [Digit(n % 10)]
  }

  function DecimalValue(s: string): nat
    requires forall i :: 0 <= i < |s| ==> IsDigit(s[i])
  {
    if s == "" then 0 else 10 * DecimalValue(s[..|s| - 1]) + DigitValue(s[|s| - 1])
  }

  /** Printing a number and reading the digits back gives the number. */
  lemma {:induction false} DecimalRoundTrip(n: nat)
    ensures DecimalValue(Decimal(n)) == n
  {
    if n >= 10 {
      DecimalRoundTrip(n / 10);
      assert Decimal(n)[..|Decimal(n)| - 1] == Decimal(n / 10);
    } else {
      assert Decimal(n)[..0] == "";
    }
  }

  lemma DecimalInjective(m: nat, n: nat)
    requires Decimal(m) == Decimal(n)
    ensures m == n
  {
    DecimalRoundTrip(m);
    DecimalRoundTrip(n);
  }

  // ---- Separators ------------------------------------------------------------

  /** `parts.join(separator)` */
  function Join(parts: seq<string>, separator: char): string {
    if parts == [] then ""
    else if |parts| == 1 then parts[0]
    else parts[0] + [separator] + Join(parts[1..], separator)
  }

  /** Where `sep` first occurs in `s`, or `|s|`. */
  function IndexOf(s: string, sep: char): (i: nat)
    ensures i <= |s| && (i < |s| ==> s[i] == sep) && sep !in s[..i]
  {
    if s == "" || s[0] == sep then 0
    else
      assert s[..1 + IndexOf(s[1..], sep)] == [s[0]] + s[1..][..IndexOf(s[1..], sep)];
      1 + IndexOf(s[1..], sep)
  }

  /** Where `sep` last occurs in `s`, plus one; 0 when it does not occur. */
  function EndOfLast(s: string, sep: char): (i: nat)
    ensures i <= |s|
  {
    if s == "" then 0
    else if s[|s| - 1] == sep then |s|
    else EndOfLast(s[..|s| - 1], sep)
  }

  lemma {:induction false} IndexOfCut(a: string, b: string, sep: char)
    requires sep !in a
    ensures IndexOf(a, sep) == |a|
    ensures IndexOf(a + [sep] + b, sep) == |a|
  {
    if a != "" {
      IndexOfCut(a[1..], b, sep);
      assert (a + [sep] + b)[1..] == a[1..] + [sep] + b;
    }
  }

  lemma {:induction false} EndOfLastCut(a: string, b: string, sep: char)
    requires sep !in b
    ensures EndOfLast(a + [sep] + b, sep) == |a| + 1
  {
    if b != "" {
      EndOfLastCut(a, b[..|b| - 1], sep);
      var s := a + [sep] + b;
      assert s[..|s| - 1] == a + [sep] + b[..|b| - 1];
    }
  }

  /** Two strings cut at the first separator agree piece by piece. */
  lemma CutFirst(a: string, b: string, a': string, b': string, sep: char)
    requires sep !in a && sep !in a'
    requires a + [sep] + b == a' + [sep] + b'
    ensures a == a' && b == b'
  {
    IndexOfCut(a, b, sep);
    IndexOfCut(a', b', sep);
    SamePieces(a, b, a', b', sep);
  }

  /** Two strings cut at the last separator agree piece by piece. */
  lemma CutLast(a: string, b: string, a': string, b': string, sep: char)
    requires sep !in b && sep !in b'
    requires a + [sep] + b == a' + [sep] + b'
    ensures a == a' && b == b'
  {
    EndOfLastCut(a, b, sep);
    EndOfLastCut(a', b', sep);
    SamePieces(a, b, a', b', sep);
  }

  lemma SamePieces(a: string, b: string, a': string, b': string, sep: char)
    requires |a| == |a'| && a + [sep] + b == a' + [sep] + b'
    ensures a == a' && b == b'
  {
    var s := a + [sep] + b;
    assert a == s[..|a|] && a' == s[..|a'|];
    assert b == s[|a| + 1..] && b' == s[|a'| + 1..];
  }

  lemma JoinIndex(p: seq<string>, sep: char)
    requires p != [] && sep !in p[0]
    ensures IndexOf(Join(p, sep), sep) == |p[0]|
    ensures |p| == 1 <==> IndexOf(Join(p, sep), sep) == |Join(p, sep)|
  {
    IndexOfCut(p[0], if |p| == 1 then "" else Join(p[1..], sep), sep);
  }

  /** Two joined texts with separator-free first parts agree on that part and on the rest. */
  lemma JoinHead(p: seq<string>, q: seq<string>, sep: char)
    requires p != [] && q != [] && sep !in p[0] && sep !in q[0]
    requires Join(p, sep) == Join(q, sep)
    ensures p[0] == q[0] && (|p| == 1 <==> |q| == 1)
    ensures |p| > 1 ==> Join(p[1..], sep) == Join(q[1..], sep)
  {
    JoinIndex(p, sep);
    JoinIndex(q, sep);
    if |p| > 1 {
      CutFirst(p[0], Join(p[1..], sep), q[0], Join(q[1..], sep), sep);
    }
  }

  /** Joining separator-free parts loses nothing. */
  lemma {:induction false} JoinInjective(p: seq<string>, q: seq<string>, sep: char)
    requires p != [] && q != []
    requires forall i :: 0 <= i < |p| ==> sep !in p[i]
    requires forall i :: 0 <= i < |q| ==> sep !in q[i]
    requires Join(p, sep) == Join(q, sep)
    ensures p == q
  {
    JoinHead(p, q, sep);
    if |p| > 1 {
      JoinInjective(p[1..], q[1..], sep);
      assert p == [p[0]] + p[1..] && q == [q[0]] + q[1..];
    }
  }

  // ---- Words -----------------------------------------------------------------

  /** The longest stretches of `s` without a separator, in order. */
  function Words(s: string, sep: char -> bool): (words: seq<string>)
    ensures s != "" && !sep(s[0]) ==> words != []
    ensures forall i :: 0 <= i < |words| ==> words[i] != ""
    ensures forall i, j :: 0 <= i < |words| && 0 <= j < |words[i]| ==> !sep(words[i][j])
  {
    if s == "" then []
    else if sep(s[0]) then Words(s[1..], sep)
    else
      var rest := Words(s[1..], sep);
      if |s| == 1 || sep(s[1]) then [[s[0]]] + rest else [[s[0]] + rest[0]] + rest[1..]
  }

  /** Each stretch of separators becomes one `mark`. */
  function Squeeze(s: string, sep: char -> bool, mark: char): string {
    if s == "" then ""
    else if !sep(s[0]) then [s[0]] + Squeeze(s[1..], sep, mark)
    else if |s| > 1 && sep(s[1]) then Squeeze(s[1..], sep, mark)
    else [mark] + Squeeze(s[1..], sep, mark)
  }

  function Edge(present: bool, mark: char): string {
    if present then [mark] else ""
  }

  lemma JoinCons(first: string, rest: seq<string>, mark: char)
    ensures Join([first] + rest, mark) == if rest == [] then first else first + [mark] + Join(rest, mark)
  {
    assert ([first] + rest)[1..] == rest;
  }

  lemma JoinGrow(c: char, words: seq<string>, mark: char)
    requires words != []
    ensures Join([[c] + words[0]] + words[1..], mark) == [c] + Join(words, mark)
  {
    assert words == [words[0]] + words[1..];
    JoinCons([c] + words[0], words[1..], mark);
    JoinCons(words[0], words[1..], mark);
  }

  /** What is left of a squeezed text: its words with one `mark` in between, and at the ends where it had separators. */
  lemma {:induction false} SqueezeIsWords(s: string, sep: char -> bool, mark: char)
    ensures Squeeze(s, sep, mark) ==
      if Words(s, sep) == [] then Edge(s != "", mark)
      else Edge(sep(s[0]), mark) + Join(Words(s, sep), mark) + Edge(sep(s[|s| - 1]), mark)
    ensures s != "" && Words(s, sep) == [] ==> sep(s[0]) && sep(s[|s| - 1])
  {
    hide Join;
    if s != "" {
      var rest := s[1..];
      SqueezeIsWords(rest, sep, mark);
      assert rest != "" ==> rest[|rest| - 1] == s[|s| - 1];
      if !sep(s[0]) {
        if |s| == 1 || sep(s[1]) {
          JoinCons([s[0]], Words(rest, sep), mark);
        } else {
          JoinGrow(s[0], Words(rest, sep), mark);
        }
      }
    }
  }

  lemma {:induction false} WordsAlike(s: string, sep: char -> bool, t: string, sep': char -> bool)
    requires |s| == |t|
    requires forall i :: 0 <= i < |s| ==> sep(s[i]) == sep'(t[i]) && (sep(s[i]) || s[i] == t[i])
    ensures Words(s, sep) == Words(t, sep')
  {
    if s != "" {
      WordsAlike(s[1..], sep, t[1..], sep');
    }
  }

  lemma {:induction false} WordsDropLast(s: string, c: char, sep: char -> bool)
    requires sep(c)
    ensures Words(s + [c], sep) == Words(s, sep)
  {
    if s != "" {
      WordsDropLast(s[1..], c, sep);
      assert (s + [c])[1..] == s[1..] + [c];
    }
  }

  /** Words without `mark` in them are determined mark the joined text. */
  lemma JoinedWordsInjective(a: seq<string>, b: seq<string>, mark: char)
    requires forall i :: 0 <= i < |a| ==> a[i] != "" && mark !in a[i]
    requires forall i :: 0 <= i < |b| ==> b[i] != "" && mark !in b[i]
    ensures Join(a, mark) == Join(b, mark) <==> a == b
  {
    if a != [] { JoinCons(a[0], a[1..], mark); assert a == [a[0]] + a[1..]; }
    if b != [] { JoinCons(b[0], b[1..], mark); assert b == [b[0]] + b[1..]; }
    if a != [] && b != [] && Join(a, mark) == Join(b, mark) {
      JoinInjective(a, b, mark);
    }
  }

  // ---- Byte order ------------------------------------------------------------

  /** `a < b` for strings: lexicographic by byte. */
  predicate Less(a: string, b: string) {
    b != "" && (a == "" || a[0] < b[0] || (a[0] == b[0] && Less(a[1..], b[1..])))
  }

  lemma {:induction false} LessTotal(a: string, b: string)
    ensures Less(a, b) || a == b || Less(b, a)
    ensures !(Less(a, b) && Less(b, a)) && (a == b ==> !Less(a, b))
  {
    if a != "" && b != "" {
      LessTotal(a[1..], b[1..]);
      assert a == [a[0]] + a[1..] && b == [b[0]] + b[1..];
    }
  }

  lemma {:induction false} LessTransitive(a: string, b: string, c: string)
    requires Less(a, b) && Less(b, c)
    ensures Less(a, c)
  {
    if a != "" && a[0] == b[0] == c[0] {
      LessTransitive(a[1..], b[1..], c[1..]);
    }
  }

  lemma {:induction false} LessExtended(a: string, b: string, c: string)
    requires Less(a, b) && b <= c
    ensures Less(a, c)
  {
    if a != "" && a[0] == b[0] {
      assert c == b + c[|b|..];
      assert c[1..] == b[1..] + c[|b|..];
      LessExtended(a[1..], b[1..], c[1..]);
    }
  }

  predicate IsLeast(s: set<string>, x: string) {
    x in s && forall y :: y in s ==> x == y || Less(x, y)
  }

  lemma {:induction false} LeastExists(s: set<string>)
    requires s != {}
    ensures exists x :: IsLeast(s, x)
  {
    var x :| x in s;
    if s == {x} {
      assert IsLeast(s, x);
    } else {
      LeastExists(s - {x});
      var y :| IsLeast(s - {x}, y);
      LessTotal(x, y);
      if Less(y, x) {
        assert IsLeast(s, y);
      } else {
        forall z | z in s && z != x ensures Less(x, z) {
          if z != y { LessTransitive(x, y, z); }
        }
        assert IsLeast(s, x);
      }
    }
  }

  ghost function Least(s: set<string>): (x: string)
    requires s != {}
    ensures IsLeast(s, x)
  {
    LeastExists(s);
    var x :| IsLeast(s, x);
    x
  }

  /** The elements of `s` in increasing order. */
  ghost function Sorted(s: set<string>): (r: seq<string>)
    ensures forall x :: x in r <==> x in s
    ensures |r| == |s|
  {
    if s == {} then []
    else
      var least := Least(s);
      assert s == {least} + (s - {least});
      [least] + Sorted(s - {least})
  }

  lemma SortedStep(s: set<string>, least: string)
    requires IsLeast(s, least)
    ensures Sorted(s) == [least] + Sorted(s - {least})
  {
    LessTotal(Least(s), least);
  }

  lemma SortedFirstTwo(s: set<string>)
    requires |s| >= 2
    ensures |Sorted(s)| >= 2 && Less(Sorted(s)[0], Sorted(s)[1])
  {
    var least := Least(s);
    assert Sorted(s) == [least] + Sorted(s - {least});
    assert Sorted(s)[1] in s - {least};
  }

  lemma SortedEmpty()
    ensures Sorted({}) == []
  {
  }

  lemma LeastInSet(s: set<string>)
    requires s != {}
    ensures exists x :: x in s && IsLeast(s, x)
  {
    assert IsLeast(s, Least(s));
  }

  /** Stands for the library sort of a map's keys; only its result matters. */
  method SortStrings(s: set<string>) returns (r: seq<string>)
    ensures r == Sorted(s)
  {
    hide Less, IsLeast, Sorted;
    r := [];
    var rest := s;
    assert Sorted(s) == r + Sorted(rest);
    while rest != {}
      invariant Sorted(s) == r + Sorted(rest)
      decreases |rest|
    {
      LeastInSet(rest);
      var least :| least in rest && IsLeast(rest, least);
      SortedStep(rest, least);
      assert r + Sorted(rest) == (r + [least]) + Sorted(rest - {least});
      r := r + [least];
      rest := rest - {least};
    }
    SortedEmpty();
  }
}
