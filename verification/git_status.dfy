/**
 * What the poller reads from git (backend/src/git.rs) and the one-string summary
 * it keeps of it (`status_fingerprint`, backend/src/repo_state.rs).
 *
 * Bytes and characters are not distinguished: text is assumed valid UTF-8.
 */
module GitStatusModel {
  import opened Wrappers
  import opened Text

  datatype Commit = Commit(sha: string, subject: string, committedAt: string)

  datatype DiffStat = DiffStat(additions: nat, deletions: nat)

  datatype GitStatus = GitStatus(
    branch: Option<string>,
    origin: Option<string>,
    uncommitted: nat,
    untracked: nat,
    lastCommit: Option<Commit>,
    recentCommits: seq<Commit>,
    dirty: map<string, string>,
    diffStats: map<string, DiffStat>)

  // ---- The fingerprint -------------------------------------------------------

  datatype Entry = Entry(code: string, additions: nat, deletions: nat)

  /** What the fingerprint is meant to tell apart. */
  datatype Content = Content(branch: string, origin: string, head: string, entries: map<string, Entry>)

  function StatOf(s: GitStatus, path: string): DiffStat {
    if path in s.diffStats then s.diffStats[path] else DiffStat(0, 0)
  }

  function ContentOf(s: GitStatus): Content {
    Content(
      s.branch.GetOr(""),
      s.origin.GetOr(""),
      if s.lastCommit.Some? then s.lastCommit.value.sha else "",
      map path | path in s.dirty :: Entry(s.dirty[path], StatOf(s, path).additions, StatOf(s, path).deletions))
  }

  function EntryLine(path: string, e: Entry): string {
    path + ":" + e.code + ":" + Decimal(e.additions) + ":" + Decimal(e.deletions)
  }

  function EntryLines(paths: seq<string>, entries: map<string, Entry>): (lines: seq<string>)
    requires forall p :: p in paths ==> p in entries
    ensures |lines| == |paths|
    ensures forall i :: 0 <= i < |paths| ==> lines[i] == EntryLine(paths[i], entries[paths[i]])
  {
    if paths == [] then [] else [EntryLine(paths[0], entries[paths[0]])] + EntryLines(paths[1..], entries)
  }

  function HeaderLines(c: Content): seq<string> {
    ["branch=" + c.branch, "origin=" + c.origin, "head=" + c.head]
  }

  ghost function Lines(c: Content): seq<string> {
    HeaderLines(c) + EntryLines(Sorted(c.entries.Keys), c.entries)
  }

  ghost function Fingerprint(c: Content): string {
    Join(Lines(c), '\n')
  }

  lemma ContentEntries(s: GitStatus)
    ensures ContentOf(s).entries.Keys == s.dirty.Keys
    ensures forall p :: p in s.dirty ==>
      ContentOf(s).entries[p] == Entry(s.dirty[p], StatOf(s, p).additions, StatOf(s, p).deletions)
  {
  }

  /** `status_fingerprint` */
  method StatusFingerprint(s: GitStatus) returns (fingerprint: string)
    ensures fingerprint == Fingerprint(ContentOf(s))
  {
    hide Sorted, Decimal, Join;
    var head := if s.lastCommit.Some? then s.lastCommit.value.sha else "";
    var parts := ["branch=" + s.branch.GetOr(""), "origin=" + s.origin.GetOr(""), "head=" + head];
    ghost var c := ContentOf(s);
    assert parts == HeaderLines(c);
    var dirty := SortStrings(s.dirty.Keys);
    ContentEntries(s);
    hide HeaderLines, EntryLine, ContentOf, StatOf;
    ghost var lines: seq<string> := [];
    for i := 0 to |dirty|
      invariant |lines| == i && parts == HeaderLines(c) + lines
      invariant forall k :: 0 <= k < i ==> lines[k] == EntryLine(dirty[k], c.entries[dirty[k]])
    {
      var path := dirty[i];
      var stat := StatOf(s, path);
      var line := EntryLine(path, Entry(s.dirty[path], stat.additions, stat.deletions));
      parts := parts + [line];
      lines := lines + [line];
    }
    hide EntryLines;
    assert lines == EntryLines(dirty, c.entries);
    fingerprint := Join(parts, '\n');
  }

  /** Nothing printed contains a newline, and codes are the two characters the parser cuts. */
  ghost predicate Printable(c: Content) {
    && '\n' !in c.branch && '\n' !in c.origin && '\n' !in c.head
    && forall p :: p in c.entries ==> '\n' !in p && '\n' !in c.entries[p].code && |c.entries[p].code| == 2
  }

  lemma EntryLineInjective(p: string, e: Entry, p': string, e': Entry)
    requires |e.code| == |e'.code|
    requires EntryLine(p, e) == EntryLine(p', e')
    ensures p == p' && e == e'
  {
    CutLast(p + ":" + e.code + ":" + Decimal(e.additions), Decimal(e.deletions),
            p' + ":" + e'.code + ":" + Decimal(e'.additions), Decimal(e'.deletions), ':');
    CutLast(p + ":" + e.code, Decimal(e.additions), p' + ":" + e'.code, Decimal(e'.additions), ':');
    DecimalInjective(e.deletions, e'.deletions);
    DecimalInjective(e.additions, e'.additions);
    SamePieces(p, e.code, p', e'.code, ':') by {
      assert |p + ":" + e.code| == |p' + ":" + e'.code|;
    }
  }

  lemma LinesArePrintable(c: Content)
    requires Printable(c)
    ensures forall i :: 0 <= i < |Lines(c)| ==> '\n' !in Lines(c)[i]
  {
    hide Sorted, EntryLine;
    var paths := Sorted(c.entries.Keys);
    forall i | 0 <= i < |Lines(c)| ensures '\n' !in Lines(c)[i] {
      if i < 3 {
        assert Lines(c)[i] == HeaderLines(c)[i];
      } else {
        EntryLineIsPrintable(paths[i - 3], c.entries[paths[i - 3]]);
        assert Lines(c)[i] == EntryLine(paths[i - 3], c.entries[paths[i - 3]]);
      }
    }
  }

  lemma EntryLineIsPrintable(path: string, e: Entry)
    requires '\n' !in path && '\n' !in e.code
    ensures '\n' !in EntryLine(path, e)
  {
    hide Decimal;
    forall i | 0 <= i < |Decimal(e.additions)| ensures Decimal(e.additions)[i] != '\n' {
      assert IsDigit(Decimal(e.additions)[i]);
    }
    forall i | 0 <= i < |Decimal(e.deletions)| ensures Decimal(e.deletions)[i] != '\n' {
      assert IsDigit(Decimal(e.deletions)[i]);
    }
  }

  /** On printable statuses the fingerprint identifies the content, and the content the fingerprint. */
  lemma FingerprintIdentifies(c: Content, d: Content)
    requires Printable(c) && Printable(d)
    ensures Fingerprint(c) == Fingerprint(d) <==> c == d
  {
    if Fingerprint(c) == Fingerprint(d) {
      LinesArePrintable(c);
      LinesArePrintable(d);
      JoinInjective(Lines(c), Lines(d), '\n');
      SameLinesSameContent(c, d);
    }
  }

  lemma SameLinesSameContent(c: Content, d: Content)
    requires Printable(c) && Printable(d) && Lines(c) == Lines(d)
    ensures c == d
  {
    TwoCharacterCodes(c);
    TwoCharacterCodes(d);
    hide Printable, Sorted, EntryLines;
    SameHeaders(c, d);
    assert EntryLines(Sorted(c.entries.Keys), c.entries) == Lines(c)[3..];
    assert EntryLines(Sorted(d.entries.Keys), d.entries) == Lines(d)[3..];
    hide Lines, HeaderLines;
    SameEntryLines(Sorted(c.entries.Keys), c.entries, Sorted(d.entries.Keys), d.entries);
    SameSortedEntries(c.entries, d.entries);
  }

  lemma TwoCharacterCodes(c: Content)
    requires Printable(c)
    ensures forall p :: p in Sorted(c.entries.Keys) ==> p in c.entries && |c.entries[p].code| == 2
  {
    hide Sorted;
  }

  lemma SameSortedEntries(m: map<string, Entry>, n: map<string, Entry>)
    requires Sorted(m.Keys) == Sorted(n.Keys)
    requires forall p :: p in Sorted(m.Keys) ==> p in m && p in n && m[p] == n[p]
    ensures m == n
  {
    hide Sorted;
    forall p ensures p in m.Keys <==> p in n.Keys {
      assert p in m.Keys <==> p in Sorted(m.Keys);
    }
    assert m.Keys == n.Keys;
  }

  lemma SameHeaders(c: Content, d: Content)
    requires Lines(c) == Lines(d)
    ensures c.branch == d.branch && c.origin == d.origin && c.head == d.head
  {
    hide Sorted, EntryLines;
    assert forall i :: 0 <= i < 3 ==> Lines(c)[i] == HeaderLines(c)[i] && Lines(d)[i] == HeaderLines(d)[i];
    PrefixInjective("branch=", c.branch, d.branch, Lines(c)[0]);
    PrefixInjective("origin=", c.origin, d.origin, Lines(c)[1]);
    PrefixInjective("head=", c.head, d.head, Lines(c)[2]);
  }

  /** Equal entry lines come from equal paths with equal entries. */
  lemma SameEntryLines(ps: seq<string>, m: map<string, Entry>, qs: seq<string>, n: map<string, Entry>)
    requires (forall p :: p in ps ==> p in m && |m[p].code| == 2) && (forall q :: q in qs ==> q in n && |n[q].code| == 2)
    requires EntryLines(ps, m) == EntryLines(qs, n)
    ensures ps == qs && forall p :: p in ps ==> m[p] == n[p]
  {
    hide EntryLine, EntryLines;
    forall i | 0 <= i < |ps| ensures ps[i] == qs[i] && m[ps[i]] == n[qs[i]] {
      assert ps[i] in ps && qs[i] in qs;
      assert EntryLines(ps, m)[i] == EntryLines(qs, n)[i];
      EntryLineInjective(ps[i], m[ps[i]], qs[i], n[qs[i]]);
    }
  }

  lemma PrefixInjective(prefix: string, a: string, b: string, line: string)
    requires prefix + a == line && prefix + b == line
    ensures a == b
  {
    assert a == line[|prefix|..] && b == line[|prefix|..];
  }

  // ---- When paths contain newlines ----------------------------------------------

  /** Paths joined so that their lines read as one line. */
  function JoinedPath(paths: seq<string>, entries: map<string, Entry>): (path: string)
    requires paths != [] && forall p :: p in paths ==> p in entries
    ensures paths[0] <= path
  {
    if |paths| == 1 then paths[0]
    else
      var line := EntryLine(paths[0], entries[paths[0]]);
      assert paths[0] <= line && line <= line + "\n" + JoinedPath(paths[1..], entries);
      line + "\n" + JoinedPath(paths[1..], entries)
  }

  lemma {:induction false} JoinedPathLine(paths: seq<string>, entries: map<string, Entry>)
    requires paths != [] && forall p :: p in paths ==> p in entries
    ensures EntryLine(JoinedPath(paths, entries), entries[paths[|paths| - 1]]) == Join(EntryLines(paths, entries), '\n')
  {
    hide EntryLine;
    if |paths| > 1 {
      var line := EntryLine(paths[0], entries[paths[0]]);
      JoinedPathLine(paths[1..], entries);
      assert paths[1..][|paths| - 2] == paths[|paths| - 1];
      LineOfJoined(line, JoinedPath(paths[1..], entries), entries[paths[|paths| - 1]]);
      var lines := EntryLines(paths, entries);
      assert lines[1..] == EntryLines(paths[1..], entries);
      assert line + ['\n'] + Join(lines[1..], '\n') == line + "\n" + Join(lines[1..], '\n');
    }
  }

  /** All entries of `c` in one, under one path with newlines in it. */
  ghost function Merged(c: Content): Content
    requires c.entries != map[]
  {
    var paths := Sorted(c.entries.Keys);
    c.(entries := map[JoinedPath(paths, c.entries) := c.entries[paths[|paths| - 1]]])
  }

  /** Without the newline condition the fingerprint collides: the entries of any repository with two or more dirty
      paths print as the single entry of a repository whose one path contains newlines. */
  lemma NewlinePathsCollide(c: Content)
    requires |c.entries| >= 2
    ensures Merged(c) != c && Fingerprint(Merged(c)) == Fingerprint(c)
  {
    MergedPrintsSame(c);
    assert |Merged(c).entries| == 1;
  }

  lemma MergedPrintsSame(c: Content)
    requires c.entries != map[]
    ensures Fingerprint(Merged(c)) == Fingerprint(c)
  {
    hide EntryLine, HeaderLines;
    var paths := Sorted(c.entries.Keys);
    assert |paths| == |c.entries.Keys| && |paths| > 0;
    var joined, last := JoinedPath(paths, c.entries), c.entries[paths[|paths| - 1]];
    var lines := EntryLines(paths, c.entries);
    JoinedPathLine(paths, c.entries);
    SortedSingle(joined);
    assert Merged(c).entries.Keys == {joined};
    SameHeaderLines(c, Merged(c));
    hide Sorted, JoinedPath;
    assert Lines(Merged(c)) == HeaderLines(c) + [EntryLine(joined, last)];
    assert Join([EntryLine(joined, last)], '\n') == Join(lines, '\n');
    hide Lines, EntryLines, Join;
    JoinTail(HeaderLines(c), lines, [EntryLine(joined, last)], '\n');
    assert Lines(c) == HeaderLines(c) + lines by { LinesAre(c); }
  }

  lemma LinesAre(c: Content)
    ensures Lines(c) == HeaderLines(c) + EntryLines(Sorted(c.entries.Keys), c.entries)
  {
  }

  /** Headers on one line each, paths with at least one character, two-character codes. */
  ghost predicate Framed(c: Content) {
    && '\n' !in c.branch && '\n' !in c.origin && '\n' !in c.head
    && forall p :: p in c.entries ==> p != "" && |c.entries[p].code| == 2
  }

  /** The path reads as the line of one entry followed, after a newline, by a later path. */
  ghost predicate Splits(path: string) {
    exists p, e, q :: SplitsInto(path, p, e, q)
  }

  predicate SplitsInto(path: string, p: string, e: Entry, q: string) {
    |e.code| == 2 && p != "" && Less(p, q) && path == EntryLine(p, e) + "\n" + q
  }

  /** No other content has its fingerprint. */
  ghost predicate Identified(c: Content) {
    forall d :: Framed(d) && Fingerprint(d) == Fingerprint(c) ==> d == c
  }

  /** The exact condition: a content is identified by its fingerprint if and only if it has at most one entry and no
      path of it splits into an entry's line and a later path. */
  lemma IdentifiedIff(c: Content)
    requires Framed(c)
    ensures Identified(c) <==> |c.entries| <= 1 && forall path :: path in c.entries ==> !Splits(path)
  {
    hide Fingerprint;
    if |c.entries| >= 2 {
      NewlinePathsCollide(c);
      MergedIsFramed(c);
    } else if exists path :: path in c.entries && Splits(path) {
      var path :| path in c.entries && Splits(path);
      var p, e, q :| SplitsInto(path, p, e, q);
      var d := SplitPrintsSame(c, path, p, e, q);
    } else {
      forall d | Framed(d) && Fingerprint(d) == Fingerprint(c) ensures d == c {
        OnlyContent(c, d);
      }
    }
  }

  lemma MergedIsFramed(c: Content)
    requires Framed(c) && c.entries != map[]
    ensures Framed(Merged(c))
  {
    var paths := Sorted(c.entries.Keys);
    assert |paths| == |c.entries.Keys| && paths[|paths| - 1] in c.entries.Keys;
  }

  /** The entry of a path that splits prints as two. */
  lemma SplitPrintsSame(c: Content, path: string, p: string, e: Entry, q: string) returns (d: Content)
    requires Framed(c) && |c.entries| <= 1 && path in c.entries && SplitsInto(path, p, e, q)
    ensures Framed(d) && d != c && Fingerprint(d) == Fingerprint(c)
  {
    d := c.(entries := map[p := e, q := c.entries[path]]);
    SplitIsFramed(c, path, p, e, q);
    MergedPair(d, p, q);
    MergedPrintsSame(d);
    hide EntryLine, Fingerprint, Merged, Less, Framed;
    assert Merged(d).entries == map[path := c.entries[path]];
    assert Merged(d) == c;
  }

  lemma SplitIsFramed(c: Content, path: string, p: string, e: Entry, q: string)
    requires Framed(c) && |c.entries| <= 1 && path in c.entries && |e.code| == 2 && p != "" && Less(p, q)
    ensures var d := c.(entries := map[p := e, q := c.entries[path]]);
      && Framed(d) && d != c && d.entries.Keys == {p, q} && d.entries[p] == e && d.entries[q] == c.entries[path]
    ensures c.entries == map[path := c.entries[path]]
  {
    LessTotal(p, q);
    OneKey(c.entries, path);
    hide Less;
    var d := c.(entries := map[p := e, q := c.entries[path]]);
    assert p in d.entries && q in d.entries && p != q;
    assert !(p in {path} && q in {path});
  }

  lemma MergedPair(d: Content, p: string, q: string)
    requires d.entries.Keys == {p, q} && Less(p, q)
    ensures Merged(d) == d.(entries := map[EntryLine(p, d.entries[p]) + "\n" + q := d.entries[q]])
  {
    SortedPair(p, q);
    hide Sorted, EntryLine, Less;
    var paths := Sorted(d.entries.Keys);
    assert paths == [p, q] && paths[1..] == [q];
    assert JoinedPath(paths[1..], d.entries) == q;
  }

  lemma OneKey(m: map<string, Entry>, path: string)
    requires |m| <= 1 && path in m
    ensures m.Keys == {path}
  {
    assert |m.Keys| == |{path}| + |m.Keys - {path}|;
  }

  /** Equal fingerprints of framed contents agree on the headers and on the entry lines as one text. */
  lemma SameText(c: Content, d: Content)
    requires Framed(c) && Framed(d) && Fingerprint(c) == Fingerprint(d)
    ensures c.branch == d.branch && c.origin == d.origin && c.head == d.head
    ensures c.entries == map[] <==> d.entries == map[]
    ensures c.entries != map[] ==>
      Join(EntryLines(Sorted(c.entries.Keys), c.entries), '\n') == Join(EntryLines(Sorted(d.entries.Keys), d.entries), '\n')
  {
    var x, y := EntryLines(Sorted(c.entries.Keys), c.entries), EntryLines(Sorted(d.entries.Keys), d.entries);
    assert |x| == |c.entries.Keys| && |y| == |d.entries.Keys|;
    assert x == [] <==> c.entries == map[];
    assert y == [] <==> d.entries == map[];
    hide EntryLines, Sorted, EntryLine, Join;
    SameFramedText(c, x, d, y);
  }

  lemma SameFramedText(c: Content, x: seq<string>, d: Content, y: seq<string>)
    requires Framed(c) && Framed(d) && Join(HeaderLines(c) + x, '\n') == Join(HeaderLines(d) + y, '\n')
    ensures c.branch == d.branch && c.origin == d.origin && c.head == d.head
    ensures x == [] <==> y == []
    ensures x != [] ==> Join(x, '\n') == Join(y, '\n')
  {
    var h, g := HeaderLines(c), HeaderLines(d);
    HeadersAreFramed(c);
    HeadersAreFramed(d);
    hide HeaderLines, Join, Framed;
    SameHeads(h, x, g, y, '\n');
    PrefixInjective("branch=", c.branch, d.branch, h[0]);
    PrefixInjective("origin=", c.origin, d.origin, h[1]);
    PrefixInjective("head=", c.head, d.head, h[2]);
  }

  lemma HeadersAreFramed(c: Content)
    requires Framed(c)
    ensures var h := HeaderLines(c);
      && |h| == 3 && '\n' !in h[0] && '\n' !in h[1] && '\n' !in h[2]
      && h[0] == "branch=" + c.branch && h[1] == "origin=" + c.origin && h[2] == "head=" + c.head
  {
  }

  /** Separator-free first parts of two joined texts agree, and so does what follows. */
  lemma {:induction false} SameHeads(h: seq<string>, x: seq<string>, g: seq<string>, y: seq<string>, sep: char)
    requires |h| == |g| > 0
    requires forall i :: 0 <= i < |h| ==> sep !in h[i] && sep !in g[i]
    requires Join(h + x, sep) == Join(g + y, sep)
    ensures h == g && (x == [] <==> y == []) && (x != [] ==> Join(x, sep) == Join(y, sep))
  {
    hide Join;
    JoinHead(h + x, g + y, sep);
    assert (h + x)[1..] == h[1..] + x && (g + y)[1..] == g[1..] + y;
    if |h| == 1 {
      assert h[1..] + x == x && g[1..] + y == y;
    } else {
      SameHeads(h[1..], x, g[1..], y, sep);
      assert h == [h[0]] + h[1..] && g == [g[0]] + g[1..];
    }
  }

  lemma OnlyContent(c: Content, d: Content)
    requires Framed(c) && Framed(d) && Fingerprint(c) == Fingerprint(d)
    requires |c.entries| <= 1 && forall path :: path in c.entries ==> !Splits(path)
    ensures c == d
  {
    SameText(c, d);
    if c.entries != map[] {
      var path :| path in c.entries;
      OneKey(c.entries, path);
      MatchesOneLine(c, path, d);
    }
  }

  /** Text that is one entry line of `c` is one entry of `d`, or the path splits. */
  lemma MatchesOneLine(c: Content, path: string, d: Content)
    requires Framed(c) && Framed(d) && c.entries.Keys == {path} && d.entries != map[]
    requires Join(EntryLines(Sorted(c.entries.Keys), c.entries), '\n') == Join(EntryLines(Sorted(d.entries.Keys), d.entries), '\n')
    ensures c.entries == d.entries || Splits(path)
  {
    var ps := Sorted(d.entries.Keys);
    assert |ps| == |d.entries.Keys| && ps[|ps| - 1] in d.entries.Keys;
    SortedSingle(path);
    JoinedPathLine([path], c.entries);
    JoinedPathLine(ps, d.entries);
    assert JoinedPath([path], c.entries) == path;
    EntryLineInjective(path, c.entries[path], JoinedPath(ps, d.entries), d.entries[ps[|ps| - 1]]);
    hide EntryLine, EntryLines;
    if |ps| == 1 {
      OneKey(d.entries, ps[0]);
    } else {
      SortedFirstTwo(d.entries.Keys);
      hide Sorted;
      var q := JoinedPath(ps[1..], d.entries);
      LessExtended(ps[0], ps[1], q);
      assert ps[0] in d.entries;
      assert SplitsInto(path, ps[0], d.entries[ps[0]], q);
    }
  }

  lemma LineOfJoined(front: string, q: string, e: Entry)
    ensures EntryLine(front + "\n" + q, e) == front + "\n" + EntryLine(q, e)
  {
    hide Decimal;
  }

  lemma SameHeaderLines(c: Content, d: Content)
    requires c.branch == d.branch && c.origin == d.origin && c.head == d.head
    ensures HeaderLines(c) == HeaderLines(d)
  {
  }

  lemma SortedSingle(p: string)
    ensures Sorted({p}) == [p]
  {
    SortedStep({p}, p);
    assert {p} - {p} == {};
  }

  lemma SortedPair(p: string, q: string)
    requires Less(p, q)
    ensures Sorted({p, q}) == [p, q]
  {
    LessTotal(p, q);
    SortedStep({p, q}, p);
    assert {p, q} - {p} == {q};
    SortedSingle(q);
  }

  lemma {:induction false} JoinTail(front: seq<string>, a: seq<string>, b: seq<string>, sep: char)
    requires a != [] && b != [] && Join(a, sep) == Join(b, sep)
    ensures Join(front + a, sep) == Join(front + b, sep)
  {
    if front == [] {
      assert front + a == a && front + b == b;
    } else {
      JoinTail(front[1..], a, b, sep);
      assert (front + a)[1..] == front[1..] + a && (front + b)[1..] == front[1..] + b;
    }
  }

  // ---- Porcelain -------------------------------------------------------------

  const NUL: char := '\0'

  /** `bytes.split(|b| b == sep)` */
  function Split(s: string, sep: char): (parts: seq<string>)
    ensures parts != []
    decreases |s|
  {
    var i := IndexOf(s, sep);
    if i == |s| then [s] else [s[..i]] + Split(s[i + 1..], sep)
  }

  lemma {:induction false} SplitJoin(parts: seq<string>, sep: char)
    requires parts != [] && forall i :: 0 <= i < |parts| ==> sep !in parts[i]
    ensures Split(Join(parts, sep), sep) == parts
  {
    if |parts| == 1 {
      IndexOfCut(parts[0], "", sep);
    } else {
      var rest := Join(parts[1..], sep);
      IndexOfCut(parts[0], rest, sep);
      SplitJoin(parts[1..], sep);
      assert Join(parts, sep)[..|parts[0]|] == parts[0];
      assert Join(parts, sep)[|parts[0]| + 1..] == rest;
    }
  }

  datatype Parsed = Parsed(uncommitted: nat, untracked: nat, dirty: map<string, string>)

  predicate TakesOriginal(code: string) {
    code == "R " || code == "RM" || code == "C " || code == "CM"
  }

  predicate IsUntracked(code: string) {
    code == "??"
  }

  function Count(p: Parsed, path: string, code: string): Parsed {
    Parsed(p.uncommitted + 1, if IsUntracked(code) then p.untracked + 1 else p.untracked, p.dirty[path := code])
  }

  /** What the parser makes of the NUL-separated pieces, starting from `p`. */
  function ParsePieces(pieces: seq<string>, p: Parsed): Parsed
    decreases |pieces|
  {
    if pieces == [] then p
    else if |pieces[0]| < 3 then ParsePieces(pieces[1..], p)
    else
      var code, path := pieces[0][..2], pieces[0][3..];
      var rest := if TakesOriginal(code) && |pieces| > 1 then pieces[2..] else pieces[1..];
      ParsePieces(rest, Count(p, path, code))
  }

  /** `parse_porcelain` */
  method ParsePorcelain(bytes: string) returns (uncommitted: nat, untracked: nat, dirty: map<string, string>)
    ensures Parsed(uncommitted, untracked, dirty) == ParsePieces(Split(bytes, NUL), Parsed(0, 0, map[]))
  {
    uncommitted, untracked, dirty := 0, 0, map[];
    var pieces := Split(bytes, NUL);
    var next := 0;
    while next < |pieces|
      invariant 0 <= next <= |pieces|
      invariant ParsePieces(pieces[next..], Parsed(uncommitted, untracked, dirty))
             == ParsePieces(pieces, Parsed(0, 0, map[]))
    {
      var piece := pieces[next];
      next := next + 1;
      if |piece| < 3 {
        continue;
      }
      var code, path := piece[..2], piece[3..];
      if TakesOriginal(code) && next < |pieces| {
        next := next + 1;
      }
      uncommitted := uncommitted + 1;
      if IsUntracked(code) {
        untracked := untracked + 1;
      }
      dirty := dirty[path := code];
    }
  }

  /** One record of `git status --porcelain=v1 -z`. */
  datatype StatusRecord = StatusRecord(code: string, path: string, original: Option<string>)

  /** The records git writes: the four rename and copy codes the parser knows always carry the original. */
  predicate IsRecord(r: StatusRecord) {
    && |r.code| == 2 && NUL !in r.code
    && r.path != "" && NUL !in r.path
    && (r.original.Some? ==> NUL !in r.original.value)
    && (TakesOriginal(r.code) ==> r.original.Some?)
  }

  function RecordPieces(r: StatusRecord): seq<string> {
    [r.code + " " + r.path] + if r.original.Some? then [r.original.value] else []
  }

  function AllPieces(rs: seq<StatusRecord>): seq<string> {
    if rs == [] then [""] else RecordPieces(rs[0]) + AllPieces(rs[1..])
  }

  /** The bytes git writes for `rs`: every piece is followed by a NUL. */
  function PrintPorcelain(rs: seq<StatusRecord>): string {
    Join(AllPieces(rs), NUL)
  }

  /** An entry as the parser takes it from one piece. */
  datatype Reading = Reading(path: string, code: string)

  function Tally(es: seq<Reading>, p: Parsed): Parsed {
    if es == [] then p else Tally(es[1..], Count(p, es[0].path, es[0].code))
  }

  // ---- What is read of the records --------------------------------------------

  /** What the records say. */
  function Meant(rs: seq<StatusRecord>): (es: seq<Reading>)
    ensures |es| == |rs|
    ensures forall i :: 0 <= i < |rs| ==> es[i] == Reading(rs[i].path, rs[i].code)
  {
    if rs == [] then [] else [Reading(rs[0].path, rs[0].code)] + Meant(rs[1..])
  }

  /** Long enough to be taken for a record. */
  predicate HasLongOriginal(r: StatusRecord) {
    r.original.Some? && |r.original.value| >= 3
  }

  function OriginalReading(r: StatusRecord): Reading
    requires HasLongOriginal(r)
  {
    Reading(r.original.value[3..], r.original.value[..2])
  }

  /** A record whose original path the parser does not know to skip. */
  predicate Stray(r: StatusRecord) {
    HasLongOriginal(r) && !TakesOriginal(r.code)
  }

  /** The original is taken for a record: nothing skipped it, because the parser does not expect one after this code
      or because the record itself was skipped (`lost`). */
  predicate ReadsOriginal(r: StatusRecord, lost: bool) {
    HasLongOriginal(r) && (lost || !TakesOriginal(r.code))
  }

  /** It then looks like a rename and takes the next record for its own original. */
  predicate LosesNext(r: StatusRecord, lost: bool) {
    ReadsOriginal(r, lost) && TakesOriginal(OriginalReading(r).code)
  }

  /** The entries read of `rs`; `lost` says that the first record is being skipped. */
  function Readings(rs: seq<StatusRecord>, lost: bool): seq<Reading> {
    if rs == [] then []
    else
      (if lost then [] else [Reading(rs[0].path, rs[0].code)])
      + (if ReadsOriginal(rs[0], lost) then [OriginalReading(rs[0])] else [])
      + Readings(rs[1..], LosesNext(rs[0], lost))
  }

  /** The original paths read as entries. */
  function Extra(rs: seq<StatusRecord>, lost: bool): seq<Reading> {
    if rs == [] then []
    else (if ReadsOriginal(rs[0], lost) then [OriginalReading(rs[0])] else []) + Extra(rs[1..], LosesNext(rs[0], lost))
  }

  /** The records skipped as the original of something else. */
  function Lost(rs: seq<StatusRecord>, lost: bool): seq<Reading> {
    if rs == [] then []
    else (if lost then [Reading(rs[0].path, rs[0].code)] else []) + Lost(rs[1..], LosesNext(rs[0], lost))
  }

  lemma {:induction false} PiecesAreSeparated(rs: seq<StatusRecord>)
    requires forall r :: r in rs ==> IsRecord(r)
    ensures AllPieces(rs) != []
    ensures forall i :: 0 <= i < |AllPieces(rs)| ==> NUL !in AllPieces(rs)[i]
  {
    if rs != [] {
      assert rs[0] in rs;
      PiecesAreSeparated(rs[1..]);
    }
  }

  /** One piece in front of the others. */
  lemma ParsePiece(piece: string, rest: seq<string>, p: Parsed)
    requires rest != []
    ensures ParsePieces([piece] + rest, p) ==
      if |piece| < 3 then ParsePieces(rest, p)
      else ParsePieces(if TakesOriginal(piece[..2]) then rest[1..] else rest, Count(p, piece[3..], piece[..2]))
  {
    var pieces := [piece] + rest;
    assert pieces[0] == piece && pieces[1..] == rest && pieces[2..] == rest[1..];
  }

  /** A record and its original in front of the others: read, or the original alone when the record is lost. */
  lemma ParseRecordPieces(r: StatusRecord, rest: seq<string>, lost: bool, p: Parsed)
    requires IsRecord(r) && rest != []
    ensures ParsePieces(if lost then (RecordPieces(r) + rest)[1..] else RecordPieces(r) + rest, p)
         == (var q := if lost then p else Count(p, r.path, r.code);
             if !ReadsOriginal(r, lost) then ParsePieces(rest, q)
             else
               var o := OriginalReading(r);
               ParsePieces(if LosesNext(r, lost) then rest[1..] else rest, Count(q, o.path, o.code)))
  {
    hide ParsePieces, TakesOriginal;
    var line := r.code + " " + r.path;
    assert line[..2] == r.code && line[3..] == r.path;
    var after := if r.original.Some? then [r.original.value] + rest else rest;
    assert RecordPieces(r) + rest == [line] + after;
    assert (RecordPieces(r) + rest)[1..] == after;
    ParsePiece(line, after, p);
    if r.original.Some? {
      assert after[1..] == rest;
      ParsePiece(r.original.value, rest, if lost then p else Count(p, r.path, r.code));
    }
  }

  /** Whatever the records, the parser counts exactly the entries `Readings` names. */
  lemma {:induction false} ParsePrinted(rs: seq<StatusRecord>, lost: bool, p: Parsed)
    requires forall r :: r in rs ==> IsRecord(r)
    ensures ParsePieces(if lost then AllPieces(rs)[1..] else AllPieces(rs), p) == Tally(Readings(rs, lost), p)
  {
    if rs == [] {
      assert [""][1..] == [] && ParsePieces([], p) == p;
    } else {
      var r, rest := rs[0], AllPieces(rs[1..]);
      assert r in rs;
      PiecesAreSeparated(rs[1..]);
      ParseRecordPieces(r, rest, lost, p);
      var q := if lost then p else Count(p, r.path, r.code);
      var q' := if ReadsOriginal(r, lost) then Count(q, OriginalReading(r).path, OriginalReading(r).code) else q;
      ParsePrinted(rs[1..], LosesNext(r, lost), q');
      TallyFront(rs, lost, p);
    }
  }

  lemma TallyFront(rs: seq<StatusRecord>, lost: bool, p: Parsed)
    requires rs != []
    ensures var r, tail := rs[0], Readings(rs[1..], LosesNext(rs[0], lost));
            var q := if lost then p else Count(p, r.path, r.code);
            Tally(Readings(rs, lost), p) ==
              Tally(tail, if ReadsOriginal(r, lost) then Count(q, OriginalReading(r).path, OriginalReading(r).code) else q)
  {
    hide LosesNext, ReadsOriginal;
    var r, tail := rs[0], Readings(rs[1..], LosesNext(rs[0], lost));
    var own := Reading(r.path, r.code);
    if ReadsOriginal(r, lost) {
      OriginalsAreLong(r, lost);
      var o := OriginalReading(r);
      assert Readings(rs, lost) == if lost then [o] + tail else [own] + ([o] + tail);
      assert ([o] + tail)[1..] == tail;
      assert ([own] + ([o] + tail))[1..] == [o] + tail;
    } else {
      assert Readings(rs, lost) == if lost then tail else [own] + tail;
      assert ([own] + tail)[1..] == tail;
    }
  }

  lemma OriginalsAreLong(r: StatusRecord, lost: bool)
    requires ReadsOriginal(r, lost)
    ensures HasLongOriginal(r)
  {
  }

  lemma ParseBytes(rs: seq<StatusRecord>)
    requires forall r :: r in rs ==> IsRecord(r)
    ensures ParseOf(rs) == Tally(Readings(rs, false), NOTHING)
  {
    PiecesAreSeparated(rs);
    SplitJoin(AllPieces(rs), NUL);
    ParsePrinted(rs, false, NOTHING);
  }

  const NOTHING := Parsed(0, 0, map[])

  /** What the parser makes of the bytes git writes for `rs`. */
  function ParseOf(rs: seq<StatusRecord>): Parsed {
    ParsePieces(Split(PrintPorcelain(rs), NUL), NOTHING)
  }

  // ---- Counts -------------------------------------------------------------------

  function UntrackedAmong(es: seq<Reading>): nat {
    if es == [] then 0 else (if IsUntracked(es[0].code) then 1 else 0) + UntrackedAmong(es[1..])
  }

  lemma {:induction false} TallyTotals(es: seq<Reading>, p: Parsed)
    ensures Tally(es, p).uncommitted == p.uncommitted + |es|
    ensures Tally(es, p).untracked == p.untracked + UntrackedAmong(es)
  {
    if es != [] {
      TallyTotals(es[1..], Count(p, es[0].path, es[0].code));
    }
  }

  lemma {:induction false} UntrackedAppend(a: seq<Reading>, b: seq<Reading>)
    ensures UntrackedAmong(a + b) == UntrackedAmong(a) + UntrackedAmong(b)
  {
    if a == [] {
      assert a + b == b;
    } else {
      UntrackedAppend(a[1..], b);
      assert (a + b)[1..] == a[1..] + b;
    }
  }

  /** The four lists one record further. */
  lemma ReadingsStep(rs: seq<StatusRecord>, lost: bool) returns (own: seq<Reading>, read: seq<Reading>, next: bool)
    requires rs != []
    ensures Readings(rs, lost) == (if lost then read else own + read) + Readings(rs[1..], next)
    ensures Lost(rs, lost) == (if lost then own else []) + Lost(rs[1..], next)
    ensures Extra(rs, lost) == read + Extra(rs[1..], next)
    ensures Meant(rs) == own + Meant(rs[1..])
  {
    hide LosesNext, OriginalReading;
    next := LosesNext(rs[0], lost);
    own := [Reading(rs[0].path, rs[0].code)];
    read := if ReadsOriginal(rs[0], lost) then [OriginalReading(rs[0])] else [];
  }

  lemma BalanceStep<T>(own: seq<T>, read: seq<T>, lost: bool, readings: seq<T>, gone: seq<T>, meant: seq<T>, extra: seq<T>)
    requires multiset(readings) + multiset(gone) == multiset(meant) + multiset(extra)
    ensures multiset((if lost then read else own + read) + readings) + multiset((if lost then own else []) + gone)
         == multiset(own + meant) + multiset(read + extra)
  {
    if lost {
      assert [] + gone == gone;
      calc {
        multiset(read + readings) + multiset(own + gone);
        multiset(read) + multiset(own) + (multiset(readings) + multiset(gone));
        multiset(read) + multiset(own) + (multiset(meant) + multiset(extra));
        multiset(own + meant) + multiset(read + extra);
      }
    } else {
      assert [] + gone == gone;
      calc {
        multiset(own + read + readings) + multiset(gone);
        multiset(own) + multiset(read) + (multiset(readings) + multiset(gone));
        multiset(own) + multiset(read) + (multiset(meant) + multiset(extra));
        multiset(own + meant) + multiset(read + extra);
      }
    }
  }

  /** Entries read and records lost are together the records and the originals read. */
  lemma {:induction false} ReadingsBalance(rs: seq<StatusRecord>, lost: bool)
    ensures multiset(Readings(rs, lost)) + multiset(Lost(rs, lost)) == multiset(Meant(rs)) + multiset(Extra(rs, lost))
  {
    if rs != [] {
      var own, read, next := ReadingsStep(rs, lost);
      ReadingsBalance(rs[1..], next);
      BalanceStep(own, read, lost, Readings(rs[1..], next), Lost(rs[1..], next), Meant(rs[1..]), Extra(rs[1..], next));
      hide Readings, Lost, Extra, Meant;
    }
  }

  lemma {:induction false} UntrackedBalance(rs: seq<StatusRecord>, lost: bool)
    ensures UntrackedAmong(Readings(rs, lost)) + UntrackedAmong(Lost(rs, lost))
         == UntrackedAmong(Meant(rs)) + UntrackedAmong(Extra(rs, lost))
  {
    if rs != [] {
      var own, read, next := ReadingsStep(rs, lost);
      UntrackedBalance(rs[1..], next);
      hide Readings, Lost, Extra, Meant;
      UntrackedAppend(if lost then read else own + read, Readings(rs[1..], next));
      UntrackedAppend(own, read);
      UntrackedAppend(if lost then own else [], Lost(rs[1..], next));
      UntrackedAppend(own, Meant(rs[1..]));
      UntrackedAppend(read, Extra(rs[1..], next));
      hide UntrackedAmong;
      assert UntrackedAmong([]) == 0 by { NoneUntracked(); }
    }
  }

  lemma NoneUntracked()
    ensures UntrackedAmong([]) == 0
  {
  }

  /** Both counts, whatever the records: too large by the originals read as entries, too small by the records lost. */
  lemma PorcelainCounts(rs: seq<StatusRecord>)
    requires forall r :: r in rs ==> IsRecord(r)
    ensures ParseOf(rs).uncommitted == |rs| + |Extra(rs, false)| - |Lost(rs, false)|
    ensures ParseOf(rs).untracked
         == UntrackedAmong(Meant(rs)) + UntrackedAmong(Extra(rs, false)) - UntrackedAmong(Lost(rs, false))
  {
    ParseBytes(rs);
    hide ParseOf;
    TallyTotals(Readings(rs, false), NOTHING);
    ReadingsBalance(rs, false);
    UntrackedBalance(rs, false);
    hide Readings, Lost, Extra, UntrackedAmong, Tally;
    assert |multiset(Readings(rs, false)) + multiset(Lost(rs, false))| == |Readings(rs, false)| + |Lost(rs, false)|;
  }

  // ---- When everything is right ---------------------------------------------------

  ghost predicate DistinctPaths(rs: seq<StatusRecord>) {
    forall i, j :: 0 <= i < j < |rs| ==> rs[i].path != rs[j].path
  }

  function Paths(rs: seq<StatusRecord>): set<string> {
    set r | r in rs :: r.path
  }

  function Untracked(dirty: map<string, string>): set<string> {
    set path | path in dirty && dirty[path] == "??"
  }

  /** Every path with its code and no other, and both counts the cardinalities that implies. */
  ghost predicate Right(rs: seq<StatusRecord>, p: Parsed) {
    && p.dirty.Keys == Paths(rs)
    && (forall r :: r in rs ==> p.dirty[r.path] == r.code)
    && p.uncommitted == |rs| == |p.dirty|
    && p.untracked == |Untracked(p.dirty)|
  }

  function PathsOf(es: seq<Reading>): set<string> {
    set e | e in es :: e.path
  }

  ghost predicate Unrepeated(es: seq<Reading>) {
    |PathsOf(es)| == |es|
  }

  lemma PathsOfStep(es: seq<Reading>)
    requires es != []
    ensures PathsOf(es) == {es[0].path} + PathsOf(es[1..])
  {
    assert es == [es[0]] + es[1..];
  }

  lemma {:induction false} PathsOfBound(es: seq<Reading>)
    ensures |PathsOf(es)| <= |es|
  {
    if es != [] {
      PathsOfBound(es[1..]);
      PathsOfStep(es);
    }
  }

  lemma UnrepeatedTail(es: seq<Reading>)
    requires es != []
    ensures Unrepeated(es) <==> Unrepeated(es[1..]) && es[0].path !in PathsOf(es[1..])
  {
    PathsOfBound(es[1..]);
    PathsOfStep(es);
    hide PathsOf;
    if es[0].path in PathsOf(es[1..]) {
      assert {es[0].path} + PathsOf(es[1..]) == PathsOf(es[1..]);
    }
  }

  /** Without repeated paths an entry is determined by its path and occurs once. */
  lemma {:induction false} UnrepeatedOnce(es: seq<Reading>)
    requires Unrepeated(es)
    ensures forall e :: multiset(es)[e] == if e in es then 1 else 0
    ensures forall e, f :: e in es && f in es && e.path == f.path ==> e == f
  {
    if es != [] {
      UnrepeatedTail(es);
      UnrepeatedOnce(es[1..]);
      assert es == [es[0]] + es[1..];
      assert forall e :: e in es[1..] ==> e.path in PathsOf(es[1..]);
    }
  }

  lemma {:induction false} MeantPaths(rs: seq<StatusRecord>)
    requires DistinctPaths(rs)
    ensures Unrepeated(Meant(rs)) && PathsOf(Meant(rs)) == Paths(rs)
  {
    if rs != [] {
      DistinctTail(rs);
      MeantPaths(rs[1..]);
      UnrepeatedTail(Meant(rs));
      PathsOfStep(Meant(rs));
      hide DistinctPaths, PathsOf, Paths, Unrepeated;
      assert Meant(rs)[1..] == Meant(rs[1..]);
    }
  }

  lemma DistinctTail(rs: seq<StatusRecord>)
    requires rs != [] && DistinctPaths(rs)
    ensures DistinctPaths(rs[1..]) && rs[0].path !in Paths(rs[1..])
    ensures Paths(rs) == {rs[0].path} + Paths(rs[1..])
  {
    assert rs == [rs[0]] + rs[1..];
  }

  /** The map holds the paths read, each with a code that was read with it. */
  lemma {:induction false} TallyMap(es: seq<Reading>, p: Parsed)
    ensures Tally(es, p).dirty.Keys == p.dirty.Keys + PathsOf(es)
    ensures forall path :: path in Tally(es, p).dirty ==>
      || Reading(path, Tally(es, p).dirty[path]) in es
      || (path in p.dirty && Tally(es, p).dirty[path] == p.dirty[path])
  {
    if es != [] {
      TallyMap(es[1..], Count(p, es[0].path, es[0].code));
      PathsOfStep(es);
      hide PathsOf;
      assert es == [es[0]] + es[1..];
    }
  }

  /** Counting an entry for a new path keeps both counts in step with the map. */
  lemma CountNewPath(p: Parsed, path: string, code: string)
    requires path !in p.dirty
    ensures var next := Count(p, path, code);
      && next.uncommitted - |next.dirty| == p.uncommitted - |p.dirty|
      && next.untracked - |Untracked(next.dirty)| == p.untracked - |Untracked(p.dirty)|
  {
    var next := Count(p, path, code);
    assert next.dirty.Keys == p.dirty.Keys + {path} && |next.dirty| == |next.dirty.Keys| && |p.dirty| == |p.dirty.Keys|;
    var was, now := Untracked(p.dirty), Untracked(next.dirty);
    assert path !in was;
    if IsUntracked(code) {
      assert now == was + {path};
    } else {
      assert now == was;
    }
  }

  lemma {:induction false} TallyCounts(es: seq<Reading>, p: Parsed)
    requires Unrepeated(es) && PathsOf(es) !! p.dirty.Keys
    ensures var t := Tally(es, p);
      && t.uncommitted - |t.dirty| == p.uncommitted - |p.dirty|
      && t.untracked - |Untracked(t.dirty)| == p.untracked - |Untracked(p.dirty)|
  {
    hide Untracked, IsUntracked, Unrepeated;
    if es != [] {
      UnrepeatedTail(es);
      PathsOfStep(es);
      hide PathsOf;
      CountNewPath(p, es[0].path, es[0].code);
      TallyCounts(es[1..], Count(p, es[0].path, es[0].code));
    }
  }

  /** Entries read once per path are read back as they are. */
  lemma UnrepeatedReadBack(es: seq<Reading>)
    requires Unrepeated(es)
    ensures var t := Tally(es, NOTHING);
      && t.uncommitted == |es| == |t.dirty| && t.untracked == |Untracked(t.dirty)| && t.dirty.Keys == PathsOf(es)
      && forall e :: e in es ==> t.dirty[e.path] == e.code
  {
    UnrepeatedCounts(es);
    TallyMap(es, NOTHING);
    UnrepeatedOnce(es);
    var dirty := Tally(es, NOTHING).dirty;
    hide Tally, Untracked, Unrepeated, PathsOf;
    forall e | e in es ensures e.path in dirty && dirty[e.path] == e.code {
      PathIsOf(es, e);
      assert Reading(e.path, dirty[e.path]) in es;
    }
  }

  lemma UnrepeatedCounts(es: seq<Reading>)
    requires Unrepeated(es)
    ensures var t := Tally(es, NOTHING); t.uncommitted == |es| == |t.dirty| && t.untracked == |Untracked(t.dirty)|
  {
    TallyTotals(es, NOTHING);
    TallyCounts(es, NOTHING);
    assert Untracked(map[]) == {};
  }

  lemma SameMultiset(es: seq<Reading>, ms: seq<Reading>)
    requires multiset(es) == multiset(ms)
    ensures |es| == |ms| && PathsOf(es) == PathsOf(ms)
    ensures forall e :: e in es <==> e in ms
  {
    assert |es| == |multiset(es)| == |multiset(ms)| == |ms|;
    forall e ensures e in es <==> e in ms {
      assert e in multiset(es) <==> e in multiset(ms);
    }
  }

  lemma SameElements(es: seq<Reading>, ms: seq<Reading>)
    requires Unrepeated(es) && Unrepeated(ms)
    requires forall e :: e in es <==> e in ms
    ensures multiset(es) == multiset(ms)
  {
    UnrepeatedOnce(es);
    UnrepeatedOnce(ms);
    hide Unrepeated, PathsOf;
    forall e ensures multiset(es)[e] == multiset(ms)[e] {
    }
  }

  lemma {:induction false} MeantElements(rs: seq<StatusRecord>)
    ensures forall r :: r in rs ==> Reading(r.path, r.code) in Meant(rs)
    ensures forall e :: e in Meant(rs) ==> exists r :: r in rs && e == Reading(r.path, r.code)
  {
    forall r | r in rs ensures Reading(r.path, r.code) in Meant(rs) {
      var i :| 0 <= i < |rs| && rs[i] == r;
      assert Meant(rs)[i] == Reading(r.path, r.code);
    }
    forall e | e in Meant(rs) ensures exists r :: r in rs && e == Reading(r.path, r.code) {
      var i :| 0 <= i < |rs| && Meant(rs)[i] == e;
      assert rs[i] in rs;
    }
  }

  lemma ReadAsMeantIsRight(rs: seq<StatusRecord>, es: seq<Reading>)
    requires DistinctPaths(rs) && multiset(es) == multiset(Meant(rs))
    ensures Right(rs, Tally(es, NOTHING))
  {
    MeantPaths(rs);
    MeantElements(rs);
    SameMultiset(es, Meant(rs));
    UnrepeatedReadBack(es);
    hide DistinctPaths, PathsOf, Tally, Paths, Meant, Untracked;
    var t := Tally(es, NOTHING);
    forall r | r in rs ensures t.dirty[r.path] == r.code {
      assert Reading(r.path, r.code) in es;
    }
  }

  lemma RightReadsAsMeant(rs: seq<StatusRecord>, es: seq<Reading>)
    requires DistinctPaths(rs) && Right(rs, Tally(es, NOTHING))
    ensures multiset(es) == multiset(Meant(rs))
  {
    MeantPaths(rs);
    MeantElements(rs);
    TallyMap(es, NOTHING);
    TallyTotals(es, NOTHING);
    var t := Tally(es, NOTHING);
    assert |t.dirty| == |t.dirty.Keys| && Unrepeated(es);
    UnrepeatedReadBack(es);
    hide DistinctPaths, Tally, Meant, Untracked, Unrepeated;
    forall e | e in es ensures e in Meant(rs) {
      PathIsOf(es, e);
      var r :| r in rs && r.path == e.path;
      assert e == Reading(r.path, r.code);
    }
    forall e | e in Meant(rs) ensures e in es {
      var r :| r in rs && e == Reading(r.path, r.code);
      assert e.path in t.dirty && t.dirty[e.path] == e.code;
    }
    SameElements(es, Meant(rs));
  }

  lemma PathIsOf(es: seq<Reading>, e: Reading)
    requires e in es
    ensures e.path in PathsOf(es)
  {
  }

  /** The exact condition, for all records git can print: the parse is right if and only if the originals read as
      entries are exactly the records lost. */
  lemma RightIffBalanced(rs: seq<StatusRecord>)
    requires (forall r :: r in rs ==> IsRecord(r)) && DistinctPaths(rs)
    ensures Right(rs, ParseOf(rs)) <==> multiset(Extra(rs, false)) == multiset(Lost(rs, false))
  {
    ParseBytes(rs);
    ReadingsBalance(rs, false);
    var es := Readings(rs, false);
    SameBalance(multiset(es), multiset(Lost(rs, false)), multiset(Meant(rs)), multiset(Extra(rs, false)));
    hide ParseOf, DistinctPaths, Readings, Extra, Lost, Right, Meant, Tally;
    if multiset(es) == multiset(Meant(rs)) {
      ReadAsMeantIsRight(rs, es);
    } else if Right(rs, Tally(es, NOTHING)) {
      RightReadsAsMeant(rs, es);
    }
  }

  lemma SameBalance<T>(read: multiset<T>, lost: multiset<T>, meant: multiset<T>, extra: multiset<T>)
    requires read + lost == meant + extra
    ensures read == meant <==> extra == lost
  {
    forall e ensures read[e] + lost[e] == meant[e] + extra[e] {
      assert (read + lost)[e] == (meant + extra)[e];
    }
  }

  /** The counts are the cardinalities the map implies if and only if no path was read twice. */
  lemma CountsImpliedIffUnrepeated(rs: seq<StatusRecord>)
    requires forall r :: r in rs ==> IsRecord(r)
    ensures var p := ParseOf(rs);
      && (p.uncommitted == |p.dirty| <==> Unrepeated(Readings(rs, false)))
      && (Unrepeated(Readings(rs, false)) ==> p.untracked == |Untracked(p.dirty)|)
  {
    ParseBytes(rs);
    var es := Readings(rs, false);
    hide ParseOf, Readings;
    TallyMap(es, NOTHING);
    TallyTotals(es, NOTHING);
    assert |Tally(es, NOTHING).dirty| == |Tally(es, NOTHING).dirty.Keys|;
    if Unrepeated(es) {
      UnrepeatedCounts(es);
    }
  }

  const RENAMED_AWAY := StatusRecord("RD", "new", Some("?? foo"))

  const REPEATED := [RENAMED_AWAY, StatusRecord("??", "foo", None)]

  const UNREPEATED := [RENAMED_AWAY.(original := Some("ab")), StatusRecord("??", "foo", None)]

  /** Two lists of records git can print, with one map and different counts. */
  lemma RepeatedReading()
    ensures (forall r :: r in REPEATED ==> IsRecord(r)) && DistinctPaths(REPEATED)
    ensures (forall r :: r in UNREPEATED ==> IsRecord(r)) && DistinctPaths(UNREPEATED)
    ensures ParseOf(REPEATED).dirty == ParseOf(UNREPEATED).dirty
    ensures ParseOf(REPEATED).uncommitted == 3 && ParseOf(UNREPEATED).uncommitted == 2
  {
    BothAreRecords();
    var gone, foo := Reading("new", "RD"), Reading("foo", "??");
    ReadingsOfBoth(gone, foo);
    ParseBytes(REPEATED);
    ParseBytes(UNREPEATED);
    TallyTotals([gone, foo, foo], NOTHING);
    TallyTotals([gone, foo], NOTHING);
    ReadTwice(gone, foo);
    hide ParseOf, Readings, Tally;
  }

  lemma ReadTwice(e: Reading, f: Reading)
    ensures Tally([e, f, f], NOTHING).dirty == Tally([e, f], NOTHING).dirty
  {
    assert [e, f, f][1..] == [f, f] && [f, f][1..] == [f] && [f][1..] == [] && [e, f][1..] == [f];
    var one := Count(NOTHING, e.path, e.code);
    var two := Count(one, f.path, f.code);
    var three := Count(two, f.path, f.code);
    hide IsUntracked;
    assert Tally([], three) == three && Tally([], two) == two;
    assert Tally([f], two) == three && Tally([f], one) == two;
    assert Tally([f, f], one) == three;
    assert three.dirty == two.dirty;
  }

  lemma BothAreRecords()
    ensures (forall r :: r in REPEATED ==> IsRecord(r)) && DistinctPaths(REPEATED)
    ensures (forall r :: r in UNREPEATED ==> IsRecord(r)) && DistinctPaths(UNREPEATED)
  {
    assert "foo"[0] != "new"[0];
  }

  lemma ReadingsOfBoth(gone: Reading, foo: Reading)
    requires gone == Reading("new", "RD") && foo == Reading("foo", "??")
    ensures Readings(REPEATED, false) == [gone, foo, foo] && Readings(UNREPEATED, false) == [gone, foo]
  {
    var record := StatusRecord("??", "foo", None);
    assert "?? foo"[..2] == "??" && "?? foo"[3..] == "foo";
    assert REPEATED[1..] == [record] && UNREPEATED[1..] == [record] && [record][1..] == [];
    assert OriginalReading(RENAMED_AWAY) == foo && ReadsOriginal(RENAMED_AWAY, false) && !LosesNext(RENAMED_AWAY, false);
    assert !ReadsOriginal(UNREPEATED[0], false) && !LosesNext(UNREPEATED[0], false);
    assert Readings([record], false) == [foo];
    hide TakesOriginal, OriginalReading, LosesNext, ReadsOriginal;
    assert Readings(REPEATED, false) == [gone] + [foo] + [foo];
    assert Readings(UNREPEATED, false) == [gone] + [] + [foo];
  }

  lemma {:induction false} NoStrayNoExtra(rs: seq<StatusRecord>)
    ensures (forall r :: r in rs ==> !Stray(r)) ==> Extra(rs, false) == [] && Lost(rs, false) == []
    ensures (exists r :: r in rs && Stray(r)) ==>
      Extra(rs, false) != [] && exists r :: r in rs && Stray(r) && Extra(rs, false)[0] == OriginalReading(r)
  {
    if rs != [] {
      NoStrayNoExtra(rs[1..]);
      assert rs == [rs[0]] + rs[1..];
      assert rs[0] in rs;
    }
  }

  /** The original path of a record is passed over exactly after one of four codes. */
  lemma OriginalSkippedIff(r: StatusRecord)
    requires IsRecord(r) && HasLongOriginal(r)
    ensures ParseOf([r]).uncommitted == 1 <==> r.code in {"R ", "RM", "C ", "CM"}
  {
    assert [r][1..] == [];
    PorcelainCounts([r]);
    assert Readings([], false) == Readings([], true) == [];
  }

  lemma {:induction false} LostAreMeant(rs: seq<StatusRecord>, lost: bool, e: Reading)
    requires e in Lost(rs, lost)
    ensures e in Meant(rs)
  {
    var own := Reading(rs[0].path, rs[0].code);
    var rest := Lost(rs[1..], LosesNext(rs[0], lost));
    assert Lost(rs, lost) == (if lost then [own] else []) + rest;
    if e in rest {
      LostAreMeant(rs[1..], LosesNext(rs[0], lost), e);
    }
  }

  /** No stray original reads like one of the records. */
  ghost predicate NoMimics(rs: seq<StatusRecord>) {
    forall r, m :: r in rs && Stray(r) && m in Meant(rs) ==> OriginalReading(r) != m
  }

  /** Unless a stray original happens to read like a record of the list, the parse is right if and only if there is
      no stray. */
  lemma RightIffNoStray(rs: seq<StatusRecord>)
    requires (forall r :: r in rs ==> IsRecord(r)) && DistinctPaths(rs) && NoMimics(rs)
    ensures Right(rs, ParseOf(rs)) <==> forall r :: r in rs ==> !Stray(r)
  {
    RightIffBalanced(rs);
    NoStrayNoExtra(rs);
    hide Right, ParseOf, DistinctPaths, Extra, Lost;
    if exists r :: r in rs && Stray(r) {
      var r :| r in rs && Stray(r) && Extra(rs, false)[0] == OriginalReading(r);
      assert OriginalReading(r) !in Lost(rs, false) by {
        if OriginalReading(r) in Lost(rs, false) {
          LostAreMeant(rs, false, OriginalReading(r));
        }
      }
      assert OriginalReading(r) in multiset(Extra(rs, false)) && OriginalReading(r) !in multiset(Lost(rs, false));
    }
  }

  /** Parsing what git prints for distinct paths recovers every path with its code, and counts that are
      the cardinalities the map implies. */
  lemma PorcelainRoundTrip(rs: seq<StatusRecord>)
    requires forall r :: r in rs ==> IsRecord(r) && !Stray(r)
    requires DistinctPaths(rs)
    ensures var parsed := ParsePieces(Split(PrintPorcelain(rs), NUL), Parsed(0, 0, map[]));
      && parsed.dirty.Keys == Paths(rs)
      && (forall r :: r in rs ==> parsed.dirty[r.path] == r.code)
      && parsed.uncommitted == |rs| == |parsed.dirty|
      && parsed.untracked == |Untracked(parsed.dirty)|
  {
    NoStrayNoExtra(rs);
    RightIffBalanced(rs);
  }

  /** A stray original that begins with a rename code takes the next record with it: the count comes out as the
      number of records, and one of them is missing from the map. */
  lemma StrayLosesRecord(stray: StatusRecord, next: StatusRecord)
    requires IsRecord(stray) && Stray(stray) && TakesOriginal(OriginalReading(stray).code)
    requires IsRecord(next) && next.original.None?
    requires next.path != stray.path && next.path != OriginalReading(stray).path
    ensures var parsed := ParseOf([stray, next]);
      parsed.uncommitted == 2 && next.path !in parsed.dirty && OriginalReading(stray).path in parsed.dirty
  {
    var rs := [stray, next];
    ParseBytes(rs);
    assert rs[1..] == [next] && [next][1..] == [];
    var es := [Reading(stray.path, stray.code), OriginalReading(stray)];
    assert Readings([next], true) == [];
    assert Readings(rs, false) == es;
    hide ParseOf, Readings;
    TallyTotals(es, NOTHING);
    TallyMap(es, NOTHING);
  }

  /** A renamed and deleted `CMakeLists.txt` hides the untracked file listed after it. */
  lemma CMakeListsLosesRecord()
    ensures var rs := [StatusRecord("RD", "new", Some("CMakeLists.txt")), StatusRecord("??", "xyz", None)];
      && (forall r :: r in rs ==> IsRecord(r)) && DistinctPaths(rs)
      && ParseOf(rs).uncommitted == |rs| && "xyz" !in ParseOf(rs).dirty && "keLists.txt" in ParseOf(rs).dirty
  {
    var stray, next := StatusRecord("RD", "new", Some("CMakeLists.txt")), StatusRecord("??", "xyz", None);
    hide ParseOf;
    assert "CMakeLists.txt"[..2] == "CM" && "CMakeLists.txt"[3..] == "keLists.txt";
    assert OriginalReading(stray) == Reading("keLists.txt", "CM");
    StrayLosesRecord(stray, next);
  }

  /** And a stray original that reads like the record it takes can leave everything right. */
  lemma MimicIsRight(stray: StatusRecord, next: StatusRecord)
    requires IsRecord(stray) && Stray(stray) && IsRecord(next) && stray.path != next.path
    requires stray.original == Some(next.code + " " + next.path) && TakesOriginal(next.code) && !HasLongOriginal(next)
    ensures Right([stray, next], ParseOf([stray, next])) && !NoMimics([stray, next])
  {
    var rs := [stray, next];
    assert rs[1..] == [next] && [next][1..] == [];
    var line := next.code + " " + next.path;
    assert line[..2] == next.code && line[3..] == next.path;
    var e := Reading(next.path, next.code);
    assert OriginalReading(stray) == e;
    assert Extra([next], true) == [] && Lost([next], true) == [e];
    assert Extra(rs, false) == [e] && Lost(rs, false) == [e];
    assert Meant(rs)[1] == e && e in Meant(rs) && stray in rs;
    RightIffBalanced(rs);
    hide ParseOf, Extra, Lost, Meant, Right;
    assert OriginalReading(stray) == e;
  }

  /** Whatever the bytes, every code the parser stores has two characters. */
  lemma {:induction false} CodesHaveTwoCharacters(pieces: seq<string>, p: Parsed)
    requires forall path :: path in p.dirty ==> |p.dirty[path]| == 2
    ensures forall path :: path in ParsePieces(pieces, p).dirty ==> |ParsePieces(pieces, p).dirty[path]| == 2
    decreases |pieces|
  {
    if pieces != [] && |pieces[0]| < 3 {
      CodesHaveTwoCharacters(pieces[1..], p);
    } else if pieces != [] {
      var code, path := pieces[0][..2], pieces[0][3..];
      CodesHaveTwoCharacters(if TakesOriginal(code) && |pieces| > 1 then pieces[2..] else pieces[1..], Count(p, path, code));
    }
  }
}
