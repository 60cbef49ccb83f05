/**
 * Slugs and entries of the prompt and reference library (backend/src/library.rs and the route that derives a slug
 * from a name, backend/src/api/library_routes.rs). One request runs at a time.
 */
module Library {
  import opened Wrappers
  import opened Text
  import opened Counting

  // ---- Characters ------------------------------------------------------------

  predicate IsSlugChar(c: char) {
    'a' <= c <= 'z' || 'A' <= c <= 'Z' || '0' <= c <= '9' || c == '-' || c == '_' || c == '.'
  }

  /** `trim_matches('-')` */
  function TrimDashes(s: string): string
    decreases |s|
  {
    if s != "" && s[0] == '-' then TrimDashes(s[1..])
    else if s != "" && s[|s| - 1] == '-' then TrimDashes(s[..|s| - 1])
    else s
  }

  /** Allowed characters stay, whitespace becomes a hyphen, the rest goes. */
  function Kept(c: char): string {
    if IsSlugChar(c) then [c] else if IsWhitespace(c) then "-" else ""
  }

  function Mapped(s: string): string {
    if s == "" then "" else Mapped(s[..|s| - 1]) + Kept(s[|s| - 1])
  }

  predicate HasDoubleDash(s: string) {
    exists i :: 0 <= i < |s| - 1 && s[i] == '-' && s[i + 1] == '-'
  }

  /** `s.replace("--", "-")`: left to right, matches do not overlap. */
  function ReplaceDoubleDash(s: string): string
    decreases |s|
  {
    if |s| < 2 then s
    else if s[0] == '-' && s[1] == '-' then "-" + ReplaceDoubleDash(s[2..])
    else [s[0]] + ReplaceDoubleDash(s[1..])
  }

  /** Each run of hyphens becomes one. */
  function Collapse(s: string): string {
    if |s| < 2 then s
    else if s[0] == '-' && s[1] == '-' then Collapse(s[1..])
    else [s[0]] + Collapse(s[1..])
  }

  // ---- Slugs -----------------------------------------------------------------

  /** `sanitise_slug`, with the repeated replacement stated as collapsing runs. */
  function Slug(raw: string): Option<string> {
    var trimmed := Trim(raw);
    if trimmed == "" then None
    else
      var out := TrimDashes(Collapse(Mapped(trimmed)));
      if out == "" || out[0] == '.' then None else Some(out)
  }

  lemma {:induction false} ReplaceKeepsCollapse(s: string)
    ensures Collapse(ReplaceDoubleDash(s)) == Collapse(s)
    ensures s != "" ==> ReplaceDoubleDash(s) != "" && ReplaceDoubleDash(s)[0] == s[0]
    ensures |ReplaceDoubleDash(s)| <= |s|
    ensures HasDoubleDash(s) ==> |ReplaceDoubleDash(s)| < |s|
    decreases |s|
  {
    if |s| >= 2 {
      if s[0] == '-' && s[1] == '-' {
        ReplaceKeepsCollapse(s[2..]);
        var r := ReplaceDoubleDash(s[2..]);
        assert ("-" + r)[1..] == r;
        if |s| > 2 {
          assert s[1..][1..] == s[2..];
        }
      } else {
        ReplaceKeepsCollapse(s[1..]);
        var r := ReplaceDoubleDash(s[1..]);
        assert ([s[0]] + r)[1..] == r;
        if HasDoubleDash(s) {
          var i :| 0 <= i < |s| - 1 && s[i] == '-' && s[i + 1] == '-';
          assert s[1..][i - 1] == '-' && s[1..][i] == '-';
        }
      }
    }
  }

  lemma {:induction false} CollapseWithoutDoubles(s: string)
    requires !HasDoubleDash(s)
    ensures Collapse(s) == s
  {
    if |s| >= 2 {
      assert forall i :: 0 <= i < |s[1..]| ==> s[1..][i] == s[i + 1];
      CollapseWithoutDoubles(s[1..]);
    }
  }

  /** `sanitise_slug` */
  method SanitiseSlug(raw: string) returns (slug: Option<string>)
    ensures slug == Slug(raw)
  {
    var trimmed := Trim(raw);
    if trimmed == "" {
      return None;
    }
    var out := "";
    for i := 0 to |trimmed|
      invariant out == Mapped(trimmed[..i])
    {
      var c := trimmed[i];
      assert trimmed[..i + 1][..i] == trimmed[..i];
      if IsSlugChar(c) {
        out := out + [c];
      } else if IsWhitespace(c) {
        out := out + "-";
      }
    }
    assert trimmed[..|trimmed|] == trimmed;
    while HasDoubleDash(out)
      invariant Collapse(out) == Collapse(Mapped(trimmed))
      decreases |out|
    {
      ReplaceKeepsCollapse(out);
      out := ReplaceDoubleDash(out);
    }
    CollapseWithoutDoubles(out);
    out := TrimDashes(out);
    if out == "" || out[0] == '.' {
      return None;
    }
    return Some(out);
  }

  /** What a slug looks like. */
  predicate IsSlug(s: string) {
    && s != "" && s[0] != '.' && s[0] != '-' && s[|s| - 1] != '-'
    && !HasDoubleDash(s)
    && forall i :: 0 <= i < |s| ==> IsSlugChar(s[i])
  }

  lemma {:induction false} MappedIsAllowed(s: string)
    ensures forall i :: 0 <= i < |Mapped(s)| ==> IsSlugChar(Mapped(s)[i])
  {
    if s != "" {
      MappedIsAllowed(s[..|s| - 1]);
    }
  }

  lemma {:induction false} MappedKeepsAllowed(s: string)
    requires forall i :: 0 <= i < |s| ==> IsSlugChar(s[i])
    ensures Mapped(s) == s
  {
    if s != "" {
      MappedKeepsAllowed(s[..|s| - 1]);
      assert s == s[..|s| - 1] + [s[|s| - 1]];
    }
  }

  lemma {:induction false} CollapseIsTidy(s: string)
    ensures !HasDoubleDash(Collapse(s))
    ensures s != "" ==> Collapse(s) != "" && Collapse(s)[0] == s[0]
    ensures (forall i :: 0 <= i < |s| ==> IsSlugChar(s[i])) ==> forall i :: 0 <= i < |Collapse(s)| ==> IsSlugChar(Collapse(s)[i])
  {
    if |s| >= 2 {
      CollapseIsTidy(s[1..]);
      var c := Collapse(s[1..]);
      if !(s[0] == '-' && s[1] == '-') {
        assert forall i :: 0 <= i < |[s[0]] + c| - 1 ==>
          ([s[0]] + c)[i + 1] == c[i] && ([s[0]] + c)[i] == if i == 0 then s[0] else c[i - 1];
      }
    }
  }

  lemma {:induction false} TrimDashesTidy(s: string)
    requires !HasDoubleDash(s) && forall i :: 0 <= i < |s| ==> IsSlugChar(s[i])
    ensures var t := TrimDashes(s);
      && !HasDoubleDash(t) && (forall i :: 0 <= i < |t| ==> IsSlugChar(t[i]))
      && (t != "" ==> t[0] != '-' && t[|t| - 1] != '-')
    decreases |s|
  {
    if s != "" && s[0] == '-' {
      assert forall i :: 0 <= i < |s[1..]| ==> s[1..][i] == s[i + 1];
      TrimDashesTidy(s[1..]);
    } else if s != "" && s[|s| - 1] == '-' {
      TrimDashesTidy(s[..|s| - 1]);
    }
  }

  /** A string is accepted unchanged exactly when it has the form of a slug. */
  lemma FixedIffSlug(s: string)
    ensures Slug(s) == Some(s) <==> IsSlug(s)
  {
    if IsSlug(s) {
      assert !IsWhitespace(s[0]) && !IsWhitespace(s[|s| - 1]);
      MappedKeepsAllowed(s);
      CollapseWithoutDoubles(s);
    }
    if Slug(s) == Some(s) {
      SlugIsSlug(s);
    }
  }

  lemma SlugIsSlug(raw: string)
    requires Slug(raw).Some?
    ensures IsSlug(Slug(raw).value)
  {
    var m := Mapped(Trim(raw));
    MappedIsAllowed(Trim(raw));
    CollapseIsTidy(m);
    TrimDashesTidy(Collapse(m));
  }

  /** Sanitising is idempotent on every string it accepts. */
  lemma SanitiseIsIdempotent(raw: string)
    requires Slug(raw).Some?
    ensures Slug(Slug(raw).value) == Slug(raw)
  {
    SlugIsSlug(raw);
    FixedIffSlug(Slug(raw).value);
  }

  // ---- A slug is its words ----------------------------------------------------

  predicate IsDash(c: char) {
    c == '-'
  }

  /** What ends a word: a hyphen or whitespace. */
  predicate IsBreak(c: char) {
    IsDash(c) || IsWhitespace(c)
  }

  predicate IsWordChar(c: char) {
    var n := c as int;
    48 <= n <= 57 || 65 <= n <= 90 || 97 <= n <= 122 || c in {'_', '.'}
  }

  /** Every other character is passed over; it does not end a word. */
  function Readable(s: string): string {
    if s == "" then ""
    else
      var front, c := Readable(s[..|s| - 1]), s[|s| - 1];
      if IsWordChar(c) || IsBreak(c) then front + [c] else front
  }

  /** A name becomes its words, joined by hyphens; it is refused when there are none or they begin with a dot. */
  lemma SlugIsWords(raw: string)
    ensures var out := Join(Words(Readable(raw), IsBreak), '-');
      Slug(raw) == if out == "" || out[0] == '.' then None else Some(out)
  {
    var trimmed := Trim(raw);
    var mapped := Mapped(trimmed);
    TrimKeepsWords(raw);
    MappedReads(trimmed);
    WordsAlike(mapped, IsDash, Readable(trimmed), IsBreak);
    CollapseIsSqueeze(mapped);
    SqueezeIsWords(mapped, IsDash, '-');
    var words := Words(mapped, IsDash);
    hide Trim, Mapped, Readable, Collapse, Squeeze, Words;
    if words == [] {
      TrimDashEdges(mapped != "", "", false);
    } else {
      JoinedWordEnds(words);
      TrimDashEdges(IsDash(mapped[0]), Join(words, '-'), IsDash(mapped[|mapped| - 1]));
    }
    hide TrimDashes, Join;
    if trimmed == "" {
      EmptyReads();
    }
  }

  lemma EmptyReads()
    ensures Mapped("") == "" && Words("", IsDash) == []
  {
  }

  lemma {:induction false} MappedReads(s: string)
    ensures |Mapped(s)| == |Readable(s)|
    ensures forall i :: 0 <= i < |Mapped(s)| ==>
      var c, d := Mapped(s)[i], Readable(s)[i]; IsDash(c) == IsBreak(d) && (IsDash(c) || c == d)
  {
    if s != "" {
      MappedReads(s[..|s| - 1]);
      hide IsWhitespace;
    }
  }

  lemma {:induction false} CollapseIsSqueeze(s: string)
    ensures Collapse(s) == Squeeze(s, IsDash, '-')
  {
    if s != "" {
      CollapseIsSqueeze(s[1..]);
    }
  }

  lemma TrimDashEdges(left: bool, text: string, right: bool)
    requires text != "" ==> text[0] != '-' && text[|text| - 1] != '-'
    ensures TrimDashes(Edge(left, '-') + text + Edge(right, '-')) == text
  {
    var rest := text + Edge(right, '-');
    TrimDashRight(text, right);
    TrimDashFront(rest);
    hide TrimDashes;
    assert Edge(left, '-') + text + Edge(right, '-') == if left then "-" + rest else rest;
  }

  lemma TrimDashFront(rest: string)
    ensures TrimDashes("-" + rest) == TrimDashes(rest)
  {
    assert ("-" + rest)[1..] == rest;
  }

  lemma TrimDashRight(text: string, right: bool)
    requires text != "" ==> text[0] != '-' && text[|text| - 1] != '-'
    ensures TrimDashes(text + Edge(right, '-')) == text
  {
    var rest := text + Edge(right, '-');
    if !right {
      assert rest == text;
    } else if text == "" {
      assert rest == "-" && "-"[1..] == "";
    } else {
      assert rest[0] == text[0] && rest[..|rest| - 1] == text;
    }
  }

  lemma {:induction false} JoinedWordEnds(words: seq<string>)
    requires words != [] && forall i :: 0 <= i < |words| ==> words[i] != ""
    requires forall i, j :: 0 <= i < |words| && 0 <= j < |words[i]| ==> !IsDash(words[i][j])
    ensures var text := Join(words, '-'); text != "" && text[0] != '-' && text[|text| - 1] != '-'
  {
    if |words| > 1 {
      JoinedWordEnds(words[1..]);
    }
  }

  lemma {:induction false} ReadableFront(c: char, s: string)
    ensures Readable([c] + s) == (if IsWordChar(c) || IsBreak(c) then [c] else "") + Readable(s)
  {
    if s == "" {
      assert ([c] + s)[..0] == "";
    } else {
      ReadableFront(c, s[..|s| - 1]);
      assert ([c] + s)[..|s|] == [c] + s[..|s| - 1];
    }
  }

  lemma {:induction false} TrimKeepsWords(s: string)
    ensures Words(Readable(Trim(s)), IsBreak) == Words(Readable(s), IsBreak)
    decreases |s|
  {
    if s != "" && IsWhitespace(s[0]) {
      TrimKeepsWords(s[1..]);
      ReadableFront(s[0], s[1..]);
      assert [s[0]] + s[1..] == s;
      assert Readable(s)[1..] == Readable(s[1..]);
    } else if s != "" && IsWhitespace(s[|s| - 1]) {
      TrimKeepsWords(s[..|s| - 1]);
      WordsDropLast(Readable(s[..|s| - 1]), s[|s| - 1], IsBreak);
    }
  }

  // ---- Probing for a free slug -----------------------------------------------

  /** The candidates in the order they are tried: `d`, `d-2`, `d-3`, ... */
  function Candidate(desired: string, n: nat): string
    requires n >= 1
  {
    if n == 1 then desired else desired + "-" + Decimal(n)
  }

  lemma CandidateInjective(desired: string, m: nat, n: nat)
    requires m >= 1 && n >= 1 && Candidate(desired, m) == Candidate(desired, n)
    ensures m == n
  {
    if m > 1 && n > 1 {
      SamePieces(desired, Decimal(m), desired, Decimal(n), '-');
      DecimalInjective(m, n);
    }
  }

  /** Every candidate for a slug is itself a slug, so the second sanitise leaves it alone. */
  lemma CandidateIsSlug(desired: string, n: nat)
    requires IsSlug(desired) && n >= 1
    ensures IsSlug(Candidate(desired, n))
  {
    if n > 1 {
      var digits := Decimal(n);
      var s := desired + "-" + digits;
      forall i | 0 <= i < |digits| ensures IsSlugChar(digits[i]) && digits[i] != '-' {
        assert IsDigit(digits[i]);
      }
      forall i | 0 <= i < |s| - 1 ensures !(s[i] == '-' && s[i + 1] == '-') {
        if i < |desired| - 1 {
          assert s[i] == desired[i] && s[i + 1] == desired[i + 1];
        } else if i == |desired| - 1 {
          assert s[i] == desired[|desired| - 1];
        } else {
          assert s[i + 1] == digits[i - |desired|];
        }
      }
    }
  }

  /** `next_available_slug`: the first free candidate, within one more try than there are taken slugs. */
  method NextAvailableSlug(taken: set<string>, desired: string) returns (slug: string, tries: nat)
    ensures 1 <= tries <= |taken| + 1
    ensures slug == Candidate(desired, tries) && slug !in taken
    ensures forall m :: 1 <= m < tries ==> Candidate(desired, m) in taken
  {
    hide Decimal;
    slug, tries := desired, 1;
    ghost var tried: set<string> := {};
    while slug in taken
      invariant tries >= 1 && slug == Candidate(desired, tries)
      invariant forall s :: s in tried <==> exists m :: 1 <= m < tries && s == Candidate(desired, m)
      invariant tried <= taken && |tried| == tries - 1
      decreases taken - tried
    {
      forall m | 1 <= m < tries ensures Candidate(desired, m) != slug {
        if Candidate(desired, m) == slug { CandidateInjective(desired, m, tries); }
      }
      tried := tried + {slug};
      tries := tries + 1;
      slug := desired + "-" + Decimal(tries);
    }
    SubsetSize(tried, taken);
  }

  // ---- Entries ---------------------------------------------------------------

  datatype Kind = References | Prompts

  datatype EntryKey = EntryKey(kind: Kind, slug: string)

  datatype Entry = Entry(name: string, body: string, createdAt: int, updatedAt: int)

  datatype LibraryError = BadName | InvalidSlug

  function TakenSlugs(entries: map<EntryKey, Entry>, kind: Kind): set<string> {
    set k | k in entries && k.kind == kind :: k.slug
  }

  function Saved(entries: map<EntryKey, Entry>, key: EntryKey, name: string, body: string, now: int): map<EntryKey, Entry> {
    entries[key := Entry(Trim(name), body, if key in entries then entries[key].createdAt else now, now)]
  }

  class LibraryTable {
    var entries: map<EntryKey, Entry>

    constructor ()
      ensures entries == map[]
    {
      entries := map[];
    }

    /** `save`: insert, or overwrite the entry of that slug. */
    method Save(kind: Kind, rawSlug: string, name: string, body: string, now: int) returns (r: Result<string, LibraryError>)
      modifies this
      ensures Slug(rawSlug).None? ==> r == Err(InvalidSlug) && entries == old(entries)
      ensures Slug(rawSlug).Some? ==>
        && r == Ok(Slug(rawSlug).value)
        && entries == Saved(old(entries), EntryKey(kind, Slug(rawSlug).value), name, body, now)
    {
      var slug := SanitiseSlug(rawSlug);
      if slug.None? {
        return Err(InvalidSlug);
      }
      var key := EntryKey(kind, slug.value);
      if key in entries {
        entries := entries[key := entries[key].(name := Trim(name), body := body, updatedAt := now)];
      } else {
        entries := entries[key := Entry(Trim(name), body, now, now)];
      }
      return Ok(slug.value);
    }

    method Delete(kind: Kind, rawSlug: string) returns (removed: bool)
      modifies this
      ensures removed == (Slug(rawSlug).Some? && EntryKey(kind, Slug(rawSlug).value) in old(entries))
      ensures entries == if removed then old(entries) - {EntryKey(kind, Slug(rawSlug).value)} else old(entries)
    {
      var slug := SanitiseSlug(rawSlug);
      if slug.None? {
        return false;
      }
      removed := EntryKey(kind, slug.value) in entries;
      entries := entries - {EntryKey(kind, slug.value)};
    }

    /** `put_library_root`: the new entry takes the first free slug derived from the name, nothing is overwritten,
        and the slug returned is the one probed. */
    method PutLibraryRoot(kind: Kind, name: string, body: string, now: int) returns (r: Result<string, LibraryError>)
      modifies this
      ensures Slug(name).None? ==> r == Err(BadName) && entries == old(entries)
      ensures Slug(name).Some? ==>
        && r.Ok?
        && EntryKey(kind, r.value) !in old(entries)
        && entries == old(entries)[EntryKey(kind, r.value) := Entry(Trim(name), body, now, now)]
        && IsFirstFree(old(entries), kind, Slug(name).value, r.value)
    {
      var desired := SanitiseSlug(name);
      if desired.None? {
        return Err(BadName);
      }
      var slug, tries := NextAvailableSlug(TakenSlugs(entries, kind), desired.value);
      SlugIsSlug(name);
      CandidateIsSlug(desired.value, tries);
      FixedIffSlug(slug);
      hide Slug, Candidate;
      r := Save(kind, slug, name, body, now);
      FirstFreeHere(old(entries), kind, desired.value, slug, tries);
    }
  }

  /** `slug` is the earliest candidate no entry of the kind has, at most one try past their number. */
  ghost predicate IsFirstFree(entries: map<EntryKey, Entry>, kind: Kind, desired: string, slug: string) {
    exists n: nat | 1 <= n <= |TakenSlugs(entries, kind)| + 1 :: FirstFreeAt(entries, kind, desired, slug, n)
  }

  ghost predicate FirstFreeAt(entries: map<EntryKey, Entry>, kind: Kind, desired: string, slug: string, n: nat)
    requires n >= 1
  {
    && slug == Candidate(desired, n) && slug !in TakenSlugs(entries, kind)
    && forall m :: 1 <= m < n ==> Candidate(desired, m) in TakenSlugs(entries, kind)
  }

  lemma FirstFreeHere(entries: map<EntryKey, Entry>, kind: Kind, desired: string, slug: string, n: nat)
    requires 1 <= n <= |TakenSlugs(entries, kind)| + 1
    requires FirstFreeAt(entries, kind, desired, slug, n)
    ensures IsFirstFree(entries, kind, desired, slug)
    ensures EntryKey(kind, slug) !in entries
  {
    forall k | k in entries && k.kind == kind ensures k.slug in TakenSlugs(entries, kind) {
    }
  }

  /** The slug taken is the desired one when that is free, and otherwise the one with the least number from 2 on that is. */
  lemma FirstFreeIs(entries: map<EntryKey, Entry>, kind: Kind, desired: string, slug: string)
    requires IsFirstFree(entries, kind, desired, slug)
    ensures slug == desired <==> EntryKey(kind, desired) !in entries
    ensures slug != desired ==>
      exists n: nat :: n >= 2 && slug == desired + "-" + Decimal(n)
        && forall m: nat :: 2 <= m < n ==> EntryKey(kind, desired + "-" + Decimal(m)) in entries
  {
    var n: nat :| 1 <= n <= |TakenSlugs(entries, kind)| + 1 && FirstFreeAt(entries, kind, desired, slug, n);
    FirstFreeHere(entries, kind, desired, slug, n);
    hide Decimal;
    assert n >= 2 ==> Candidate(desired, 1) in TakenSlugs(entries, kind);
    forall m: nat | 2 <= m < n ensures EntryKey(kind, desired + "-" + Decimal(m)) in entries {
      assert Candidate(desired, m) in TakenSlugs(entries, kind);
    }
  }

  /** Saving twice under a slug keeps when the entry was created and shows the later name and body; no other entry changes. */
  lemma SavedTwice(entries: map<EntryKey, Entry>, key: EntryKey, name: string, body: string, first: int,
                   name2: string, body2: string, second: int)
    requires key !in entries
    ensures var after := Saved(Saved(entries, key, name, body, first), key, name2, body2, second);
      && key in after && after[key] == Entry(Trim(name2), body2, first, second)
      && forall other :: other != key ==> (other in after <==> other in entries) && (other in entries ==> after[other] == entries[other])
  {
    hide Trim;
  }
}
