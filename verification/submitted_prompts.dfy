/**
 * Prompts typed into the timeline and the turns they become
 * (backend/src/submitted_prompts.rs).
 *
 * The table `submitted_prompts` is a map from row id to row. The tables the
 * matcher only reads, `claude_sessions` and `timeline_turns`, form a `Timeline`.
 * Times are milliseconds. Each SQL statement is one atomic step; a `DISTINCT ON`
 * keeps an arbitrary row among those that sort first, so its outcome is a
 * parameter constrained by a predicate.
 */
module SubmittedPrompts {
  import opened Text
  import opened Wrappers
  import opened Counting

  type PromptId = nat
  type PtyId = nat
  type SessionId = nat

  datatype TurnKey = TurnKey(session: SessionId, turnId: int)

  datatype Turn = Turn(userText: Option<string>, start: int)

  datatype Prompt = Prompt(
    pty: PtyId,
    text: string,
    submittedAt: int,
    deliveryError: Option<string>,
    matchedTurn: Option<TurnKey>,
    matchedAt: Option<int>,
    dismissedAt: Option<int>)

  type Prompts = map<PromptId, Prompt>

  datatype Timeline = Timeline(ptyOf: map<SessionId, Option<PtyId>>, turns: map<TurnKey, Turn>)

  const SKEW := 10_000
  const RETENTION := 7 * 24 * 3600 * 1000

  // ---- Normalized text -------------------------------------------------------

  predicate IsSpace(c: char) {
    c == ' ' || '\t' <= c <= '\r'
  }

  /** `regexp_replace(text, '[[:space:]]+', ' ', 'g')` */
  function CollapseSpace(s: string): string {
    if s == "" then ""
    else if IsSpace(s[0]) then
      if |s| > 1 && IsSpace(s[1]) then CollapseSpace(s[1..]) else " " + CollapseSpace(s[1..])
    else [s[0]] + CollapseSpace(s[1..])
  }

  /** `btrim(text)` */
  function TrimBlanks(s: string): string {
    if s != "" && s[0] == ' ' then TrimBlanks(s[1..])
    else if s != "" && s[|s| - 1] == ' ' then TrimBlanks(s[..|s| - 1])
    else s
  }

  function Normalized(s: string): string {
    TrimBlanks(CollapseSpace(s))
  }

  /** The blanks of `[[:space:]]`: tab, line feed, vertical tab, form feed, carriage return, space. */
  predicate IsBlank(c: char) {
    c as int in {9, 10, 11, 12, 13, 32}
  }

  lemma {:induction false} CollapseIsSqueeze(s: string)
    ensures CollapseSpace(s) == Squeeze(s, IsBlank, ' ')
  {
    if s != "" {
      CollapseIsSqueeze(s[1..]);
    }
  }

  lemma TrimEdges(left: bool, text: string, right: bool)
    requires text != "" ==> text[0] != ' ' && text[|text| - 1] != ' '
    ensures TrimBlanks(Edge(left, ' ') + text + Edge(right, ' ')) == text
  {
    var rest := text + Edge(right, ' ');
    TrimRight(text, right);
    TrimFront(rest);
    hide TrimBlanks;
    assert Edge(left, ' ') + text + Edge(right, ' ') == if left then " " + rest else rest;
  }

  lemma TrimFront(rest: string)
    ensures TrimBlanks(" " + rest) == TrimBlanks(rest)
  {
    assert (" " + rest)[1..] == rest;
  }

  lemma TrimRight(text: string, right: bool)
    requires text != "" ==> text[0] != ' ' && text[|text| - 1] != ' '
    ensures TrimBlanks(text + Edge(right, ' ')) == text
  {
    var rest := text + Edge(right, ' ');
    if !right {
      assert rest == text;
    } else if text == "" {
      assert rest == " " && " "[1..] == "";
    } else {
      assert rest[0] == text[0] && rest[..|rest| - 1] == text;
    }
  }

  /** The normalized text is the words with one blank in between. */
  lemma NormalizedIsWords(s: string)
    ensures Normalized(s) == Join(Words(s, IsBlank), ' ')
  {
    CollapseIsSqueeze(s);
    SqueezeIsWords(s, IsBlank, ' ');
    var words := Words(s, IsBlank);
    if words == [] {
      TrimEdges(s != "", "", false);
    } else {
      JoinedEnds(words);
      TrimEdges(IsBlank(s[0]), Join(words, ' '), IsBlank(s[|s| - 1]));
    }
  }

  lemma {:induction false} JoinedEnds(words: seq<string>)
    requires words != [] && forall i :: 0 <= i < |words| ==> words[i] != ""
    requires forall i, j :: 0 <= i < |words| && 0 <= j < |words[i]| ==> !IsBlank(words[i][j])
    ensures var text := Join(words, ' '); text != "" && text[0] != ' ' && text[|text| - 1] != ' '
  {
    if |words| > 1 {
      JoinedEnds(words[1..]);
    }
  }

  /** Two texts match if and only if they have the same words in the same order. */
  lemma SameNormalizedIffSameWords(a: string, b: string)
    ensures Normalized(a) == Normalized(b) <==> Words(a, IsBlank) == Words(b, IsBlank)
  {
    NormalizedIsWords(a);
    NormalizedIsWords(b);
    JoinedWordsInjective(Words(a, IsBlank), Words(b, IsBlank), ' ');
  }

  // ---- One reconcile pass ----------------------------------------------------

  predicate IsOpen(p: Prompt) {
    p.matchedAt.None? && p.dismissedAt.None?
  }

  function OpenIds(rows: Prompts): set<PromptId> {
    set id | id in rows && IsOpen(rows[id])
  }

  predicate Qualifies(tl: Timeline, p: Prompt, k: TurnKey) {
    && k in tl.turns
    && k.session in tl.ptyOf
    && tl.ptyOf[k.session] == Some(p.pty)
    && tl.turns[k].userText.Some?
    && tl.turns[k].start >= p.submittedAt - SKEW
    && Normalized(tl.turns[k].userText.value) == Normalized(p.text)
  }

  predicate Claimed(rows: Prompts, k: TurnKey) {
    exists id :: id in rows && rows[id].matchedTurn == Some(k)
  }

  /** The turns a prompt could still become. */
  function Candidates(tl: Timeline, rows: Prompts, p: Prompt): set<TurnKey> {
    set k | k in tl.turns && Qualifies(tl, p, k) && !Claimed(rows, k)
  }

  /** `per_prompt`: each open prompt with a candidate keeps one of its earliest. */
  ghost predicate PerPrompt(tl: Timeline, rows: Prompts, pick: map<PromptId, TurnKey>) {
    && (forall id :: id in pick <==> id in rows && IsOpen(rows[id]) && Candidates(tl, rows, rows[id]) != {})
    && (forall id :: id in pick ==> pick[id] in Candidates(tl, rows, rows[id]))
    && (forall id, k :: id in pick && k in Candidates(tl, rows, rows[id])
                        ==> tl.turns[pick[id]].start <= tl.turns[k].start)
  }

  /** `per_turn`: each picked turn keeps one of its earliest-submitted prompts. */
  ghost predicate PerTurn(rows: Prompts, pick: map<PromptId, TurnKey>, win: map<TurnKey, PromptId>) {
    && pick.Keys <= rows.Keys
    && (forall k :: k in win <==> k in pick.Values)
    && (forall k :: k in win ==> win[k] in pick && pick[win[k]] == k)
    && (forall id :: id in pick ==> rows[win[pick[id]]].submittedAt <= rows[id].submittedAt)
  }

  predicate Wins(pick: map<PromptId, TurnKey>, win: map<TurnKey, PromptId>, id: PromptId) {
    id in pick && pick[id] in win && win[pick[id]] == id
  }

  function Match(p: Prompt, k: TurnKey, now: int): Prompt {
    p.(matchedTurn := Some(k), matchedAt := Some(now))
  }

  /** The `UPDATE ... FROM per_turn`. */
  ghost predicate Updated(rows: Prompts, pick: map<PromptId, TurnKey>, win: map<TurnKey, PromptId>, now: int, after: Prompts) {
    && after.Keys == rows.Keys
    && forall id :: id in rows ==> after[id] == if Wins(pick, win, id) then Match(rows[id], pick[id], now) else rows[id]
  }

  function Applied(rows: Prompts, pick: map<PromptId, TurnKey>, win: map<TurnKey, PromptId>, now: int): (after: Prompts)
    ensures Updated(rows, pick, win, now, after)
  {
    map id | id in rows :: if Wins(pick, win, id) then Match(rows[id], pick[id], now) else rows[id]
  }

  /** One pass of `reconcile`, whatever the tie-breaks. */
  ghost predicate Pass(tl: Timeline, rows: Prompts, now: int, after: Prompts) {
    exists pick, win ::
      PerPrompt(tl, rows, pick) && PerTurn(rows, pick, win) && Updated(rows, pick, win, now, after)
  }

  /** No open prompt has a candidate left. */
  ghost predicate Stable(tl: Timeline, rows: Prompts) {
    forall id :: id in rows && IsOpen(rows[id]) ==> Candidates(tl, rows, rows[id]) == {}
  }

  /** The two match columns are set together, and no turn is held by two rows. */
  ghost predicate Consistent(rows: Prompts) {
    && (forall id :: id in rows ==> (rows[id].matchedTurn.Some? <==> rows[id].matchedAt.Some?))
    && (forall id, other | id in rows && other in rows && rows[id].matchedTurn.Some? ::
          rows[id].matchedTurn == rows[other].matchedTurn ==> id == other)
  }

  // ---- What one pass does ----------------------------------------------------

  /** What every pass keeps and what it may change, in terms of the rows alone. */
  lemma PassEffect(tl: Timeline, rows: Prompts, now: int, after: Prompts)
    requires Pass(tl, rows, now, after)
    ensures after.Keys == rows.Keys
    ensures forall id :: id in rows && after[id] != rows[id] ==>
      && IsOpen(rows[id])
      && after[id].matchedTurn.Some?
      && after[id] == rows[id].(matchedTurn := after[id].matchedTurn, matchedAt := Some(now))
      && after[id].matchedTurn.value in Candidates(tl, rows, rows[id])
    ensures forall id, k :: id in rows && after[id] != rows[id] && k in Candidates(tl, rows, rows[id])
              ==> tl.turns[after[id].matchedTurn.value].start <= tl.turns[k].start
    ensures forall id, other | id in rows && other in rows && after[id] != rows[id] && after[other] != rows[other] ::
              after[id].matchedTurn == after[other].matchedTurn ==> id == other
  {
    var pick, win :| PerPrompt(tl, rows, pick) && PerTurn(rows, pick, win) && Updated(rows, pick, win, now, after);
    hide Candidates, PerTurn;
    forall id | id in rows && after[id] != rows[id]
      ensures id in pick && win[pick[id]] == id && after[id] == Match(rows[id], pick[id], now)
    {
      assert Wins(pick, win, id);
    }
  }

  /** A turn qualifies for a prompt exactly when it belongs to a session of the prompt's PTY, has a user text with the
      same words, and started at most ten seconds before the prompt was sent. */
  lemma QualifiesIff(tl: Timeline, p: Prompt, k: TurnKey)
    ensures Qualifies(tl, p, k) <==>
      && k in tl.turns && k.session in tl.ptyOf && tl.ptyOf[k.session] == Some(p.pty) && tl.turns[k].userText.Some?
      && p.submittedAt <= tl.turns[k].start + 10_000
      && Words(tl.turns[k].userText.value, IsBlank) == Words(p.text, IsBlank)
  {
    hide Normalized;
    if k in tl.turns && tl.turns[k].userText.Some? {
      SameNormalizedIffSameWords(tl.turns[k].userText.value, p.text);
    }
  }

  /** An open prompt that goes without a turn although it has a candidate lost one of its earliest candidates to a prompt
      that was not submitted after it. */
  lemma LosersLostToEarlier(tl: Timeline, rows: Prompts, now: int, after: Prompts, id: PromptId) returns (other: PromptId)
    requires Pass(tl, rows, now, after)
    requires id in rows && IsOpen(rows[id]) && Candidates(tl, rows, rows[id]) != {} && after[id] == rows[id]
    ensures other in rows && after[other] != rows[other] && after[other].matchedTurn.Some?
    ensures var k := after[other].matchedTurn.value;
      && k in Candidates(tl, rows, rows[id])
      && (forall l :: l in Candidates(tl, rows, rows[id]) ==> tl.turns[k].start <= tl.turns[l].start)
      && rows[other].submittedAt <= rows[id].submittedAt
  {
    var pick, win :| PerPrompt(tl, rows, pick) && PerTurn(rows, pick, win) && Updated(rows, pick, win, now, after);
    hide Pass, Candidates;
    PickIsEarliest(tl, rows, pick, id);
    hide PerPrompt;
    other := WinnerOf(rows, pick, win, id);
    hide PerTurn;
  }

  lemma PickIsEarliest(tl: Timeline, rows: Prompts, pick: map<PromptId, TurnKey>, id: PromptId)
    requires PerPrompt(tl, rows, pick) && id in rows && IsOpen(rows[id]) && Candidates(tl, rows, rows[id]) != {}
    ensures id in pick && pick[id] in Candidates(tl, rows, rows[id])
    ensures forall l :: l in Candidates(tl, rows, rows[id]) ==> tl.turns[pick[id]].start <= tl.turns[l].start
    ensures forall other :: other in pick ==> other in rows && IsOpen(rows[other])
  {
    hide Candidates;
  }

  lemma WinnerOf(rows: Prompts, pick: map<PromptId, TurnKey>, win: map<TurnKey, PromptId>, id: PromptId) returns (other: PromptId)
    requires PerTurn(rows, pick, win) && id in pick
    ensures Wins(pick, win, other) && pick[other] == pick[id] && other in rows
    ensures rows[other].submittedAt <= rows[id].submittedAt
  {
    assert pick[id] in pick.Values;
    other := win[pick[id]];
  }

  lemma ClaimsGrow(tl: Timeline, rows: Prompts, now: int, after: Prompts, k: TurnKey)
    requires Consistent(rows) && Pass(tl, rows, now, after) && Claimed(rows, k)
    ensures Claimed(after, k)
  {
    PassEffect(tl, rows, now, after);
    var id :| id in rows && rows[id].matchedTurn == Some(k);
    assert after[id].matchedTurn == Some(k);
  }

  /** An open prompt with a candidate makes some prompt win: the one its pick's turn keeps. */
  lemma PickHasWinner(tl: Timeline, rows: Prompts, pick: map<PromptId, TurnKey>, win: map<TurnKey, PromptId>, id: PromptId) returns (winner: PromptId)
    requires PerPrompt(tl, rows, pick) && PerTurn(rows, pick, win)
    requires id in rows && IsOpen(rows[id]) && Candidates(tl, rows, rows[id]) != {}
    ensures winner in rows && IsOpen(rows[winner]) && Wins(pick, win, winner)
  {
    assert pick[id] in pick.Values;
    winner := win[pick[id]];
  }

  /** A pass changes nothing exactly when no open prompt has an unclaimed qualifying turn. */
  lemma PassIdleIffStable(tl: Timeline, rows: Prompts, now: int, after: Prompts)
    requires Pass(tl, rows, now, after)
    ensures after == rows <==> Stable(tl, rows)
    ensures OpenIds(after) <= OpenIds(rows)
    ensures after != rows ==> OpenIds(after) < OpenIds(rows)
  {
    PassEffect(tl, rows, now, after);
    if id :| id in rows && IsOpen(rows[id]) && Candidates(tl, rows, rows[id]) != {} {
      var pick, win :| PerPrompt(tl, rows, pick) && PerTurn(rows, pick, win) && Updated(rows, pick, win, now, after);
      hide Candidates, PerPrompt, PerTurn;
      var winner := PickHasWinner(tl, rows, pick, win, id);
      assert after[winner].matchedAt.Some?;
      assert winner in OpenIds(rows) && winner !in OpenIds(after);
    } else {
      hide Pass;
      assert forall id :: id in rows ==> after[id] == rows[id];
      assert after == rows;
    }
  }

  lemma {:induction false} EarliestExists(tl: Timeline, ks: set<TurnKey>) returns (k: TurnKey)
    requires ks != {} && ks <= tl.turns.Keys
    ensures k in ks
    ensures forall l :: l in ks ==> tl.turns[k].start <= tl.turns[l].start
  {
    k :| k in ks;
    if ks != {k} {
      var rest := EarliestExists(tl, ks - {k});
      if tl.turns[rest].start < tl.turns[k].start {
        k := rest;
      }
    }
  }

  lemma {:induction false} EarliestPromptExists(rows: Prompts, ids: set<PromptId>) returns (id: PromptId)
    requires ids != {} && ids <= rows.Keys
    ensures id in ids
    ensures forall other :: other in ids ==> rows[id].submittedAt <= rows[other].submittedAt
  {
    id :| id in ids;
    if ids != {id} {
      var rest := EarliestPromptExists(rows, ids - {id});
      if rows[rest].submittedAt < rows[id].submittedAt {
        id := rest;
      }
    }
  }

  ghost predicate IsEarliest(tl: Timeline, ks: set<TurnKey>, k: TurnKey) {
    k in ks && ks <= tl.turns.Keys && forall l :: l in ks ==> tl.turns[k].start <= tl.turns[l].start
  }

  ghost predicate IsWinner(rows: Prompts, pick: map<PromptId, TurnKey>, k: TurnKey, id: PromptId) {
    && id in pick && id in rows && pick[id] == k
    && forall other :: other in pick && other in rows && pick[other] == k ==> rows[id].submittedAt <= rows[other].submittedAt
  }

  lemma PerPromptExists(tl: Timeline, rows: Prompts) returns (pick: map<PromptId, TurnKey>)
    ensures PerPrompt(tl, rows, pick)
  {
    forall id | id in rows && Candidates(tl, rows, rows[id]) != {}
      ensures exists k :: IsEarliest(tl, Candidates(tl, rows, rows[id]), k)
    {
      var k := EarliestExists(tl, Candidates(tl, rows, rows[id]));
      assert IsEarliest(tl, Candidates(tl, rows, rows[id]), k);
    }
    pick := map id | id in rows && IsOpen(rows[id]) && Candidates(tl, rows, rows[id]) != {} ::
      var k :| IsEarliest(tl, Candidates(tl, rows, rows[id]), k); k;
  }

  lemma PerTurnExists(rows: Prompts, pick: map<PromptId, TurnKey>) returns (win: map<TurnKey, PromptId>)
    requires pick.Keys <= rows.Keys
    ensures PerTurn(rows, pick, win)
  {
    forall k | k in pick.Values
      ensures exists id :: IsWinner(rows, pick, k, id)
    {
      var ids := set id | id in pick && pick[id] == k;
      var some :| some in pick && pick[some] == k;
      assert some in ids;
      var id := EarliestPromptExists(rows, ids);
      assert IsWinner(rows, pick, k, id);
    }
    win := map k | k in pick.Values :: var id :| IsWinner(rows, pick, k, id); id;
    forall id | id in pick ensures IsWinner(rows, pick, pick[id], win[pick[id]]) {
      assert pick[id] in pick.Values;
    }
  }

  /** Every table state has a pass: the two `DISTINCT ON` steps always have an outcome. */
  lemma PassExists(tl: Timeline, rows: Prompts, now: int)
    ensures exists after :: Pass(tl, rows, now, after)
  {
    var pick := PerPromptExists(tl, rows);
    var win := PerTurnExists(rows, pick);
    hide PerPrompt, PerTurn, Applied, Updated;
    assert Pass(tl, rows, now, Applied(rows, pick, win, now));
  }

  // ---- Repeating the pass over a fixed timeline ------------------------------

  /** `run[0], run[1], ...` is a sequence of states, each one pass after the one before. */
  ghost predicate PassRun(tl: Timeline, run: seq<Prompts>) {
    && run != []
    && (|run| > 1 ==>
          && PassRun(tl, run[..|run| - 1])
          && PassAtSomeTime(tl, run[|run| - 2], run[|run| - 1]))
  }

  ghost predicate PassAtSomeTime(tl: Timeline, rows: Prompts, after: Prompts) {
    exists now :: Pass(tl, rows, now, after)
  }

  /** What a run of passes keeps true between its first and its last state. */
  ghost predicate Progress(tl: Timeline, first: Prompts, last: Prompts) {
    && Consistent(last)
    && last.Keys == first.Keys
    && (forall k :: Claimed(first, k) ==> Claimed(last, k))
    && (forall id :: id in last && last[id] != first[id] ==> NewlyMatched(tl, first, last, id))
  }

  /** A match made by the run: to a turn that was a candidate at the start, skipping no turn
      that is earlier, qualifies, and is still free. */
  ghost predicate NewlyMatched(tl: Timeline, first: Prompts, last: Prompts, id: PromptId) {
    && id in first && id in last
    && IsOpen(first[id])
    && last[id].matchedTurn.Some?
    && last[id].matchedAt.Some?
    && last[id] == Match(first[id], last[id].matchedTurn.value, last[id].matchedAt.value)
    && last[id].matchedTurn.value in Candidates(tl, first, first[id])
    && forall k :: k in Candidates(tl, last, first[id]) ==>
         tl.turns[last[id].matchedTurn.value].start <= tl.turns[k].start
  }

  lemma ProgressStep(tl: Timeline, first: Prompts, mid: Prompts, now: int, last: Prompts)
    requires Progress(tl, first, mid) && Pass(tl, mid, now, last)
    ensures Progress(tl, first, last)
  {
    PassEffect(tl, mid, now, last);
    PassKeepsConsistent(tl, mid, now, last);
    forall k | Claimed(mid, k) ensures Claimed(last, k) {
      ClaimsGrow(tl, mid, now, last, k);
    }
    forall id | id in last && last[id] != first[id]
      ensures NewlyMatched(tl, first, last, id)
    {
      if mid[id] != first[id] {
        assert NewlyMatched(tl, first, mid, id);
        assert !IsOpen(mid[id]) && last[id] == mid[id];
        assert Candidates(tl, last, first[id]) <= Candidates(tl, mid, first[id]);
      } else {
        assert Candidates(tl, mid, first[id]) <= Candidates(tl, first, first[id]);
        assert Candidates(tl, last, first[id]) <= Candidates(tl, mid, first[id]);
      }
    }
  }

  lemma ProgressStart(tl: Timeline, rows: Prompts)
    requires Consistent(rows)
    ensures Progress(tl, rows, rows)
  {
  }

  lemma PassKeepsConsistent(tl: Timeline, rows: Prompts, now: int, after: Prompts)
    requires Consistent(rows) && Pass(tl, rows, now, after)
    ensures Consistent(after)
  {
    PassEffect(tl, rows, now, after);
    hide Pass, Qualifies;
    forall id | id in rows && after[id] != rows[id] ensures !Claimed(rows, after[id].matchedTurn.value) {
      assert after[id].matchedTurn.value in Candidates(tl, rows, rows[id]);
    }
    hide Candidates;
    forall id, other | id in rows && other in rows && after[id] != rows[id] && after[other] == rows[other]
      ensures after[id].matchedTurn != after[other].matchedTurn
    {
      assert rows[other].matchedTurn != Some(after[id].matchedTurn.value);
    }
    hide Claimed;
  }

  lemma {:induction false} RunProgress(tl: Timeline, run: seq<Prompts>)
    requires PassRun(tl, run) && Consistent(run[0])
    ensures Progress(tl, run[0], run[|run| - 1])
  {
    hide Progress, Pass, Candidates;
    if |run| == 1 {
      ProgressStart(tl, run[0]);
    } else {
      RunProgress(tl, run[..|run| - 1]);
      var last := run[|run| - 1];
      var now :| Pass(tl, run[|run| - 2], now, last);
      ProgressStep(tl, run[0], run[|run| - 2], now, last);
    }
  }

  lemma SettledIsStable(tl: Timeline, rows: Prompts)
    ensures OpenIds(rows) == {} ==> Stable(tl, rows)
  {
    forall id | id in rows && IsOpen(rows[id]) ensures id in OpenIds(rows) {
    }
  }

  /** Passes over a fixed timeline go idle within the number of open prompts. */
  lemma {:induction false} RunStabilises(tl: Timeline, run: seq<Prompts>)
    requires PassRun(tl, run)
    ensures Stable(tl, run[|run| - 1]) || |OpenIds(run[|run| - 1])| + |run| <= |OpenIds(run[0])| + 1
    ensures |run| > |OpenIds(run[0])| ==> Stable(tl, run[|run| - 1])
  {
    hide Pass, Candidates, OpenIds;
    var last := run[|run| - 1];
    if |run| > 1 {
      RunStabilises(tl, run[..|run| - 1]);
      var mid := run[|run| - 2];
      var now :| Pass(tl, mid, now, last);
      PassIdleIffStable(tl, mid, now, last);
      if last != mid {
        SubsetSize(OpenIds(last), OpenIds(mid));
      }
    }
    SettledIsStable(tl, last);
  }

  // ---- The matching a run produces is maximum --------------------------------

  /** A matching of the prompts open in `rows` to distinct turns that qualify and are free. */
  ghost predicate IsMatching(tl: Timeline, rows: Prompts, m: map<PromptId, TurnKey>) {
    && (forall id :: id in m ==> id in rows && IsOpen(rows[id]) && m[id] in Candidates(tl, rows, rows[id]))
    && (forall id, other :: id in m && other in m && m[id] == m[other] ==> id == other)
  }

  /** The matches the run from `first` to `last` made. */
  function MatchesMade(first: Prompts, last: Prompts): map<PromptId, TurnKey> {
    map id | id in first && id in last && IsOpen(first[id]) && last[id].matchedTurn.Some? :: last[id].matchedTurn.value
  }

  /** A prompt with no candidate left. In the end every unmatched prompt is stuck. */
  predicate Stuck(tl: Timeline, last: Prompts, p: Prompt) {
    Candidates(tl, last, p) == {}
  }

  /** The prompt that took `k`, when some stuck prompt wanted `k`, is stuck itself: it skipped nothing
      still free, and whatever it qualifies for from `k` on the stuck prompt qualifies for too. */
  lemma TakerIsStuck(tl: Timeline, first: Prompts, last: Prompts, p: PromptId, k: TurnKey) returns (taker: PromptId)
    requires Consistent(first) && Progress(tl, first, last)
    requires p in first && IsOpen(first[p]) && k in Candidates(tl, first, first[p]) && Stuck(tl, last, first[p])
    ensures taker in MatchesMade(first, last) && MatchesMade(first, last)[taker] == k
    ensures Stuck(tl, last, first[taker])
  {
    assert k !in Candidates(tl, last, first[p]);
    taker :| taker in last && last[taker].matchedTurn == Some(k);
    assert !Claimed(first, k) && first[taker].matchedTurn != Some(k);
    assert NewlyMatched(tl, first, last, taker);
    forall u | u in tl.turns && Qualifies(tl, first[taker], u)
      ensures Claimed(last, u)
    {
      if tl.turns[k].start <= tl.turns[u].start {
        assert Qualifies(tl, first[p], u);
        assert u !in Candidates(tl, last, first[p]);
      } else {
        assert u !in Candidates(tl, last, first[taker]);
      }
    }
  }

  /** Where a competing matching `m` sends each of its prompts among the prompts this run matched. */
  ghost predicate Standin(tl: Timeline, first: Prompts, last: Prompts, m: map<PromptId, TurnKey>, p: PromptId, q: PromptId) {
    && p in m && p in first && q in first && q in MatchesMade(first, last)
    && if Stuck(tl, last, first[p]) then Stuck(tl, last, first[q]) && MatchesMade(first, last)[q] == m[p] else q == p
  }

  lemma StandinExists(tl: Timeline, first: Prompts, last: Prompts, m: map<PromptId, TurnKey>, p: PromptId) returns (q: PromptId)
    requires Consistent(first) && Progress(tl, first, last) && Stable(tl, last)
    requires IsMatching(tl, first, m) && p in m
    ensures Standin(tl, first, last, m, p, q)
  {
    if Stuck(tl, last, first[p]) {
      q := TakerIsStuck(tl, first, last, p, m[p]);
    } else {
      q := p;
      assert last[p] != first[p];
      assert NewlyMatched(tl, first, last, p);
    }
  }

  /** Greedy passes repeated until idle match as many prompts as any matching could. */
  lemma GreedyIsMaximum(tl: Timeline, run: seq<Prompts>, m: map<PromptId, TurnKey>)
    requires PassRun(tl, run) && Consistent(run[0]) && Stable(tl, run[|run| - 1])
    ensures IsMatching(tl, run[0], MatchesMade(run[0], run[|run| - 1]))
    ensures IsMatching(tl, run[0], m) ==> |m| <= |MatchesMade(run[0], run[|run| - 1])|
  {
    RunProgress(tl, run);
    StableIsMaximum(tl, run[0], run[|run| - 1], m);
  }

  lemma StableIsMaximum(tl: Timeline, first: Prompts, last: Prompts, m: map<PromptId, TurnKey>)
    requires Consistent(first) && Progress(tl, first, last) && Stable(tl, last)
    ensures IsMatching(tl, first, MatchesMade(first, last))
    ensures IsMatching(tl, first, m) ==> |m| <= |MatchesMade(first, last)|
  {
    MatchesMadeIsMatching(tl, first, last);
    if IsMatching(tl, first, m) {
      var f := Standins(tl, first, last, m, m.Keys);
      InjectiveMapBound(f, MatchesMade(first, last).Keys);
      assert |f| == |f.Keys| == |m.Keys| == |m|;
    }
  }

  lemma MatchesMadeIsMatching(tl: Timeline, first: Prompts, last: Prompts)
    requires Consistent(first) && Progress(tl, first, last)
    ensures IsMatching(tl, first, MatchesMade(first, last))
  {
    forall id | id in MatchesMade(first, last) ensures NewlyMatched(tl, first, last, id) {
      assert last[id] != first[id];
    }
  }

  lemma StandinDistinct(tl: Timeline, first: Prompts, last: Prompts, m: map<PromptId, TurnKey>, p: PromptId, p': PromptId, q: PromptId)
    requires IsMatching(tl, first, m)
    requires Standin(tl, first, last, m, p, q) && Standin(tl, first, last, m, p', q)
    ensures p == p'
  {
  }

  lemma {:induction false} Standins(tl: Timeline, first: Prompts, last: Prompts, m: map<PromptId, TurnKey>, ps: set<PromptId>)
      returns (f: map<PromptId, PromptId>)
    requires Consistent(first) && Progress(tl, first, last) && Stable(tl, last)
    requires IsMatching(tl, first, m) && ps <= m.Keys
    ensures f.Keys == ps
    ensures forall p :: p in f ==> f[p] in MatchesMade(first, last) && Standin(tl, first, last, m, p, f[p])
    ensures forall p, p' :: p in f && p' in f && f[p] == f[p'] ==> p == p'
  {
    hide Progress, Stable, IsMatching, Standin, Candidates;
    f := map[];
    if ps != {} {
      var p :| p in ps;
      var q := StandinExists(tl, first, last, m, p);
      var rest := Standins(tl, first, last, m, ps - {p});
      f := rest[p := q];
      forall p' | p' in rest && rest[p'] == q ensures p' == p {
        StandinDistinct(tl, first, last, m, p, p', q);
      }
    }
  }

  /** The bound and the optimum together: after as many passes as there were open prompts the
      matching is maximum, whatever the tie-breaks. */
  lemma EnoughPassesAreMaximum(tl: Timeline, run: seq<Prompts>, m: map<PromptId, TurnKey>)
    requires PassRun(tl, run) && Consistent(run[0]) && |run| > |OpenIds(run[0])|
    requires IsMatching(tl, run[0], m)
    ensures |m| <= |MatchesMade(run[0], run[|run| - 1])|
  {
    RunStabilises(tl, run);
    GreedyIsMaximum(tl, run, m);
  }

  // ---- Turns that arrive between passes ----------------------------------------

  /** The projector appends: what was there stays, and no new turn starts before one that was. */
  ghost predicate Arrives(tl: Timeline, tl': Timeline) {
    && (forall k :: k in tl.turns ==>
          && k in tl'.turns && tl'.turns[k] == tl.turns[k]
          && (k.session in tl.ptyOf <==> k.session in tl'.ptyOf)
          && (k.session in tl.ptyOf ==> tl'.ptyOf[k.session] == tl.ptyOf[k.session]))
    && (forall k, l :: k in tl'.turns && k !in tl.turns && l in tl.turns ==> tl.turns[l].start <= tl'.turns[k].start)
  }

  datatype Moment = Moment(tl: Timeline, rows: Prompts)

  /** Passes and arrivals in any order. */
  ghost predicate LiveRun(run: seq<Moment>) {
    && run != []
    && (|run| > 1 ==> LiveRun(run[..|run| - 1]) && LiveStep(run[|run| - 2], run[|run| - 1]))
  }

  ghost predicate LiveStep(a: Moment, b: Moment) {
    || (a.tl == b.tl && PassAtSomeTime(a.tl, a.rows, b.rows))
    || (a.rows == b.rows && Arrives(a.tl, b.tl))
  }

  lemma ArrivalKeepsCandidates(tl: Timeline, tl': Timeline, rows: Prompts, p: Prompt, k: TurnKey)
    requires Arrives(tl, tl') && k in tl.turns
    ensures k in Candidates(tl, rows, p) <==> k in Candidates(tl', rows, p)
  {
  }

  /** A match made before a turn arrives has skipped nothing once it is there. */
  lemma ArrivalKeepsProgress(tl: Timeline, tl': Timeline, first: Prompts, mid: Prompts)
    requires Progress(tl, first, mid) && Arrives(tl, tl')
    ensures Progress(tl', first, mid)
  {
    forall id | id in mid && mid[id] != first[id] ensures NewlyMatched(tl', first, mid, id) {
      assert NewlyMatched(tl, first, mid, id);
      var k := mid[id].matchedTurn.value;
      ArrivalKeepsCandidates(tl, tl', first, first[id], k);
      hide NewlyMatched, Qualifies;
      forall u | u in Candidates(tl', mid, first[id]) ensures tl'.turns[k].start <= tl'.turns[u].start {
        if u in tl.turns {
          ArrivalKeepsCandidates(tl, tl', mid, first[id], u);
          EarliestTaken(tl, first, mid, id, u);
        }
      }
      NewlyMatchedIs(tl, tl', first, mid, id);
    }
  }

  lemma EarliestTaken(tl: Timeline, first: Prompts, mid: Prompts, id: PromptId, u: TurnKey)
    requires NewlyMatched(tl, first, mid, id) && u in Candidates(tl, mid, first[id])
    ensures mid[id].matchedTurn.value in tl.turns
    ensures tl.turns[mid[id].matchedTurn.value].start <= tl.turns[u].start
  {
  }

  lemma NewlyMatchedIs(tl: Timeline, tl': Timeline, first: Prompts, mid: Prompts, id: PromptId)
    requires NewlyMatched(tl, first, mid, id)
    requires mid[id].matchedTurn.value in Candidates(tl', first, first[id])
    requires forall u :: u in Candidates(tl', mid, first[id]) ==>
      tl'.turns[mid[id].matchedTurn.value].start <= tl'.turns[u].start
    ensures NewlyMatched(tl', first, mid, id)
  {
  }

  lemma {:induction false} LiveRunProgress(run: seq<Moment>)
    requires LiveRun(run) && Consistent(run[0].rows)
    ensures Progress(run[|run| - 1].tl, run[0].rows, run[|run| - 1].rows)
  {
    hide Progress, Pass, Candidates, Arrives;
    var last := run[|run| - 1];
    if |run| == 1 {
      ProgressStart(last.tl, last.rows);
    } else {
      LiveRunProgress(run[..|run| - 1]);
      var mid := run[|run| - 2];
      if mid.tl == last.tl && PassAtSomeTime(mid.tl, mid.rows, last.rows) {
        var now :| Pass(mid.tl, mid.rows, now, last.rows);
        ProgressStep(mid.tl, run[0].rows, mid.rows, now, last.rows);
      } else {
        ArrivalKeepsProgress(mid.tl, last.tl, run[0].rows, mid.rows);
      }
    }
  }

  /** With turns arriving in order of start, the passes in between lose nothing: settled at the end, the matching is as
      large as any between the prompts open at the start and all the turns that ever arrived. */
  lemma LiveGreedyIsMaximum(run: seq<Moment>, m: map<PromptId, TurnKey>)
    requires LiveRun(run) && Consistent(run[0].rows) && Stable(run[|run| - 1].tl, run[|run| - 1].rows)
    ensures IsMatching(run[|run| - 1].tl, run[0].rows, MatchesMade(run[0].rows, run[|run| - 1].rows))
    ensures IsMatching(run[|run| - 1].tl, run[0].rows, m) ==> |m| <= |MatchesMade(run[0].rows, run[|run| - 1].rows)|
  {
    LiveRunProgress(run);
    StableIsMaximum(run[|run| - 1].tl, run[0].rows, run[|run| - 1].rows, m);
  }

  // Two prompts with one text, 20 seconds apart; a turn both qualify for; and a turn only the first one does.

  const SHARED := TurnKey(0, 0)

  const EARLY := TurnKey(0, 1)

  function TwoPrompts(text: string): Prompts {
    map[0 := Recorded(0, text, 0), 1 := Recorded(0, text, 20_000)]
  }

  function FirstMatched(text: string): Prompts {
    TwoPrompts(text)[0 := Match(Recorded(0, text, 0), SHARED, 40_000)]
  }

  function SharedTurn(text: string): Timeline {
    Timeline(map[0 := Some(0)], map[SHARED := Turn(Some(text), 30_000)])
  }

  function BothTurns(text: string): Timeline {
    Timeline(map[0 := Some(0)], map[SHARED := Turn(Some(text), 30_000), EARLY := Turn(Some(text), 0)])
  }

  lemma TheirCandidates(text: string)
    ensures var tl, tl', rows, after := SharedTurn(text), BothTurns(text), TwoPrompts(text), FirstMatched(text);
      && Candidates(tl, rows, rows[0]) == Candidates(tl, rows, rows[1]) == {SHARED}
      && Candidates(tl', rows, rows[0]) == {SHARED, EARLY} && Candidates(tl', rows, rows[1]) == {SHARED}
      && Candidates(tl', after, after[1]) == {}
  {
    var after := FirstMatched(text);
    assert after[0].matchedTurn == Some(SHARED);
    hide Normalized;
  }

  lemma FirstTakesShared(text: string)
    ensures Pass(SharedTurn(text), TwoPrompts(text), 40_000, FirstMatched(text))
  {
    var tl, rows, after := SharedTurn(text), TwoPrompts(text), FirstMatched(text);
    TheirCandidates(text);
    hide Candidates, SharedTurn;
    var pick, win := map[0 := SHARED, 1 := SHARED], map[SHARED := 0];
    assert SharedTurn(text).turns.Keys == {SHARED} by { SharedIsThere(text); }
    assert PerPrompt(tl, rows, pick);
    assert pick.Values == {SHARED} by { assert SHARED == pick[0]; }
    assert PerTurn(rows, pick, win);
    hide PerPrompt, PerTurn;
    assert Updated(rows, pick, win, 40_000, after);
  }

  lemma SharedIsThere(text: string)
    ensures SharedTurn(text).turns.Keys == {SHARED}
  {
  }

  /** The order matters: the first prompt takes the turn both qualify for, and the turn only it qualifies for arrives too
      late to free it for the other. */
  lemma OutOfOrderTurnIsTooLate(text: string, m: map<PromptId, TurnKey>)
    requires m == map[0 := EARLY, 1 := SHARED]
    ensures Pass(SharedTurn(text), TwoPrompts(text), 40_000, FirstMatched(text))
    ensures Stable(BothTurns(text), FirstMatched(text))
    ensures IsMatching(BothTurns(text), TwoPrompts(text), m) && |MatchesMade(TwoPrompts(text), FirstMatched(text))| < |m|
  {
    FirstTakesShared(text);
    TheirCandidates(text);
    hide Pass, Candidates, BothTurns, SharedTurn;
    assert m.Keys == {0, 1} && |m| == |m.Keys|;
    var made := MatchesMade(TwoPrompts(text), FirstMatched(text));
    assert made.Keys == {0} && |made| == |made.Keys|;
  }

  // ---- The life of the table -------------------------------------------------

  function Recorded(pty: PtyId, text: string, now: int): Prompt {
    Prompt(pty, text, now, None, None, None, None)
  }

  predicate Expired(p: Prompt, now: int) {
    || (p.matchedAt.Some? && p.matchedAt.value < now - RETENTION)
    || (p.dismissedAt.Some? && p.dismissedAt.value < now - RETENTION)
  }

  function Pruned(rows: Prompts, now: int): Prompts {
    map id | id in rows && !Expired(rows[id], now) :: rows[id]
  }

  predicate CanDismiss(rows: Prompts, pty: PtyId, id: PromptId) {
    id in rows && rows[id].pty == pty && rows[id].dismissedAt.None?
  }

  /** The statements that write `submitted_prompts`. */
  class PromptTable {
    var rows: Prompts

    constructor ()
      ensures rows == map[]
    {
      rows := map[];
    }

    method Record(id: PromptId, pty: PtyId, text: string, now: int)
      requires id !in rows
      modifies this
      ensures Step(old(rows), Op.Record(id, pty, text, now), rows)
    {
      rows := rows[id := Recorded(pty, text, now)];
    }

    method MarkDeliveryError(id: PromptId, error: string)
      modifies this
      ensures Step(old(rows), Op.DeliveryError(id, error), rows)
    {
      if id in rows {
        rows := rows[id := rows[id].(deliveryError := Some(error))];
      }
    }

    method Dismiss(pty: PtyId, id: PromptId, now: int) returns (dismissed: bool)
      modifies this
      ensures Step(old(rows), Op.Dismiss(pty, id, now), rows)
      ensures dismissed == CanDismiss(old(rows), pty, id)
    {
      dismissed := CanDismiss(rows, pty, id);
      if dismissed {
        rows := rows[id := rows[id].(dismissedAt := Some(now))];
      }
    }

    /** `pick` and `win` are what the two `DISTINCT ON` queries returned. */
    method Reconcile(tl: Timeline, now: int, pick: map<PromptId, TurnKey>, win: map<TurnKey, PromptId>) returns (matched: nat)
      requires PerPrompt(tl, rows, pick) && PerTurn(rows, pick, win)
      modifies this
      ensures Step(old(rows), Op.Reconcile(tl, now), rows)
      ensures matched == |OpenIds(old(rows))| - |OpenIds(rows)|
    {
      rows := Applied(rows, pick, win, now);
      matched := |win|;
      WinnersLeaveOpen(old(rows), pick, win, OpenIds(rows));
    }

    method Prune(now: int) returns (removed: nat)
      modifies this
      ensures Step(old(rows), Op.Prune(now), rows)
      ensures removed == |old(rows)| - |rows|
    {
      var kept := Pruned(rows, now);
      SubsetSize(kept.Keys, rows.Keys);
      assert |kept| == |kept.Keys| && |rows| == |rows.Keys|;
      removed := |rows| - |kept|;
      rows := kept;
    }
  }

  /** The updated rows are as many as the distinct turns claimed. */
  lemma WinnersLeaveOpen(rows: Prompts, pick: map<PromptId, TurnKey>, win: map<TurnKey, PromptId>, openAfter: set<PromptId>)
    requires PerTurn(rows, pick, win)
    requires forall id :: id in pick ==> id in rows && IsOpen(rows[id])
    requires openAfter == set id | id in OpenIds(rows) && !Wins(pick, win, id)
    ensures |win| == |OpenIds(rows)| - |openAfter|
  {
    WinnersAreValues(pick, win);
    hide PerTurn;
    InjectiveValues(win);
    assert OpenIds(rows) == openAfter + win.Values;
    assert openAfter !! win.Values;
  }

  lemma WinnersAreValues(pick: map<PromptId, TurnKey>, win: map<TurnKey, PromptId>)
    requires forall k :: k in win <==> k in pick.Values
    requires forall k :: k in win ==> win[k] in pick && pick[win[k]] == k
    ensures forall id :: id in win.Values <==> Wins(pick, win, id)
    ensures forall id :: id in win.Values ==> id in pick
    ensures forall k, l :: k in win && l in win && win[k] == win[l] ==> k == l
  {
    forall id | Wins(pick, win, id) ensures id in win.Values {
      assert win[pick[id]] in win.Values;
    }
  }

  datatype Op =
    | Record(id: PromptId, pty: PtyId, text: string, now: int)
    | DeliveryError(id: PromptId, error: string)
    | Dismiss(pty: PtyId, id: PromptId, now: int)
    | Reconcile(tl: Timeline, now: int)
    | Prune(now: int)

  /** One statement against the table. The timeline may differ from one pass to the next. */
  ghost predicate Step(rows: Prompts, op: Op, after: Prompts) {
    match op
    case Record(id, pty, text, now) => id !in rows && after == rows[id := Recorded(pty, text, now)]
    case DeliveryError(id, error) =>
      after == if id in rows then rows[id := rows[id].(deliveryError := Some(error))] else rows
    case Dismiss(pty, id, now) =>
      after == if CanDismiss(rows, pty, id) then rows[id := rows[id].(dismissedAt := Some(now))] else rows
    case Reconcile(tl, now) => Pass(tl, rows, now, after)
    case Prune(now) => after == Pruned(rows, now)
  }

  lemma StepKeepsConsistent(rows: Prompts, op: Op, after: Prompts)
    requires Consistent(rows) && Step(rows, op, after)
    ensures Consistent(after)
  {
    match op
    case Record(_, _, _, _) =>
    case DeliveryError(_, _) =>
    case Dismiss(_, _, _) =>
    case Reconcile(tl, now) => PassKeepsConsistent(tl, rows, now, after);
    case Prune(_) =>
  }

  /** `states` are the tables seen while `ops` run against an empty table. */
  ghost predicate History(ops: seq<Op>, states: seq<Prompts>) {
    && |states| == |ops| + 1
    && states[0] == map[]
    && forall i :: 0 <= i < |ops| ==> Step(states[i], ops[i], states[i + 1])
  }

  /** In every reachable table no two rows hold the same turn. */
  lemma {:induction false} NoTurnIsHeldTwice(ops: seq<Op>, states: seq<Prompts>, n: nat)
    requires History(ops, states) && n < |states|
    ensures Consistent(states[n])
  {
    hide Step, Consistent;
    if n == 0 {
      assert Consistent(map[]) by { EmptyIsConsistent(); }
    } else {
      NoTurnIsHeldTwice(ops, states, n - 1);
      StepKeepsConsistent(states[n - 1], ops[n - 1], states[n]);
    }
  }

  lemma EmptyIsConsistent()
    ensures Consistent(map[])
  {
  }

  /** Pruning can reopen the search: it disturbs a settled table exactly when it drops the holder
      of a turn that some open prompt qualifies for. */
  lemma PruneFreesTurns(tl: Timeline, rows: Prompts, now: int)
    requires Consistent(rows) && Stable(tl, rows)
    ensures Stable(tl, Pruned(rows, now)) <==>
      !exists id, holder :: id in rows && holder in rows && IsOpen(rows[id]) && Expired(rows[holder], now)
        && rows[holder].matchedTurn.Some? && Qualifies(tl, rows[id], rows[holder].matchedTurn.value)
  {
    var kept := Pruned(rows, now);
    forall id, holder | id in rows && holder in rows && IsOpen(rows[id]) && Expired(rows[holder], now)
        && rows[holder].matchedTurn.Some? && Qualifies(tl, rows[id], rows[holder].matchedTurn.value)
      ensures id in kept && rows[holder].matchedTurn.value in Candidates(tl, kept, kept[id])
    {
    }
    if !Stable(tl, kept) {
      var id :| id in kept && IsOpen(kept[id]) && Candidates(tl, kept, kept[id]) != {};
      var k :| k in Candidates(tl, kept, kept[id]);
      assert k !in Candidates(tl, rows, rows[id]);
      var holder :| holder in rows && rows[holder].matchedTurn == Some(k);
      assert holder !in kept;
    }
  }

  // ---- The listed state ------------------------------------------------------

  datatype ListedState = Matched | Unmatched | Failed | Dismissed

  /** `SubmittedPrompt::from(PromptRow)` */
  function Listed(p: Prompt): ListedState {
    if p.dismissedAt.Some? then Dismissed
    else if p.matchedAt.Some? then Matched
    else if p.deliveryError.Some? then Failed
    else Unmatched
  }

  /** A recorded prompt is open and listed as unmatched, with what was typed and when. */
  lemma RecordedIsUnmatched(rows: Prompts, id: PromptId, pty: PtyId, text: string, now: int, after: Prompts)
    requires Step(rows, Op.Record(id, pty, text, now), after)
    ensures id in after && IsOpen(after[id]) && Listed(after[id]) == Unmatched
    ensures after[id].pty == pty && after[id].text == text && after[id].submittedAt == now
    ensures forall other :: other in rows ==> other in after && after[other] == rows[other]
  {
  }

  const WEEK := 604_800_000

  /** Finished rows stay for a week: a row goes at a prune if and only if it was matched or dismissed longer ago. */
  lemma PrunedIffOverAWeekOld(rows: Prompts, now: int, after: Prompts, id: PromptId)
    requires Step(rows, Op.Prune(now), after) && id in rows
    ensures id !in after <==>
      || (rows[id].matchedAt.Some? && now - rows[id].matchedAt.value > WEEK)
      || (rows[id].dismissedAt.Some? && now - rows[id].dismissedAt.value > WEEK)
  {
  }

  /** Dismissing again, or from another PTY, changes nothing: the week counts from the first dismissal. */
  lemma DismissedOnce(rows: Prompts, pty: PtyId, id: PromptId, first: int, second: int, mid: Prompts, after: Prompts)
    requires id in rows && rows[id].pty == pty && rows[id].dismissedAt.None?
    requires Step(rows, Op.Dismiss(pty, id, first), mid) && Step(mid, Op.Dismiss(pty, id, second), after)
    ensures after == mid && mid[id].dismissedAt == Some(first)
    ensures forall other :: other in rows && other != id ==> other in mid && mid[other] == rows[other]
  {
  }

  /** How the state shown for one prompt moves: a delivery error fails an unmatched prompt only, a dismissal is final,
      a pass moves unmatched and failed prompts to matched and leaves the others alone, and only matched and dismissed
      prompts are pruned. */
  lemma ListedLifecycle(rows: Prompts, op: Op, after: Prompts, id: PromptId)
    requires Step(rows, op, after) && id in rows
    ensures IsOpen(rows[id]) <==> Listed(rows[id]) in {Unmatched, Failed}
    ensures id !in after ==> op.Prune? && Listed(rows[id]) in {Matched, Dismissed}
    ensures id in after ==>
      match op
      case Record(_, _, _, _) => after[id] == rows[id]
      case DeliveryError(failed, error) =>
        && after[id] == (if failed == id then rows[id].(deliveryError := Some(error)) else rows[id])
        && Listed(after[id]) == if failed == id && Listed(rows[id]) == Unmatched then Failed else Listed(rows[id])
      case Dismiss(pty, dismissed, _) =>
        Listed(after[id]) == if dismissed == id && rows[id].pty == pty then Dismissed else Listed(rows[id])
      case Reconcile(_, _) =>
        || after[id] == rows[id]
        || (Listed(rows[id]) in {Unmatched, Failed} && Listed(after[id]) == Matched && after[id].matchedTurn.Some?)
      case Prune(_) => after[id] == rows[id]
  {
    hide Pass, Candidates;
    if op.Reconcile? {
      PassEffect(op.tl, rows, op.now, after);
    }
  }
}
