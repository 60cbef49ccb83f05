/**
 * The git poller that writes the database only when the fingerprint changed
 * (backend/src/repo_state.rs), with the rename and delete steps that also write its tables
 * (backend/src/repo_lifecycle.rs).
 *
 * The reference keeps, per repository, the last status git reported and the first one since the last change; the
 * stored rows show the first, and the theorems say when that is what the last shows. Schedule columns are left out.
 */
module RepoState {
  import opened Wrappers
  import opened GitStatusModel

  // ---- Tables ----------------------------------------------------------------

  /** `repo_runtime_state` without its schedule columns. */
  datatype RepoRow = RepoRow(
    path: string,
    present: bool,
    gitRevision: nat,
    branch: Option<string>,
    headSha: Option<string>,
    headSubject: Option<string>,
    headCommittedAt: Option<string>,
    recentCommits: seq<Commit>,
    dirtyCount: int,
    untrackedCount: int,
    fingerprint: string,
    origin: Option<string>,
    statusError: Option<string>)

  /** `repo_dirty_paths`, one row per path. */
  datatype DirtyRow = DirtyRow(status: string, additions: Option<int>, deletions: Option<int>)

  type DirtyRows = map<string, DirtyRow>

  datatype Db = Db(repos: map<string, RepoRow>, dirty: map<string, DirtyRows>)

  function DirtyOf(db: Db, name: string): DirtyRows {
    if name in db.dirty then db.dirty[name] else map[]
  }

  /** The column defaults of a row inserted with only a name and a path. */
  function NewRow(path: string): RepoRow {
    RepoRow(path, true, 0, None, None, None, None, [], 0, 0, "", None, None)
  }

  /** `n as i32` */
  function AsI32(n: nat): int {
    (n + 0x8000_0000) % 0x1_0000_0000 - 0x8000_0000
  }

  // ---- One reconcile ---------------------------------------------------------

  function RowFor(s: GitStatus, path: string): DirtyRow
    requires path in s.dirty
  {
    if path in s.diffStats
    then DirtyRow(s.dirty[path], Some(AsI32(s.diffStats[path].additions)), Some(AsI32(s.diffStats[path].deletions)))
    else DirtyRow(s.dirty[path], None, None)
  }

  function RowsFor(s: GitStatus): DirtyRows {
    map path | path in s.dirty :: RowFor(s, path)
  }

  function Rewritten(row: RepoRow, s: GitStatus, fingerprint: string): RepoRow {
    row.(gitRevision := if row.fingerprint != fingerprint then row.gitRevision + 1 else row.gitRevision,
         branch := s.branch,
         headSha := if s.lastCommit.Some? then Some(s.lastCommit.value.sha) else None,
         headSubject := if s.lastCommit.Some? then Some(s.lastCommit.value.subject) else None,
         headCommittedAt := if s.lastCommit.Some? then Some(s.lastCommit.value.committedAt) else None,
         recentCommits := s.recentCommits,
         dirtyCount := AsI32(s.uncommitted),
         untrackedCount := AsI32(s.untracked),
         fingerprint := fingerprint,
         origin := s.origin,
         statusError := None)
  }

  /** A status arrived: skip the write when the fingerprint is the stored one, rewrite otherwise.
      Without a row the rewrite fails on the foreign key or updates nothing. */
  ghost function Reconciled(db: Db, name: string, s: GitStatus): Db {
    if name !in db.repos then db
    else
      var fingerprint := Fingerprint(ContentOf(s));
      var row := db.repos[name];
      if row.fingerprint == fingerprint then
        db.(repos := db.repos[name := row.(statusError := None)])
      else
        Db(db.repos[name := Rewritten(row, s, fingerprint)], db.dirty[name := RowsFor(s)])
  }

  /** `sync_repos_once`: the row of one repository after a scan found `found`. */
  function SyncedRow(row: Option<RepoRow>, found: Option<string>): (r: Option<RepoRow>)
    ensures r.Some? <==> row.Some? || found.Some?
  {
    match (row, found)
    case (None, None) => None
    case (None, Some(path)) => Some(NewRow(path))
    case (Some(r), None) => Some(r.(present := false))
    case (Some(r), Some(path)) => Some(r.(present := true, path := path))
  }

  function RowAt(db: Db, name: string): Option<RepoRow> {
    if name in db.repos then Some(db.repos[name]) else None
  }

  function Lookup<T>(m: map<string, T>, name: string): Option<T> {
    if name in m then Some(m[name]) else None
  }

  function Synced(db: Db, found: map<string, string>): Db {
    db.(repos := map name | name in db.repos.Keys + found.Keys :: SyncedRow(RowAt(db, name), Lookup(found, name)).value)
  }

  function Scanned(repos: map<string, RepoRow>, name: string, path: string): RepoRow {
    if name in repos then repos[name].(path := path, present := true) else NewRow(path)
  }

  lemma SyncedPointwise(db: Db, found: map<string, string>, repos: map<string, RepoRow>)
    requires repos.Keys == db.repos.Keys + found.Keys
    requires forall n :: n in repos && n !in found ==> repos[n] == db.repos[n].(present := false)
    requires forall n :: n in found ==> repos[n] == Scanned(db.repos, n, found[n])
    ensures Synced(db, found) == db.(repos := repos)
  {
    assert Synced(db, found).repos == repos;
  }

  function Upserted(db: Db, name: string, path: string): Db {
    db.(repos := db.repos[name := SyncedRow(RowAt(db, name), Some(path)).value])
  }

  /** `rename_repo_runtime_records`: both names lose their dirty rows, the renamed row keeps its fingerprint. */
  function Renamed(db: Db, oldName: string, newName: string, path: string): Db {
    var row := if oldName in db.repos then db.repos[oldName].(path := path, present := true) else NewRow(path);
    Db((db.repos - {oldName, newName})[newName := row], db.dirty - {oldName, newName})
  }

  /** `mark_repo_deleted_records`: the dirty rows go, the row and its fingerprint stay. */
  function MarkedDeleted(db: Db, name: string, path: string): Db {
    Db(if name in db.repos then db.repos[name := db.repos[name].(present := false, path := path)] else db.repos,
       db.dirty - {name})
  }

  function WithError(db: Db, name: string, error: string): Db {
    if name in db.repos then db.(repos := db.repos[name := db.repos[name].(statusError := Some(error))]) else db
  }

  // ---- The poller as it runs -------------------------------------------------

  class RepoStateManager {
    var repos: map<string, RepoRow>
    var dirty: map<string, DirtyRows>

    ghost function Tables(): Db
      reads this
    {
      Db(repos, dirty)
    }

    constructor ()
      ensures Tables() == NO_TABLES
    {
      repos := map[];
      dirty := map[];
    }

    /** `reconcile_repo_inner` */
    method ReconcileRepoInner(name: string, status: GitStatus)
      modifies this
      ensures Tables() == Reconciled(old(Tables()), name, status)
    {
      hide Fingerprint, ContentOf, RowFor, Rewritten;
      if name !in repos {
        return;
      }
      var fingerprint := StatusFingerprint(status);
      var row := repos[name];
      if row.fingerprint == fingerprint {
        repos := repos[name := row.(statusError := None)];
        return;
      }
      var rows: DirtyRows := map[];
      var todo := status.dirty.Keys;
      while todo != {}
        invariant todo <= status.dirty.Keys
        invariant rows.Keys == status.dirty.Keys - todo
        invariant forall p :: p in rows ==> rows[p] == RowFor(status, p)
        decreases todo
      {
        var path :| path in todo;
        rows := rows[path := RowFor(status, path)];
        todo := todo - {path};
      }
      assert rows == RowsFor(status);
      dirty := dirty[name := rows];
      repos := repos[name := Rewritten(row, status, fingerprint)];
    }

    /** The insert of one scanned repository: a known one in place is left untouched. */
    method UpsertScanned(name: string, path: string)
      modifies this`repos
      ensures repos == old(repos)[name := Scanned(old(repos), name, path)]
    {
      if name !in repos {
        repos := repos[name := NewRow(path)];
      } else if !repos[name].present || repos[name].path != path {
        repos := repos[name := repos[name].(path := path, present := true)];
      }
    }

    /** `sync_repos_once`: mark the vanished absent, then upsert what the scan found. */
    method SyncReposOnce(found: map<string, string>)
      modifies this
      ensures Tables() == Synced(old(Tables()), found)
    {
      hide Synced, SyncedRow, RowAt, NewRow;
      var was := repos;
      repos := map name | name in repos :: if name in found then repos[name] else repos[name].(present := false);
      var todo := found.Keys;
      while todo != {}
        invariant todo <= found.Keys
        invariant dirty == old(dirty)
        invariant repos.Keys == was.Keys + (found.Keys - todo)
        invariant forall n :: n in repos && n in todo ==> repos[n] == was[n]
        invariant forall n :: n in repos && n !in found ==> repos[n] == was[n].(present := false)
        invariant forall n :: n in found && n !in todo ==> repos[n] == Scanned(was, n, found[n])
        decreases todo
      {
        var name :| name in todo;
        UpsertScanned(name, found[name]);
        hide Scanned;
        todo := todo - {name};
      }
      SyncedPointwise(old(Tables()), found, repos);
    }

    method UpsertRepo(name: string, path: string)
      modifies this
      ensures Tables() == Upserted(old(Tables()), name, path)
    {
      if name in repos {
        repos := repos[name := repos[name].(path := path, present := true)];
      } else {
        repos := repos[name := NewRow(path)];
      }
    }

    method RenameRepoRuntimeRecords(oldName: string, newName: string, newPath: string)
      requires oldName != newName
      modifies this
      ensures Tables() == Renamed(old(Tables()), oldName, newName, newPath)
    {
      dirty := dirty - {oldName, newName};
      repos := repos - {newName};
      if oldName in repos {
        var row := repos[oldName];
        repos := repos - {oldName};
        repos := repos[newName := row.(path := newPath, present := true)];
      } else {
        repos := repos[newName := NewRow(newPath)];
      }
      assert repos == Renamed(old(Tables()), oldName, newName, newPath).repos;
    }

    method MarkRepoDeletedRecords(name: string, path: string)
      modifies this
      ensures Tables() == MarkedDeleted(old(Tables()), name, path)
    {
      dirty := dirty - {name};
      if name in repos {
        repos := repos[name := repos[name].(present := false, path := path)];
      }
    }
  }

  // ---- The reference ---------------------------------------------------------

  /** What git reported of one repository: the last status, and the first of those since the last change that the
      poller could tell. `forgotten` says that it was renamed or deleted after that first one. */
  datatype Seen = Seen(
    path: string,
    present: bool,
    changes: nat,
    first: Option<GitStatus>,
    last: Option<GitStatus>,
    forgotten: bool,
    error: Option<string>)

  type Reference = map<string, Seen>

  datatype Op =
    | Status(name: string, status: GitStatus)
    | StatusFailed(name: string, error: string)
    | Scan(found: map<string, string>)
    | Upsert(name: string, path: string)
    | Rename(oldName: string, newName: string, path: string)
    | Delete(name: string, path: string)

  function Unseen(path: string): Seen {
    Seen(path, true, 0, None, None, false, None)
  }

  /** By content, or as the poller tells it, by fingerprint. */
  ghost predicate Unchanged(r: Seen, s: GitStatus, byContent: bool) {
    r.first.Some? &&
    if byContent then ContentOf(r.first.value) == ContentOf(s)
    else Fingerprint(ContentOf(r.first.value)) == Fingerprint(ContentOf(s))
  }

  ghost function Observed(r: Seen, s: GitStatus, byContent: bool): Seen {
    if Unchanged(r, s, byContent) then r.(last := Some(s), error := None)
    else r.(changes := r.changes + 1, first := Some(s), last := Some(s), forgotten := false, error := None)
  }

  function ScannedSeen(r: Option<Seen>, found: Option<string>): (s: Option<Seen>)
    ensures s.Some? <==> r.Some? || found.Some?
  {
    match (r, found)
    case (None, None) => None
    case (None, Some(path)) => Some(Unseen(path))
    case (Some(s), None) => Some(s.(present := false))
    case (Some(s), Some(path)) => Some(s.(present := true, path := path))
  }

  ghost function RefStep(ref: Reference, op: Op, byContent: bool): Reference {
    match op
    case Status(name, s) => if name in ref then ref[name := Observed(ref[name], s, byContent)] else ref
    case StatusFailed(name, error) => if name in ref then ref[name := ref[name].(error := Some(error))] else ref
    case Scan(found) =>
      map name | name in ref.Keys + found.Keys :: ScannedSeen(Lookup(ref, name), Lookup(found, name)).value
    case Upsert(name, path) => ref[name := ScannedSeen(Lookup(ref, name), Some(path)).value]
    case Rename(oldName, newName, path) =>
      (ref - {oldName, newName})[newName :=
        if oldName in ref then ref[oldName].(path := path, present := true, forgotten := true) else Unseen(path)]
    case Delete(name, path) =>
      if name in ref then ref[name := ref[name].(present := false, path := path, forgotten := true)] else ref
  }

  ghost function DbStep(db: Db, op: Op): Db {
    match op
    case Status(name, s) => Reconciled(db, name, s)
    case StatusFailed(name, error) => WithError(db, name, error)
    case Scan(found) => Synced(db, found)
    case Upsert(name, path) => Upserted(db, name, path)
    case Rename(oldName, newName, path) => Renamed(db, oldName, newName, path)
    case Delete(name, path) => MarkedDeleted(db, name, path)
  }

  // ---- What readers see ------------------------------------------------------

  /** Absent diff stats read as zero. */
  datatype Line = Line(status: string, additions: int, deletions: int)

  datatype View = View(
    branch: Option<string>,
    origin: Option<string>,
    head: Option<Commit>,
    recent: seq<Commit>,
    dirtyCount: int,
    untrackedCount: int,
    lines: map<string, Line>)

  function LineOf(row: DirtyRow): Line {
    Line(row.status, row.additions.GetOr(0), row.deletions.GetOr(0))
  }

  function LinesOf(rows: DirtyRows): map<string, Line> {
    map path | path in rows :: LineOf(rows[path])
  }

  function HeadOf(row: RepoRow): Option<Commit> {
    if row.headSha.Some? && row.headSubject.Some? && row.headCommittedAt.Some?
    then Some(Commit(row.headSha.value, row.headSubject.value, row.headCommittedAt.value))
    else None
  }

  function Stored(row: RepoRow, rows: DirtyRows): View {
    View(row.branch, row.origin, HeadOf(row), row.recentCommits, row.dirtyCount, row.untrackedCount, LinesOf(rows))
  }

  function Shown(s: GitStatus): View {
    View(s.branch, s.origin, s.lastCommit, s.recentCommits, AsI32(s.uncommitted), AsI32(s.untracked),
         map path | path in s.dirty :: Line(s.dirty[path], AsI32(StatOf(s, path).additions), AsI32(StatOf(s, path).deletions)))
  }

  const BLANK := View(None, None, None, [], 0, 0, map[])

  // ---- Refinement, whatever git reports --------------------------------------

  /** What is shown once `s` was written: its dirty rows may have been forgotten since. */
  function Written(s: GitStatus, forgotten: bool): View {
    if forgotten then Shown(s).(lines := map[]) else Shown(s)
  }

  ghost predicate RowAgrees(row: RepoRow, rows: DirtyRows, seen: Seen) {
    && row.path == seen.path && row.present == seen.present && row.statusError == seen.error
    && row.gitRevision == seen.changes
    && PairedStats(rows)
    && (seen.first.Some? <==> seen.last.Some?)
    && match seen.first
       case None => row.fingerprint == "" && Stored(row, rows) == BLANK
       case Some(s) =>
         && row.fingerprint == Fingerprint(ContentOf(s)) == Fingerprint(ContentOf(seen.last.value))
         && Stored(row, rows) == Written(s, seen.forgotten)
  }

  predicate PairedStats(rows: DirtyRows) {
    forall p :: p in rows ==> (rows[p].additions.Some? <==> rows[p].deletions.Some?)
  }

  /** The database shows, for every repository, the first status since the fingerprint last changed, less the dirty rows
      forgotten since, and the number of those changes. */
  ghost predicate Agrees(db: Db, ref: Reference) {
    && db.repos.Keys == ref.Keys
    && (forall name :: name in db.dirty ==> name in db.repos)
    && forall name :: name in ref ==> RowAgrees(db.repos[name], DirtyOf(db, name), ref[name])
  }

  /** A fingerprint is never the empty string a new row starts with. */
  lemma FingerprintIsNotBlank(c: Content)
    ensures Fingerprint(c) != ""
  {
    assert Lines(c)[0] == "branch=" + c.branch;
    assert |Lines(c)[0]| >= 7;
  }

  lemma StatusRowAgrees(row: RepoRow, rows: DirtyRows, seen: Seen, s: GitStatus)
    requires RowAgrees(row, rows, seen)
    ensures var fingerprint := Fingerprint(ContentOf(s));
      if row.fingerprint == fingerprint
      then RowAgrees(row.(statusError := None), rows, Observed(seen, s, false))
      else RowAgrees(Rewritten(row, s, fingerprint), RowsFor(s), Observed(seen, s, false))
  {
    hide Fingerprint, ContentOf, AsI32, Shown, LinesOf;
    FingerprintIsNotBlank(ContentOf(s));
    RewriteShowsStatus(row, s, Fingerprint(ContentOf(s)));
  }

  /** A rewrite stores what the status shows. */
  lemma RewriteShowsStatus(row: RepoRow, s: GitStatus, fingerprint: string)
    ensures Stored(Rewritten(row, s, fingerprint), RowsFor(s)) == Shown(s)
  {
    hide AsI32;
    assert AsI32(0) == 0 by { AsI32Small(0); }
    assert LinesOf(RowsFor(s)) == Shown(s).lines;
  }

  /** The cast keeps the value modulo 2^32, in the signed range. */
  lemma AsI32Wraps(n: nat)
    ensures -0x8000_0000 <= AsI32(n) < 0x8000_0000 && (n - AsI32(n)) % 0x1_0000_0000 == 0
  {
  }

  lemma AsI32Small(n: nat)
    ensures AsI32(n) == n <==> n < 0x8000_0000
  {
  }

  /** Every step keeps the database in agreement with the reference. */
  lemma StepAgrees(db: Db, ref: Reference, op: Op)
    requires Agrees(db, ref)
    ensures Agrees(DbStep(db, op), RefStep(ref, op, false))
  {
    match op
    case Status(name, s) => StatusAgrees(db, ref, name, s);
    case StatusFailed(name, error) => FailureAgrees(db, ref, name, error);
    case Scan(found) => ScanAgrees(db, ref, found);
    case Upsert(name, path) => UpsertAgrees(db, ref, name, path);
    case Rename(oldName, newName, path) => RenameAgrees(db, ref, oldName, newName, path);
    case Delete(name, path) => DeleteAgrees(db, ref, name, path);
  }

  lemma StatusAgrees(db: Db, ref: Reference, name: string, s: GitStatus)
    requires Agrees(db, ref)
    ensures Agrees(Reconciled(db, name, s), RefStep(ref, Status(name, s), false))
  {
    hide Fingerprint, ContentOf, RowAgrees, RowsFor, Rewritten, Observed;
    if name in ref {
      StatusRowAgrees(db.repos[name], DirtyOf(db, name), ref[name], s);
    }
  }

  /** Path, presence and error move together with the reference and touch nothing else. */
  lemma RowFrame(row: RepoRow, rows: DirtyRows, seen: Seen, path: string, present: bool, error: Option<string>)
    requires RowAgrees(row, rows, seen)
    ensures RowAgrees(row.(path := path, present := present, statusError := error), rows,
                      seen.(path := path, present := present, error := error))
  {
    hide Fingerprint, Shown, LinesOf;
  }

  /** Dropping the dirty rows is what the reference calls forgetting. */
  lemma RowForgets(row: RepoRow, rows: DirtyRows, seen: Seen)
    requires RowAgrees(row, rows, seen)
    ensures RowAgrees(row, map[], seen.(forgotten := true))
  {
    hide Fingerprint, ContentOf, Shown, LineOf, HeadOf;
    assert LinesOf(map[]) == map[];
  }

  lemma NewRowAgrees(path: string)
    ensures RowAgrees(NewRow(path), map[], Unseen(path))
  {
    hide Fingerprint, Shown;
  }

  lemma FailureAgrees(db: Db, ref: Reference, name: string, error: string)
    requires Agrees(db, ref)
    ensures Agrees(WithError(db, name, error), RefStep(ref, StatusFailed(name, error), false))
  {
    hide RowAgrees;
    if name in ref {
      RowFrame(db.repos[name], DirtyOf(db, name), ref[name], ref[name].path, ref[name].present, Some(error));
      SamePlace(db.repos[name], DirtyOf(db, name), ref[name]);
    }
  }

  lemma SamePlace(row: RepoRow, rows: DirtyRows, seen: Seen)
    requires RowAgrees(row, rows, seen)
    ensures row.path == seen.path && row.present == seen.present && row.statusError == seen.error
  {
  }

  lemma ScanRowAgrees(row: Option<RepoRow>, rows: DirtyRows, seen: Option<Seen>, found: Option<string>)
    requires row.Some? <==> seen.Some?
    requires row.Some? ==> RowAgrees(row.value, rows, seen.value)
    requires row.None? ==> rows == map[]
    requires row.Some? || found.Some?
    ensures RowAgrees(SyncedRow(row, found).value, rows, ScannedSeen(seen, found).value)
  {
    hide Fingerprint, Shown, RowAgrees, NewRow;
    if row.Some? {
      SamePlace(row.value, rows, seen.value);
      RowFrame(row.value, rows, seen.value, found.GetOr(row.value.path), found.Some?, row.value.statusError);
    } else {
      NewRowAgrees(found.value);
    }
  }

  lemma ScanAgrees(db: Db, ref: Reference, found: map<string, string>)
    requires Agrees(db, ref)
    ensures Agrees(Synced(db, found), RefStep(ref, Scan(found), false))
  {
    hide RowAgrees, SyncedRow, ScannedSeen;
    forall name | name in ref.Keys + found.Keys
      ensures RowAgrees(SyncedRow(RowAt(db, name), Lookup(found, name)).value, DirtyOf(db, name),
                        ScannedSeen(Lookup(ref, name), Lookup(found, name)).value)
    {
      ScanRowAgrees(RowAt(db, name), DirtyOf(db, name), Lookup(ref, name), Lookup(found, name));
    }
  }

  lemma UpsertAgrees(db: Db, ref: Reference, name: string, path: string)
    requires Agrees(db, ref)
    ensures Agrees(Upserted(db, name, path), RefStep(ref, Upsert(name, path), false))
  {
    hide RowAgrees, SyncedRow, ScannedSeen;
    ScanRowAgrees(RowAt(db, name), DirtyOf(db, name), Lookup(ref, name), Some(path));
  }

  lemma RenameAgrees(db: Db, ref: Reference, oldName: string, newName: string, path: string)
    requires Agrees(db, ref)
    ensures Agrees(Renamed(db, oldName, newName, path), RefStep(ref, Rename(oldName, newName, path), false))
  {
    hide RowAgrees, NewRow;
    NewRowAgrees(path);
    if oldName in ref {
      var row, seen := db.repos[oldName], ref[oldName];
      SamePlace(row, DirtyOf(db, oldName), seen);
      RowForgets(row, DirtyOf(db, oldName), seen);
      RowFrame(row, map[], seen.(forgotten := true), path, true, seen.error);
    }
  }

  lemma DeleteAgrees(db: Db, ref: Reference, name: string, path: string)
    requires Agrees(db, ref)
    ensures Agrees(MarkedDeleted(db, name, path), RefStep(ref, Delete(name, path), false))
  {
    hide RowAgrees;
    if name in ref {
      var row, seen := db.repos[name], ref[name];
      SamePlace(row, DirtyOf(db, name), seen);
      RowForgets(row, DirtyOf(db, name), seen);
      RowFrame(row, map[], seen.(forgotten := true), path, false, seen.error);
    }
  }

  ghost function DbRun(db: Db, ops: seq<Op>): Db
    decreases ops
  {
    if ops == [] then db else DbRun(DbStep(db, ops[0]), ops[1..])
  }

  ghost function RefRun(ref: Reference, ops: seq<Op>, byContent: bool): Reference
    decreases ops
  {
    if ops == [] then ref else RefRun(RefStep(ref, ops[0], byContent), ops[1..], byContent)
  }

  /** Over every run, with nothing assumed of what git reports and renames and revivals included: the write-skipping poller
      shows, in every column and dirty row, the first status since the fingerprint last changed, less what was forgotten. */
  lemma {:induction false} PollerRefinesReference(db: Db, ref: Reference, ops: seq<Op>)
    requires Agrees(db, ref)
    ensures Agrees(DbRun(db, ops), RefRun(ref, ops, false))
    decreases ops
  {
    hide Agrees, DbStep, RefStep;
    if ops != [] {
      StepAgrees(db, ref, ops[0]);
      PollerRefinesReference(DbStep(db, ops[0]), RefStep(ref, ops[0], false), ops[1..]);
    }
  }

  const NO_TABLES := Db(map[], map[])

  lemma NoTablesAgree()
    ensures Agrees(NO_TABLES, map[])
  {
  }

  // ---- What is assumed of git ------------------------------------------------

  /** `history` fixes what a head sha means: the commit it names and the commits before it. */
  type CommitHistory = map<string, (Commit, seq<Commit>)>

  /** A status as `read_status` fills it: absent rather than empty names, newline-free text, two-character codes, and
      commit data fixed by the head sha. Nothing is said of the counts. */
  ghost predicate FromGit(history: CommitHistory, s: GitStatus) {
    && Printable(ContentOf(s))
    && s.branch != Some("") && s.origin != Some("")
    && match s.lastCommit
       case None => s.recentCommits == []
       case Some(c) => c.sha != "" && c.sha in history && history[c.sha] == (c, s.recentCommits)
  }

  ghost predicate AllFromGit(history: CommitHistory, ops: seq<Op>) {
    forall op :: op in ops && op.Status? ==> FromGit(history, op.status)
  }

  ghost predicate SeenFromGit(history: CommitHistory, ref: Reference) {
    forall name :: name in ref ==> FirstAndLast(history, ref[name].first, ref[name].last)
  }

  /** Both are what git reports, with one content. */
  ghost predicate FirstAndLast(history: CommitHistory, first: Option<GitStatus>, last: Option<GitStatus>) {
    && (first.Some? <==> last.Some?)
    && (first.Some? ==>
          FromGit(history, first.value) && FromGit(history, last.value) && ContentOf(first.value) == ContentOf(last.value))
  }

  lemma ObservedFromGit(history: CommitHistory, r: Seen, s: GitStatus)
    requires FirstAndLast(history, r.first, r.last) && FromGit(history, s)
    ensures Observed(r, s, true) == Observed(r, s, false)
    ensures FirstAndLast(history, Observed(r, s, true).first, Observed(r, s, true).last)
  {
    if r.first.Some? {
      FingerprintIdentifies(ContentOf(r.first.value), ContentOf(s));
    }
    hide Fingerprint, Printable, ContentOf;
  }

  lemma UnseenFromGit(history: CommitHistory)
    ensures FirstAndLast(history, None, None)
  {
  }

  /** On what git reports a change of fingerprint is a change of content, so both references are the same. */
  lemma SameReferenceStep(history: CommitHistory, ref: Reference, op: Op)
    requires SeenFromGit(history, ref) && (op.Status? ==> FromGit(history, op.status))
    ensures RefStep(ref, op, true) == RefStep(ref, op, false)
    ensures SeenFromGit(history, RefStep(ref, op, true))
  {
    UnseenFromGit(history);
    hide FirstAndLast, FromGit, Observed;
    if op.Status? && op.name in ref {
      ObservedFromGit(history, ref[op.name], op.status);
    }
  }

  lemma {:induction false} SameReference(history: CommitHistory, ref: Reference, ops: seq<Op>)
    requires SeenFromGit(history, ref) && AllFromGit(history, ops)
    ensures RefRun(ref, ops, true) == RefRun(ref, ops, false)
    ensures SeenFromGit(history, RefRun(ref, ops, true))
    decreases ops
  {
    hide SeenFromGit, RefStep;
    if ops != [] {
      SameReferenceStep(history, ref, ops[0]);
      SameReference(history, RefStep(ref, ops[0], true), ops[1..]);
    }
  }

  lemma SameHead(history: CommitHistory, s: GitStatus, t: GitStatus)
    requires FromGit(history, s) && FromGit(history, t) && ContentOf(s).head == ContentOf(t).head
    ensures s.lastCommit == t.lastCommit && s.recentCommits == t.recentCommits
  {
    hide Printable;
  }

  lemma SameEntries(s: GitStatus, t: GitStatus)
    requires ContentOf(s).entries == ContentOf(t).entries
    ensures s.dirty == t.dirty
    ensures forall p :: p in s.dirty ==> StatOf(s, p) == StatOf(t, p)
  {
    hide StatOf;
    var c, d := ContentOf(s).entries, ContentOf(t).entries;
    assert c.Keys == s.dirty.Keys && d.Keys == t.dirty.Keys;
    forall p | p in s.dirty ensures s.dirty[p] == t.dirty[p] && StatOf(s, p) == StatOf(t, p) {
      assert c[p] == d[p];
    }
  }

  /** Statuses with equal contents show the same in every column and row but the two counts. */
  lemma SameContentSameView(history: CommitHistory, s: GitStatus, t: GitStatus)
    requires FromGit(history, s) && FromGit(history, t) && ContentOf(s) == ContentOf(t)
    ensures s.dirty == t.dirty
    ensures Shown(t) == Shown(s).(dirtyCount := AsI32(t.uncommitted), untrackedCount := AsI32(t.untracked))
  {
    SameHead(history, s, t);
    SameNames(history, s, t);
    SameEntries(s, t);
    hide Printable, Fingerprint, FromGit, ContentOf, StatOf, AsI32;
    assert Shown(s).lines == Shown(t).lines;
  }

  lemma SameNames(history: CommitHistory, s: GitStatus, t: GitStatus)
    requires FromGit(history, s) && FromGit(history, t) && ContentOf(s) == ContentOf(t)
    ensures s.branch == t.branch && s.origin == t.origin
  {
    hide Printable;
  }

  // ---- When the last status is shown ------------------------------------------

  /** The two counts of the statuses read the same from their columns. */
  predicate SameCounts(s: GitStatus, t: GitStatus) {
    AsI32(s.uncommitted) == AsI32(t.uncommitted) && AsI32(s.untracked) == AsI32(t.untracked)
  }

  /** Everything the repository shows, compared with what a poller that always rewrites would show. All columns but the
      counts are those of the last status; the counts are if and only if the skipped statuses have those of the first, and
      the dirty rows are if and only if none were forgotten since or there are none. */
  lemma ShowsLastIff(history: CommitHistory, db: Db, ref: Reference, name: string)
    requires Agrees(db, ref) && SeenFromGit(history, ref) && name in ref && ref[name].last.Some?
    ensures name in db.repos
    ensures var seen, shown := ref[name], Stored(db.repos[name], DirtyOf(db, name));
      var s, f := seen.last.value, seen.first.value;
      && shown.branch == s.branch && shown.origin == s.origin && shown.head == s.lastCommit && shown.recent == s.recentCommits
      && (shown.dirtyCount == AsI32(s.uncommitted) && shown.untrackedCount == AsI32(s.untracked) <==> SameCounts(f, s))
      && (shown.lines == Shown(s).lines <==> !seen.forgotten || s.dirty == map[])
      && (shown == Shown(s) <==> SameCounts(f, s) && (!seen.forgotten || s.dirty == map[]))
  {
    AgreesAt(db, ref, name);
    assert FirstAndLast(history, ref[name].first, ref[name].last);
    hide Agrees, SeenFromGit;
    WrittenShowsLastIff(history, ref[name].first.value, ref[name].last.value, ref[name].forgotten);
    hide Stored, Shown, Written, Fingerprint, FirstAndLast;
  }

  lemma WrittenShowsLastIff(history: CommitHistory, f: GitStatus, s: GitStatus, forgotten: bool)
    requires FirstAndLast(history, Some(f), Some(s))
    ensures var shown := Written(f, forgotten);
      && shown.branch == s.branch && shown.origin == s.origin && shown.head == s.lastCommit && shown.recent == s.recentCommits
      && (shown.dirtyCount == AsI32(s.uncommitted) && shown.untrackedCount == AsI32(s.untracked) <==> SameCounts(f, s))
      && (shown.lines == Shown(s).lines <==> !forgotten || s.dirty == map[])
      && (shown == Shown(s) <==> SameCounts(f, s) && (!forgotten || s.dirty == map[]))
  {
    SameContentSameView(history, f, s);
    hide FirstAndLast, AsI32, StatOf;
    assert Shown(s).lines.Keys == s.dirty.Keys;
    assert s.dirty == map[] <==> s.dirty.Keys == {};
    assert Shown(s).lines == map[] <==> Shown(s).lines.Keys == {};
  }

  lemma AgreesAt(db: Db, ref: Reference, name: string)
    requires Agrees(db, ref) && name in ref
    ensures name in db.repos && RowAgrees(db.repos[name], DirtyOf(db, name), ref[name])
  {
  }

  /** The counts are those the map of dirty paths implies. */
  predicate CountsImplied(s: GitStatus) {
    s.uncommitted == |s.dirty| && s.untracked == |Untracked(s.dirty)|
  }

  /** Over every run from empty tables on statuses with implied counts, a repository that was not renamed or deleted with
      dirty paths since its last change shows exactly the last status. */
  lemma EveryRunShowsLastStatus(history: CommitHistory, ops: seq<Op>, name: string)
    requires AllFromGit(history, ops) && forall op :: op in ops && op.Status? ==> CountsImplied(op.status)
    requires var ref := RefRun(map[], ops, true); name in ref && ref[name].last.Some?
    ensures name in DbRun(NO_TABLES, ops).repos
    ensures var seen, db := RefRun(map[], ops, true)[name], DbRun(NO_TABLES, ops);
      Stored(db.repos[name], DirtyOf(db, name)) == Shown(seen.last.value) <==> !seen.forgotten || seen.last.value.dirty == map[]
  {
    hide *;
    NoTablesAgree();
    NothingSeen(history);
    PollerRefinesReference(NO_TABLES, map[], ops);
    SameReference(history, map[], ops);
    CountsStayImplied(map[], ops);
    ShowsLastIff(history, DbRun(NO_TABLES, ops), RefRun(map[], ops, true), name);
    SeenCountsAgree(history, RefRun(map[], ops, true), name);
  }

  lemma NothingSeen(history: CommitHistory)
    ensures SeenFromGit(history, map[]) && SeenImplied(map[])
  {
  }

  lemma SeenCountsAgree(history: CommitHistory, ref: Reference, name: string)
    requires SeenFromGit(history, ref) && SeenImplied(ref) && name in ref && ref[name].last.Some?
    ensures ref[name].first.Some? && SameCounts(ref[name].first.value, ref[name].last.value)
  {
    assert FirstAndLast(history, ref[name].first, ref[name].last);
    hide FromGit, ContentOf, CountsImplied;
    SameContentSameView(history, ref[name].first.value, ref[name].last.value);
    assert Implied(ref[name].first) && Implied(ref[name].last);
    ImpliedCountsAgree(ref[name].first.value, ref[name].last.value);
  }

  lemma ImpliedCountsAgree(s: GitStatus, t: GitStatus)
    requires CountsImplied(s) && CountsImplied(t) && s.dirty == t.dirty
    ensures SameCounts(s, t)
  {
  }

  predicate Implied(s: Option<GitStatus>) {
    s.Some? ==> CountsImplied(s.value)
  }

  ghost predicate SeenImplied(ref: Reference) {
    forall name :: name in ref ==> Implied(ref[name].first) && Implied(ref[name].last)
  }

  lemma StepStaysImplied(ref: Reference, op: Op)
    requires SeenImplied(ref) && (op.Status? ==> CountsImplied(op.status))
    ensures SeenImplied(RefStep(ref, op, true))
  {
    assert op.Status? ==> Implied(Some(op.status));
    assert Implied(None);
    hide Implied, CountsImplied, Unchanged;
  }

  lemma {:induction false} CountsStayImplied(ref: Reference, ops: seq<Op>)
    requires SeenImplied(ref) && forall op :: op in ops && op.Status? ==> CountsImplied(op.status)
    ensures SeenImplied(RefRun(ref, ops, true))
    decreases ops
  {
    hide CountsImplied, SeenImplied, RefStep;
    if ops != [] {
      StepStaysImplied(ref, ops[0]);
      CountsStayImplied(RefStep(ref, ops[0], true), ops[1..]);
    }
  }

  // ---- What load_dirty_paths serves ------------------------------------------

  datatype Loaded = Loaded(revision: nat, dirty: map<string, string>, diffStats: map<string, DiffStat>)

  function Clamped(n: int): nat {
    if n < 0 then 0 else n
  }

  function LoadedFrom(row: RepoRow, rows: DirtyRows): Loaded {
    Loaded(
      row.gitRevision,
      map path | path in rows :: rows[path].status,
      map path | path in rows && rows[path].additions.Some? && rows[path].deletions.Some? ::
        DiffStat(Clamped(rows[path].additions.value), Clamped(rows[path].deletions.value)))
  }

  /** `load_dirty_paths`; `None` when the repository has no row with `exists`. */
  function LoadDirtyPaths(db: Db, name: string): Option<Loaded> {
    if name in db.repos && db.repos[name].present then Some(LoadedFrom(db.repos[name], DirtyOf(db, name))) else None
  }

  function LoadedStat(l: Loaded, path: string): DiffStat {
    if path in l.diffStats then l.diffStats[path] else DiffStat(0, 0)
  }

  predicate SmallStat(d: DiffStat) {
    d.additions < 0x8000_0000 && d.deletions < 0x8000_0000
  }

  lemma ClampedIsExactIffSmall(n: nat)
    ensures Clamped(AsI32(n)) == n <==> n < 0x8000_0000
  {
  }

  /** A repository is served exactly while it is known and present: not before it was found, and not after a scan that
      missed it or a deletion until it is found or added again. */
  lemma ServedIffPresent(db: Db, ref: Reference, name: string)
    requires Agrees(db, ref)
    ensures LoadDirtyPaths(db, name).Some? <==> name in ref && ref[name].present
  {
    hide Fingerprint, Shown, Stored;
    if name in ref {
      AgreesAt(db, ref, name);
    }
  }

  /** While the tables agree with the reference, a reader gets the number of changes so far and the paths and codes of the
      first status since the last one, each line count exactly when it fits the signed 32-bit columns; or, when they were
      forgotten, nothing. */
  lemma LoadServes(db: Db, ref: Reference, name: string)
    requires Agrees(db, ref)
    requires name in ref && ref[name].present && ref[name].first.Some?
    ensures LoadDirtyPaths(db, name).Some?
    ensures var s, l := ref[name].first.value, LoadDirtyPaths(db, name).value;
      && l.revision == ref[name].changes
      && l.dirty == (if ref[name].forgotten then map[] else s.dirty)
      && (!ref[name].forgotten ==>
            forall path :: path in s.dirty ==> (LoadedStat(l, path) == StatOf(s, path) <==> SmallStat(StatOf(s, path))))
  {
    AgreesAt(db, ref, name);
    RowServes(db.repos[name], DirtyOf(db, name), ref[name]);
    hide Agrees, RowAgrees;
  }

  lemma RowServes(row: RepoRow, rows: DirtyRows, seen: Seen)
    requires RowAgrees(row, rows, seen) && seen.first.Some?
    ensures var s, l := seen.first.value, LoadedFrom(row, rows);
      && l.revision == seen.changes
      && l.dirty == (if seen.forgotten then map[] else s.dirty)
      && (!seen.forgotten ==>
            forall path :: path in s.dirty ==> (LoadedStat(l, path) == StatOf(s, path) <==> SmallStat(StatOf(s, path))))
  {
    hide Fingerprint, StatOf, AsI32, LineOf;
    var s := seen.first.value;
    assert LinesOf(rows) == (if seen.forgotten then map[] else Shown(s).lines) && PairedStats(rows);
    hide RowAgrees;
    assert rows.Keys == LinesOf(rows).Keys;
    if seen.forgotten {
      assert rows.Keys == {};
    } else {
      LinesServe(row, rows, s);
    }
  }

  lemma LinesServe(row: RepoRow, rows: DirtyRows, s: GitStatus)
    requires LinesOf(rows) == Shown(s).lines && PairedStats(rows)
    ensures var l := LoadedFrom(row, rows);
      && l.dirty == s.dirty
      && forall path :: path in s.dirty ==> (LoadedStat(l, path) == StatOf(s, path) <==> SmallStat(StatOf(s, path)))
  {
    hide StatOf, AsI32, LineOf;
    assert rows.Keys == LinesOf(rows).Keys == s.dirty.Keys;
    forall path | path in s.dirty
      ensures rows[path].status == s.dirty[path]
      ensures LoadedStat(LoadedFrom(row, rows), path) == StatOf(s, path) <==> SmallStat(StatOf(s, path))
    {
      LoadedLine(rows, s, path);
    }
    hide LinesOf, Shown, LoadedStat;
    assert LoadedFrom(row, rows).dirty == s.dirty;
  }

  lemma LoadedLine(rows: DirtyRows, s: GitStatus, path: string)
    requires PairedStats(rows) && path in rows && path in s.dirty && LinesOf(rows)[path] == Shown(s).lines[path]
    ensures rows[path].status == s.dirty[path]
    ensures var stat := if rows[path].additions.Some? && rows[path].deletions.Some?
                        then DiffStat(Clamped(rows[path].additions.value), Clamped(rows[path].deletions.value))
                        else DiffStat(0, 0);
            stat == StatOf(s, path) <==> SmallStat(StatOf(s, path))
  {
    hide AsI32, StatOf;
    ClampedIsExactIffSmall(StatOf(s, path).additions);
    ClampedIsExactIffSmall(StatOf(s, path).deletions);
  }

  /** From empty tables, over every run, renames and revivals included: the revision a reader of a present repository gets
      counts its changes of content, and the paths are those git last reported if and only if there are none or the
      repository was not renamed or deleted since the last change. */
  lemma EveryRunServesLastStatus(history: CommitHistory, ops: seq<Op>, name: string)
    requires AllFromGit(history, ops)
    requires var ref := RefRun(map[], ops, true); name in ref && ref[name].present && ref[name].last.Some?
    ensures var seen, loaded := RefRun(map[], ops, true)[name], LoadDirtyPaths(DbRun(NO_TABLES, ops), name);
      && loaded.Some?
      && loaded.value.revision == seen.changes
      && loaded.value.dirty == (if seen.forgotten then map[] else seen.last.value.dirty)
      && (loaded.value.dirty == seen.last.value.dirty <==> !seen.forgotten || seen.last.value.dirty == map[])
  {
    hide AllFromGit;
    NoTablesAgree();
    PollerRefinesReference(NO_TABLES, map[], ops);
    SameReference(history, map[], ops);
    var ref := RefRun(map[], ops, true);
    hide DbRun, RefRun, Agrees, FromGit, Shown, LoadDirtyPaths;
    SameContentSameView(history, ref[name].first.value, ref[name].last.value);
    hide SeenFromGit;
    LoadServes(DbRun(NO_TABLES, ops), ref, name);
  }

  // ---- Rename and delete forget dirty rows -----------------------------------

  /** A repository shows the dirty rows of its last status. */
  ghost predicate ShowsLines(db: Db, ref: Reference, name: string) {
    && name in db.repos && name in ref && ref[name].last.Some?
    && Stored(db.repos[name], DirtyOf(db, name)).lines == Shown(ref[name].last.value).lines
  }

  /** Renaming leaves the dirty rows of the last status shown exactly when it has none. */
  lemma RenameAgreesIffClean(history: CommitHistory, db: Db, ref: Reference, oldName: string, newName: string, path: string)
    requires Agrees(db, ref) && SeenFromGit(history, ref) && oldName in ref && ref[oldName].last.Some?
    ensures ShowsLines(Renamed(db, oldName, newName, path), RefStep(ref, Rename(oldName, newName, path), false), newName)
       <==> ref[oldName].last.value.dirty == map[]
  {
    var ref' := RefStep(ref, Rename(oldName, newName, path), false);
    RenamedSeen(history, ref, oldName, newName, path);
    RenameAgrees(db, ref, oldName, newName, path);
    hide Agrees, Renamed, RefStep, SeenFromGit, Stored, Shown;
    ShowsLastIff(history, Renamed(db, oldName, newName, path), ref', newName);
  }

  lemma RenamedSeen(history: CommitHistory, ref: Reference, oldName: string, newName: string, path: string)
    requires SeenFromGit(history, ref) && oldName in ref
    ensures var ref' := RefStep(ref, Rename(oldName, newName, path), false);
      SeenFromGit(history, ref') && newName in ref' && ref'[newName].forgotten && ref'[newName].last == ref[oldName].last
  {
    hide FirstAndLast;
  }

  /** And so does deleting it and adding it again. */
  lemma ReviveAgreesIffClean(history: CommitHistory, db: Db, ref: Reference, name: string, path: string, again: string)
    requires Agrees(db, ref) && SeenFromGit(history, ref) && name in ref && ref[name].last.Some?
    ensures ShowsLines(Upserted(MarkedDeleted(db, name, path), name, again),
                       RefStep(RefStep(ref, Delete(name, path), false), Upsert(name, again), false), name)
       <==> ref[name].last.value.dirty == map[]
  {
    var gone, away := MarkedDeleted(db, name, path), RefStep(ref, Delete(name, path), false);
    var back, seen := Upserted(gone, name, again), RefStep(away, Upsert(name, again), false);
    DeleteAgrees(db, ref, name, path);
    UpsertAgrees(gone, away, name, again);
    RevivedSeen(history, ref, name, path, again);
    hide Agrees, MarkedDeleted, Upserted, RefStep, SeenFromGit, Stored, Shown;
    ShowsLastIff(history, back, seen, name);
  }

  lemma RevivedSeen(history: CommitHistory, ref: Reference, name: string, path: string, again: string)
    requires SeenFromGit(history, ref) && name in ref
    ensures var seen := RefStep(RefStep(ref, Delete(name, path), false), Upsert(name, again), false);
      SeenFromGit(history, seen) && name in seen && seen[name].forgotten && seen[name].last == ref[name].last
  {
    hide FirstAndLast;
  }

  /** After a rename or a delete and revival, the next status is shown correctly exactly when it has no
      dirty paths or its fingerprint is new: an unchanged dirty repository keeps showing no dirty rows. */
  lemma ForgottenRowsReturnIffChanged(db: Db, name: string, s: GitStatus)
    requires name in db.repos && DirtyOf(db, name) == map[]
    ensures DirtyOf(Reconciled(db, name, s), name) == RowsFor(s)
       <==> s.dirty == map[] || db.repos[name].fingerprint != Fingerprint(ContentOf(s))
  {
    hide Fingerprint, ContentOf;
    assert RowsFor(s).Keys == s.dirty.Keys;
    assert s.dirty == map[] <==> s.dirty.Keys == {};
    assert RowsFor(s) == map[] <==> RowsFor(s).Keys == {};
  }

  /** Both lifecycle steps lead there, keeping the stored fingerprint. */
  lemma LifecycleForgets(db: Db, oldName: string, newName: string, path: string)
    requires oldName in db.repos
    ensures DirtyOf(Renamed(db, oldName, newName, path), newName) == map[]
    ensures var renamed := Renamed(db, oldName, newName, path);
      && newName in renamed.repos && renamed.repos[newName].present
      && renamed.repos[newName].fingerprint == db.repos[oldName].fingerprint
    ensures var revived := Upserted(MarkedDeleted(db, oldName, path), oldName, path);
      && DirtyOf(revived, oldName) == map[]
      && oldName in revived.repos && revived.repos[oldName].present
      && revived.repos[oldName].fingerprint == db.repos[oldName].fingerprint
      && revived.repos[oldName].dirtyCount == db.repos[oldName].dirtyCount
  {
  }

  /** A run that fails, for every dirty status: add the repository, read the status, rename it, read the same
      status again. The paths are dirty and none is served. */
  lemma RenameHidesDirtyPaths(name: string, newName: string, path: string, newPath: string, s: GitStatus)
    requires name != newName && s.dirty != map[]
    ensures var run := [Upsert(name, path), Status(name, s), Rename(name, newName, newPath), Status(newName, s)];
      var loaded := LoadDirtyPaths(DbRun(NO_TABLES, run), newName);
      loaded.Some? && loaded.value.dirty == map[]
  {
    var s1 := Upserted(NO_TABLES, name, path);
    var s2 := Reconciled(s1, name, s);
    var s3 := Renamed(s2, name, newName, newPath);
    hide Fingerprint, Reconciled, Renamed, Upserted, LoadDirtyPaths, DirtyOf, DbRun;
    FirstStatus(name, path, s);
    LifecycleForgets(s2, name, newName, newPath);
    var run := [Upsert(name, path), Status(name, s), Rename(name, newName, newPath), Status(newName, s)];
    RunOfFour(NO_TABLES, run);
    UnchangedStaysForgotten(s3, newName, s);
    assert DbRun(NO_TABLES, run) == Reconciled(s3, newName, s);
  }

  /** The same for deleting it and adding it again. */
  lemma RevivalHidesDirtyPaths(name: string, path: string, s: GitStatus)
    requires s.dirty != map[]
    ensures var run := [Upsert(name, path), Status(name, s), Delete(name, path), Upsert(name, path)];
      var loaded := LoadDirtyPaths(DbStep(DbRun(NO_TABLES, run), Status(name, s)), name);
      loaded.Some? && loaded.value.dirty == map[]
  {
    var s2 := Reconciled(Upserted(NO_TABLES, name, path), name, s);
    var s4 := Upserted(MarkedDeleted(s2, name, path), name, path);
    hide Fingerprint, Reconciled, MarkedDeleted, Upserted, LoadDirtyPaths, DirtyOf, DbRun;
    FirstStatus(name, path, s);
    LifecycleForgets(s2, name, name + "'", path);
    var run := [Upsert(name, path), Status(name, s), Delete(name, path), Upsert(name, path)];
    RunOfFour(NO_TABLES, run);
    UnchangedStaysForgotten(s4, name, s);
    assert DbRun(NO_TABLES, run) == s4;
  }

  lemma FirstStatus(name: string, path: string, s: GitStatus)
    ensures var db := Reconciled(Upserted(NO_TABLES, name, path), name, s);
      name in db.repos && db.repos[name].fingerprint == Fingerprint(ContentOf(s))
  {
    FingerprintIsNotBlank(ContentOf(s));
  }

  lemma RunOfFour(db: Db, run: seq<Op>)
    requires |run| == 4
    ensures DbRun(db, run) == DbStep(DbStep(DbStep(DbStep(db, run[0]), run[1]), run[2]), run[3])
  {
    assert run[1..][0] == run[1] && run[1..][1..] == run[2..] && run[2..][0] == run[2] && run[2..][1..] == run[3..];
    assert run[3..] == [run[3]] && run[3..][1..] == [];
    hide DbStep;
    var s1 := DbStep(db, run[0]);
    var s2 := DbStep(s1, run[1]);
    var s3 := DbStep(s2, run[2]);
    assert DbRun(s3, run[3..]) == DbStep(s3, run[3]);
    assert DbRun(s2, run[2..]) == DbRun(s3, run[3..]);
    assert DbRun(s1, run[1..]) == DbRun(s2, run[2..]);
  }

  lemma UnchangedStaysForgotten(db: Db, name: string, s: GitStatus)
    requires name in db.repos && db.repos[name].present && DirtyOf(db, name) == map[]
    requires db.repos[name].fingerprint == Fingerprint(ContentOf(s))
    ensures var loaded := LoadDirtyPaths(Reconciled(db, name, s), name);
      loaded.Some? && loaded.value.dirty == map[]
  {
  }

  // ---- Runs in which skipping a write loses something ---------------------------

  /** From empty tables: of two statuses with one fingerprint the first is shown, whatever they hold. */
  lemma SecondStatusIsSkipped(name: string, path: string, s: GitStatus, t: GitStatus)
    requires Fingerprint(ContentOf(s)) == Fingerprint(ContentOf(t))
    ensures var db := DbRun(NO_TABLES, [Upsert(name, path), Status(name, s), Status(name, t)]);
      && name in db.repos && Stored(db.repos[name], DirtyOf(db, name)) == Shown(s)
      && LoadDirtyPaths(db, name).Some? && LoadDirtyPaths(db, name).value.dirty == s.dirty
  {
    var run := [Upsert(name, path), Status(name, s), Status(name, t)];
    assert run[1..] == [Status(name, s), Status(name, t)] && run[1..][1..] == [Status(name, t)] && [Status(name, t)][1..] == [];
    NoTablesAgree();
    PollerRefinesReference(NO_TABLES, map[], run);
    var ref1 := RefStep(map[], run[0], false);
    var ref2 := RefStep(ref1, run[1], false);
    var ref3 := RefStep(ref2, run[2], false);
    assert ref3[name] == Seen(path, true, 1, Some(s), Some(t), false, None);
    hide DbRun, Agrees, RefStep, Fingerprint, Shown, LoadDirtyPaths, Stored;
    assert RefRun(ref3, [], false) == ref3;
    assert RefRun(ref2, [run[2]], false) == RefRun(ref3, [], false);
    assert RefRun(ref1, run[1..], false) == RefRun(ref2, [run[2]], false);
    assert RefRun(map[], run, false) == RefRun(ref1, run[1..], false);
    AgreesAt(DbRun(NO_TABLES, run), ref3, name);
    LoadServes(DbRun(NO_TABLES, run), ref3, name);
  }

  /** So the dirty paths served can be those of another status: for every status with two or more dirty paths there is
      one with a single path that hides it. */
  lemma NewlinePathHidesStatus(name: string, path: string, s: GitStatus, t: GitStatus)
    requires |ContentOf(t).entries| >= 2 && ContentOf(s) == Merged(ContentOf(t))
    ensures var db := DbRun(NO_TABLES, [Upsert(name, path), Status(name, s), Status(name, t)]);
      && LoadDirtyPaths(db, name).Some? && LoadDirtyPaths(db, name).value.dirty == s.dirty != t.dirty
  {
    assert ContentOf(t).entries.Keys == t.dirty.Keys && ContentOf(s).entries.Keys == s.dirty.Keys;
    assert |t.dirty| == |t.dirty.Keys| == |ContentOf(t).entries| >= 2;
    NewlinePathsCollide(ContentOf(t));
    assert |Merged(ContentOf(t)).entries| == 1;
    assert |s.dirty.Keys| == |s.dirty| == 1;
    SecondStatusIsSkipped(name, path, s, t);
  }

  /** A status with nothing but what the records say. */
  function StatusOf(rs: seq<StatusRecord>): GitStatus {
    var p := ParseOf(rs);
    GitStatus(None, None, p.uncommitted, p.untracked, None, [], p.dirty, map[])
  }

  /** And without any newline the counts shown are those of the first status read with the map. */
  lemma FirstCountsAreShown(name: string, path: string, rs: seq<StatusRecord>, qs: seq<StatusRecord>)
    requires ParseOf(rs).dirty == ParseOf(qs).dirty
    ensures var db := DbRun(NO_TABLES, [Upsert(name, path), Status(name, StatusOf(rs)), Status(name, StatusOf(qs))]);
      && ContentOf(StatusOf(rs)) == ContentOf(StatusOf(qs)) && name in db.repos
      && db.repos[name].dirtyCount == AsI32(ParseOf(rs).uncommitted)
  {
    var s, t := StatusOf(rs), StatusOf(qs);
    assert ContentOf(s).entries == ContentOf(t).entries;
    hide ParseOf, DbRun, Fingerprint, LoadDirtyPaths;
    SecondStatusIsSkipped(name, path, s, t);
  }

  /** Here three paths are shown as changed where git, read last, reports two. */
  lemma StaleCountsAreShown(name: string, path: string)
    ensures var db := DbRun(NO_TABLES, [Upsert(name, path), Status(name, StatusOf(REPEATED)), Status(name, StatusOf(UNREPEATED))]);
      name in db.repos && db.repos[name].dirtyCount == 3 && StatusOf(UNREPEATED).uncommitted == 2
  {
    hide ParseOf, DbRun, ContentOf;
    RepeatedReading();
    FirstCountsAreShown(name, path, REPEATED, UNREPEATED);
  }
}
