/**
 * Meta-repositories: named groups of repositories with a primary one (backend/src/meta_repos.rs), under create, update,
 * delete, and the rename and deletion of member repositories (backend/src/repo_lifecycle.rs).
 *
 * The member table is a plain set of rows: that no repository is in two groups is proved from the checks, not taken
 * from the table's unique key. Transactions run one at a time.
 */
module MetaRepos {
  import opened Wrappers
  import opened Text

  type GroupId = nat

  datatype Group = Group(name: string, primary: string)

  datatype Member = Member(group: GroupId, repo: string)

  datatype Db = Db(groups: map<GroupId, Group>, members: set<Member>)

  datatype SaveInput = SaveInput(name: string, members: seq<string>, primary: string)

  datatype MetaRepoError = NotFound | BadRequest

  const MAX_NAME_CHARS := 80

  // ---- Input -----------------------------------------------------------------

  /** `LOWER(name)` on ASCII letters. */
  function Lower(s: string): string {
    if s == "" then "" else [if 'A' <= s[0] <= 'Z' then s[0] + ' ' else s[0]] + Lower(s[1..])
  }

  predicate IsControl(c: char) {
    c < ' ' || '\U{7f}' <= c <= '\U{9f}'
  }

  predicate ValidName(name: string) {
    name != "" && |name| <= MAX_NAME_CHARS && forall i :: 0 <= i < |name| ==> !IsControl(name[i])
  }

  /** `workspace::is_valid_repo_name` */
  predicate ValidRepoName(name: string) {
    && name != "" && name[0] != '.' && '/' !in name && '\\' !in name
    && forall i :: 0 <= i < |name| - 1 ==> !(name[i] == '.' && name[i + 1] == '.')
  }

  datatype Normalized = Normalized(name: string, members: set<string>, primary: string)

  function TrimmedMembers(raw: seq<string>): seq<string> {
    if raw == [] then [] else TrimmedMembers(raw[..|raw| - 1]) + [Trim(raw[|raw| - 1])]
  }

  function Elements(s: seq<string>): set<string> {
    set x | x in s
  }

  /** What `normalize_input` demands: a good name, good and distinct members, at least one, the primary among them. */
  predicate Acceptable(input: SaveInput) {
    var members := TrimmedMembers(input.members);
    && ValidName(Trim(input.name))
    && GoodMembers(members)
    && members != []
    && Trim(input.primary) in members
  }

  predicate GoodMembers(members: seq<string>) {
    (forall m :: m in members ==> ValidRepoName(m)) && |Elements(members)| == |members|
  }

  function NormalForm(input: SaveInput): Normalized {
    Normalized(Trim(input.name), Elements(TrimmedMembers(input.members)), Trim(input.primary))
  }

  /** `normalize_input`; the order of the members is not kept. */
  method NormalizeInput(input: SaveInput) returns (r: Result<Normalized, MetaRepoError>)
    ensures r == if Acceptable(input) then Ok(NormalForm(input)) else Err(BadRequest)
  {
    var name := Trim(input.name);
    if !ValidName(name) {
      return Err(BadRequest);
    }
    var members := NormalizeMembers(input.members);
    if members.Err? {
      return Err(BadRequest);
    }
    var primary := Trim(input.primary);
    if members.value == {} || primary !in members.value {
      return Err(BadRequest);
    }
    return Ok(Normalized(name, members.value, primary));
  }

  /** The loop over the raw names with its set of names seen. */
  method NormalizeMembers(raw: seq<string>) returns (r: Result<set<string>, MetaRepoError>)
    ensures r == if GoodMembers(TrimmedMembers(raw)) then Ok(Elements(TrimmedMembers(raw))) else Err(BadRequest)
  {
    ghost var all := TrimmedMembers(raw);
    TrimmedMembersPointwise(raw);
    hide Trim, ValidRepoName, TrimmedMembers;
    var seen: set<string> := {};
    for i := 0 to |raw|
      invariant seen == Elements(all[..i]) && |seen| == i
      invariant forall k :: 0 <= k < i ==> ValidRepoName(all[k])
    {
      var repo := Trim(raw[i]);
      assert repo == all[i] && repo in all;
      if !ValidRepoName(repo) {
        return Err(BadRequest);
      }
      if repo in seen {
        RepeatShrinks(all, i);
        return Err(BadRequest);
      }
      seen := seen + {repo};
      assert all[..i + 1] == all[..i] + [repo];
    }
    assert all[..|all|] == all;
    return Ok(seen);
  }

  lemma {:induction false} TrimmedMembersPointwise(raw: seq<string>)
    ensures |TrimmedMembers(raw)| == |raw|
    ensures forall i :: 0 <= i < |raw| ==> TrimmedMembers(raw)[i] == Trim(raw[i])
  {
    hide Trim;
    if raw != [] {
      TrimmedMembersPointwise(raw[..|raw| - 1]);
    }
  }

  lemma {:induction false} ElementsBound(s: seq<string>)
    ensures |Elements(s)| <= |s|
  {
    if s != [] {
      ElementsBound(s[1..]);
      assert Elements(s) == {s[0]} + Elements(s[1..]);
    }
  }

  /** A repeated element leaves fewer distinct ones. */
  lemma RepeatShrinks(s: seq<string>, i: nat)
    requires i < |s| && s[i] in s[..i]
    ensures |Elements(s)| < |s|
  {
    var rest := s[..i] + s[i + 1..];
    ElementsBound(rest);
    assert Elements(s) == Elements(rest) by {
      forall x ensures x in Elements(s) <==> x in Elements(rest) {
        if x in Elements(s) {
          var k :| 0 <= k < |s| && s[k] == x;
          assert x in rest by {
            if k < i { assert rest[k] == x; } else if k > i { assert rest[k - 1] == x; }
          }
        }
      }
    }
  }

  // ---- Checks ----------------------------------------------------------------

  predicate NameTaken(db: Db, name: string, except: Option<GroupId>) {
    exists id :: id in db.groups && Some(id) != except && Lower(db.groups[id].name) == Lower(name)
  }

  predicate RepoTaken(db: Db, repos: set<string>, except: Option<GroupId>) {
    exists m :: m in db.members && m.repo in repos && Some(m.group) != except
  }

  /** What `create` and `update` check inside their transaction; `present` are the repositories that exist. */
  predicate Available(db: Db, present: set<string>, n: Normalized, except: Option<GroupId>) {
    !NameTaken(db, n.name, except) && n.members <= present && !RepoTaken(db, n.members, except)
  }

  function MembersOf(db: Db, id: GroupId): set<string> {
    set m | m in db.members && m.group == id :: m.repo
  }

  function Rows(id: GroupId, repos: set<string>): set<Member> {
    set r | r in repos :: Member(id, r)
  }

  function RowsElsewhere(members: set<Member>, id: GroupId): set<Member> {
    set m | m in members && m.group != id
  }

  // ---- Operations ------------------------------------------------------------

  function Created(db: Db, id: GroupId, n: Normalized): Db {
    Db(db.groups[id := Group(n.name, n.primary)], db.members + Rows(id, n.members))
  }

  function Updated(db: Db, id: GroupId, n: Normalized): Db {
    Db(db.groups[id := Group(n.name, n.primary)], RowsElsewhere(db.members, id) + Rows(id, n.members))
  }

  function Deleted(db: Db, id: GroupId): Db {
    Db(db.groups - {id}, RowsElsewhere(db.members, id))
  }

  function RenamedMember(m: Member, oldName: string, newName: string): Member {
    if m.repo == oldName then m.(repo := newName) else m
  }

  /** `rename_repo_references` */
  function RepoRenamed(db: Db, oldName: string, newName: string): Db {
    Db(map id | id in db.groups ::
         if db.groups[id].primary == oldName then db.groups[id].(primary := newName) else db.groups[id],
       set m | m in db.members :: RenamedMember(m, oldName, newName))
  }

  /** `ORDER BY LOWER(repo_name), repo_name` */
  predicate Before(a: string, b: string) {
    Less(Lower(a), Lower(b)) || (Lower(a) == Lower(b) && Less(a, b))
  }

  predicate IsFirst(repos: set<string>, x: string) {
    x in repos && forall y :: y in repos ==> x == y || Before(x, y)
  }

  lemma {:induction false} FirstExists(repos: set<string>)
    requires repos != {}
    ensures exists x :: x in repos && IsFirst(repos, x)
  {
    hide Lower, Less;
    var x :| x in repos;
    if repos == {x} {
      assert IsFirst(repos, x);
    } else {
      FirstExists(repos - {x});
      var y :| y in repos - {x} && IsFirst(repos - {x}, y);
      BeforeTotal(x, y);
      if Before(y, x) {
        assert IsFirst(repos, y);
      } else {
        forall z | z in repos && z != x ensures Before(x, z) {
          if z != y { BeforeTransitive(x, y, z); }
        }
        assert IsFirst(repos, x);
      }
    }
  }

  lemma BeforeTotal(a: string, b: string)
    ensures Before(a, b) || a == b || Before(b, a)
    ensures Before(a, b) ==> !Before(b, a) && a != b
  {
    LessTotal(Lower(a), Lower(b));
    LessTotal(a, b);
  }

  lemma BeforeTransitive(a: string, b: string, c: string)
    requires Before(a, b) && Before(b, c)
    ensures Before(a, c)
  {
    if Less(Lower(a), Lower(b)) && Less(Lower(b), Lower(c)) {
      LessTransitive(Lower(a), Lower(b), Lower(c));
    } else if Less(a, b) && Less(b, c) {
      LessTransitive(a, b, c);
    }
  }

  ghost function First(repos: set<string>): (x: string)
    requires repos != {}
    ensures IsFirst(repos, x)
  {
    FirstExists(repos);
    var x :| x in repos && IsFirst(repos, x);
    x
  }

  lemma FirstIsUnique(repos: set<string>, x: string)
    requires IsFirst(repos, x)
    ensures First(repos) == x
  {
    hide Before;
    BeforeTotal(First(repos), x);
  }

  /** `remove_repo_membership`: an emptied group goes, a lost primary passes to the first remaining member. */
  ghost function RepoRemoved(db: Db, repo: string): Db {
    if !exists m :: m in db.members && m.repo == repo then db
    else
      var row :| row in db.members && row.repo == repo;
      var members := set m | m in db.members && m.repo != repo;
      var left := MembersOf(Db(db.groups, members), row.group);
      if row.group !in db.groups then db
      else if left == {} then Db(db.groups - {row.group}, RowsElsewhere(members, row.group))
      else if db.groups[row.group].primary == repo then
        Db(db.groups[row.group := db.groups[row.group].(primary := First(left))], members)
      else Db(db.groups, members)
  }

  // ---- Invariant -------------------------------------------------------------

  ghost predicate RowsValid(db: Db) {
    && (forall m :: m in db.members ==> m.group in db.groups)
    && (forall m, n :: m in db.members && n in db.members && m.repo == n.repo ==> m == n)
  }

  ghost predicate PrimariesValid(db: Db) {
    forall id :: id in db.groups ==> Member(id, db.groups[id].primary) in db.members
  }

  ghost predicate NamesDiffer(db: Db) {
    forall id, other | id in db.groups && other in db.groups ::
      Lower(db.groups[id].name) == Lower(db.groups[other].name) ==> id == other
  }

  ghost predicate Inv(db: Db) {
    RowsValid(db) && PrimariesValid(db) && NamesDiffer(db)
  }

  // ---- Requests --------------------------------------------------------------

  datatype Op =
    | Create(id: GroupId, input: SaveInput, present: set<string>)
    | Update(id: GroupId, input: SaveInput, present: set<string>)
    | Delete(id: GroupId)
    | RenameRepo(oldName: string, newName: string)   // a rename the lifecycle checks let through
    | DeleteRepo(repo: string)

  /** `create` draws a new id; a rename needs a name that is no member (`ensure_repo_name_available`). */
  predicate Allowed(db: Db, op: Op) {
    match op
    case Create(id, _, _) => id !in db.groups
    case RenameRepo(oldName, newName) => oldName != newName && forall m :: m in db.members ==> m.repo != newName
    case _ => true
  }

  predicate Accepted(db: Db, op: Op) {
    match op
    case Create(_, input, present) => Acceptable(input) && Available(db, present, NormalForm(input), None)
    case Update(id, input, present) =>
      Acceptable(input) && id in db.groups && Available(db, present, NormalForm(input), Some(id))
    case Delete(id) => id in db.groups
    case _ => true
  }

  ghost function Next(db: Db, op: Op): Db {
    if !Accepted(db, op) then db
    else match op
      case Create(id, input, _) => Created(db, id, NormalForm(input))
      case Update(id, input, _) => Updated(db, id, NormalForm(input))
      case Delete(id) => Deleted(db, id)
      case RenameRepo(oldName, newName) => RepoRenamed(db, oldName, newName)
      case DeleteRepo(repo) => RepoRemoved(db, repo)
  }

  /** The tables and the statements that write them. */
  class MetaRepoStore {
    var groups: map<GroupId, Group>
    var members: set<Member>

    ghost function Tables(): Db
      reads this
    {
      Db(groups, members)
    }

    constructor ()
      ensures Tables() == Db(map[], {})
    {
      groups := map[];
      members := {};
    }

    method Create(id: GroupId, input: SaveInput, present: set<string>) returns (r: Result<GroupId, MetaRepoError>)
      requires Allowed(Tables(), Op.Create(id, input, present))
      modifies this
      ensures Tables() == Next(old(Tables()), Op.Create(id, input, present))
      ensures r == if Accepted(old(Tables()), Op.Create(id, input, present)) then Ok(id) else Err(BadRequest)
    {
      hide Acceptable, NormalForm, Lower;
      var input' := NormalizeInput(input);
      if input'.Err? {
        return Err(BadRequest);
      }
      var n := input'.value;
      if NameTaken(Db(groups, members), n.name, None) || !(n.members <= present)
         || RepoTaken(Db(groups, members), n.members, None) {
        return Err(BadRequest);
      }
      groups := groups[id := Group(n.name, n.primary)];
      InsertMembers(id, n.members);
      return Ok(id);
    }

    method InsertMembers(id: GroupId, repos: set<string>)
      modifies this`members
      ensures members == old(members) + Rows(id, repos)
    {
      var todo := repos;
      while todo != {}
        invariant todo <= repos
        invariant members == old(members) + Rows(id, repos - todo)
        decreases todo
      {
        var repo :| repo in todo;
        members := members + {Member(id, repo)};
        todo := todo - {repo};
      }
      assert repos - todo == repos;
    }

    method Update(id: GroupId, input: SaveInput, present: set<string>) returns (r: Result<GroupId, MetaRepoError>)
      modifies this
      ensures Tables() == Next(old(Tables()), Op.Update(id, input, present))
      ensures r == if Accepted(old(Tables()), Op.Update(id, input, present)) then Ok(id)
                   else if Acceptable(input) && id !in old(groups) then Err(NotFound) else Err(BadRequest)
    {
      hide Acceptable, NormalForm, Lower;
      var input' := NormalizeInput(input);
      if input'.Err? {
        return Err(BadRequest);
      }
      if id !in groups {
        return Err(NotFound);
      }
      var n := input'.value;
      if NameTaken(Db(groups, members), n.name, Some(id)) || !(n.members <= present)
         || RepoTaken(Db(groups, members), n.members, Some(id)) {
        return Err(BadRequest);
      }
      members := RowsElsewhere(members, id);
      InsertMembers(id, n.members);
      groups := groups[id := Group(n.name, n.primary)];
      return Ok(id);
    }

    method Delete(id: GroupId) returns (r: Result<GroupId, MetaRepoError>)
      modifies this
      ensures Tables() == Next(old(Tables()), Op.Delete(id))
      ensures r == if id in old(groups) then Ok(id) else Err(NotFound)
    {
      if id !in groups {
        return Err(NotFound);
      }
      groups := groups - {id};
      members := RowsElsewhere(members, id);
      return Ok(id);
    }

    method RenameRepoReferences(oldName: string, newName: string)
      modifies this
      ensures Tables() == Next(old(Tables()), RenameRepo(oldName, newName))
    {
      members := set m | m in members :: RenamedMember(m, oldName, newName);
      groups := map id | id in groups ::
        if groups[id].primary == oldName then groups[id].(primary := newName) else groups[id];
    }

    method RemoveRepoMembership(repo: string)
      requires Inv(Tables())
      modifies this
      ensures Tables() == Next(old(Tables()), DeleteRepo(repo))
    {
      hide Lower, PrimariesValid, NamesDiffer;
      if !exists m :: m in members && m.repo == repo {
        return;
      }
      var row :| row in members && row.repo == repo;
      var wasPrimary := groups[row.group].primary == repo;
      members := set m | m in members && m.repo != repo;
      var left := MembersOf(Db(groups, members), row.group);
      if left == {} {
        groups := groups - {row.group};
        members := RowsElsewhere(members, row.group);
      } else if wasPrimary {
        FirstExists(left);
        var next :| next in left && IsFirst(left, next);
        FirstIsUnique(left, next);
        groups := groups[row.group := groups[row.group].(primary := next)];
      }
    }
  }

  // ---- What every request keeps ----------------------------------------------

  lemma CreateKeepsInv(db: Db, id: GroupId, input: SaveInput, present: set<string>)
    requires Inv(db) && Allowed(db, Create(id, input, present)) && Accepted(db, Create(id, input, present))
    ensures Inv(Created(db, id, NormalForm(input)))
  {
    hide Lower, Trim, ValidName, TrimmedMembers;
    assert Member(id, NormalForm(input).primary) in Rows(id, NormalForm(input).members);
  }

  lemma UpdateKeepsInv(db: Db, id: GroupId, input: SaveInput, present: set<string>)
    requires Inv(db) && Accepted(db, Update(id, input, present))
    ensures Inv(Updated(db, id, NormalForm(input)))
  {
    hide Lower, Trim, ValidName, TrimmedMembers;
    assert Member(id, NormalForm(input).primary) in Rows(id, NormalForm(input).members);
  }

  lemma DeleteKeepsInv(db: Db, id: GroupId)
    requires Inv(db)
    ensures Inv(Deleted(db, id))
  {
    hide Lower;
  }

  /** Renaming to a name no row has: the rows of the new name are those the old one had, and the others stay. */
  lemma RenamedRows(db: Db, oldName: string, newName: string)
    requires Allowed(db, RenameRepo(oldName, newName))
    ensures forall m :: m in RepoRenamed(db, oldName, newName).members <==>
      if m.repo == newName then m.(repo := oldName) in db.members else m.repo != oldName && m in db.members
  {
    var db' := RepoRenamed(db, oldName, newName);
    forall m: Member | m.repo == newName && m.(repo := oldName) in db.members ensures m in db'.members {
      assert RenamedMember(m.(repo := oldName), oldName, newName) == m;
    }
    forall m: Member | m.repo != newName && m.repo != oldName && m in db.members ensures m in db'.members {
      assert RenamedMember(m, oldName, newName) == m;
    }
  }

  lemma RenamedRowsAreValid(db: Db, oldName: string, newName: string)
    requires RowsValid(db) && Allowed(db, RenameRepo(oldName, newName))
    ensures RowsValid(RepoRenamed(db, oldName, newName))
  {
    RenamedRows(db, oldName, newName);
    assert RepoRenamed(db, oldName, newName).groups.Keys == db.groups.Keys;
    hide RepoRenamed;
    var rows := RepoRenamed(db, oldName, newName).members;
    forall m, n | m in rows && n in rows && m.repo == n.repo ensures m == n {
      if m.repo == newName {
        assert m.(repo := oldName) == n.(repo := oldName);
      }
    }
  }

  lemma RenamedPrimaries(db: Db, oldName: string, newName: string)
    requires PrimariesValid(db)
    ensures PrimariesValid(RepoRenamed(db, oldName, newName))
  {
    var db' := RepoRenamed(db, oldName, newName);
    forall id | id in db'.groups ensures Member(id, db'.groups[id].primary) in db'.members {
      assert RenamedMember(Member(id, db.groups[id].primary), oldName, newName) in db'.members;
    }
  }

  lemma RenameKeepsInv(db: Db, oldName: string, newName: string)
    requires Inv(db) && Allowed(db, RenameRepo(oldName, newName))
    ensures Inv(RepoRenamed(db, oldName, newName))
  {
    hide RowsValid, PrimariesValid, Lower;
    RenamedRowsAreValid(db, oldName, newName);
    RenamedPrimaries(db, oldName, newName);
  }

  lemma RemoveKeepsInv(db: Db, repo: string)
    requires Inv(db)
    ensures Inv(RepoRemoved(db, repo))
  {
    hide Lower, IsFirst;
    if row :| row in db.members && row.repo == repo {
      var members := set m | m in db.members && m.repo != repo;
      var left := MembersOf(Db(db.groups, members), row.group);
      if left != {} {
        assert First(left) in left by { FirstInside(left); }
        assert Member(row.group, First(left)) in members;
      }
    }
  }

  lemma FirstInside(repos: set<string>)
    requires repos != {}
    ensures First(repos) in repos
  {
  }

  lemma StepKeepsInv(db: Db, op: Op)
    requires Inv(db) && Allowed(db, op)
    ensures Inv(Next(db, op))
  {
    hide Inv, Acceptable, Available;
    if Accepted(db, op) {
      match op
      case Create(id, input, present) => CreateKeepsInv(db, id, input, present);
      case Update(id, input, present) => UpdateKeepsInv(db, id, input, present);
      case Delete(id) => DeleteKeepsInv(db, id);
      case RenameRepo(oldName, newName) => RenameKeepsInv(db, oldName, newName);
      case DeleteRepo(repo) => RemoveKeepsInv(db, repo);
    }
  }

  ghost function Run(db: Db, ops: seq<Op>): Db
    decreases ops
  {
    if ops == [] then db else Run(Next(db, ops[0]), ops[1..])
  }

  ghost predicate AllAllowed(db: Db, ops: seq<Op>)
    decreases ops
  {
    ops != [] ==> Allowed(db, ops[0]) && AllAllowed(Next(db, ops[0]), ops[1..])
  }

  lemma {:induction false} RunKeepsInv(db: Db, ops: seq<Op>)
    requires Inv(db) && AllAllowed(db, ops)
    ensures Inv(Run(db, ops))
    decreases ops
  {
    hide Inv, Next, Allowed;
    if ops != [] {
      StepKeepsInv(db, ops[0]);
      RunKeepsInv(Next(db, ops[0]), ops[1..]);
    }
  }

  /** Over every run of requests: each repository is in at most one group, every group has its primary among its members
      (so it is not empty), and group names differ ignoring case. */
  lemma GroupsStayConsistent(ops: seq<Op>)
    requires AllAllowed(Db(map[], {}), ops)
    ensures var db := Run(Db(map[], {}), ops);
      && (forall m, n :: m in db.members && n in db.members && m.repo == n.repo ==> m.group == n.group)
      && (forall id :: id in db.groups ==> db.groups[id].primary in MembersOf(db, id))
      && (forall id, other | id in db.groups && other in db.groups && id != other ::
            Lower(db.groups[id].name) != Lower(db.groups[other].name))
  {
    hide Lower, Run, AllAllowed;
    RunKeepsInv(Db(map[], {}), ops);
    var db := Run(Db(map[], {}), ops);
    forall id | id in db.groups ensures db.groups[id].primary in MembersOf(db, id) {
      assert Member(id, db.groups[id].primary) in db.members;
    }
  }

  /** What an accepted request makes of the group it names, and of the others: nothing. */
  lemma AcceptedGroupIs(db: Db, op: Op, g: GroupId)
    requires Inv(db) && (op.Create? || op.Update?) && Allowed(db, op) && Accepted(db, op)
    ensures var db' := Next(db, op); var input := op.input;
      && (g != op.id ==> MembersOf(db', g) == MembersOf(db, g) && (g in db'.groups <==> g in db.groups))
      && (g != op.id && g in db.groups ==> db'.groups[g] == db.groups[g])
      && (g == op.id ==>
            && g in db'.groups && db'.groups[g] == Group(Trim(input.name), Trim(input.primary))
            && MembersOf(db', g) == set i | 0 <= i < |input.members| :: Trim(input.members[i]))
  {
    var n := NormalForm(op.input);
    MembersNamed(op.input.members);
    hide Lower, Available, Acceptable, Trim, TrimmedMembers, Elements;
    if op.Create? {
      NoRowsYet(db, op.id);
    }
    ReplacedRows(db, op.id, n.members, Next(db, op), g);
  }

  lemma MembersNamed(raw: seq<string>)
    ensures Elements(TrimmedMembers(raw)) == set i | 0 <= i < |raw| :: Trim(raw[i])
  {
    TrimmedMembersPointwise(raw);
    hide Trim, TrimmedMembers;
    var all := TrimmedMembers(raw);
    forall i | 0 <= i < |raw| ensures Trim(raw[i]) in Elements(all) {
      assert all[i] in all;
    }
    forall x | x in Elements(all) ensures x in set i | 0 <= i < |raw| :: Trim(raw[i]) {
      var i :| 0 <= i < |all| && all[i] == x;
      assert Trim(raw[i]) == x;
    }
  }

  lemma NoRowsYet(db: Db, id: GroupId)
    requires Inv(db) && id !in db.groups
    ensures RowsElsewhere(db.members, id) == db.members
  {
    hide PrimariesValid, NamesDiffer;
  }

  /** With a group's rows replaced it has those, and every other group has its own. */
  lemma ReplacedRows(db: Db, id: GroupId, repos: set<string>, db': Db, g: GroupId)
    requires db'.members == RowsElsewhere(db.members, id) + Rows(id, repos)
    ensures MembersOf(db', g) == if g == id then repos else MembersOf(db, g)
  {
    forall r ensures r in MembersOf(db', g) <==> Member(g, r) in db'.members {
    }
    forall r ensures r in MembersOf(db, g) <==> Member(g, r) in db.members {
    }
    forall r ensures Member(g, r) in db'.members <==> if g == id then r in repos else Member(g, r) in db.members {
      assert r in repos ==> Member(id, r) in Rows(id, repos);
    }
  }

  /** A create is accepted exactly when its input is good, its repositories exist, and the new group would break neither
      the uniqueness of names nor that of memberships. */
  lemma CreateAcceptedIff(db: Db, id: GroupId, input: SaveInput, present: set<string>)
    requires Inv(db) && Allowed(db, Create(id, input, present))
    ensures Accepted(db, Create(id, input, present)) <==>
      && Acceptable(input) && NormalForm(input).members <= present && Inv(Created(db, id, NormalForm(input)))
  {
    if Accepted(db, Create(id, input, present)) {
      CreateKeepsInv(db, id, input, present);
    } else if Acceptable(input) && Inv(Created(db, id, NormalForm(input))) {
      hide Acceptable, Trim, TrimmedMembers, Lower;
      TakenBreaksCreate(db, id, NormalForm(input));
    }
  }

  lemma TakenBreaksCreate(db: Db, id: GroupId, n: Normalized)
    requires Inv(db) && id !in db.groups && Inv(Created(db, id, n))
    ensures !NameTaken(db, n.name, None) && !RepoTaken(db, n.members, None)
  {
    hide Lower;
    var db' := Created(db, id, n);
    forall other | other in db.groups ensures Lower(db.groups[other].name) != Lower(n.name) {
      assert other in db'.groups && id in db'.groups && other != id;
    }
    forall m | m in db.members ensures m.repo !in n.members {
      assert m.group != id && m in db'.members;
      assert m.repo in n.members ==> Member(id, m.repo) in Rows(id, n.members);
    }
  }

  /** The same for an update of a group that exists. */
  lemma UpdateAcceptedIff(db: Db, id: GroupId, input: SaveInput, present: set<string>)
    requires Inv(db)
    ensures Accepted(db, Update(id, input, present)) <==>
      && Acceptable(input) && id in db.groups && NormalForm(input).members <= present && Inv(Updated(db, id, NormalForm(input)))
  {
    if Accepted(db, Update(id, input, present)) {
      UpdateKeepsInv(db, id, input, present);
    } else if Acceptable(input) && id in db.groups && Inv(Updated(db, id, NormalForm(input))) {
      hide Acceptable, Trim, TrimmedMembers, Lower;
      TakenBreaksUpdate(db, id, NormalForm(input));
    }
  }

  lemma TakenBreaksUpdate(db: Db, id: GroupId, n: Normalized)
    requires Inv(db) && id in db.groups && Inv(Updated(db, id, n))
    ensures !NameTaken(db, n.name, Some(id)) && !RepoTaken(db, n.members, Some(id))
  {
    hide Lower;
    var db' := Updated(db, id, n);
    forall other | other in db.groups && other != id ensures Lower(db.groups[other].name) != Lower(n.name) {
      assert other in db'.groups && id in db'.groups;
    }
    forall m | m in db.members && m.group != id ensures m.repo !in n.members {
      assert m.group != id && m in db'.members;
      assert m.repo in n.members ==> Member(id, m.repo) in Rows(id, n.members);
    }
  }

  /** Equal but for the case of ASCII letters. */
  predicate SameIgnoringCase(a: string, b: string) {
    && |a| == |b|
    && forall i :: 0 <= i < |a| ==>
         || a[i] == b[i]
         || ('A' <= a[i] <= 'Z' && b[i] as int == a[i] as int + 32)
         || ('A' <= b[i] <= 'Z' && a[i] as int == b[i] as int + 32)
  }

  lemma {:induction false} SameLowerIff(a: string, b: string)
    ensures Lower(a) == Lower(b) <==> SameIgnoringCase(a, b)
  {
    if a != "" && b != "" {
      SameLowerIff(a[1..], b[1..]);
      assert Lower(a)[1..] == Lower(a[1..]) && Lower(b)[1..] == Lower(b[1..]);
      assert SameIgnoringCase(a, b) <==> SameIgnoringCase(a[..1], b[..1]) && SameIgnoringCase(a[1..], b[1..]) by {
        SameTail(a, b);
      }
    }
  }

  lemma SameTail(a: string, b: string)
    requires a != "" && b != ""
    ensures SameIgnoringCase(a, b) <==> SameIgnoringCase(a[..1], b[..1]) && SameIgnoringCase(a[1..], b[1..])
  {
    if SameIgnoringCase(a[..1], b[..1]) && SameIgnoringCase(a[1..], b[1..]) {
      forall i | 0 <= i < |a|
        ensures || a[i] == b[i]
                || ('A' <= a[i] <= 'Z' && b[i] as int == a[i] as int + 32)
                || ('A' <= b[i] <= 'Z' && a[i] as int == b[i] as int + 32)
      {
        if i > 0 {
          assert a[i] == a[1..][i - 1] && b[i] == b[1..][i - 1];
        } else {
          assert a[0] == a[..1][0] && b[0] == b[..1][0];
        }
      }
    }
  }

  predicate IsAt(s: string, part: string, i: int) {
    0 <= i && i + |part| <= |s| && s[i..i + |part|] == part
  }

  predicate Contains(s: string, part: string) {
    exists i :: 0 <= i <= |s| && IsAt(s, part, i)
  }

  lemma ContainsOne(s: string, c: char)
    ensures Contains(s, [c]) <==> c in s
  {
    if c in s {
      var i :| 0 <= i < |s| && s[i] == c;
      assert IsAt(s, [c], i);
    }
    if Contains(s, [c]) {
      var i :| 0 <= i <= |s| && IsAt(s, [c], i);
      assert s[i] == s[i..i + 1][0];
    }
  }

  lemma ContainsTwo(s: string, c: char, d: char)
    ensures Contains(s, [c, d]) <==> exists i :: 0 <= i < |s| - 1 && s[i] == c && s[i + 1] == d
  {
    if i :| 0 <= i < |s| - 1 && s[i] == c && s[i + 1] == d {
      assert s[i..i + 2] == [c, d];
      assert IsAt(s, [c, d], i);
    }
    if Contains(s, [c, d]) {
      var i :| 0 <= i <= |s| && IsAt(s, [c, d], i);
      assert s[i] == s[i..i + 2][0] && s[i + 1] == s[i..i + 2][1];
    }
  }

  /** A repository name is one path component that neither is hidden nor climbs. */
  lemma ValidRepoNameIff(name: string)
    ensures ValidRepoName(name) <==>
      name != "" && !("." <= name) && !Contains(name, "/") && !Contains(name, "\\") && !Contains(name, "..")
  {
    ContainsOne(name, '/');
    ContainsOne(name, '\\');
    ContainsTwo(name, '.', '.');
    hide Contains;
  }

  /** Group names have 1 to 80 characters, none of them a control character. */
  lemma ValidNameIff(name: string)
    ensures ValidName(name) <==>
      1 <= |name| <= 80 && forall i :: 0 <= i < |name| ==> !(name[i] as int < 32 || 127 <= name[i] as int <= 159)
  {
  }

  /** Deleting a group takes it and its members away, and nothing else. */
  lemma DeletedGroupIsGone(db: Db, id: GroupId)
    requires Inv(db)
    ensures var db' := Next(db, Delete(id));
      && id !in db'.groups && (forall m :: m in db'.members <==> m in db.members && m.group != id)
      && forall g :: g != id ==> (g in db'.groups <==> g in db.groups) && (g in db.groups ==> db'.groups[g] == db.groups[g])
  {
  }

  /** A rename moves the membership and the primary together, touches no other repository, and merges no rows. */
  lemma RenameMovesTogether(db: Db, oldName: string, newName: string, id: GroupId)
    requires Inv(db) && Allowed(db, RenameRepo(oldName, newName))
    ensures var db' := Next(db, RenameRepo(oldName, newName));
      && (Member(id, newName) in db'.members <==> Member(id, oldName) in db.members)
      && (forall g :: Member(g, oldName) !in db'.members)
      && (forall m: Member :: m.repo != oldName && m.repo != newName ==> (m in db'.members <==> m in db.members))
      && db'.groups.Keys == db.groups.Keys
      && (id in db.groups ==> (db'.groups[id].primary == newName <==> db.groups[id].primary == oldName))
      && (id in db.groups && db.groups[id].primary != oldName ==> db'.groups[id] == db.groups[id])
  {
    var db' := RepoRenamed(db, oldName, newName);
    assert Next(db, RenameRepo(oldName, newName)) == db';
    hide Lower, Next, Accepted;
    if Member(id, oldName) in db.members {
      assert RenamedMember(Member(id, oldName), oldName, newName) in db'.members;
    }
    forall m: Member | m.repo != oldName && m.repo != newName ensures m in db'.members <==> m in db.members {
      assert RenamedMember(m, oldName, newName) == m;
    }
  }

  /** Deleting a repository removes exactly its row, deletes its group when it was alone, and otherwise leaves the group
      with its old primary or, when that was the deleted one, with the first remaining member. */
  lemma RemovalPassesPrimaryOn(db: Db, repo: string, id: GroupId)
    requires Inv(db) && Member(id, repo) in db.members
    ensures var db' := Next(db, DeleteRepo(repo)); var left := MembersOf(db, id) - {repo};
      && (forall m :: m in db'.members <==> m in db.members && m.repo != repo)
      && (id in db'.groups <==> left != {})
      && (left != {} ==> db'.groups[id].primary == if db.groups[id].primary == repo then First(left) else db.groups[id].primary)
      && (forall g :: g in db.groups && g != id ==> g in db'.groups && db'.groups[g] == db.groups[g])
  {
    hide Lower, IsFirst;
    var members := set m | m in db.members && m.repo != repo;
    var left := MembersOf(Db(db.groups, members), id);
    assert left == MembersOf(db, id) - {repo} by {
      forall r ensures r in left <==> r in MembersOf(db, id) && r != repo {
        if r in MembersOf(db, id) { assert Member(id, r) in db.members; }
        if r != repo && r in MembersOf(db, id) { assert Member(id, r) in members; }
      }
    }
    forall m | m in members && m.group == id ensures m.repo in left {
    }
  }
}
