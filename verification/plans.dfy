/**
 * Published plans: their tree, phases, PTY attachments and event log (backend/src/plans.rs with
 * plans/branches.rs and plans/phases.rs), and the repository rename that carries them (backend/src/repo_lifecycle.rs).
 *
 * A bailing transaction is `None`: it changes nothing. Texts, guidance, positions and sizes are left out.
 */
module Plans {
  import opened Wrappers

  type PlanId = nat
  type PhaseId = nat
  type PtyId = nat

  datatype Status = Active | Paused | Completed | Canceled

  datatype PhaseStatus = Pending | InProgress | Blocked | PhaseCompleted | Skipped

  datatype Plan = Plan(
    repo: string,
    status: Status,
    parent: Option<PlanId>,
    root: PlanId,
    depth: nat,
    revision: nat,
    closedAt: Option<int>)

  datatype Phase = Phase(plan: PlanId, status: PhaseStatus)

  /** `plan_branch_anchors` */
  datatype Anchor = Anchor(branch: PlanId, phase: PhaseId)

  /** `plan_attachments`, in order of attachment. */
  datatype Attachment = Attachment(plan: PlanId, pty: PtyId, detached: bool)

  datatype Pty = Pty(repo: string, live: bool)

  datatype EventKind =
    | PlanCreated | BranchCreated | PlanUpdated | PlanStatusChanged | PlanClosed
    | PlanAttached | PlanDetached | BranchOpened | BranchClosed

  /** A row of `plan_events`; events about phases are left out. */
  datatype Event = Event(plan: PlanId, kind: EventKind, from: Option<Status>, to: Option<Status>)

  datatype Db = Db(
    plans: map<PlanId, Plan>,
    phases: map<PhaseId, Phase>,
    anchors: set<Anchor>,
    attachments: seq<Attachment>,
    ptys: map<PtyId, Pty>,
    events: seq<Event>)

  const MAX_BRANCH_DEPTH := 8

  predicate Closed(s: Status) {
    s.Completed? || s.Canceled?
  }

  predicate Finished(s: PhaseStatus) {
    s.PhaseCompleted? || s.Skipped?
  }

  // ---- Statements ------------------------------------------------------------

  function Bumped(db: Db, id: PlanId): Db {
    if id in db.plans then db.(plans := db.plans[id := db.plans[id].(revision := db.plans[id].revision + 1)]) else db
  }

  function Logged(db: Db, e: Event): Db {
    db.(events := db.events + [e])
  }

  predicate IsActive(a: Attachment, pty: PtyId) {
    a.pty == pty && !a.detached
  }

  /** The plan a PTY is attached to, if any. */
  function AttachedPlan(attachments: seq<Attachment>, pty: PtyId): Option<PlanId> {
    if attachments == [] then None
    else if IsActive(attachments[|attachments| - 1], pty) then Some(attachments[|attachments| - 1].plan)
    else AttachedPlan(attachments[..|attachments| - 1], pty)
  }

  /** Detach the active rows of the PTYs in `ptys` from the plans in `plans`. */
  function Detach(attachments: seq<Attachment>, gone: Attachment -> bool): (r: seq<Attachment>)
    ensures |r| == |attachments|
    ensures forall i :: 0 <= i < |r| ==>
      r[i] == if gone(attachments[i]) then attachments[i].(detached := true) else attachments[i]
  {
    seq(|attachments|, i requires 0 <= i < |attachments| =>
      if gone(attachments[i]) then attachments[i].(detached := true) else attachments[i])
  }

  function DetachPty(attachments: seq<Attachment>, pty: PtyId): (r: seq<Attachment>)
    ensures |r| == |attachments|
    ensures forall i :: 0 <= i < |r| ==>
      r[i] == if attachments[i].pty == pty then attachments[i].(detached := true) else attachments[i]
  {
    Detach(attachments, (a: Attachment) => a.pty == pty)
  }

  function DetachPlan(attachments: seq<Attachment>, plan: PlanId): (r: seq<Attachment>)
    ensures |r| == |attachments|
    ensures forall i :: 0 <= i < |r| ==>
      r[i] == if attachments[i].plan == plan then attachments[i].(detached := true) else attachments[i]
  {
    Detach(attachments, (a: Attachment) => a.plan == plan)
  }

  // ---- Attaching -------------------------------------------------------------

  /** `attach_in_tx` */
  function AttachInTx(db: Db, plan: PlanId, pty: PtyId, bump: bool): Option<Db> {
    if plan !in db.plans || pty !in db.ptys || !db.ptys[pty].live || db.ptys[pty].repo != db.plans[plan].repo then None
    else
      var existing := AttachedPlan(db.attachments, pty);
      if existing == Some(plan) then Some(db)
      else
        var freed :=
          if existing.None? then db
          else Logged(Bumped(db.(attachments := DetachPty(db.attachments, pty)), existing.value),
                      Event(existing.value, PlanDetached, None, None));
        var attached := freed.(attachments := freed.attachments + [Attachment(plan, pty, false)]);
        Some(Logged(if bump then Bumped(attached, plan) else attached, Event(plan, PlanAttached, None, None)))
  }

  function AttachPlan(db: Db, plan: PlanId, pty: PtyId): Option<Db> {
    if plan !in db.plans || Closed(db.plans[plan].status) then None else AttachInTx(db, plan, pty, true)
  }

  function DetachOne(db: Db, plan: PlanId, pty: PtyId): Db {
    if exists i :: 0 <= i < |db.attachments| && IsActive(db.attachments[i], pty) && db.attachments[i].plan == plan then
      Logged(Bumped(db.(attachments := Detach(db.attachments, (a: Attachment) => a.pty == pty && a.plan == plan)), plan),
             Event(plan, PlanDetached, None, None))
    else db
  }

  // ---- Creating --------------------------------------------------------------

  /** `insert_plan` and `insert_phases` */
  function Inserted(db: Db, id: PlanId, repo: string, parent: Option<PlanId>, root: PlanId, depth: nat,
                    phases: map<PhaseId, PhaseStatus>): Db {
    Logged(
      db.(plans := db.plans[id := Plan(repo, Active, parent, root, depth, 1, None)],
          phases := db.phases + map f | f in phases :: Phase(id, phases[f])),
      Event(id, if parent.Some? then BranchCreated else PlanCreated, None, Some(Active)))
  }

  function MaybeAttached(db: Db, plan: PlanId, pty: Option<PtyId>): Option<Db> {
    if pty.None? then Some(db) else AttachInTx(db, plan, pty.value, false)
  }

  function Create(db: Db, id: PlanId, repo: string, phases: map<PhaseId, PhaseStatus>, pty: Option<PtyId>): Option<Db> {
    if phases == map[] then None
    else MaybeAttached(Inserted(db, id, repo, None, id, 0, phases), id, pty)
  }

  /** The anchor phases that were pending get under way. */
  function Anchored(db: Db, id: PlanId, parent: PlanId, anchors: set<PhaseId>): Db {
    Bumped(
      db.(anchors := db.anchors + set f | f in anchors :: Anchor(id, f),
          phases := map f | f in db.phases ::
            if f in anchors && db.phases[f].status.Pending? then db.phases[f].(status := InProgress) else db.phases[f],
          events := db.events + seq(|anchors|, i => Event(parent, BranchOpened, None, None))),
      parent)
  }

  /** The plan, its phases and its anchors under an open parent. */
  function Branched(db: Db, id: PlanId, parent: PlanId, phases: map<PhaseId, PhaseStatus>, anchors: set<PhaseId>): Db
    requires parent in db.plans
  {
    var p := db.plans[parent];
    Anchored(Inserted(db, id, p.repo, Some(parent), p.root, p.depth + 1, phases), id, parent, anchors)
  }

  predicate MayBranch(db: Db, parent: PlanId, phases: map<PhaseId, PhaseStatus>, anchors: set<PhaseId>) {
    && phases != map[] && parent in db.plans && !Closed(db.plans[parent].status)
    && db.plans[parent].depth + 1 <= MAX_BRANCH_DEPTH
    && anchors != {} && forall f :: f in anchors ==> f in db.phases && db.phases[f].plan == parent
  }

  /** `branch`; `anchors` are the parent's phases the references resolve to. */
  function Branch(db: Db, id: PlanId, parent: PlanId, phases: map<PhaseId, PhaseStatus>, anchors: set<PhaseId>,
                  pty: Option<PtyId>): Option<Db> {
    if MayBranch(db, parent, phases, anchors)
    then MaybeAttached(Branched(db, id, parent, phases, anchors), id, pty)
    else None
  }

  // ---- Updating and closing --------------------------------------------------

  predicate HasOpenBranch(db: Db, id: PlanId) {
    exists c :: c in db.plans && db.plans[c].parent == Some(id) && !Closed(db.plans[c].status)
  }

  predicate HasUnfinished(db: Db, id: PlanId) {
    exists f :: f in db.phases && db.phases[f].plan == id && !Finished(db.phases[f].status)
  }

  /** `skip_remaining_phases` */
  function SkipRemaining(db: Db, id: PlanId): Db {
    db.(phases := map f | f in db.phases ::
      if db.phases[f].plan == id && !Finished(db.phases[f].status) then db.phases[f].(status := Skipped) else db.phases[f])
  }

  /** Blocked phases the completed branch was opened to resolve go on. */
  function Unblocked(db: Db, id: PlanId): Db {
    db.(phases := map f | f in db.phases ::
      if Anchor(id, f) in db.anchors && db.phases[f].status.Blocked? then db.phases[f].(status := InProgress) else db.phases[f])
  }

  /** The PTYs on a plan, in order of attachment. */
  function PtysOn(attachments: seq<Attachment>, plan: PlanId): seq<PtyId> {
    if attachments == [] then []
    else
      var a, rest := attachments[|attachments| - 1], PtysOn(attachments[..|attachments| - 1], plan);
      if a.plan == plan && !a.detached then rest + [a.pty] else rest
  }

  /** Pop the live PTYs among `ptys` onto `plan`, one after the other. */
  function PopOnto(db: Db, plan: PlanId, ptys: seq<PtyId>): Option<Db>
    decreases |ptys|
  {
    if ptys == [] then Some(db)
    else
      var next := if ptys[0] in db.ptys && db.ptys[ptys[0]].live then AttachInTx(db, plan, ptys[0], false) else Some(db);
      if next.None? then None else PopOnto(next.value, plan, ptys[1..])
  }

  /** The closing branch lets go of its PTYs and, when completed, of the phases it was to resolve. */
  function LetGo(db: Db, id: PlanId, status: Status): Db {
    (if status.Completed? then Unblocked(db, id) else db).(attachments := DetachPlan(db.attachments, id))
  }

  /** `close_branch_into_parent` */
  function CloseIntoParent(db: Db, id: PlanId, parent: Option<PlanId>, status: Status): Option<Db> {
    if parent.None? || parent.value !in db.plans || Closed(db.plans[parent.value].status) then
      Some(db.(attachments := DetachPlan(db.attachments, id)))
    else
      var popped := PopOnto(LetGo(db, id, status), parent.value, PtysOn(db.attachments, id));
      if popped.None? then None
      else Some(Logged(Bumped(popped.value, parent.value), Event(parent.value, BranchClosed, None, Some(status))))
  }

  datatype UpdateInput = UpdateInput(status: Option<Status>, skipRemaining: bool, requireBranch: bool)

  function EventFor(before: Status, after: Status): EventKind {
    if before == after then PlanUpdated else if Closed(after) then PlanClosed else PlanStatusChanged
  }

  predicate MayUpdate(db: Db, id: PlanId, input: UpdateInput) {
    && id in db.plans
    && (input.requireBranch ==> db.plans[id].parent.Some?)
    && var status := input.status.GetOr(db.plans[id].status);
       && (Closed(status) ==> !HasOpenBranch(db, id))
       && (status.Completed? && HasUnfinished(db, id) ==> input.skipRemaining)
  }

  /** The plan row and its event. */
  function Restated(db: Db, id: PlanId, status: Status, now: int): Db
    requires id in db.plans
  {
    var p := db.plans[id];
    Logged(
      db.(plans := db.plans[id := p.(status := status, revision := p.revision + 1,
            closedAt := if !Closed(status) then None else if p.closedAt.Some? then p.closedAt else Some(now))]),
      Event(id, EventFor(p.status, status), Some(p.status), Some(status)))
  }

  function Update(db: Db, id: PlanId, input: UpdateInput, now: int): Option<Db> {
    if !MayUpdate(db, id, input) then None
    else
      var p := db.plans[id];
      var status := input.status.GetOr(p.status);
      var skipped := if Closed(status) && input.skipRemaining then SkipRemaining(db, id) else db;
      var restated := Restated(skipped, id, status, now);
      if Closed(status) then CloseIntoParent(restated, id, p.parent, status) else Some(restated)
  }

  // ---- Phases ----------------------------------------------------------------

  /** `add_phase` and `update_phase`: a phase of an open plan takes a status. */
  function SetPhase(db: Db, id: PlanId, f: PhaseId, status: PhaseStatus): Option<Db> {
    if id !in db.plans || Closed(db.plans[id].status) || (f in db.phases && db.phases[f].plan != id) then None
    else Some(Bumped(db.(phases := db.phases[f := Phase(id, status)]), id))
  }

  // ---- Repositories and PTYs -------------------------------------------------

  function Renamed(name: string, oldName: string, newName: string): string {
    if name == oldName then newName else name
  }

  function RenameRepo(db: Db, oldName: string, newName: string): Db {
    db.(ptys := map t | t in db.ptys :: db.ptys[t].(repo := Renamed(db.ptys[t].repo, oldName, newName)),
        plans := map p | p in db.plans ::
          if db.plans[p].repo == oldName then db.plans[p].(repo := newName, revision := db.plans[p].revision + 1)
          else db.plans[p])
  }

  // ---- Runs ------------------------------------------------------------------

  datatype Op =
    | CreatePlan(id: PlanId, repo: string, phases: map<PhaseId, PhaseStatus>, actor: Option<PtyId>)
    | OpenBranch(id: PlanId, parent: PlanId, phases: map<PhaseId, PhaseStatus>, anchors: set<PhaseId>, actor: Option<PtyId>)
    | UpdatePlan(id: PlanId, input: UpdateInput, now: int)
    | AttachPty(id: PlanId, pty: PtyId)
    | DetachPtyFrom(id: PlanId, pty: PtyId)
    | WritePhase(id: PlanId, phase: PhaseId, status: PhaseStatus)
    | Rename(oldName: string, newName: string)
    | StartPty(pty: PtyId, repo: string)
    | SetLive(pty: PtyId, live: bool)

  /** New ids are new. */
  predicate Fresh(db: Db, op: Op) {
    match op
    case CreatePlan(id, _, phases, _) => id !in db.plans && phases.Keys !! db.phases.Keys
    case OpenBranch(id, _, phases, _, _) => id !in db.plans && phases.Keys !! db.phases.Keys
    case StartPty(pty, _) => pty !in db.ptys
    case _ => true
  }

  function Outcome(db: Db, op: Op): Option<Db> {
    match op
    case CreatePlan(id, repo, phases, pty) => Create(db, id, repo, phases, pty)
    case OpenBranch(id, parent, phases, anchors, pty) => Branch(db, id, parent, phases, anchors, pty)
    case UpdatePlan(id, input, now) => Update(db, id, input, now)
    case AttachPty(id, pty) => AttachPlan(db, id, pty)
    case DetachPtyFrom(id, pty) => Some(DetachOne(db, id, pty))
    case WritePhase(id, phase, status) => SetPhase(db, id, phase, status)
    case Rename(oldName, newName) => Some(RenameRepo(db, oldName, newName))
    case StartPty(pty, repo) => Some(db.(ptys := db.ptys[pty := Pty(repo, true)]))
    case SetLive(pty, live) => if pty in db.ptys then Some(db.(ptys := db.ptys[pty := db.ptys[pty].(live := live)])) else None
  }

  function Next(db: Db, op: Op): Db {
    Outcome(db, op).GetOr(db)
  }

  // ---- The transactions, statement by statement --------------------------------

  class PlanStore {
    var plans: map<PlanId, Plan>
    var phases: map<PhaseId, Phase>
    var anchors: set<Anchor>
    var attachments: seq<Attachment>
    var ptys: map<PtyId, Pty>
    var events: seq<Event>

    function Tables(): Db
      reads this
    {
      Db(plans, phases, anchors, attachments, ptys, events)
    }

    constructor ()
      ensures Tables() == Db(map[], map[], {}, [], map[], [])
    {
      plans, phases, anchors, attachments, ptys, events := map[], map[], {}, [], map[], [];
    }

    method InsertEvent(e: Event)
      modifies this`events
      ensures events == old(events) + [e]
    {
      events := events + [e];
    }

    method BumpRevision(id: PlanId)
      modifies this`plans
      ensures Tables() == Bumped(old(Tables()), id)
    {
      if id in plans {
        plans := plans[id := plans[id].(revision := plans[id].revision + 1)];
      }
    }

    method Rollback(saved: Db)
      modifies this
      ensures Tables() == saved
    {
      plans, phases, anchors := saved.plans, saved.phases, saved.anchors;
      attachments, ptys, events := saved.attachments, saved.ptys, saved.events;
    }

    method AttachInTransaction(plan: PlanId, pty: PtyId, bump: bool) returns (ok: bool)
      modifies this
      ensures ok == AttachInTx(old(Tables()), plan, pty, bump).Some?
      ensures Tables() == AttachInTx(old(Tables()), plan, pty, bump).GetOr(old(Tables()))
    {
      hide AttachedPlan;
      if plan !in plans || pty !in ptys || !ptys[pty].live || ptys[pty].repo != plans[plan].repo {
        return false;
      }
      var existing := AttachedPlan(attachments, pty);
      if existing == Some(plan) {
        return true;
      }
      if existing.Some? {
        attachments := DetachPty(attachments, pty);
        BumpRevision(existing.value);
        InsertEvent(Event(existing.value, PlanDetached, None, None));
      }
      attachments := attachments + [Attachment(plan, pty, false)];
      if bump {
        BumpRevision(plan);
      }
      InsertEvent(Event(plan, PlanAttached, None, None));
      return true;
    }

    /** When it returns false the caller rolls back. */
    method CloseBranchIntoParent(id: PlanId, parent: Option<PlanId>, status: Status) returns (ok: bool)
      modifies this
      ensures ok == CloseIntoParent(old(Tables()), id, parent, status).Some?
      ensures ok ==> Tables() == CloseIntoParent(old(Tables()), id, parent, status).value
    {
      hide AttachedPlan, AttachInTx, PtysOn;
      var open := parent.Some? && parent.value in plans && !Closed(plans[parent.value].status);
      if !open {
        attachments := DetachPlan(attachments, id);
        return true;
      }
      var popped := PtysOn(attachments, id);
      if status.Completed? {
        phases := Unblocked(Tables(), id).phases;
      }
      attachments := DetachPlan(attachments, id);
      ghost var start := Tables();
      assert start == LetGo(old(Tables()), id, status);
      for i := 0 to |popped|
        invariant PopOnto(Tables(), parent.value, popped[i..]) == PopOnto(start, parent.value, popped)
      {
        var pty := popped[i];
        assert popped[i..][0] == pty && popped[i..][1..] == popped[i + 1..];
        if pty in ptys && ptys[pty].live {
          var attached := AttachInTransaction(parent.value, pty, false);
          if !attached {
            return false;
          }
        }
      }
      BumpRevision(parent.value);
      InsertEvent(Event(parent.value, BranchClosed, None, Some(status)));
      return true;
    }

    method UpdatePlan(id: PlanId, input: UpdateInput, now: int) returns (ok: bool)
      modifies this
      ensures ok == Update(old(Tables()), id, input, now).Some?
      ensures Tables() == Update(old(Tables()), id, input, now).GetOr(old(Tables()))
    {
      hide CloseIntoParent;
      var saved := Tables();
      if !MayUpdate(saved, id, input) {
        return false;
      }
      var p := plans[id];
      var status := input.status.GetOr(p.status);
      if Closed(status) && input.skipRemaining {
        phases := SkipRemaining(Tables(), id).phases;
      }
      var closedAt := if !Closed(status) then None else if p.closedAt.Some? then p.closedAt else Some(now);
      plans := plans[id := p.(status := status, revision := p.revision + 1, closedAt := closedAt)];
      InsertEvent(Event(id, EventFor(p.status, status), Some(p.status), Some(status)));
      ok := true;
      if Closed(status) {
        ok := CloseBranchIntoParent(id, p.parent, status);
        if !ok {
          Rollback(saved);
        }
      }
    }

    method AttachPty(id: PlanId, pty: PtyId) returns (ok: bool)
      modifies this
      ensures ok == AttachPlan(old(Tables()), id, pty).Some?
      ensures Tables() == AttachPlan(old(Tables()), id, pty).GetOr(old(Tables()))
    {
      if id !in plans || Closed(plans[id].status) {
        return false;
      }
      ok := AttachInTransaction(id, pty, true);
    }

    method DetachPtyFrom(id: PlanId, pty: PtyId)
      modifies this
      ensures Tables() == DetachOne(old(Tables()), id, pty)
    {
      if exists i :: 0 <= i < |attachments| && IsActive(attachments[i], pty) && attachments[i].plan == id {
        attachments := Detach(attachments, (a: Attachment) => a.pty == pty && a.plan == id);
        BumpRevision(id);
        InsertEvent(Event(id, PlanDetached, None, None));
      }
    }

    method InsertPlan(id: PlanId, repo: string, parent: Option<PlanId>, root: PlanId, depth: nat, rows: map<PhaseId, PhaseStatus>)
      modifies this
      ensures Tables() == Inserted(old(Tables()), id, repo, parent, root, depth, rows)
    {
      plans := plans[id := Plan(repo, Active, parent, root, depth, 1, None)];
      InsertEvent(Event(id, if parent.Some? then BranchCreated else PlanCreated, None, Some(Active)));
      phases := phases + map f | f in rows :: Phase(id, rows[f]);
    }

    method CreatePlan(id: PlanId, repo: string, rows: map<PhaseId, PhaseStatus>, actor: Option<PtyId>) returns (ok: bool)
      modifies this
      ensures ok == Create(old(Tables()), id, repo, rows, actor).Some?
      ensures Tables() == Create(old(Tables()), id, repo, rows, actor).GetOr(old(Tables()))
    {
      hide AttachInTx;
      if rows == map[] {
        return false;
      }
      var saved := Tables();
      InsertPlan(id, repo, None, id, 0, rows);
      ok := true;
      if actor.Some? {
        ok := AttachInTransaction(id, actor.value, false);
        if !ok {
          Rollback(saved);
        }
      }
    }

    method OpenBranch(id: PlanId, parent: PlanId, rows: map<PhaseId, PhaseStatus>, under: set<PhaseId>, actor: Option<PtyId>)
        returns (ok: bool)
      modifies this
      ensures ok == Branch(old(Tables()), id, parent, rows, under, actor).Some?
      ensures Tables() == Branch(old(Tables()), id, parent, rows, under, actor).GetOr(old(Tables()))
    {
      hide AttachInTx;
      var saved := Tables();
      if !MayBranch(saved, parent, rows, under) {
        return false;
      }
      var p := plans[parent];
      InsertPlan(id, p.repo, Some(parent), p.root, p.depth + 1, rows);
      anchors := anchors + set f | f in under :: Anchor(id, f);
      phases := map f | f in phases ::
        if f in under && phases[f].status.Pending? then phases[f].(status := InProgress) else phases[f];
      events := events + seq(|under|, i => Event(parent, BranchOpened, None, None));
      BumpRevision(parent);
      assert Tables() == Branched(saved, id, parent, rows, under);
      ok := true;
      if actor.Some? {
        ok := AttachInTransaction(id, actor.value, false);
        if !ok {
          Rollback(saved);
        }
      }
    }
  }

  // ---- Invariants ------------------------------------------------------------

  /** At most one active attachment per PTY, always to a plan of the PTY's repository. */
  ghost predicate AttachmentsValid(db: Db) {
    && OneEach(db.attachments)
    && (forall i :: 0 <= i < |db.attachments| && !db.attachments[i].detached ==> AttachmentInRepo(db, db.attachments[i]))
  }

  ghost predicate OneEach(attachments: seq<Attachment>) {
    forall i, j :: 0 <= i < j < |attachments| && !attachments[i].detached ==> !IsActive(attachments[j], attachments[i].pty)
  }

  predicate AttachmentInRepo(db: Db, a: Attachment) {
    a.plan in db.plans && a.pty in db.ptys && db.plans[a.plan].repo == db.ptys[a.pty].repo
  }

  /** Parents exist, in the same repository and tree, one level up. */
  predicate NodeValid(db: Db, id: PlanId, p: Plan) {
    && (p.closedAt.Some? <==> Closed(p.status))
    && p.depth <= MAX_BRANCH_DEPTH
    && match p.parent
       case None => p.root == id && p.depth == 0
       case Some(q) => q in db.plans && db.plans[q].repo == p.repo && db.plans[q].root == p.root && p.depth == db.plans[q].depth + 1
  }

  /** Phases belong to plans, a completed plan's phases are finished, anchors sit in the branch's parent. */
  ghost predicate PhasesValid(db: Db) {
    && (forall f :: f in db.phases ==> db.phases[f].plan in db.plans)
    && (forall f :: f in db.phases && db.plans[db.phases[f].plan].status.Completed? ==> Finished(db.phases[f].status))
    && (forall a :: a in db.anchors ==> a.phase in db.phases && a.branch in db.plans
                                        && db.plans[a.branch].parent == Some(db.phases[a.phase].plan))
  }

  /** Where a plan's status events have got to. */
  datatype Chain = Absent | At(status: Status) | Broken

  function ChainStep(c: Chain, e: Event): Chain {
    match e.kind
    case PlanCreated => if c.Absent? && e.from.None? && e.to == Some(Active) then At(Active) else Broken
    case BranchCreated => if c.Absent? && e.from.None? && e.to == Some(Active) then At(Active) else Broken
    case PlanUpdated => if c.At? && e.from == Some(c.status) && e.to == e.from then c else Broken
    case PlanStatusChanged =>
      if c.At? && e.from == Some(c.status) && e.to.Some? && e.to != e.from && !Closed(e.to.value) then At(e.to.value) else Broken
    case PlanClosed =>
      if c.At? && e.from == Some(c.status) && e.to.Some? && e.to != e.from && Closed(e.to.value) then At(e.to.value) else Broken
    case _ => c
  }

  function ChainOf(events: seq<Event>, id: PlanId): Chain {
    if events == [] then Absent
    else
      var e, c := events[|events| - 1], ChainOf(events[..|events| - 1], id);
      if e.plan == id then ChainStep(c, e) else c
  }

  /** A plan's status events form a chain from its creation to its stored status. */
  ghost predicate EventsValid(db: Db) {
    forall id: PlanId :: ChainOf(db.events, id) == if id in db.plans then At(db.plans[id].status) else Absent
  }

  ghost predicate TreeValid(db: Db) {
    forall id :: id in db.plans ==> NodeValid(db, id, db.plans[id])
  }

  ghost predicate Inv(db: Db) {
    AttachmentsValid(db) && TreeValid(db) && PhasesValid(db) && EventsValid(db)
  }

  predicate ParentClosed(db: Db, p: Plan) {
    p.parent.Some? && p.parent.value in db.plans && Closed(db.plans[p.parent.value].status)
  }

  /** No closed plan has an open child. */
  ghost predicate ClosedBottomUp(db: Db) {
    forall c :: c in db.plans && !Closed(db.plans[c].status) ==> !ParentClosed(db, db.plans[c])
  }

  // ---- Attachments -----------------------------------------------------------

  lemma {:induction false} AttachedPlanFinds(attachments: seq<Attachment>, pty: PtyId)
    ensures AttachedPlan(attachments, pty).None? <==> forall i :: 0 <= i < |attachments| ==> !IsActive(attachments[i], pty)
    ensures AttachedPlan(attachments, pty).Some? ==>
      exists i :: 0 <= i < |attachments| && IsActive(attachments[i], pty) && attachments[i].plan == AttachedPlan(attachments, pty).value
  {
    if attachments != [] {
      var front := attachments[..|attachments| - 1];
      AttachedPlanFinds(front, pty);
      if !IsActive(attachments[|attachments| - 1], pty) && AttachedPlan(front, pty).Some? {
        var i :| 0 <= i < |front| && IsActive(front[i], pty) && front[i].plan == AttachedPlan(front, pty).value;
        assert attachments[i] == front[i];
      }
    }
  }

  /** With one active row per PTY, the row found is the only one. */
  lemma AttachedPlanIs(attachments: seq<Attachment>, i: nat)
    requires OneEach(attachments) && i < |attachments| && !attachments[i].detached
    ensures AttachedPlan(attachments, attachments[i].pty) == Some(attachments[i].plan)
  {
    AttachedPlanFinds(attachments, attachments[i].pty);
    assert IsActive(attachments[i], attachments[i].pty);
  }

  /** Everything but revisions, attachments and the log. */
  predicate SameTree(db: Db, db': Db) {
    && db'.plans.Keys == db.plans.Keys
    && (forall id :: id in db.plans ==> db'.plans[id].(revision := 0) == db.plans[id].(revision := 0))
    && db'.phases == db.phases && db'.anchors == db.anchors && db'.ptys == db.ptys
  }

  function Reattached(attachments: seq<Attachment>, plan: PlanId, pty: PtyId): seq<Attachment> {
    (if AttachedPlan(attachments, pty).None? then attachments else DetachPty(attachments, pty)) + [Attachment(plan, pty, false)]
  }

  /** The four tables after an attachment. */
  lemma AttachShape(db: Db, plan: PlanId, pty: PtyId, bump: bool)
    requires AttachInTx(db, plan, pty, bump).Some?
    ensures plan in db.plans && pty in db.ptys && db.ptys[pty].repo == db.plans[plan].repo
    ensures var db', existing := AttachInTx(db, plan, pty, bump).value, AttachedPlan(db.attachments, pty);
      && SameTree(db, db')
      && (existing == Some(plan) ==> db' == db)
      && (existing != Some(plan) ==>
            && db'.attachments == Reattached(db.attachments, plan, pty)
            && db'.events == db.events
                 + (if existing.Some? then [Event(existing.value, PlanDetached, None, None)] else [])
                 + [Event(plan, PlanAttached, None, None)])
  {
    hide AttachedPlan, DetachPty;
    var existing := AttachedPlan(db.attachments, pty);
    if existing != Some(plan) {
      if existing.None? {
        assert db.events + [] == db.events;
      }
    }
  }

  lemma AttachEffect(db: Db, plan: PlanId, pty: PtyId, bump: bool)
    requires AttachmentsValid(db) && AttachInTx(db, plan, pty, bump).Some?
    ensures var db' := AttachInTx(db, plan, pty, bump).value;
      && SameTree(db, db')
      && AttachmentsValid(db')
      && AttachedPlan(db'.attachments, pty) == Some(plan)
      && (forall other :: other != pty ==> AttachedPlan(db'.attachments, other) == AttachedPlan(db.attachments, other))
      && (forall id :: ChainOf(db'.events, id) == ChainOf(db.events, id))
  {
    AttachShape(db, plan, pty, bump);
    var db' := AttachInTx(db, plan, pty, bump).value;
    hide AttachInTx;
    var existing := AttachedPlan(db.attachments, pty);
    if existing != Some(plan) {
      ReattachEffect(db, plan, pty);
      SameTreeSameRepos(db, db');
      forall id ensures ChainOf(db'.events, id) == ChainOf(db.events, id) {
        ChainQuiet(db.events, existing, plan, id);
      }
      hide ChainOf, AttachedPlan, Reattached, SameTree, AttachmentInRepo, OneEach;
    }
  }

  lemma SameTreeSameRepos(db: Db, db': Db)
    requires SameTree(db, db')
    ensures forall a :: AttachmentInRepo(db', a) <==> AttachmentInRepo(db, a)
  {
  }

  lemma ChainQuiet(events: seq<Event>, existing: Option<PlanId>, plan: PlanId, id: PlanId)
    ensures ChainOf(events + (if existing.Some? then [Event(existing.value, PlanDetached, None, None)] else [])
                    + [Event(plan, PlanAttached, None, None)], id) == ChainOf(events, id)
  {
    var off := if existing.Some? then [Event(existing.value, PlanDetached, None, None)] else [];
    if existing.Some? {
      ChainAppend(events, off[0], id);
    } else {
      assert events + off == events;
    }
    ChainAppend(events + off, Event(plan, PlanAttached, None, None), id);
  }

  /** Freeing a PTY and attaching it anew leaves one active row for it and the others' rows alone. */
  lemma ReattachEffect(db: Db, plan: PlanId, pty: PtyId)
    requires AttachmentsValid(db) && plan in db.plans && pty in db.ptys && db.ptys[pty].repo == db.plans[plan].repo
    ensures var after := Reattached(db.attachments, plan, pty);
      && OneEach(after)
      && (forall i :: 0 <= i < |after| && !after[i].detached ==> AttachmentInRepo(db, after[i]))
      && AttachedPlan(after, pty) == Some(plan)
      && forall other :: other != pty ==> AttachedPlan(after, other) == AttachedPlan(db.attachments, other)
  {
    AttachedPlanFinds(db.attachments, pty);
    var freed := if AttachedPlan(db.attachments, pty).None? then db.attachments else DetachPty(db.attachments, pty);
    var after := freed + [Attachment(plan, pty, false)];
    assert after[..|freed|] == freed;
    forall other | other != pty ensures AttachedPlan(after, other) == AttachedPlan(db.attachments, other) {
      DetachPtyKeepsOthers(db.attachments, pty, other);
    }
  }

  lemma {:induction false} DetachPtyKeepsOthers(attachments: seq<Attachment>, pty: PtyId, other: PtyId)
    requires other != pty
    ensures AttachedPlan(DetachPty(attachments, pty), other) == AttachedPlan(attachments, other)
  {
    if attachments != [] {
      var front := attachments[..|attachments| - 1];
      DetachPtyKeepsOthers(front, pty, other);
      assert DetachPty(attachments, pty)[..|front|] == DetachPty(front, pty);
    }
  }

  lemma ChainAppend(events: seq<Event>, e: Event, id: PlanId)
    ensures ChainOf(events + [e], id) == if e.plan == id then ChainStep(ChainOf(events, id), e) else ChainOf(events, id)
  {
    assert (events + [e])[..|events|] == events;
  }

  lemma {:induction false} ChainAppendNeutral(events: seq<Event>, more: seq<Event>, id: PlanId)
    requires forall i :: 0 <= i < |more| ==> more[i].kind.BranchOpened?
    ensures ChainOf(events + more, id) == ChainOf(events, id)
  {
    if more == [] {
      assert events + more == events;
    } else {
      var front := more[..|more| - 1];
      ChainAppendNeutral(events, front, id);
      assert events + more == (events + front) + [more[|more| - 1]];
      ChainAppend(events + front, more[|more| - 1], id);
    }
  }

  lemma SameTreeKeepsInv(db: Db, db': Db)
    requires Inv(db) && SameTree(db, db') && AttachmentsValid(db')
    requires forall id :: ChainOf(db'.events, id) == ChainOf(db.events, id)
    ensures Inv(db')
  {
    forall id | id in db'.plans ensures NodeValid(db', id, db'.plans[id]) {
      assert NodeValid(db, id, db.plans[id]);
    }
  }

  lemma AttachKeepsInv(db: Db, plan: PlanId, pty: PtyId, bump: bool)
    requires Inv(db) && AttachInTx(db, plan, pty, bump).Some?
    ensures Inv(AttachInTx(db, plan, pty, bump).value)
  {
    AttachEffect(db, plan, pty, bump);
    SameTreeKeepsInv(db, AttachInTx(db, plan, pty, bump).value);
  }

  /** Popping PTYs onto a plan of their repository always succeeds and attaches each live one to it. */
  lemma {:induction false} PopEffect(db: Db, plan: PlanId, ptys: seq<PtyId>)
    requires AttachmentsValid(db) && plan in db.plans
    requires forall i :: 0 <= i < |ptys| ==> ptys[i] in db.ptys && db.ptys[ptys[i]].repo == db.plans[plan].repo
    ensures PopOnto(db, plan, ptys).Some?
    ensures var db' := PopOnto(db, plan, ptys).value;
      && SameTree(db, db') && AttachmentsValid(db')
      && (forall id :: ChainOf(db'.events, id) == ChainOf(db.events, id))
      && (forall t :: AttachedPlan(db'.attachments, t) ==
            if t in ptys && db.ptys[t].live then Some(plan) else AttachedPlan(db.attachments, t))
    decreases |ptys|
  {
    if ptys != [] {
      var t := ptys[0];
      if db.ptys[t].live {
        AttachEffect(db, plan, t, false);
        var next := AttachInTx(db, plan, t, false).value;
        PopEffect(next, plan, ptys[1..]);
      } else {
        PopEffect(db, plan, ptys[1..]);
      }
      assert forall u :: u in ptys <==> u == t || u in ptys[1..];
    }
  }

  // ---- Creating and branching keep the invariant -------------------------------

  lemma InsertedPhases(db: Db, id: PlanId, repo: string, parent: Option<PlanId>, root: PlanId, depth: nat,
                       phases: map<PhaseId, PhaseStatus>)
    requires PhasesValid(db) && id !in db.plans && phases.Keys !! db.phases.Keys
    ensures PhasesValid(Inserted(db, id, repo, parent, root, depth, phases))
  {
  }

  lemma InsertedKeepsInv(db: Db, id: PlanId, repo: string, parent: Option<PlanId>, root: PlanId, depth: nat,
                         phases: map<PhaseId, PhaseStatus>)
    requires Inv(db) && id !in db.plans && phases.Keys !! db.phases.Keys
    requires NodeValid(db, id, Plan(repo, Active, parent, root, depth, 1, None))
    ensures Inv(Inserted(db, id, repo, parent, root, depth, phases))
  {
    InsertedPhases(db, id, repo, parent, root, depth, phases);
    InsertedTree(db, id, repo, parent, root, depth, phases);
    InsertedEvents(db, id, repo, parent, root, depth, phases);
    InsertedAttachments(db, id, repo, parent, root, depth, phases);
    hide PhasesValid, TreeValid, EventsValid, AttachmentsValid, Inserted, NodeValid;
  }

  lemma InsertedTree(db: Db, id: PlanId, repo: string, parent: Option<PlanId>, root: PlanId, depth: nat,
                     phases: map<PhaseId, PhaseStatus>)
    requires TreeValid(db) && id !in db.plans && NodeValid(db, id, Plan(repo, Active, parent, root, depth, 1, None))
    ensures TreeValid(Inserted(db, id, repo, parent, root, depth, phases))
  {
    var db' := Inserted(db, id, repo, parent, root, depth, phases);
    forall p | p in db'.plans ensures NodeValid(db', p, db'.plans[p]) {
      assert p in db.plans ==> NodeValid(db, p, db.plans[p]);
    }
  }

  lemma InsertedEvents(db: Db, id: PlanId, repo: string, parent: Option<PlanId>, root: PlanId, depth: nat,
                       phases: map<PhaseId, PhaseStatus>)
    requires EventsValid(db) && id !in db.plans
    ensures EventsValid(Inserted(db, id, repo, parent, root, depth, phases))
  {
    var db' := Inserted(db, id, repo, parent, root, depth, phases);
    var created := Event(id, if parent.Some? then BranchCreated else PlanCreated, None, Some(Active));
    assert db'.events == db.events + [created];
    forall p ensures ChainOf(db'.events, p) == if p in db'.plans then At(db'.plans[p].status) else Absent {
      ChainAppend(db.events, created, p);
    }
  }

  lemma InsertedAttachments(db: Db, id: PlanId, repo: string, parent: Option<PlanId>, root: PlanId, depth: nat,
                            phases: map<PhaseId, PhaseStatus>)
    requires AttachmentsValid(db) && id !in db.plans
    ensures AttachmentsValid(Inserted(db, id, repo, parent, root, depth, phases))
  {
    var db' := Inserted(db, id, repo, parent, root, depth, phases);
    assert db'.attachments == db.attachments && forall a :: AttachmentInRepo(db, a) ==> AttachmentInRepo(db', a);
    hide OneEach;
  }

  lemma AnchoredPhases(db: Db, id: PlanId, parent: PlanId, anchors: set<PhaseId>)
    requires PhasesValid(db) && id in db.plans && db.plans[id].parent == Some(parent)
    requires parent in db.plans && !Closed(db.plans[parent].status)
    requires forall f :: f in anchors ==> f in db.phases && db.phases[f].plan == parent
    ensures PhasesValid(Anchored(db, id, parent, anchors))
  {
  }

  lemma AnchoredKeepsInv(db: Db, id: PlanId, parent: PlanId, anchors: set<PhaseId>)
    requires Inv(db) && id in db.plans && db.plans[id].parent == Some(parent)
    requires parent in db.plans && !Closed(db.plans[parent].status)
    requires forall f :: f in anchors ==> f in db.phases && db.phases[f].plan == parent
    ensures Inv(Anchored(db, id, parent, anchors))
  {
    AnchoredPhases(db, id, parent, anchors);
    var db' := Anchored(db, id, parent, anchors);
    var openings := seq(|anchors|, i => Event(parent, BranchOpened, None, None));
    assert db'.events == db.events + openings;
    hide PhasesValid;
    forall p ensures ChainOf(db'.events, p) == ChainOf(db.events, p) {
      ChainAppendNeutral(db.events, openings, p);
    }
    BumpedInv(db, db', parent);
  }

  /** A change of revisions, phases and anchors that keeps the phases valid keeps the rest. */
  lemma BumpedInv(db: Db, db': Db, bumped: PlanId)
    requires Inv(db) && PhasesValid(db')
    requires db'.ptys == db.ptys && db'.attachments == db.attachments
    requires db'.plans.Keys == db.plans.Keys
    requires forall p :: p in db.plans ==> db'.plans[p].(revision := 0) == db.plans[p].(revision := 0)
    requires forall p :: ChainOf(db'.events, p) == ChainOf(db.events, p)
    ensures Inv(db')
  {
    hide PhasesValid;
    forall p | p in db'.plans ensures NodeValid(db', p, db'.plans[p]) {
      assert NodeValid(db, p, db.plans[p]);
    }
    assert forall a :: AttachmentInRepo(db', a) <==> AttachmentInRepo(db, a);
  }

  lemma CreateKeepsInv(db: Db, id: PlanId, repo: string, phases: map<PhaseId, PhaseStatus>, pty: Option<PtyId>)
    requires Inv(db) && id !in db.plans && phases.Keys !! db.phases.Keys && Create(db, id, repo, phases, pty).Some?
    ensures Inv(Create(db, id, repo, phases, pty).value)
  {
    InsertedKeepsInv(db, id, repo, None, id, 0, phases);
    hide Inv, Inserted, AttachInTx;
    if pty.Some? {
      AttachKeepsInv(Inserted(db, id, repo, None, id, 0, phases), id, pty.value, false);
    }
  }

  lemma BranchedKeepsInv(db: Db, id: PlanId, parent: PlanId, phases: map<PhaseId, PhaseStatus>, anchors: set<PhaseId>)
    requires Inv(db) && id !in db.plans && phases.Keys !! db.phases.Keys && MayBranch(db, parent, phases, anchors)
    ensures Inv(Branched(db, id, parent, phases, anchors))
  {
    hide AttachmentsValid, TreeValid, PhasesValid, EventsValid, NodeValid, Anchored, Inserted;
    var p := db.plans[parent];
    BranchNode(db, id, parent);
    InsertedKeepsInv(db, id, p.repo, Some(parent), p.root, p.depth + 1, phases);
    hide Inv;
    var inserted := Inserted(db, id, p.repo, Some(parent), p.root, p.depth + 1, phases);
    InsertedUnder(db, id, parent, phases, anchors);
    AnchoredKeepsInv(inserted, id, parent, anchors);
  }

  lemma BranchNode(db: Db, id: PlanId, parent: PlanId)
    requires TreeValid(db) && parent in db.plans && db.plans[parent].depth + 1 <= MAX_BRANCH_DEPTH
    ensures var p := db.plans[parent]; NodeValid(db, id, Plan(p.repo, Active, Some(parent), p.root, p.depth + 1, 1, None))
  {
    assert NodeValid(db, parent, db.plans[parent]);
  }

  lemma InsertedUnder(db: Db, id: PlanId, parent: PlanId, phases: map<PhaseId, PhaseStatus>, anchors: set<PhaseId>)
    requires id !in db.plans && phases.Keys !! db.phases.Keys && MayBranch(db, parent, phases, anchors)
    ensures var p := db.plans[parent]; var db' := Inserted(db, id, p.repo, Some(parent), p.root, p.depth + 1, phases);
      && id in db'.plans && db'.plans[id].parent == Some(parent)
      && parent in db'.plans && !Closed(db'.plans[parent].status)
      && forall f :: f in anchors ==> f in db'.phases && db'.phases[f].plan == parent
  {
  }

  lemma MaybeAttachedKeepsInv(db: Db, id: PlanId, pty: Option<PtyId>)
    requires Inv(db) && MaybeAttached(db, id, pty).Some?
    ensures Inv(MaybeAttached(db, id, pty).value)
  {
    hide Inv;
    if pty.Some? {
      AttachKeepsInv(db, id, pty.value, false);
    }
  }

  lemma BranchKeepsInv(db: Db, id: PlanId, parent: PlanId, phases: map<PhaseId, PhaseStatus>, anchors: set<PhaseId>, pty: Option<PtyId>)
    requires Inv(db) && id !in db.plans && phases.Keys !! db.phases.Keys
    requires Branch(db, id, parent, phases, anchors, pty).Some?
    ensures Inv(Branch(db, id, parent, phases, anchors, pty).value)
  {
    hide Inv, MaybeAttached;
    BranchedKeepsInv(db, id, parent, phases, anchors);
    hide Branched;
    MaybeAttachedKeepsInv(Branched(db, id, parent, phases, anchors), id, pty);
  }

  // ---- Updating and closing keep it --------------------------------------------

  lemma SkippedInv(db: Db, id: PlanId)
    requires Inv(db)
    ensures Inv(SkipRemaining(db, id))
    ensures !HasUnfinished(SkipRemaining(db, id), id)
  {
    SkippedPhases(db, id);
    hide PhasesValid, AttachmentsValid, TreeValid, EventsValid, HasUnfinished;
    BumpedInv(db, SkipRemaining(db, id), id);
  }

  lemma SkippedPhases(db: Db, id: PlanId)
    requires PhasesValid(db)
    ensures PhasesValid(SkipRemaining(db, id)) && !HasUnfinished(SkipRemaining(db, id), id)
  {
  }

  lemma UnblockedInv(db: Db, id: PlanId)
    requires Inv(db) && id in db.plans
    requires db.plans[id].parent.Some? ==> db.plans[id].parent.value in db.plans && !Closed(db.plans[db.plans[id].parent.value].status)
    ensures Inv(Unblocked(db, id))
  {
    BumpedInv(db, Unblocked(db, id), id);
  }

  lemma RestatedInv(db: Db, id: PlanId, status: Status, now: int)
    requires Inv(db) && id in db.plans && (status.Completed? ==> !HasUnfinished(db, id))
    ensures Inv(Restated(db, id, status, now))
  {
    hide AttachmentsValid, TreeValid, PhasesValid, EventsValid, HasUnfinished, Restated;
    RestatedTree(db, id, status, now);
    RestatedEvents(db, id, status, now);
    RestatedRest(db, id, status, now);
  }

  lemma RestatedTree(db: Db, id: PlanId, status: Status, now: int)
    requires TreeValid(db) && id in db.plans
    ensures TreeValid(Restated(db, id, status, now))
  {
    var db' := Restated(db, id, status, now);
    forall p | p in db'.plans ensures NodeValid(db', p, db'.plans[p]) {
      assert NodeValid(db, p, db.plans[p]);
    }
  }

  lemma RestatedEvents(db: Db, id: PlanId, status: Status, now: int)
    requires EventsValid(db) && id in db.plans
    ensures EventsValid(Restated(db, id, status, now))
  {
    var db' := Restated(db, id, status, now);
    var e := Event(id, EventFor(db.plans[id].status, status), Some(db.plans[id].status), Some(status));
    assert db'.events == db.events + [e];
    forall p ensures ChainOf(db'.events, p) == if p in db'.plans then At(db'.plans[p].status) else Absent {
      ChainAppend(db.events, e, p);
    }
  }

  lemma RestatedRest(db: Db, id: PlanId, status: Status, now: int)
    requires AttachmentsValid(db) && PhasesValid(db) && id in db.plans && (status.Completed? ==> !HasUnfinished(db, id))
    ensures AttachmentsValid(Restated(db, id, status, now)) && PhasesValid(Restated(db, id, status, now))
  {
    hide OneEach;
    assert forall a :: AttachmentInRepo(Restated(db, id, status, now), a) <==> AttachmentInRepo(db, a);
    hide AttachmentInRepo;
  }

  lemma {:induction false} PtysOnAre(attachments: seq<Attachment>, plan: PlanId)
    ensures forall t :: t in PtysOn(attachments, plan) <==>
      exists i :: 0 <= i < |attachments| && IsActive(attachments[i], t) && attachments[i].plan == plan
  {
    if attachments != [] {
      var front, last := attachments[..|attachments| - 1], attachments[|attachments| - 1];
      PtysOnAre(front, plan);
      forall t ensures t in PtysOn(attachments, plan) <==>
        exists i :: 0 <= i < |attachments| && IsActive(attachments[i], t) && attachments[i].plan == plan
      {
        if i :| 0 <= i < |front| && IsActive(front[i], t) && front[i].plan == plan {
          assert attachments[i] == front[i];
        }
        if IsActive(last, t) && last.plan == plan {
          assert attachments[|front|] == last;
        }
      }
    }
  }

  lemma {:induction false} DetachPlanFrees(attachments: seq<Attachment>, plan: PlanId, t: PtyId)
    requires OneEach(attachments)
    ensures OneEach(DetachPlan(attachments, plan))
    ensures AttachedPlan(DetachPlan(attachments, plan), t) ==
      if AttachedPlan(attachments, t) == Some(plan) then None else AttachedPlan(attachments, t)
  {
    var after := DetachPlan(attachments, plan);
    AttachedPlanFinds(attachments, t);
    AttachedPlanFinds(after, t);
    forall i | 0 <= i < |attachments| && IsActive(attachments[i], t) ensures AttachedPlan(attachments, t) == Some(attachments[i].plan) {
      AttachedPlanIs(attachments, i);
    }
    forall i | 0 <= i < |after| && IsActive(after[i], t) ensures AttachedPlan(after, t) == Some(after[i].plan) {
      AttachedPlanIs(after, i);
    }
    if AttachedPlan(attachments, t).Some? && AttachedPlan(attachments, t) != Some(plan) {
      var i :| 0 <= i < |attachments| && IsActive(attachments[i], t) && attachments[i].plan == AttachedPlan(attachments, t).value;
      assert IsActive(after[i], t);
    }
  }

  /** Where closing `id` leaves a PTY: on the parent if it was on `id`, is live and the parent is open. */
  function AfterClose(db: Db, id: PlanId, t: PtyId): Option<PlanId> {
    var was := AttachedPlan(db.attachments, t);
    if was != Some(id) then was
    else if id in db.plans && db.plans[id].parent.Some? && !ParentClosed(db, db.plans[id]) && t in db.ptys && db.ptys[t].live
    then db.plans[id].parent else None
  }

  predicate ParentOpen(db: Db, id: PlanId) {
    id in db.plans && db.plans[id].parent.Some? && db.plans[id].parent.value in db.plans
    && !Closed(db.plans[db.plans[id].parent.value].status)
  }

  /** `popped` with the parent bumped and the closing logged. */
  lemma BranchClosedInv(db: Db, parent: PlanId, status: Status)
    requires Inv(db) && parent in db.plans
    ensures Inv(Logged(Bumped(db, parent), Event(parent, BranchClosed, None, Some(status))))
  {
    var db' := Logged(Bumped(db, parent), Event(parent, BranchClosed, None, Some(status)));
    forall p ensures ChainOf(db'.events, p) == ChainOf(db.events, p) {
      ChainAppend(db.events, Event(parent, BranchClosed, None, Some(status)), p);
    }
    PhasesFrame(db, db');
    BumpedInv(db, db', parent);
  }

  lemma CloseUnderOpenParent(db: Db, id: PlanId, status: Status)
    requires Inv(db) && ParentOpen(db, id)
    ensures CloseIntoParent(db, id, db.plans[id].parent, status).Some?
    ensures var db' := CloseIntoParent(db, id, db.plans[id].parent, status).value;
      && Inv(db') && db'.ptys == db.ptys && SamePlans(db, db')
      && forall t :: AttachedPlan(db'.attachments, t) ==
           if t in PtysOn(db.attachments, id) && t in db.ptys && db.ptys[t].live then db.plans[id].parent
           else AttachedPlan(DetachPlan(db.attachments, id), t)
  {
    var parent, start, ptys := db.plans[id].parent.value, LetGo(db, id, status), PtysOn(db.attachments, id);
    LetGoReady(db, id, status);
    hide LetGo, Inv, AttachedPlan, PtysOn, DetachPlan, AttachmentsValid;
    PopEffect(start, parent, ptys);
    PoppedInv(start, parent, PopOnto(start, parent, ptys).value, status);
    hide PopOnto, SameTree;
  }

  lemma LetGoReady(db: Db, id: PlanId, status: Status)
    requires Inv(db) && ParentOpen(db, id)
    ensures var start := LetGo(db, id, status);
      && Inv(start) && AttachmentsValid(start) && SamePlans(db, start) && start.ptys == db.ptys
      && start.attachments == DetachPlan(db.attachments, id)
      && forall t :: t in PtysOn(db.attachments, id) ==>
           t in start.ptys && start.ptys[t].repo == start.plans[start.plans[id].parent.value].repo
  {
    assert NodeValid(db, id, db.plans[id]);
    PtysOnReady(db, id);
    UnblockedInv(db, id);
    DetachedInv(if status.Completed? then Unblocked(db, id) else db, id);
    hide TreeValid, PhasesValid, EventsValid, PtysOn, DetachPlan;
  }

  lemma PoppedInv(start: Db, parent: PlanId, popped: Db, status: Status)
    requires Inv(start) && parent in start.plans && SameTree(start, popped) && AttachmentsValid(popped)
    requires forall id :: ChainOf(popped.events, id) == ChainOf(start.events, id)
    ensures var db' := Logged(Bumped(popped, parent), Event(parent, BranchClosed, None, Some(status)));
      Inv(db') && SamePlans(start, db') && db'.ptys == start.ptys && db'.attachments == popped.attachments
  {
    hide Inv, AttachmentsValid, ChainOf;
    SameTreeKeepsInv(start, popped);
    BranchClosedInv(popped, parent, status);
  }

  predicate SamePlans(db: Db, db': Db) {
    db'.plans.Keys == db.plans.Keys && forall p :: p in db.plans ==> db'.plans[p].(revision := 0) == db.plans[p].(revision := 0)
  }

  /** Closing a plan never fails to release its PTYs, and pops each live one onto an open parent. */
  lemma CloseEffect(db: Db, id: PlanId, status: Status)
    requires Inv(db) && id in db.plans
    ensures CloseIntoParent(db, id, db.plans[id].parent, status).Some?
    ensures var db' := CloseIntoParent(db, id, db.plans[id].parent, status).value;
      && Inv(db') && db'.ptys == db.ptys && SamePlans(db, db')
      && forall t :: AttachedPlan(db'.attachments, t) == AfterClose(db, id, t)
  {
    assert NodeValid(db, id, db.plans[id]);
    forall t ensures AttachedPlan(DetachPlan(db.attachments, id), t) ==
      if AttachedPlan(db.attachments, t) == Some(id) then None else AttachedPlan(db.attachments, t)
    {
      DetachPlanFrees(db.attachments, id, t);
    }
    if ParentOpen(db, id) {
      CloseUnderOpenParent(db, id, status);
      PtysOnAttached(db, id);
      hide Inv, PtysOn, DetachPlan, AttachedPlan, CloseIntoParent, NodeValid;
    } else {
      DetachedInv(db, id);
      hide Inv, DetachPlan, AttachedPlan;
    }
  }

  lemma PhasesFrame(db: Db, db': Db)
    requires PhasesValid(db) && db'.phases == db.phases && db'.anchors == db.anchors && db'.plans.Keys == db.plans.Keys
    requires forall p :: p in db.plans ==> db'.plans[p].(revision := 0) == db.plans[p].(revision := 0)
    ensures PhasesValid(db')
  {
  }

  lemma DetachedInv(db: Db, id: PlanId)
    requires Inv(db)
    ensures Inv(db.(attachments := DetachPlan(db.attachments, id)))
  {
    var db' := db.(attachments := DetachPlan(db.attachments, id));
    DetachPlanFrees(db.attachments, id, 0);
    assert SameTree(db, db');
    SameTreeKeepsInv(db, db') by {
      assert forall a :: AttachmentInRepo(db', a) <==> AttachmentInRepo(db, a);
    }
  }

  /** The PTYs on a plan are of its repository, and so of its parent's. */
  lemma PtysOnReady(db: Db, id: PlanId)
    requires AttachmentsValid(db) && id in db.plans
    ensures forall t :: t in PtysOn(db.attachments, id) ==> t in db.ptys && db.ptys[t].repo == db.plans[id].repo
  {
    PtysOnAre(db.attachments, id);
    forall t | t in PtysOn(db.attachments, id) ensures t in db.ptys && db.ptys[t].repo == db.plans[id].repo {
      var i :| 0 <= i < |db.attachments| && IsActive(db.attachments[i], t) && db.attachments[i].plan == id;
      assert AttachmentInRepo(db, db.attachments[i]);
    }
  }

  lemma PtysOnAttached(db: Db, id: PlanId)
    requires OneEach(db.attachments)
    ensures forall t :: t in PtysOn(db.attachments, id) <==> AttachedPlan(db.attachments, t) == Some(id)
  {
    PtysOnAre(db.attachments, id);
    forall t ensures t in PtysOn(db.attachments, id) <==> AttachedPlan(db.attachments, t) == Some(id) {
      AttachedPlanFinds(db.attachments, t);
      if i :| 0 <= i < |db.attachments| && IsActive(db.attachments[i], t) && db.attachments[i].plan == id {
        AttachedPlanIs(db.attachments, i);
      }
    }
  }

  /** An update is refused exactly when its guards say so: closing never fails half-way. When it goes through, the
      invariant holds, the plan has the status asked for, and closing pops the plan's live PTYs onto an open parent. */
  lemma UpdateEffect(db: Db, id: PlanId, input: UpdateInput, now: int)
    requires Inv(db)
    ensures Update(db, id, input, now).Some? <==> MayUpdate(db, id, input)
    ensures MayUpdate(db, id, input) ==>
      var db', status := Update(db, id, input, now).value, input.status.GetOr(db.plans[id].status);
      && Inv(db')
      && StatusesAfter(db, db', id, status)
      && forall t :: AttachedPlan(db'.attachments, t) ==
           if Closed(status) then AfterClose(db, id, t) else AttachedPlan(db.attachments, t)
  {
    hide Inv, AttachedPlan, CloseIntoParent;
    if MayUpdate(db, id, input) {
      var p := db.plans[id];
      var status := input.status.GetOr(p.status);
      SkippedInv(db, id);
      var skipped := if Closed(status) && input.skipRemaining then SkipRemaining(db, id) else db;
      RestatedInv(skipped, id, status, now);
      var restated := Restated(skipped, id, status, now);
      assert StatusesAfter(db, restated, id, status);
      if Closed(status) {
        CloseEffect(restated, id, status);
        ParentUntouched(db, restated, id, status);
      }
      hide Restated, SkipRemaining;
    }
  }

  /** Only the status of `id` changed. */
  predicate StatusesAfter(db: Db, db': Db, id: PlanId, status: Status) {
    && db'.plans.Keys == db.plans.Keys && id in db.plans
    && (forall p :: p in db.plans ==>
          && db'.plans[p].status == (if p == id then status else db.plans[p].status)
          && db'.plans[p].parent == db.plans[p].parent)
    && db'.ptys == db.ptys
  }

  lemma ParentUntouched(db: Db, db': Db, id: PlanId, status: Status)
    requires Inv(db) && StatusesAfter(db, db', id, status) && db'.attachments == db.attachments
    ensures forall t :: AfterClose(db', id, t) == AfterClose(db, id, t)
  {
    assert NodeValid(db, id, db.plans[id]);
    hide AttachedPlan;
  }

  // ---- The other requests ------------------------------------------------------

  lemma DetachOneKeepsInv(db: Db, plan: PlanId, pty: PtyId)
    requires Inv(db)
    ensures Inv(DetachOne(db, plan, pty))
  {
    var db' := DetachOne(db, plan, pty);
    if db' != db {
      forall id ensures ChainOf(db'.events, id) == ChainOf(db.events, id) {
        ChainAppend(db.events, Event(plan, PlanDetached, None, None), id);
      }
      hide ChainOf, PhasesValid, TreeValid, EventsValid;
      assert SameTree(db, db');
      SameTreeSameRepos(db, db');
      hide SameTree;
      assert AttachmentsValid(db');
      SameTreeKeepsInv(db, db');
    }
  }

  lemma SetPhaseKeepsInv(db: Db, id: PlanId, f: PhaseId, status: PhaseStatus)
    requires Inv(db) && SetPhase(db, id, f, status).Some?
    ensures Inv(SetPhase(db, id, f, status).value)
  {
    SetPhasePhases(db, id, f, status);
    hide TreeValid, EventsValid, AttachmentsValid, PhasesValid, NodeValid, ChainOf;
    BumpedInv(db, SetPhase(db, id, f, status).value, id);
  }

  lemma SetPhasePhases(db: Db, id: PlanId, f: PhaseId, status: PhaseStatus)
    requires PhasesValid(db) && SetPhase(db, id, f, status).Some?
    ensures PhasesValid(SetPhase(db, id, f, status).value)
  {
  }

  /** Statuses, parents, depths and roots are those of `db`; repositories all went through `rename`. */
  predicate OnlyRenamed(db: Db, db': Db, oldName: string, newName: string) {
    && db'.plans.Keys == db.plans.Keys && db'.ptys.Keys == db.ptys.Keys
    && (forall p :: p in db.plans ==>
          db'.plans[p].(repo := "", revision := 0) == db.plans[p].(repo := "", revision := 0)
          && db'.plans[p].repo == Renamed(db.plans[p].repo, oldName, newName))
    && (forall t :: t in db.ptys ==> db'.ptys[t].repo == Renamed(db.ptys[t].repo, oldName, newName))
    && db'.phases == db.phases && db'.anchors == db.anchors && db'.attachments == db.attachments && db'.events == db.events
  }

  lemma RenameKeepsInv(db: Db, oldName: string, newName: string)
    requires Inv(db)
    ensures Inv(RenameRepo(db, oldName, newName))
  {
    var db' := RenameRepo(db, oldName, newName);
    assert OnlyRenamed(db, db', oldName, newName);
    hide RenameRepo, AttachmentsValid, TreeValid, PhasesValid, EventsValid;
    RenamedAttachments(db, db', oldName, newName);
    RenamedTree(db, db', oldName, newName);
    RenamedRest(db, db', oldName, newName);
    hide OnlyRenamed;
  }

  lemma RenamedAttachments(db: Db, db': Db, oldName: string, newName: string)
    requires AttachmentsValid(db) && OnlyRenamed(db, db', oldName, newName)
    ensures AttachmentsValid(db')
  {
    hide OneEach;
    assert forall a :: AttachmentInRepo(db, a) ==> AttachmentInRepo(db', a);
    hide AttachmentInRepo;
  }

  lemma RenamedTree(db: Db, db': Db, oldName: string, newName: string)
    requires TreeValid(db) && OnlyRenamed(db, db', oldName, newName)
    ensures TreeValid(db')
  {
    forall p | p in db'.plans ensures NodeValid(db', p, db'.plans[p]) {
      assert NodeValid(db, p, db.plans[p]);
    }
  }

  lemma RenamedRest(db: Db, db': Db, oldName: string, newName: string)
    requires PhasesValid(db) && EventsValid(db) && OnlyRenamed(db, db', oldName, newName)
    ensures PhasesValid(db') && EventsValid(db')
  {
    hide ChainOf;
  }

  lemma PtysKeepInv(db: Db, ptys: map<PtyId, Pty>)
    requires Inv(db)
    requires forall t :: t in db.ptys ==> t in ptys && ptys[t].repo == db.ptys[t].repo
    ensures Inv(db.(ptys := ptys))
  {
    var db' := db.(ptys := ptys);
    hide ChainOf, OneEach;
    assert forall a :: AttachmentInRepo(db, a) ==> AttachmentInRepo(db', a);
    forall p | p in db'.plans ensures NodeValid(db', p, db'.plans[p]) {
      assert NodeValid(db, p, db.plans[p]);
    }
  }

  lemma StepKeepsInv(db: Db, op: Op)
    requires Inv(db) && Fresh(db, op)
    ensures Inv(Next(db, op))
  {
    hide Inv, Create, Branch, Update, AttachInTx, DetachOne, SetPhase, RenameRepo;
    if Outcome(db, op).Some? {
      match op
      case CreatePlan(id, repo, phases, pty) => CreateKeepsInv(db, id, repo, phases, pty);
      case OpenBranch(id, parent, phases, anchors, pty) => BranchKeepsInv(db, id, parent, phases, anchors, pty);
      case UpdatePlan(id, input, now) => UpdateEffect(db, id, input, now);
      case AttachPty(id, pty) => AttachKeepsInv(db, id, pty, true);
      case DetachPtyFrom(id, pty) => DetachOneKeepsInv(db, id, pty);
      case WritePhase(id, phase, status) => SetPhaseKeepsInv(db, id, phase, status);
      case Rename(oldName, newName) => RenameKeepsInv(db, oldName, newName);
      case StartPty(pty, repo) => PtysKeepInv(db, db.ptys[pty := Pty(repo, true)]);
      case SetLive(pty, live) => PtysKeepInv(db, db.ptys[pty := db.ptys[pty].(live := live)]);
    }
  }

  function Run(db: Db, ops: seq<Op>): Db
    decreases ops
  {
    if ops == [] then db else Run(Next(db, ops[0]), ops[1..])
  }

  predicate AllFresh(db: Db, ops: seq<Op>)
    decreases ops
  {
    ops != [] ==> Fresh(db, ops[0]) && AllFresh(Next(db, ops[0]), ops[1..])
  }

  lemma {:induction false} RunKeepsInv(db: Db, ops: seq<Op>)
    requires Inv(db) && AllFresh(db, ops)
    ensures Inv(Run(db, ops))
    decreases ops
  {
    hide Inv, Next, Fresh;
    if ops != [] {
      StepKeepsInv(db, ops[0]);
      RunKeepsInv(Next(db, ops[0]), ops[1..]);
    }
  }

  const EMPTY := Db(map[], map[], {}, [], map[], [])

  /** In every reachable state: a PTY is attached to at most one plan, one of its own repository; a completed plan has no
      unfinished phase; and the status events of a plan chain from its creation to its stored status, with `closed_at` set
      exactly on the closed ones. */
  lemma PlansStayConsistent(ops: seq<Op>)
    requires AllFresh(EMPTY, ops)
    ensures var db := Run(EMPTY, ops);
      && (forall i, j :: 0 <= i < j < |db.attachments| && !db.attachments[i].detached && !db.attachments[j].detached ==>
            db.attachments[i].pty != db.attachments[j].pty)
      && (forall i :: 0 <= i < |db.attachments| && !db.attachments[i].detached ==>
            var a := db.attachments[i];
            a.plan in db.plans && a.pty in db.ptys && db.plans[a.plan].repo == db.ptys[a.pty].repo)
      && (forall id :: id in db.plans && db.plans[id].status.Completed? ==> !HasUnfinished(db, id))
      && (forall id :: id in db.plans ==>
            ChainOf(db.events, id) == At(db.plans[id].status) && (db.plans[id].closedAt.Some? <==> Closed(db.plans[id].status)))
  {
    assert Inv(EMPTY);
    RunKeepsInv(EMPTY, ops);
    var db := Run(EMPTY, ops);
    hide Run, AllFresh, ChainOf;
    forall i | 0 <= i < |db.attachments| && !db.attachments[i].detached ensures AttachmentInRepo(db, db.attachments[i]) {
    }
    forall id | id in db.plans ensures NodeValid(db, id, db.plans[id]) {
    }
  }

  // ---- Closed plans and open branches ------------------------------------------

  /** An update that would open a plan again under a parent that is closed; nothing in `update` refuses it. */
  predicate ReopensUnderClosed(db: Db, op: Op) {
    && op.UpdatePlan? && op.id in db.plans
    && Closed(db.plans[op.id].status) && op.input.status.Some? && !Closed(op.input.status.value)
    && ParentClosed(db, db.plans[op.id])
  }

  /** An update keeps closed plans free of open branches exactly when it does not reopen one under a closed parent. */
  lemma UpdateKeepsBottomUpIff(db: Db, id: PlanId, input: UpdateInput, now: int)
    requires Inv(db) && ClosedBottomUp(db) && MayUpdate(db, id, input)
    ensures Update(db, id, input, now).Some?
    ensures ClosedBottomUp(Update(db, id, input, now).value) <==> !ReopensUnderClosed(db, UpdatePlan(id, input, now))
  {
    UpdateEffect(db, id, input, now);
    assert NodeValid(db, id, db.plans[id]);
    assert db.plans[id].parent != Some(id);
    var db', status := Update(db, id, input, now).value, input.status.GetOr(db.plans[id].status);
    hide Update, Inv, AttachedPlan, NodeValid;
    if ReopensUnderClosed(db, UpdatePlan(id, input, now)) {
      assert ParentClosed(db', db'.plans[id]);
    } else {
      forall c | c in db'.plans && !Closed(db'.plans[c].status) ensures !ParentClosed(db', db'.plans[c]) {
      }
    }
  }

  /** Same plans under the same parents with the same statuses. */
  predicate SameStatuses(db: Db, db': Db) {
    db'.plans.Keys == db.plans.Keys
    && forall p :: p in db.plans ==> db'.plans[p].status == db.plans[p].status && db'.plans[p].parent == db.plans[p].parent
  }

  /** A new plan, open, and a root or under an open parent. */
  predicate OnePlanMore(db: Db, db': Db, id: PlanId, parent: Option<PlanId>) {
    && id !in db.plans && db'.plans.Keys == db.plans.Keys + {id}
    && !Closed(db'.plans[id].status) && db'.plans[id].parent == parent
    && (parent.Some? ==> parent.value in db.plans && !Closed(db.plans[parent.value].status))
    && forall p :: p in db.plans ==> db'.plans[p].status == db.plans[p].status && db'.plans[p].parent == db.plans[p].parent
  }

  lemma AttachSameStatuses(db: Db, plan: PlanId, pty: Option<PtyId>)
    requires Inv(db) && MaybeAttached(db, plan, pty).Some?
    ensures SameStatuses(db, MaybeAttached(db, plan, pty).value)
  {
    if pty.Some? {
      AttachEffect(db, plan, pty.value, false);
      hide Inv;
    }
  }

  lemma CreateAddsOne(db: Db, id: PlanId, repo: string, phases: map<PhaseId, PhaseStatus>, pty: Option<PtyId>)
    requires Inv(db) && id !in db.plans && phases.Keys !! db.phases.Keys && Create(db, id, repo, phases, pty).Some?
    ensures OnePlanMore(db, Create(db, id, repo, phases, pty).value, id, None)
  {
    hide AttachmentsValid, TreeValid, PhasesValid, EventsValid, MaybeAttached;
    InsertedKeepsInv(db, id, repo, None, id, 0, phases);
    var inserted := Inserted(db, id, repo, None, id, 0, phases);
    assert OnePlanMore(db, inserted, id, None);
    hide Inv, Inserted;
    AttachSameStatuses(inserted, id, pty);
  }

  lemma BranchAddsOne(db: Db, id: PlanId, parent: PlanId, phases: map<PhaseId, PhaseStatus>, anchors: set<PhaseId>, pty: Option<PtyId>)
    requires Inv(db) && id !in db.plans && phases.Keys !! db.phases.Keys && Branch(db, id, parent, phases, anchors, pty).Some?
    ensures OnePlanMore(db, Branch(db, id, parent, phases, anchors, pty).value, id, Some(parent))
  {
    hide Inv, MaybeAttached;
    BranchedKeepsInv(db, id, parent, phases, anchors);
    var branched := Branched(db, id, parent, phases, anchors);
    assert OnePlanMore(db, branched, id, Some(parent));
    hide Branched;
    AttachSameStatuses(branched, id, pty);
  }

  lemma OneMoreKeepsBottomUp(db: Db, db': Db, id: PlanId, parent: Option<PlanId>)
    requires Inv(db) && ClosedBottomUp(db) && OnePlanMore(db, db', id, parent)
    ensures ClosedBottomUp(db')
  {
    forall c | c in db'.plans && !Closed(db'.plans[c].status) ensures !ParentClosed(db', db'.plans[c]) {
      if c in db.plans {
        assert NodeValid(db, c, db.plans[c]);
      }
    }
  }

  lemma AttachPlanSameStatuses(db: Db, id: PlanId, pty: PtyId)
    requires Inv(db) && AttachPlan(db, id, pty).Some?
    ensures SameStatuses(db, AttachPlan(db, id, pty).value)
  {
    AttachEffect(db, id, pty, true);
    hide Inv;
  }

  lemma StepKeepsBottomUp(db: Db, op: Op)
    requires Inv(db) && ClosedBottomUp(db) && Fresh(db, op) && !ReopensUnderClosed(db, op)
    ensures ClosedBottomUp(Next(db, op))
  {
    hide Inv, Create, Branch, Update, AttachPlan, ClosedBottomUp;
    if Outcome(db, op).Some? {
      var db' := Next(db, op);
      match op
      case CreatePlan(id, repo, phases, pty) =>
        CreateAddsOne(db, id, repo, phases, pty);
        OneMoreKeepsBottomUp(db, db', id, None);
      case OpenBranch(id, parent, phases, anchors, pty) =>
        BranchAddsOne(db, id, parent, phases, anchors, pty);
        OneMoreKeepsBottomUp(db, db', id, Some(parent));
      case UpdatePlan(id, input, now) =>
        UpdateEffect(db, id, input, now);
        UpdateKeepsBottomUpIff(db, id, input, now);
      case AttachPty(id, pty) =>
        AttachPlanSameStatuses(db, id, pty);
        SameStatusesKeepBottomUp(db, db');
      case _ =>
        assert SameStatuses(db, db');
        SameStatusesKeepBottomUp(db, db');
    }
  }

  lemma SameStatusesKeepBottomUp(db: Db, db': Db)
    requires ClosedBottomUp(db) && SameStatuses(db, db')
    ensures ClosedBottomUp(db')
  {
  }

  predicate NeverReopensUnderClosed(db: Db, ops: seq<Op>)
    decreases ops
  {
    ops != [] ==> !ReopensUnderClosed(db, ops[0]) && NeverReopensUnderClosed(Next(db, ops[0]), ops[1..])
  }

  /** Over every run that reopens no plan under a closed parent, closed plans have no open branches. */
  lemma {:induction false} RunKeepsBottomUp(db: Db, ops: seq<Op>)
    requires Inv(db) && ClosedBottomUp(db) && AllFresh(db, ops) && NeverReopensUnderClosed(db, ops)
    ensures ClosedBottomUp(Run(db, ops))
    decreases ops
  {
    hide Inv, Next, Fresh, ClosedBottomUp, ReopensUnderClosed;
    if ops != [] {
      StepKeepsInv(db, ops[0]);
      StepKeepsBottomUp(db, ops[0]);
      RunKeepsBottomUp(Next(db, ops[0]), ops[1..]);
    }
  }

  /** The same from empty tables. */
  lemma PlansCloseBottomUp(ops: seq<Op>)
    requires AllFresh(EMPTY, ops) && NeverReopensUnderClosed(EMPTY, ops)
    ensures ClosedBottomUp(Run(EMPTY, ops))
  {
    RunKeepsBottomUp(EMPTY, ops);
  }

  // ---- Attachments are to open plans --------------------------------------------

  /** Whoever is attached is attached to an open plan. */
  ghost predicate AttachedOpen(db: Db) {
    forall t :: AttachedPlan(db.attachments, t).Some? ==> IsOpenPlan(db, AttachedPlan(db.attachments, t).value)
  }

  predicate IsOpenPlan(db: Db, id: PlanId) {
    id in db.plans && !Closed(db.plans[id].status)
  }

  /** The plans of `db` keep their statuses; there may be more. */
  predicate KeepsStatuses(db: Db, db': Db) {
    forall p :: p in db.plans ==> p in db'.plans && db'.plans[p].status == db.plans[p].status
  }

  lemma SameAttachmentsStayOpen(db: Db, db': Db)
    requires AttachedOpen(db) && KeepsStatuses(db, db') && db'.attachments == db.attachments
    ensures AttachedOpen(db')
  {
    hide AttachedPlan;
    forall t | AttachedPlan(db'.attachments, t).Some? ensures IsOpenPlan(db', AttachedPlan(db'.attachments, t).value) {
      assert IsOpenPlan(db, AttachedPlan(db.attachments, t).value);
    }
  }

  lemma AttachStaysOpen(db: Db, plan: PlanId, pty: PtyId, bump: bool)
    requires Inv(db) && AttachedOpen(db) && AttachInTx(db, plan, pty, bump).Some? && IsOpenPlan(db, plan)
    ensures AttachedOpen(AttachInTx(db, plan, pty, bump).value)
  {
    AttachEffect(db, plan, pty, bump);
    var db' := AttachInTx(db, plan, pty, bump).value;
    assert KeepsStatuses(db, db');
    hide Inv, AttachedPlan, AttachInTx;
    forall t | AttachedPlan(db'.attachments, t).Some? ensures IsOpenPlan(db', AttachedPlan(db'.attachments, t).value) {
      if t != pty {
        assert IsOpenPlan(db, AttachedPlan(db.attachments, t).value);
      }
    }
  }

  lemma MaybeAttachedStaysOpen(db: Db, plan: PlanId, pty: Option<PtyId>)
    requires Inv(db) && AttachedOpen(db) && MaybeAttached(db, plan, pty).Some? && IsOpenPlan(db, plan)
    ensures AttachedOpen(MaybeAttached(db, plan, pty).value)
  {
    hide Inv, AttachInTx, AttachedOpen;
    if pty.Some? {
      AttachStaysOpen(db, plan, pty.value, false);
    }
  }

  lemma CreateStaysOpen(db: Db, id: PlanId, repo: string, phases: map<PhaseId, PhaseStatus>, pty: Option<PtyId>)
    requires Inv(db) && AttachedOpen(db) && id !in db.plans && phases.Keys !! db.phases.Keys
    requires Create(db, id, repo, phases, pty).Some?
    ensures AttachedOpen(Create(db, id, repo, phases, pty).value)
  {
    hide AttachmentsValid, TreeValid, PhasesValid, EventsValid, MaybeAttached, AttachedOpen;
    InsertedKeepsInv(db, id, repo, None, id, 0, phases);
    var inserted := Inserted(db, id, repo, None, id, 0, phases);
    SameAttachmentsStayOpen(db, inserted);
    assert IsOpenPlan(inserted, id);
    hide Inv, Inserted;
    MaybeAttachedStaysOpen(inserted, id, pty);
  }

  lemma BranchStaysOpen(db: Db, id: PlanId, parent: PlanId, phases: map<PhaseId, PhaseStatus>, anchors: set<PhaseId>, pty: Option<PtyId>)
    requires Inv(db) && AttachedOpen(db) && id !in db.plans && phases.Keys !! db.phases.Keys
    requires Branch(db, id, parent, phases, anchors, pty).Some?
    ensures AttachedOpen(Branch(db, id, parent, phases, anchors, pty).value)
  {
    hide Inv, MaybeAttached, AttachedOpen;
    BranchedKeepsInv(db, id, parent, phases, anchors);
    var branched := Branched(db, id, parent, phases, anchors);
    SameAttachmentsStayOpen(db, branched);
    assert IsOpenPlan(branched, id);
    hide Branched;
    MaybeAttachedStaysOpen(branched, id, pty);
  }

  lemma UpdateStaysOpen(db: Db, id: PlanId, input: UpdateInput, now: int)
    requires Inv(db) && AttachedOpen(db) && Update(db, id, input, now).Some?
    ensures AttachedOpen(Update(db, id, input, now).value)
  {
    UpdateEffect(db, id, input, now);
    var db' := Update(db, id, input, now).value;
    hide Inv, AttachedPlan, Update;
    forall t | AttachedPlan(db'.attachments, t).Some? ensures IsOpenPlan(db', AttachedPlan(db'.attachments, t).value) {
      assert AttachedPlan(db.attachments, t).Some? && IsOpenPlan(db, AttachedPlan(db.attachments, t).value);
    }
  }

  /** Detaching takes the PTY off that plan, if it is on it, and leaves every other one where it was. */
  lemma DetachFrees(db: Db, plan: PlanId, pty: PtyId, t: PtyId)
    requires OneEach(db.attachments)
    ensures AttachedPlan(DetachOne(db, plan, pty).attachments, t) ==
      if t == pty && AttachedPlan(db.attachments, pty) == Some(plan) then None else AttachedPlan(db.attachments, t)
  {
    hide AttachedPlan;
    var after := DetachOne(db, plan, pty).attachments;
    AttachedPlanFinds(db.attachments, t);
    AttachedPlanFinds(after, t);
    DetachOneAt(db, plan, pty);
    hide DetachOne;
    if AttachedPlan(after, t).Some? {
      var i :| 0 <= i < |after| && IsActive(after[i], t) && after[i].plan == AttachedPlan(after, t).value;
      AttachedPlanIs(db.attachments, i);
    }
    if AttachedPlan(db.attachments, t).Some? {
      var j :| 0 <= j < |db.attachments| && IsActive(db.attachments[j], t) && db.attachments[j].plan == AttachedPlan(db.attachments, t).value;
      assert !(t == pty && db.attachments[j].plan == plan) ==> after[j] == db.attachments[j];
      if after[j] == db.attachments[j] {
        AttachedIsFound(after, j, t);
      }
    }
  }

  lemma DetachOneAt(db: Db, plan: PlanId, pty: PtyId)
    ensures var after := DetachOne(db, plan, pty).attachments;
      && |after| == |db.attachments|
      && forall i :: 0 <= i < |after| ==>
           var a := db.attachments[i];
           after[i] == if IsActive(a, pty) && a.plan == plan then a.(detached := true) else a
  {
  }

  lemma AttachedIsFound(attachments: seq<Attachment>, j: nat, t: PtyId)
    requires j < |attachments| && IsActive(attachments[j], t)
    ensures AttachedPlan(attachments, t).Some?
  {
    AttachedPlanFinds(attachments, t);
  }

  lemma DetachStaysOpen(db: Db, plan: PlanId, pty: PtyId)
    requires Inv(db) && AttachedOpen(db)
    ensures AttachedOpen(DetachOne(db, plan, pty))
  {
    var db' := DetachOne(db, plan, pty);
    assert KeepsStatuses(db, db') && OneEach(db.attachments);
    hide AttachedPlan, DetachOne, Inv, OneEach;
    forall t | AttachedPlan(db'.attachments, t).Some? ensures IsOpenPlan(db', AttachedPlan(db'.attachments, t).value) {
      DetachFrees(db, plan, pty, t);
      assert IsOpenPlan(db, AttachedPlan(db.attachments, t).value);
    }
  }

  lemma StepStaysOpen(db: Db, op: Op)
    requires Inv(db) && AttachedOpen(db) && Fresh(db, op)
    ensures AttachedOpen(Next(db, op))
  {
    hide Inv, Create, Branch, Update, AttachInTx, DetachOne, AttachedOpen;
    if Outcome(db, op).Some? {
      match op
      case CreatePlan(id, repo, phases, pty) => CreateStaysOpen(db, id, repo, phases, pty);
      case OpenBranch(id, parent, phases, anchors, pty) => BranchStaysOpen(db, id, parent, phases, anchors, pty);
      case UpdatePlan(id, input, now) => UpdateStaysOpen(db, id, input, now);
      case AttachPty(id, pty) => AttachStaysOpen(db, id, pty, true);
      case DetachPtyFrom(id, pty) => DetachStaysOpen(db, id, pty);
      case _ => SameAttachmentsStayOpen(db, Next(db, op));
    }
  }

  lemma {:induction false} RunStaysOpen(db: Db, ops: seq<Op>)
    requires Inv(db) && AttachedOpen(db) && AllFresh(db, ops)
    ensures Inv(Run(db, ops)) && AttachedOpen(Run(db, ops))
    decreases ops
  {
    hide Inv, Next, Fresh, AttachedOpen;
    if ops != [] {
      StepKeepsInv(db, ops[0]);
      StepStaysOpen(db, ops[0]);
      RunStaysOpen(Next(db, ops[0]), ops[1..]);
    }
  }

  /** In every reachable state no active attachment is to a closed plan. */
  lemma AttachmentsAreToOpenPlans(ops: seq<Op>)
    requires AllFresh(EMPTY, ops)
    ensures var db := Run(EMPTY, ops);
      forall i :: 0 <= i < |db.attachments| && !db.attachments[i].detached ==>
        db.attachments[i].plan in db.plans && !Closed(db.plans[db.attachments[i].plan].status)
  {
    RunStaysOpen(EMPTY, ops);
    var db := Run(EMPTY, ops);
    hide Run, AllFresh, AttachedPlan;
    assert OneEach(db.attachments);
    forall i | 0 <= i < |db.attachments| && !db.attachments[i].detached ensures IsOpenPlan(db, db.attachments[i].plan) {
      AttachedPlanIs(db.attachments, i);
    }
  }

  // ---- Phases after an update ------------------------------------------------------

  lemma {:induction false} PopKeepsPhases(db: Db, plan: PlanId, ptys: seq<PtyId>)
    requires PopOnto(db, plan, ptys).Some?
    ensures PopOnto(db, plan, ptys).value.phases == db.phases
    decreases |ptys|
  {
    hide AttachedPlan;
    if ptys != [] {
      var live := ptys[0] in db.ptys && db.ptys[ptys[0]].live;
      var next := if live then AttachInTx(db, plan, ptys[0], false) else Some(db);
      assert next.value.phases == db.phases;
      hide AttachInTx;
      PopKeepsPhases(next.value, plan, ptys[1..]);
    }
  }

  /** Closing touches no phase but those the completed branch was to resolve. */
  lemma ClosePhases(db: Db, id: PlanId, status: Status)
    requires id in db.plans && CloseIntoParent(db, id, db.plans[id].parent, status).Some?
    ensures CloseIntoParent(db, id, db.plans[id].parent, status).value.phases ==
      if ParentOpen(db, id) && status.Completed? then Unblocked(db, id).phases else db.phases
  {
    hide DetachPlan, PtysOn, Unblocked;
    if ParentOpen(db, id) {
      PopKeepsPhases(LetGo(db, id, status), db.plans[id].parent.value, PtysOn(db.attachments, id));
      hide PopOnto;
    }
  }

  /** What an accepted update does to every phase: unfinished phases of the plan are skipped exactly when it closes and
      asks for that; phases of other plans keep their status, but for the blocked ones a completed branch was opened to
      resolve under an open parent, which go on. No phase comes, goes or changes plan. */
  lemma UpdatePhases(db: Db, id: PlanId, input: UpdateInput, now: int, f: PhaseId)
    requires Inv(db) && MayUpdate(db, id, input) && f in db.phases
    ensures Update(db, id, input, now).Some?
    ensures var db', status, phase := Update(db, id, input, now).value, input.status.GetOr(db.plans[id].status), db.phases[f];
      && db'.phases.Keys == db.phases.Keys && db'.phases[f].plan == phase.plan
      && db'.phases[f].status ==
           (if phase.plan == id then
              if status in {Completed, Canceled} && input.skipRemaining && phase.status !in {PhaseCompleted, Skipped}
              then Skipped else phase.status
            else if && status == Completed && ParentOpen(db, id) && Anchor(id, f) in db.anchors && phase.status == PhaseStatus.Blocked
            then InProgress
            else phase.status)
  {
    UpdateEffect(db, id, input, now);
    var status := input.status.GetOr(db.plans[id].status);
    AnchorsElsewhere(db, id, f);
    var skipped := if Closed(status) && input.skipRemaining then SkipRemaining(db, id) else db;
    SkippedAt(db, id, f);
    var restated := Restated(skipped, id, status, now);
    RestatedKeeps(skipped, id, status, now);
    if Closed(status) {
      SameParentOpen(db, restated, id);
      hide Inv, Restated, SkipRemaining, CloseIntoParent, ParentOpen;
      ClosePhases(restated, id, status);
      UnblockedAt(restated, id, f);
    }
    hide Inv, Restated, SkipRemaining, CloseIntoParent, ParentOpen, Unblocked, MayUpdate;
  }

  lemma SkippedAt(db: Db, id: PlanId, f: PhaseId)
    requires f in db.phases
    ensures var after := SkipRemaining(db, id);
      && after.phases.Keys == db.phases.Keys && after.phases[f].plan == db.phases[f].plan
      && after.phases[f].status ==
           (if db.phases[f].plan == id && db.phases[f].status !in {PhaseCompleted, Skipped} then Skipped else db.phases[f].status)
      && after.anchors == db.anchors && after.plans == db.plans && after.ptys == db.ptys
  {
  }

  lemma UnblockedAt(db: Db, id: PlanId, f: PhaseId)
    requires f in db.phases
    ensures var after := Unblocked(db, id);
      && after.phases.Keys == db.phases.Keys && after.phases[f].plan == db.phases[f].plan
      && after.phases[f].status ==
           (if Anchor(id, f) in db.anchors && db.phases[f].status == PhaseStatus.Blocked then InProgress else db.phases[f].status)
  {
  }

  lemma RestatedKeeps(db: Db, id: PlanId, status: Status, now: int)
    requires id in db.plans
    ensures var after := Restated(db, id, status, now);
      && after.phases == db.phases && after.anchors == db.anchors && after.ptys == db.ptys
      && after.plans.Keys == db.plans.Keys && after.plans[id].parent == db.plans[id].parent && after.plans[id].status == status
      && forall q :: q in db.plans ==>
           after.plans[q].parent == db.plans[q].parent && (q == id || after.plans[q].status == db.plans[q].status)
  {
  }

  /** Anchors sit in the parent, never in the plan itself. */
  lemma AnchorsElsewhere(db: Db, id: PlanId, f: PhaseId)
    requires Inv(db) && id in db.plans && f in db.phases
    ensures Anchor(id, f) in db.anchors ==> db.phases[f].plan != id
  {
    assert NodeValid(db, id, db.plans[id]);
    if Anchor(id, f) in db.anchors {
      assert db.plans[id].parent == Some(db.phases[f].plan);
    }
  }

  lemma SameParentOpen(db: Db, db': Db, id: PlanId)
    requires Inv(db) && id in db.plans && db'.plans.Keys == db.plans.Keys
    requires forall q :: q in db.plans ==> db'.plans[q].parent == db.plans[q].parent && (q == id || db'.plans[q].status == db.plans[q].status)
    ensures ParentOpen(db', id) <==> ParentOpen(db, id)
  {
    assert NodeValid(db, id, db.plans[id]);
  }

  /** When a plan counts as closed since: from the update that closed it, until one opens it again. */
  lemma UpdateClosedAt(db: Db, id: PlanId, input: UpdateInput, now: int)
    requires Inv(db) && MayUpdate(db, id, input)
    ensures Update(db, id, input, now).Some?
    ensures var db', status := Update(db, id, input, now).value, input.status.GetOr(db.plans[id].status);
      && id in db'.plans
      && db'.plans[id].closedAt ==
           (if status in {Active, Paused} then None else if Closed(db.plans[id].status) then db.plans[id].closedAt else Some(now))
  {
    UpdateEffect(db, id, input, now);
    assert NodeValid(db, id, db.plans[id]);
    var status := input.status.GetOr(db.plans[id].status);
    SkippedInv(db, id);
    var skipped := if Closed(status) && input.skipRemaining then SkipRemaining(db, id) else db;
    RestatedInv(skipped, id, status, now);
    var restated := Restated(skipped, id, status, now);
    hide Inv, CloseIntoParent;
    if Closed(status) {
      CloseEffect(restated, id, status);
    }
  }

  /** An update is accepted exactly when the plan exists, has a parent if one is required, and, to be closed, has no open
      branch and, to be completed, no unfinished phase that is not to be skipped. */
  lemma UpdateAcceptedIff(db: Db, id: PlanId, input: UpdateInput, now: int)
    requires Inv(db)
    ensures Update(db, id, input, now).Some? <==>
      && id in db.plans
      && (input.requireBranch ==> db.plans[id].parent != None)
      && var status := input.status.GetOr(db.plans[id].status);
         && (status in {Completed, Canceled} ==>
               forall c :: c in db.plans && db.plans[c].parent == Some(id) ==> db.plans[c].status in {Completed, Canceled})
         && (status == Completed && !input.skipRemaining ==>
               forall f :: f in db.phases && db.phases[f].plan == id ==> db.phases[f].status in {PhaseCompleted, Skipped})
  {
    UpdateEffect(db, id, input, now);
    hide Update, Inv;
  }

  // ---- What creating does ------------------------------------------------------------

  /** A created plan is an open root with its phases as given, and its author is on it. */
  lemma CreatedPlanIs(db: Db, id: PlanId, repo: string, phases: map<PhaseId, PhaseStatus>, pty: Option<PtyId>)
    requires Inv(db) && id !in db.plans && phases.Keys !! db.phases.Keys
    ensures Create(db, id, repo, phases, pty).Some? <==>
      && phases != map[]
      && (pty.Some? ==> pty.value in db.ptys && db.ptys[pty.value].live && db.ptys[pty.value].repo == repo)
    ensures Create(db, id, repo, phases, pty).Some? ==>
      var db' := Create(db, id, repo, phases, pty).value;
      && db'.plans.Keys == db.plans.Keys + {id}
      && db'.plans[id] == Plan(repo, Active, None, id, 0, 1, None)
      && (forall f :: f in phases ==> f in db'.phases && db'.phases[f] == Phase(id, phases[f]))
      && (forall f :: f in db.phases ==> f in db'.phases && db'.phases[f] == db.phases[f])
      && db'.anchors == db.anchors
      && (pty.Some? ==> AttachedPlan(db'.attachments, pty.value) == Some(id))
      && (forall t: PtyId :: pty != Some(t) ==> AttachedPlan(db'.attachments, t) == AttachedPlan(db.attachments, t))
  {
    var inserted := Inserted(db, id, repo, None, id, 0, phases);
    InsertedKeepsInv(db, id, repo, None, id, 0, phases);
    NobodyOn(db, id);
    InsertedIs(db, id, repo, phases);
    hide Inv, AttachedPlan, Inserted, AttachInTx;
    if pty.Some? {
      AttachSucceedsIff(inserted, id, pty.value, false);
      if AttachInTx(inserted, id, pty.value, false).Some? {
        NewPlanAttached(inserted, id, pty.value);
      }
    }
  }

  lemma NewPlanAttached(db: Db, plan: PlanId, pty: PtyId)
    requires Inv(db) && AttachInTx(db, plan, pty, false).Some? && AttachedPlan(db.attachments, pty) != Some(plan)
    ensures var db' := AttachInTx(db, plan, pty, false).value;
      && db'.plans.Keys == db.plans.Keys && plan in db.plans && db'.plans[plan] == db.plans[plan] && db'.phases == db.phases && db'.anchors == db.anchors
      && AttachedPlan(db'.attachments, pty) == Some(plan)
      && (forall t :: t != pty ==> AttachedPlan(db'.attachments, t) == AttachedPlan(db.attachments, t))
  {
    AttachSucceedsIff(db, plan, pty, false);
    AttachEffect(db, plan, pty, false);
    AttachLeavesPlan(db, plan, pty, false);
    hide Inv, AttachedPlan, AttachInTx;
  }

  lemma AttachSucceedsIff(db: Db, plan: PlanId, pty: PtyId, bump: bool)
    ensures AttachInTx(db, plan, pty, bump).Some? <==>
      plan in db.plans && pty in db.ptys && db.ptys[pty].live && db.ptys[pty].repo == db.plans[plan].repo
  {
  }

  lemma InsertedIs(db: Db, id: PlanId, repo: string, phases: map<PhaseId, PhaseStatus>)
    requires id !in db.plans && phases.Keys !! db.phases.Keys
    ensures var db' := Inserted(db, id, repo, None, id, 0, phases);
      && db'.plans == db.plans[id := Plan(repo, Active, None, id, 0, 1, None)]
      && db'.attachments == db.attachments && db'.ptys == db.ptys
      && (forall f :: f in phases ==> f in db'.phases && db'.phases[f] == Phase(id, phases[f]))
      && (forall f :: f in db.phases ==> f in db'.phases && db'.phases[f] == db.phases[f])
  {
  }

  /** No PTY is on a plan that does not exist. */
  lemma NobodyOn(db: Db, id: PlanId)
    requires Inv(db) && id !in db.plans
    ensures AttachmentsValid(db) && forall t :: AttachedPlan(db.attachments, t) != Some(id)
  {
    hide TreeValid, PhasesValid, EventsValid;
    forall t ensures AttachedPlan(db.attachments, t) != Some(id) {
      AttachedPlanFinds(db.attachments, t);
      hide AttachedPlan;
      if AttachedPlan(db.attachments, t).Some? {
        var i :| 0 <= i < |db.attachments| && IsActive(db.attachments[i], t)
                 && db.attachments[i].plan == AttachedPlan(db.attachments, t).value;
        assert AttachmentInRepo(db, db.attachments[i]);
      }
    }
  }

  /** An attachment without a bump changes no row of the plan attached to. */
  lemma AttachLeavesPlan(db: Db, plan: PlanId, pty: PtyId, bump: bool)
    requires AttachInTx(db, plan, pty, bump).Some?
    ensures var db' := AttachInTx(db, plan, pty, bump).value;
      && db'.plans.Keys == db.plans.Keys
      && forall p :: p in db.plans ==>
           db'.plans[p] == db.plans[p].(revision := db.plans[p].revision + AttachBumps(db, plan, pty, bump, p))
  {
    hide AttachedPlan;
  }

  /** How far an attachment moves the revision of `p`: the plan left behind always, the plan attached to when asked. */
  function AttachBumps(db: Db, plan: PlanId, pty: PtyId, bump: bool, p: PlanId): nat {
    var existing := AttachedPlan(db.attachments, pty);
    if existing == Some(plan) then 0 else if existing == Some(p) || (bump && p == plan) then 1 else 0
  }

  function Started(phase: Phase, anchored: bool): Phase {
    if anchored && phase.status == Pending then Phase(phase.plan, InProgress) else phase
  }

  /** A branch needs an open parent less than eight levels deep, phases of its own, at least one phase of the parent to hang
      on, and an author, if any, that is live in the repository. */
  lemma BranchAcceptedIff(db: Db, id: PlanId, parent: PlanId, phases: map<PhaseId, PhaseStatus>, anchors: set<PhaseId>, pty: Option<PtyId>)
    requires id !in db.plans && phases.Keys !! db.phases.Keys
    ensures Branch(db, id, parent, phases, anchors, pty).Some? <==>
      && phases != map[] && anchors != {}
      && parent in db.plans && db.plans[parent].status in {Active, Paused} && db.plans[parent].depth < 8
      && (forall f :: f in anchors ==> f in db.phases && db.phases[f].plan == parent)
      && (pty.Some? ==> pty.value in db.ptys && db.ptys[pty.value].live && db.ptys[pty.value].repo == db.plans[parent].repo)
  {
    MayBranchIff(db, parent, phases, anchors);
    if MayBranch(db, parent, phases, anchors) {
      BranchedIs(db, id, parent, phases, anchors);
      hide Branched, MayBranch, AttachInTx, Started;
      if pty.Some? {
        AttachSucceedsIff(Branched(db, id, parent, phases, anchors), id, pty.value, false);
      }
    }
  }

  /** It is an open plan one level below its parent, with its phases as given, anchored where asked; the pending ones among
      those phases get under way, no other phase changes, and its author is on it. */
  lemma BranchedPlanIs(db: Db, id: PlanId, parent: PlanId, phases: map<PhaseId, PhaseStatus>, anchors: set<PhaseId>, pty: Option<PtyId>)
    requires Inv(db) && id !in db.plans && phases.Keys !! db.phases.Keys
    requires Branch(db, id, parent, phases, anchors, pty).Some?
    ensures var db', p := Branch(db, id, parent, phases, anchors, pty).value, db.plans[parent];
      && db'.plans.Keys == db.plans.Keys + {id}
      && db'.plans[id] == Plan(p.repo, Active, Some(parent), p.root, p.depth + 1, 1, None)
      && (forall f :: f in phases ==> f in db'.phases && db'.phases[f] == Phase(id, phases[f]))
      && (forall f :: f in db.phases ==> f in db'.phases && db'.phases[f] == Started(db.phases[f], f in anchors))
      && (forall a :: a in db'.anchors <==> a in db.anchors || (a.branch == id && a.phase in anchors))
      && (pty.Some? ==> AttachedPlan(db'.attachments, pty.value) == Some(id))
      && (forall t: PtyId :: pty != Some(t) ==> AttachedPlan(db'.attachments, t) == AttachedPlan(db.attachments, t))
  {
    hide *;
    BranchComposes(db, id, parent, phases, anchors, pty);
    var branched := Branched(db, id, parent, phases, anchors);
    NobodyOn(db, id);
    BranchedIs(db, id, parent, phases, anchors);
    BranchedKeepsInv(db, id, parent, phases, anchors);
    MaybeNewPlanAttached(branched, id, pty);
  }

  lemma BranchComposes(db: Db, id: PlanId, parent: PlanId, phases: map<PhaseId, PhaseStatus>, anchors: set<PhaseId>, pty: Option<PtyId>)
    requires id !in db.plans && phases.Keys !! db.phases.Keys && Branch(db, id, parent, phases, anchors, pty).Some?
    ensures MayBranch(db, parent, phases, anchors) && parent in db.plans
    ensures Branch(db, id, parent, phases, anchors, pty) == MaybeAttached(Branched(db, id, parent, phases, anchors), id, pty)
  {
    hide Branched, MaybeAttached;
  }

  lemma MaybeNewPlanAttached(db: Db, plan: PlanId, pty: Option<PtyId>)
    requires Inv(db) && MaybeAttached(db, plan, pty).Some? && plan in db.plans
    requires pty.Some? ==> AttachedPlan(db.attachments, pty.value) != Some(plan)
    ensures var db' := MaybeAttached(db, plan, pty).value;
      && db'.plans.Keys == db.plans.Keys && db'.plans[plan] == db.plans[plan] && db'.phases == db.phases && db'.anchors == db.anchors
      && (pty.Some? ==> AttachedPlan(db'.attachments, pty.value) == Some(plan))
      && (forall t: PtyId :: pty != Some(t) ==> AttachedPlan(db'.attachments, t) == AttachedPlan(db.attachments, t))
  {
    hide Inv, AttachInTx, AttachedPlan;
    if pty.Some? {
      NewPlanAttached(db, plan, pty.value);
    }
  }

  lemma MayBranchIff(db: Db, parent: PlanId, phases: map<PhaseId, PhaseStatus>, anchors: set<PhaseId>)
    ensures MayBranch(db, parent, phases, anchors) <==>
      && phases != map[] && anchors != {}
      && parent in db.plans && db.plans[parent].status in {Active, Paused} && db.plans[parent].depth < 8
      && (forall f :: f in anchors ==> f in db.phases && db.phases[f].plan == parent)
  {
  }

  lemma BranchedIs(db: Db, id: PlanId, parent: PlanId, phases: map<PhaseId, PhaseStatus>, anchors: set<PhaseId>)
    requires id !in db.plans && phases.Keys !! db.phases.Keys && MayBranch(db, parent, phases, anchors)
    ensures var db', p := Branched(db, id, parent, phases, anchors), db.plans[parent];
      && db'.plans == db.plans[parent := p.(revision := p.revision + 1)][id := Plan(p.repo, Active, Some(parent), p.root, p.depth + 1, 1, None)]
      && db'.attachments == db.attachments && db'.ptys == db.ptys
      && db'.phases.Keys == db.phases.Keys + phases.Keys
      && (forall f :: f in phases ==> f in db'.phases && db'.phases[f] == Phase(id, phases[f]))
      && (forall f :: f in db.phases ==> f in db'.phases && db'.phases[f] == Started(db.phases[f], f in anchors))
      && (forall a :: a in db'.anchors <==> a in db.anchors || (a.branch == id && a.phase in anchors))
  {
  }

  // ---- The event log counts who is on a plan -------------------------------------------

  /** What an event says about the number of PTYs on its plan: one more, one less, and none once the plan is closed. */
  function Counting(n: int, e: Event): int {
    match e.kind
    case PlanAttached => n + 1
    case PlanDetached => n - 1
    case PlanUpdated | PlanStatusChanged | PlanClosed => if e.to.Some? && Closed(e.to.value) then 0 else n
    case _ => n
  }

  function Replayed(events: seq<Event>, id: PlanId): int {
    if events == [] then 0
    else
      var e, n := events[|events| - 1], Replayed(events[..|events| - 1], id);
      if e.plan == id then Counting(n, e) else n
  }

  /** Reading the log alone gives the number of PTYs on every plan. */
  ghost predicate LogCounts(db: Db) {
    forall p :: Replayed(db.events, p) == |PtysOn(db.attachments, p)|
  }

  lemma ReplayedAppend(events: seq<Event>, e: Event, id: PlanId)
    ensures Replayed(events + [e], id) == if e.plan == id then Counting(Replayed(events, id), e) else Replayed(events, id)
  {
    assert (events + [e])[..|events|] == events;
  }

  lemma {:induction false} ReplayedQuiet(events: seq<Event>, more: seq<Event>, id: PlanId)
    requires forall e :: e in more ==> e.kind.BranchOpened?
    ensures Replayed(events + more, id) == Replayed(events, id)
  {
    if more == [] {
      assert events + more == events;
    } else {
      var front, last := more[..|more| - 1], more[|more| - 1];
      ReplayedQuiet(events, front, id);
      ReplayedAppend(events + front, last, id);
      assert events + more == events + front + [last];
    }
  }

  lemma PtysOnAppend(attachments: seq<Attachment>, a: Attachment, id: PlanId)
    ensures |PtysOn(attachments + [a], id)| == |PtysOn(attachments, id)| + if a.plan == id && !a.detached then 1 else 0
  {
    assert (attachments + [a])[..|attachments|] == attachments;
  }

  lemma {:induction false} FreedCount(attachments: seq<Attachment>, pty: PtyId, id: PlanId)
    requires OneEach(attachments)
    ensures |PtysOn(DetachPty(attachments, pty), id)| ==
      |PtysOn(attachments, id)| - if AttachedPlan(attachments, pty) == Some(id) then 1 else 0
  {
    if attachments != [] {
      var front, last := attachments[..|attachments| - 1], attachments[|attachments| - 1];
      var after := DetachPty(attachments, pty);
      assert after[..|front|] == DetachPty(front, pty);
      assert attachments == front + [last];
      FreedCount(front, pty, id);
      AttachedPlanFinds(front, pty);
      hide DetachPty, OneEach;
      PtysOnAppend(front, last, id);
      PtysOnAppend(DetachPty(front, pty), after[|front|], id);
      assert after == DetachPty(front, pty) + [after[|front|]];
    }
  }

  lemma {:induction false} LeftCount(attachments: seq<Attachment>, plan: PlanId, id: PlanId)
    ensures |PtysOn(DetachPlan(attachments, plan), id)| == if id == plan then 0 else |PtysOn(attachments, id)|
  {
    if attachments != [] {
      var front, last := attachments[..|attachments| - 1], attachments[|attachments| - 1];
      var after := DetachPlan(attachments, plan);
      assert after[..|front|] == DetachPlan(front, plan);
      LeftCount(front, plan, id);
      hide DetachPlan;
    }
  }

  lemma AttachCounts(db: Db, plan: PlanId, pty: PtyId, bump: bool)
    requires OneEach(db.attachments) && LogCounts(db) && AttachInTx(db, plan, pty, bump).Some?
    ensures LogCounts(AttachInTx(db, plan, pty, bump).value)
  {
    AttachShape(db, plan, pty, bump);
    var db', existing := AttachInTx(db, plan, pty, bump).value, AttachedPlan(db.attachments, pty);
    hide AttachInTx;
    if existing != Some(plan) {
      forall p ensures Replayed(db'.events, p) == |PtysOn(db'.attachments, p)| {
        hide AttachedPlan, PtysOn, OneEach;
        AttachedCount(db.attachments, plan, pty, p);
        LoggedAttachment(db.events, existing, plan, p);
      }
    }
  }

  lemma AttachedCount(attachments: seq<Attachment>, plan: PlanId, pty: PtyId, id: PlanId)
    requires OneEach(attachments)
    ensures |PtysOn(Reattached(attachments, plan, pty), id)| ==
      |PtysOn(attachments, id)| + (if id == plan then 1 else 0) - (if AttachedPlan(attachments, pty) == Some(id) then 1 else 0)
  {
    hide AttachedPlan, PtysOn, OneEach, DetachPty;
    FreedCount(attachments, pty, id);
    PtysOnAppend(if AttachedPlan(attachments, pty).None? then attachments else DetachPty(attachments, pty), Attachment(plan, pty, false), id);
  }

  lemma LoggedAttachment(events: seq<Event>, existing: Option<PlanId>, plan: PlanId, id: PlanId)
    ensures var freed := if existing.Some? then [Event(existing.value, PlanDetached, None, None)] else [];
      Replayed(events + freed + [Event(plan, PlanAttached, None, None)], id) ==
        Replayed(events, id) + (if id == plan then 1 else 0) - (if existing == Some(id) then 1 else 0)
  {
    hide Replayed;
    var freed := if existing.Some? then [Event(existing.value, PlanDetached, None, None)] else [];
    ReplayedAppend(events + freed, Event(plan, PlanAttached, None, None), id);
    if existing.Some? {
      ReplayedAppend(events, freed[0], id);
    } else {
      assert events + freed == events;
    }
  }

  lemma {:induction false} PopCounts(db: Db, plan: PlanId, ptys: seq<PtyId>)
    requires AttachmentsValid(db) && LogCounts(db) && PopOnto(db, plan, ptys).Some?
    ensures LogCounts(PopOnto(db, plan, ptys).value)
    decreases |ptys|
  {
    hide LogCounts, AttachInTx;
    if ptys != [] {
      if ptys[0] in db.ptys && db.ptys[ptys[0]].live {
        AttachCounts(db, plan, ptys[0], false);
        AttachEffect(db, plan, ptys[0], false);
        hide AttachmentsValid;
        PopCounts(AttachInTx(db, plan, ptys[0], false).value, plan, ptys[1..]);
      } else {
        PopCounts(db, plan, ptys[1..]);
      }
    }
  }

  /** The event that closes the plan comes first; its PTYs then leave without events of their own. */
  ghost predicate LogCountsBut(db: Db, id: PlanId) {
    forall p :: Replayed(db.events, p) == if p == id then 0 else |PtysOn(db.attachments, p)|
  }

  lemma LetGoCounts(db: Db, db': Db, id: PlanId)
    requires LogCountsBut(db, id) && db'.attachments == DetachPlan(db.attachments, id) && db'.events == db.events
    ensures LogCounts(db')
  {
    hide PtysOn, Replayed, DetachPlan;
    forall p ensures Replayed(db'.events, p) == |PtysOn(db'.attachments, p)| {
      LeftCount(db.attachments, id, p);
    }
  }

  lemma OneMoreEvent(db: Db, db': Db, e: Event)
    requires LogCounts(db) && db'.attachments == db.attachments && db'.events == db.events + [e]
    requires !e.kind.PlanAttached? && !e.kind.PlanDetached? && !(e.kind in {PlanUpdated, PlanStatusChanged, PlanClosed} && e.to.Some? && Closed(e.to.value))
    ensures LogCounts(db')
  {
    hide PtysOn, Replayed;
    forall p ensures Replayed(db'.events, p) == |PtysOn(db'.attachments, p)| {
      ReplayedAppend(db.events, e, p);
    }
  }

  lemma CloseCounts(db: Db, id: PlanId, status: Status)
    requires Inv(db) && id in db.plans && LogCountsBut(db, id)
    requires CloseIntoParent(db, id, db.plans[id].parent, status).Some?
    ensures LogCounts(CloseIntoParent(db, id, db.plans[id].parent, status).value)
  {
    hide LogCounts, LogCountsBut, PtysOn, DetachPlan, Inv, AttachmentsValid, PopOnto;
    if ParentOpen(db, id) {
      var parent, start := db.plans[id].parent.value, LetGo(db, id, status);
      LetGoReady(db, id, status);
      LetGoCounts(db, start, id);
      PopCounts(start, parent, PtysOn(db.attachments, id));
      var popped := PopOnto(start, parent, PtysOn(db.attachments, id)).value;
      OneMoreEvent(popped, CloseIntoParent(db, id, db.plans[id].parent, status).value, Event(parent, BranchClosed, None, Some(status)));
    } else {
      LetGoCounts(db, CloseIntoParent(db, id, db.plans[id].parent, status).value, id);
    }
  }

  lemma UpdateCounts(db: Db, id: PlanId, input: UpdateInput, now: int)
    requires Inv(db) && LogCounts(db) && Update(db, id, input, now).Some?
    ensures LogCounts(Update(db, id, input, now).value)
  {
    hide CloseIntoParent, Inv, LogCounts, LogCountsBut;
    var p := db.plans[id];
    var status := input.status.GetOr(p.status);
    SkippedInv(db, id);
    var skipped := if Closed(status) && input.skipRemaining then SkipRemaining(db, id) else db;
    RestatedInv(skipped, id, status, now);
    RestatedCounts(db, skipped, id, status, now);
    if Closed(status) {
      CloseCounts(Restated(skipped, id, status, now), id, status);
    }
  }

  lemma RestatedCounts(db: Db, skipped: Db, id: PlanId, status: Status, now: int)
    requires LogCounts(db) && id in skipped.plans && skipped.attachments == db.attachments && skipped.events == db.events
    ensures var restated := Restated(skipped, id, status, now);
      if Closed(status) then LogCountsBut(restated, id) else LogCounts(restated)
  {
    hide PtysOn, Replayed;
    var from := skipped.plans[id].status;
    forall p ensures Replayed(Restated(skipped, id, status, now).events, p) ==
      if p == id && Closed(status) then 0 else |PtysOn(db.attachments, p)|
    {
      ReplayedAppend(db.events, Event(id, EventFor(from, status), Some(from), Some(status)), p);
    }
  }

  lemma MaybeAttachedCounts(db: Db, plan: PlanId, pty: Option<PtyId>)
    requires OneEach(db.attachments) && LogCounts(db) && MaybeAttached(db, plan, pty).Some?
    ensures LogCounts(MaybeAttached(db, plan, pty).value)
  {
    hide LogCounts, AttachInTx, OneEach;
    if pty.Some? {
      AttachCounts(db, plan, pty.value, false);
    }
  }

  lemma InsertedCounts(db: Db, id: PlanId, repo: string, parent: Option<PlanId>, root: PlanId, depth: nat, phases: map<PhaseId, PhaseStatus>)
    requires LogCounts(db)
    ensures LogCounts(Inserted(db, id, repo, parent, root, depth, phases))
  {
    hide LogCounts;
    OneMoreEvent(db, Inserted(db, id, repo, parent, root, depth, phases),
                 Event(id, if parent.Some? then BranchCreated else PlanCreated, None, Some(Active)));
  }

  lemma AnchoredCounts(db: Db, id: PlanId, parent: PlanId, anchors: set<PhaseId>)
    requires LogCounts(db)
    ensures LogCounts(Anchored(db, id, parent, anchors)) && Anchored(db, id, parent, anchors).attachments == db.attachments
  {
    hide PtysOn, Replayed;
    forall p ensures Replayed(Anchored(db, id, parent, anchors).events, p) == |PtysOn(db.attachments, p)| {
      ReplayedQuiet(db.events, seq(|anchors|, i => Event(parent, BranchOpened, None, None)), p);
    }
  }

  lemma BranchCounts(db: Db, id: PlanId, parent: PlanId, phases: map<PhaseId, PhaseStatus>, anchors: set<PhaseId>, pty: Option<PtyId>)
    requires OneEach(db.attachments) && LogCounts(db) && Branch(db, id, parent, phases, anchors, pty).Some?
    ensures LogCounts(Branch(db, id, parent, phases, anchors, pty).value)
  {
    hide LogCounts, OneEach, Anchored, Inserted, MaybeAttached, MayBranch;
    assert MayBranch(db, parent, phases, anchors) && parent in db.plans by { hide *; BranchMay(db, id, parent, phases, anchors, pty); }
    var p := db.plans[parent];
    InsertedCounts(db, id, p.repo, Some(parent), p.root, p.depth + 1, phases);
    var inserted := Inserted(db, id, p.repo, Some(parent), p.root, p.depth + 1, phases);
    assert inserted.attachments == db.attachments by { InsertedAttachmentsSame(db, id, p.repo, Some(parent), p.root, p.depth + 1, phases); }
    AnchoredCounts(inserted, id, parent, anchors);
    MaybeAttachedCounts(Branched(db, id, parent, phases, anchors), id, pty);
  }

  lemma BranchMay(db: Db, id: PlanId, parent: PlanId, phases: map<PhaseId, PhaseStatus>, anchors: set<PhaseId>, pty: Option<PtyId>)
    requires Branch(db, id, parent, phases, anchors, pty).Some?
    ensures MayBranch(db, parent, phases, anchors) && parent in db.plans
  {
  }

  lemma InsertedAttachmentsSame(db: Db, id: PlanId, repo: string, parent: Option<PlanId>, root: PlanId, depth: nat, phases: map<PhaseId, PhaseStatus>)
    ensures Inserted(db, id, repo, parent, root, depth, phases).attachments == db.attachments
  {
  }

  lemma DetachCounts(db: Db, plan: PlanId, pty: PtyId)
    requires OneEach(db.attachments) && LogCounts(db)
    ensures LogCounts(DetachOne(db, plan, pty))
  {
    hide PtysOn, Replayed, AttachedPlan;
    var db' := DetachOne(db, plan, pty);
    if i :| 0 <= i < |db.attachments| && IsActive(db.attachments[i], pty) && db.attachments[i].plan == plan {
      AttachedPlanIs(db.attachments, i);
      assert db'.attachments == DetachPty(db.attachments, pty);
      assert db'.events == db.events + [Event(plan, PlanDetached, None, None)];
      hide DetachOne, OneEach, DetachPty;
      forall p ensures Replayed(db'.events, p) == |PtysOn(db'.attachments, p)| {
        FreedCount(db.attachments, pty, p);
        ReplayedAppend(db.events, Event(plan, PlanDetached, None, None), p);
      }
    }
  }

  lemma StepCounts(db: Db, op: Op)
    requires Inv(db) && LogCounts(db) && Fresh(db, op)
    ensures LogCounts(Next(db, op))
  {
    assert OneEach(db.attachments);
    hide Inv, OneEach, Branch, Update, AttachInTx, DetachOne, LogCounts, Inserted, MaybeAttached;
    if Outcome(db, op).Some? {
      match op
      case CreatePlan(id, repo, phases, pty) =>
        InsertedCounts(db, id, repo, None, id, 0, phases);
        InsertedAttachmentsSame(db, id, repo, None, id, 0, phases);
        MaybeAttachedCounts(Inserted(db, id, repo, None, id, 0, phases), id, pty);
      case OpenBranch(id, parent, phases, anchors, pty) => BranchCounts(db, id, parent, phases, anchors, pty);
      case UpdatePlan(id, input, now) => UpdateCounts(db, id, input, now);
      case AttachPty(id, pty) => AttachCounts(db, id, pty, true);
      case DetachPtyFrom(id, pty) => DetachCounts(db, id, pty);
      case _ => SameLogCounts(db, Next(db, op));
    }
  }

  lemma SameLogCounts(db: Db, db': Db)
    requires LogCounts(db) && db'.attachments == db.attachments && db'.events == db.events
    ensures LogCounts(db')
  {
  }

  lemma {:induction false} RunCounts(db: Db, ops: seq<Op>)
    requires Inv(db) && LogCounts(db) && AllFresh(db, ops)
    ensures LogCounts(Run(db, ops))
    decreases ops
  {
    hide Inv, Next, Fresh, LogCounts;
    if ops != [] {
      StepKeepsInv(db, ops[0]);
      StepCounts(db, ops[0]);
      RunCounts(Next(db, ops[0]), ops[1..]);
    }
  }

  /** In every reachable state, replaying the log of a plan gives the number of PTYs on it. */
  lemma LogCountsAttachments(ops: seq<Op>, id: PlanId)
    requires AllFresh(EMPTY, ops)
    ensures Replayed(Run(EMPTY, ops).events, id) == |PtysOn(Run(EMPTY, ops).attachments, id)|
  {
    assert Inv(EMPTY) && LogCounts(EMPTY);
    RunCounts(EMPTY, ops);
  }

  // ---- What is logged ------------------------------------------------------------------

  /** Some attachments and detachments follow. */
  predicate OnlyMoves(before: seq<Event>, after: seq<Event>) {
    && before <= after
    && forall i :: |before| <= i < |after| ==> after[i].kind in {PlanAttached, PlanDetached}
  }

  lemma AttachLogs(db: Db, plan: PlanId, pty: PtyId, bump: bool)
    requires AttachInTx(db, plan, pty, bump).Some?
    ensures OnlyMoves(db.events, AttachInTx(db, plan, pty, bump).value.events)
  {
    AttachShape(db, plan, pty, bump);
    hide AttachInTx, AttachedPlan, Reattached;
  }

  lemma {:induction false} PopLogs(db: Db, plan: PlanId, ptys: seq<PtyId>)
    requires PopOnto(db, plan, ptys).Some?
    ensures OnlyMoves(db.events, PopOnto(db, plan, ptys).value.events)
    decreases |ptys|
  {
    hide AttachInTx;
    if ptys != [] {
      if ptys[0] in db.ptys && db.ptys[ptys[0]].live {
        AttachLogs(db, plan, ptys[0], false);
        PopLogs(AttachInTx(db, plan, ptys[0], false).value, plan, ptys[1..]);
      } else {
        PopLogs(db, plan, ptys[1..]);
      }
    }
  }

  /** The closing of a branch is logged last, on its open parent, after the moves of its PTYs. */
  lemma CloseLogs(db: Db, id: PlanId, status: Status)
    requires id in db.plans && CloseIntoParent(db, id, db.plans[id].parent, status).Some?
    ensures var events := CloseIntoParent(db, id, db.plans[id].parent, status).value.events;
      if ParentOpen(db, id) then
        && |events| > |db.events| && events[|events| - 1] == Event(db.plans[id].parent.value, BranchClosed, None, Some(status))
        && OnlyMoves(db.events, events[..|events| - 1])
      else events == db.events
  {
    hide DetachPlan, PtysOn, PopOnto;
    if ParentOpen(db, id) {
      PopLogs(LetGo(db, id, status), db.plans[id].parent.value, PtysOn(db.attachments, id));
    }
  }

  /** What an accepted update logs: first what it did to the plan, with the status before and after; and if it closed a branch
      into an open parent, last that the branch closed, on the parent. Only moves of PTYs come in between. */
  lemma UpdateLogs(db: Db, id: PlanId, input: UpdateInput, now: int)
    requires Inv(db) && Update(db, id, input, now).Some?
    ensures id in db.plans
    ensures var was, status := db.plans[id].status, input.status.GetOr(db.plans[id].status);
      var events, n := Update(db, id, input, now).value.events, |db.events|;
      var kind := if was == status then PlanUpdated else if status in {Completed, Canceled} then PlanClosed else PlanStatusChanged;
      && |events| > n && events[..n] == db.events && events[n] == Event(id, kind, Some(was), Some(status))
      && (if status in {Completed, Canceled} && ParentOpen(db, id) then
            && |events| > n + 1 && events[|events| - 1] == Event(db.plans[id].parent.value, BranchClosed, None, Some(status))
            && OnlyMoves(events[..n + 1], events[..|events| - 1])
          else |events| == n + 1)
  {
    hide Update, CloseIntoParent, Inv, ParentOpen;
    var restated := UpdateSplits(db, id, input, now);
    var status, n := input.status.GetOr(db.plans[id].status), |db.events|;
    var events := Update(db, id, input, now).value.events;
    if status in {Completed, Canceled} {
      CloseLogs(restated, id, status);
      assert ParentOpen(db, id) ==> restated.events <= events[..|events| - 1];
    }
    assert events[..n + 1] == restated.events;
    assert events[..n] == restated.events[..n] && events[n] == restated.events[n];
  }

  /** An update writes the plan row and its event, and then closes the plan if that is what it was to become. */
  lemma UpdateSplits(db: Db, id: PlanId, input: UpdateInput, now: int) returns (restated: Db)
    requires Inv(db) && Update(db, id, input, now).Some?
    ensures id in db.plans && id in restated.plans && restated.plans[id].parent == db.plans[id].parent
    ensures ParentOpen(restated, id) <==> ParentOpen(db, id)
    ensures var was, status := db.plans[id].status, input.status.GetOr(db.plans[id].status);
      var kind := if was == status then PlanUpdated else if status in {Completed, Canceled} then PlanClosed else PlanStatusChanged;
      && restated.events == db.events + [Event(id, kind, Some(was), Some(status))]
      && Update(db, id, input, now) ==
           if status in {Completed, Canceled} then CloseIntoParent(restated, id, restated.plans[id].parent, status) else Some(restated)
  {
    hide CloseIntoParent, ChainOf;
    assert NodeValid(db, id, db.plans[id]);
    hide Inv;
    var status := input.status.GetOr(db.plans[id].status);
    restated := Restated(if Closed(status) && input.skipRemaining then SkipRemaining(db, id) else db, id, status, now);
    SameParentOpenQuiet(db, restated, id);
  }

  /** A new plan is logged as created, a new branch as such and, for every anchor, on its parent as opened. */
  lemma CreationLogs(db: Db, op: Op)
    requires Fresh(db, op) && (op.CreatePlan? || op.OpenBranch?) && Outcome(db, op).Some?
    ensures var events, created := Next(db, op).events, if op.CreatePlan? then PlanCreated else BranchCreated;
      var logged := db.events + [Event(op.id, created, None, Some(Active))]
                    + if op.OpenBranch? then seq(|op.anchors|, i => Event(op.parent, BranchOpened, None, None)) else [];
      OnlyMoves(logged, events)
  {
    hide AttachInTx;
    match op
    case CreatePlan(id, repo, phases, pty) =>
      var inserted := Inserted(db, id, repo, None, id, 0, phases);
      assert inserted.events + [] == inserted.events;
      if pty.Some? { AttachLogs(inserted, id, pty.value, false); }
    case OpenBranch(id, parent, phases, anchors, pty) =>
      var branched := Branched(db, id, parent, phases, anchors);
      if pty.Some? { AttachLogs(branched, id, pty.value, false); }
  }

  // ---- Phases and repositories ----------------------------------------------------------

  /** A phase is written exactly in an open plan and never taken from another one; nothing but that phase changes. */
  lemma PhaseWrittenIs(db: Db, id: PlanId, f: PhaseId, status: PhaseStatus)
    ensures SetPhase(db, id, f, status).Some? <==>
      id in db.plans && db.plans[id].status in {Active, Paused} && (f in db.phases ==> db.phases[f].plan == id)
    ensures var db' := Next(db, WritePhase(id, f, status));
      if SetPhase(db, id, f, status).Some? then
        && db'.phases == db.phases[f := Phase(id, status)] && db'.anchors == db.anchors && db'.attachments == db.attachments
        && db'.plans.Keys == db.plans.Keys && forall p :: p in db.plans ==> db'.plans[p].(revision := 0) == db.plans[p].(revision := 0)
      else db' == db
  {
  }

  /** Renaming moves every plan and terminal of the old name to the new one, and nothing else. */
  lemma RenameMoves(db: Db, oldName: string, newName: string)
    ensures var db' := Next(db, Rename(oldName, newName));
      && db'.plans.Keys == db.plans.Keys && db'.ptys.Keys == db.ptys.Keys
      && (forall p :: p in db.plans ==>
            && (db.plans[p].repo == oldName ==> db'.plans[p].(revision := 0) == db.plans[p].(repo := newName, revision := 0))
            && (db.plans[p].repo != oldName ==> db'.plans[p] == db.plans[p]))
      && (forall t :: t in db.ptys ==>
            db'.ptys[t] == if db.ptys[t].repo == oldName then Pty(newName, db.ptys[t].live) else db.ptys[t])
      && db'.phases == db.phases && db'.anchors == db.anchors && db'.attachments == db.attachments && db'.events == db.events
  {
  }

  /** A terminal starts live in its repository; ending and coming back moves nothing. */
  lemma TerminalsStartLive(db: Db, pty: PtyId, repo: string, live: bool)
    ensures Next(db, StartPty(pty, repo)) == db.(ptys := db.ptys[pty := Pty(repo, true)])
    ensures Next(db, SetLive(pty, live)) == if pty in db.ptys then db.(ptys := db.ptys[pty := Pty(db.ptys[pty].repo, live)]) else db
  {
  }

  // ---- Every change shows in the revision -------------------------------------------

  predicate PhaseOf(db: Db, id: PlanId, f: PhaseId) {
    f in db.phases && db.phases[f].plan == id
  }

  /** What is shown of a plan: its status, its repository, who is on it, and its phases with their statuses. */
  ghost predicate SameView(db: Db, db': Db, id: PlanId)
    requires id in db.plans && id in db'.plans
  {
    && db'.plans[id].status == db.plans[id].status && db'.plans[id].repo == db.plans[id].repo
    && (forall t :: AttachedPlan(db'.attachments, t) == Some(id) <==> AttachedPlan(db.attachments, t) == Some(id))
    && (forall f :: PhaseOf(db', id, f) <==> PhaseOf(db, id, f))
    && (forall f :: PhaseOf(db', id, f) && PhaseOf(db, id, f) ==> db'.phases[f].status == db.phases[f].status)
  }

  /** The revision never falls, and grows unless the plan shows the same. */
  ghost predicate Shows(db: Db, db': Db, id: PlanId) {
    && id in db.plans && id in db'.plans
    && db.plans[id].revision <= db'.plans[id].revision
    && (db.plans[id].revision == db'.plans[id].revision ==> SameView(db, db', id))
  }

  lemma ShowsTransitive(a: Db, b: Db, c: Db, id: PlanId)
    requires Shows(a, b, id) && Shows(b, c, id)
    ensures Shows(a, c, id)
  {
    hide AttachedPlan;
  }

  /** Unchanged phases, plan row and PTYs. */
  lemma UntouchedShows(db: Db, db': Db, id: PlanId)
    requires id in db.plans && id in db'.plans && db'.plans[id] == db.plans[id]
    requires forall t :: AttachedPlan(db'.attachments, t) == Some(id) <==> AttachedPlan(db.attachments, t) == Some(id)
    requires forall f :: PhaseOf(db', id, f) <==> PhaseOf(db, id, f)
    requires forall f :: PhaseOf(db', id, f) && PhaseOf(db, id, f) ==> db'.phases[f].status == db.phases[f].status
    ensures Shows(db, db', id)
  {
    hide AttachedPlan, PhaseOf;
  }

  lemma AttachShows(db: Db, plan: PlanId, pty: PtyId, bump: bool, id: PlanId)
    requires Inv(db) && AttachInTx(db, plan, pty, bump).Some? && id in db.plans && (bump || id != plan)
    ensures Shows(db, AttachInTx(db, plan, pty, bump).value, id)
  {
    var db', existing := AttachInTx(db, plan, pty, bump).value, AttachedPlan(db.attachments, pty);
    AttachLeavesPlan(db, plan, pty, bump);
    if existing == Some(plan) {
      AttachIdle(db, plan, pty, bump);
      UntouchedShows(db, db, id);
    } else {
      AttachEffect(db, plan, pty, bump);
      hide Inv, AttachedPlan, AttachInTx, AttachmentsValid;
      if existing != Some(id) && id != plan {
        hide PhaseOf;
        UntouchedShows(db, db', id);
      } else {
        hide SameView;
        assert db'.plans[id].revision == db.plans[id].revision + 1;
      }
    }
  }

  lemma AttachIdle(db: Db, plan: PlanId, pty: PtyId, bump: bool)
    requires AttachInTx(db, plan, pty, bump).Some? && AttachedPlan(db.attachments, pty) == Some(plan)
    ensures AttachInTx(db, plan, pty, bump).value == db
  {
  }

  lemma MaybeAttachedShows(db: Db, plan: PlanId, pty: Option<PtyId>, id: PlanId)
    requires Inv(db) && MaybeAttached(db, plan, pty).Some? && id in db.plans && id != plan
    ensures Shows(db, MaybeAttached(db, plan, pty).value, id)
  {
    hide Inv, AttachInTx, Shows;
    if pty.Some? {
      AttachShows(db, plan, pty.value, false, id);
    } else {
      UntouchedShows(db, db, id);
    }
  }

  lemma CreateShows(db: Db, n: PlanId, repo: string, phases: map<PhaseId, PhaseStatus>, pty: Option<PtyId>, id: PlanId)
    requires Inv(db) && n !in db.plans && phases.Keys !! db.phases.Keys && Create(db, n, repo, phases, pty).Some? && id in db.plans
    ensures Shows(db, Create(db, n, repo, phases, pty).value, id)
  {
    var inserted := Inserted(db, n, repo, None, n, 0, phases);
    InsertedKeepsInv(db, n, repo, None, n, 0, phases);
    InsertedIs(db, n, repo, phases);
    assert inserted.phases.Keys == db.phases.Keys + phases.Keys;
    hide Inv, Inserted, AttachedPlan, Shows;
    UntouchedShows(db, inserted, id);
    MaybeAttachedShows(inserted, n, pty, id);
    ShowsTransitive(db, inserted, Create(db, n, repo, phases, pty).value, id);
  }

  lemma BranchShows(db: Db, n: PlanId, parent: PlanId, phases: map<PhaseId, PhaseStatus>, anchors: set<PhaseId>,
                    pty: Option<PtyId>, id: PlanId)
    requires Inv(db) && n !in db.plans && phases.Keys !! db.phases.Keys && Branch(db, n, parent, phases, anchors, pty).Some?
    requires id in db.plans
    ensures Shows(db, Branch(db, n, parent, phases, anchors, pty).value, id)
  {
    var branched := Branched(db, n, parent, phases, anchors);
    BranchedKeepsInv(db, n, parent, phases, anchors);
    BranchedShows(db, n, parent, phases, anchors, id);
    hide Inv, Branched, AttachedPlan, MayBranch, Shows;
    MaybeAttachedShows(branched, n, pty, id);
    ShowsTransitive(db, branched, Branch(db, n, parent, phases, anchors, pty).value, id);
  }

  lemma BranchedShows(db: Db, n: PlanId, parent: PlanId, phases: map<PhaseId, PhaseStatus>, anchors: set<PhaseId>, id: PlanId)
    requires Inv(db) && n !in db.plans && phases.Keys !! db.phases.Keys && MayBranch(db, parent, phases, anchors)
    requires id in db.plans
    ensures id in Branched(db, n, parent, phases, anchors).plans && Shows(db, Branched(db, n, parent, phases, anchors), id)
  {
    BranchedIs(db, n, parent, phases, anchors);
    var branched := Branched(db, n, parent, phases, anchors);
    hide Branched, AttachedPlan, Inv;
    if id != parent {
      UntouchedShows(db, branched, id);
    }
    hide SameView;
  }

  lemma {:induction false} PopRevisions(db: Db, plan: PlanId, ptys: seq<PtyId>, id: PlanId)
    requires PopOnto(db, plan, ptys).Some? && id in db.plans
    ensures id in PopOnto(db, plan, ptys).value.plans
    ensures var after := PopOnto(db, plan, ptys).value.plans[id];
      after.revision >= db.plans[id].revision && after.repo == db.plans[id].repo
    decreases |ptys|
  {
    hide AttachedPlan;
    if ptys != [] {
      var live := ptys[0] in db.ptys && db.ptys[ptys[0]].live;
      var next := if live then AttachInTx(db, plan, ptys[0], false) else Some(db);
      if live {
        AttachLeavesPlan(db, plan, ptys[0], false);
      }
      hide AttachInTx;
      PopRevisions(next.value, plan, ptys[1..], id);
    }
  }

  lemma CloseRevisions(db: Db, id: PlanId, status: Status, q: PlanId)
    requires id in db.plans && CloseIntoParent(db, id, db.plans[id].parent, status).Some? && q in db.plans
    ensures var db' := CloseIntoParent(db, id, db.plans[id].parent, status).value;
      && q in db'.plans && db'.plans[q].revision >= db.plans[q].revision && db'.plans[q].repo == db.plans[q].repo
      && (ParentOpen(db, id) && db.plans[id].parent == Some(q) ==> db'.plans[q].revision > db.plans[q].revision)
  {
    hide DetachPlan, PtysOn, Unblocked;
    if ParentOpen(db, id) {
      var start := LetGo(db, id, status);
      assert start.plans == db.plans by { UnblockedPlans(db, id); }
      PopRevisions(start, db.plans[id].parent.value, PtysOn(db.attachments, id), q);
      hide PopOnto;
    }
  }

  lemma UnblockedPlans(db: Db, id: PlanId)
    ensures Unblocked(db, id).plans == db.plans
  {
  }

  /** A plan other than the one updated and the parent it closes into shows the same. */
  lemma UpdateElsewhere(db: Db, id: PlanId, input: UpdateInput, now: int, q: PlanId)
    requires Inv(db) && MayUpdate(db, id, input) && q in db.plans && q != id
    requires Closed(input.status.GetOr(db.plans[id].status)) && ParentOpen(db, id) ==> db.plans[id].parent != Some(q)
    ensures Update(db, id, input, now).Some? && q in Update(db, id, input, now).value.plans
    ensures SameView(db, Update(db, id, input, now).value, q)
  {
    UpdateEffect(db, id, input, now);
    var db' := Update(db, id, input, now).value;
    RepoKept(db, id, input, now, q);
    forall f
      ensures PhaseOf(db', q, f) <==> PhaseOf(db, q, f)
      ensures PhaseOf(db', q, f) && PhaseOf(db, q, f) ==> db'.phases[f].status == db.phases[f].status
    {
      PhaseElsewhere(db, id, input, now, q, f);
    }
    PtysElsewhere(db, id, input, now, q);
    hide Inv, Update, AttachedPlan, MayUpdate, PhaseOf, AfterClose, ParentOpen;
  }

  lemma PtysElsewhere(db: Db, id: PlanId, input: UpdateInput, now: int, q: PlanId)
    requires Inv(db) && MayUpdate(db, id, input) && q in db.plans && q != id
    requires Closed(input.status.GetOr(db.plans[id].status)) && ParentOpen(db, id) ==> db.plans[id].parent != Some(q)
    ensures Update(db, id, input, now).Some?
    ensures forall t :: AttachedPlan(Update(db, id, input, now).value.attachments, t) == Some(q) <==> AttachedPlan(db.attachments, t) == Some(q)
  {
    UpdateEffect(db, id, input, now);
    assert NodeValid(db, id, db.plans[id]);
    hide Inv, Update, AttachedPlan, MayUpdate;
  }

  lemma PhaseElsewhere(db: Db, id: PlanId, input: UpdateInput, now: int, q: PlanId, f: PhaseId)
    requires Inv(db) && MayUpdate(db, id, input) && q in db.plans && q != id
    requires Closed(input.status.GetOr(db.plans[id].status)) && ParentOpen(db, id) ==> db.plans[id].parent != Some(q)
    ensures Update(db, id, input, now).Some?
    ensures var db' := Update(db, id, input, now).value;
      && (PhaseOf(db', q, f) <==> PhaseOf(db, q, f))
      && (PhaseOf(db', q, f) && PhaseOf(db, q, f) ==> db'.phases[f].status == db.phases[f].status)
  {
    SamePhaseKeys(db, id, input, now, f);
    if f in db.phases {
      UpdatePhases(db, id, input, now, f);
      AnchorParent(db, id, f);
    }
    hide Inv, Update, MayUpdate, ParentOpen;
  }

  lemma AnchorParent(db: Db, id: PlanId, f: PhaseId)
    requires Inv(db) && id in db.plans && f in db.phases
    ensures Anchor(id, f) in db.anchors ==> db.plans[id].parent == Some(db.phases[f].plan)
  {
  }

  lemma SamePhaseKeys(db: Db, id: PlanId, input: UpdateInput, now: int, f: PhaseId)
    requires Inv(db) && MayUpdate(db, id, input)
    ensures Update(db, id, input, now).Some?
    ensures f in Update(db, id, input, now).value.phases <==> f in db.phases
  {
    UpdateEffect(db, id, input, now);
    hide Inv, MayUpdate, CloseIntoParent, Unblocked;
    var status := input.status.GetOr(db.plans[id].status);
    var skipped := if Closed(status) && input.skipRemaining then SkipRemaining(db, id) else db;
    assert skipped.phases.Keys == db.phases.Keys;
    var restated := Restated(skipped, id, status, now);
    if Closed(status) {
      ClosePhases(restated, id, status);
      UnblockedKeys(restated, id);
    }
  }

  lemma UnblockedKeys(db: Db, id: PlanId)
    ensures Unblocked(db, id).phases.Keys == db.phases.Keys
  {
  }

  lemma RepoKept(db: Db, id: PlanId, input: UpdateInput, now: int, q: PlanId)
    requires Inv(db) && MayUpdate(db, id, input) && q in db.plans
    ensures Update(db, id, input, now).Some? && q in Update(db, id, input, now).value.plans
    ensures Update(db, id, input, now).value.plans[q].repo == db.plans[q].repo
    ensures Update(db, id, input, now).value.plans[q].revision >= db.plans[q].revision + (if q == id then 1 else 0)
    ensures Closed(input.status.GetOr(db.plans[id].status)) && ParentOpen(db, id) && db.plans[id].parent == Some(q) ==>
      Update(db, id, input, now).value.plans[q].revision > db.plans[q].revision
  {
    UpdateEffect(db, id, input, now);
    var status := input.status.GetOr(db.plans[id].status);
    var skipped := if Closed(status) && input.skipRemaining then SkipRemaining(db, id) else db;
    var restated := Restated(skipped, id, status, now);
    assert NodeValid(db, id, db.plans[id]);
    RestatedKeeps(skipped, id, status, now);
    assert restated.plans[q].repo == db.plans[q].repo;
    assert restated.plans[q].revision == db.plans[q].revision + (if q == id then 1 else 0);
    hide Inv, CloseIntoParent, MayUpdate, Restated, SkipRemaining;
    if Closed(status) {
      SameParentOpenQuiet(db, restated, id);
      CloseRevisions(restated, id, status, q);
    }
  }

  lemma SameParentOpenQuiet(db: Db, db': Db, id: PlanId)
    requires id in db.plans && db'.plans.Keys == db.plans.Keys && db.plans[id].parent != Some(id)
    requires forall q :: q in db.plans ==> db'.plans[q].parent == db.plans[q].parent && (q == id || db'.plans[q].status == db.plans[q].status)
    ensures ParentOpen(db', id) <==> ParentOpen(db, id)
  {
  }

  lemma UpdateShows(db: Db, id: PlanId, input: UpdateInput, now: int, q: PlanId)
    requires Inv(db) && Update(db, id, input, now).Some? && q in db.plans
    ensures Shows(db, Update(db, id, input, now).value, q)
  {
    UpdateEffect(db, id, input, now);
    RepoKept(db, id, input, now, q);
    if q != id && !(Closed(input.status.GetOr(db.plans[id].status)) && ParentOpen(db, id) && db.plans[id].parent == Some(q)) {
      UpdateElsewhere(db, id, input, now, q);
    }
    hide Inv, Update, MayUpdate, SameView;
  }

  lemma DetachShows(db: Db, plan: PlanId, pty: PtyId, id: PlanId)
    requires Inv(db) && id in db.plans
    ensures Shows(db, DetachOne(db, plan, pty), id)
  {
    var db' := DetachOne(db, plan, pty);
    assert OneEach(db.attachments) && db'.phases == db.phases && id in db'.plans;
    assert id != plan ==> db'.plans[id] == db.plans[id];
    assert db' != db && id == plan ==> db'.plans[id].revision == db.plans[id].revision + 1;
    forall t ensures id != plan ==> (AttachedPlan(db'.attachments, t) == Some(id) <==> AttachedPlan(db.attachments, t) == Some(id)) {
      DetachFrees(db, plan, pty, t);
    }
    hide Inv, DetachOne, AttachedPlan;
  }

  /** Every request, accepted or not: whoever compares revisions misses no change of a plan's status, repository, phases or
      attached PTYs. */
  lemma ChangesShowInRevision(db: Db, op: Op, id: PlanId)
    requires Inv(db) && Fresh(db, op) && id in db.plans
    ensures Shows(db, Next(db, op), id)
  {
    hide Inv, Create, Branch, Update, AttachInTx, DetachOne, Shows, AttachedPlan;
    if Outcome(db, op).None? {
      UntouchedShows(db, db, id);
    } else {
      match op
      case CreatePlan(n, repo, phases, pty) => CreateShows(db, n, repo, phases, pty, id);
      case OpenBranch(n, parent, phases, anchors, pty) => BranchShows(db, n, parent, phases, anchors, pty, id);
      case UpdatePlan(n, input, now) => UpdateShows(db, n, input, now, id);
      case AttachPty(n, pty) => AttachShows(db, n, pty, true, id);
      case DetachPtyFrom(n, pty) => DetachShows(db, n, pty, id);
      case WritePhase(n, f, status) => WriteShows(db, n, f, status, id);
      case Rename(oldName, newName) => RenameShows(db, oldName, newName, id);
      case _ => UntouchedShows(db, Next(db, op), id);
    }
  }

  lemma WriteShows(db: Db, n: PlanId, f: PhaseId, status: PhaseStatus, id: PlanId)
    requires SetPhase(db, n, f, status).Some? && id in db.plans
    ensures Shows(db, SetPhase(db, n, f, status).value, id)
  {
    hide AttachedPlan;
  }

  lemma RenameShows(db: Db, oldName: string, newName: string, id: PlanId)
    requires id in db.plans
    ensures Shows(db, RenameRepo(db, oldName, newName), id)
  {
    hide AttachedPlan;
  }

  // ---- Reopening -----------------------------------------------------------------

  lemma UpdateStatuses(db: Db, id: PlanId, status: Status, now: int) returns (after: Db)
    requires Inv(db) && MayUpdate(db, id, UpdateInput(Some(status), false, false))
    ensures Update(db, id, UpdateInput(Some(status), false, false), now) == Some(after)
    ensures Inv(after) && StatusesAfter(db, after, id, status)
  {
    UpdateEffect(db, id, UpdateInput(Some(status), false, false), now);
    hide Inv;
    after := Update(db, id, UpdateInput(Some(status), false, false), now).value;
  }

  /** The failing case can be reached from any open branch that is its parent's only open one: cancel it, cancel the
      parent, and reopen it. Every update is accepted, and the open branch is left under a closed plan. */
  lemma ReopeningIsAccepted(db: Db, child: PlanId, parent: PlanId, now: int) returns (one: Db, two: Db, three: Db)
    requires Inv(db) && child in db.plans && db.plans[child].parent == Some(parent)
    requires !Closed(db.plans[child].status) && !HasOpenBranch(db, child)
    requires forall c :: c in db.plans && db.plans[c].parent == Some(parent) && !Closed(db.plans[c].status) ==> c == child
    ensures Update(db, child, UpdateInput(Some(Canceled), false, false), now) == Some(one)
    ensures Update(one, parent, UpdateInput(Some(Canceled), false, false), now) == Some(two)
    ensures Update(two, child, UpdateInput(Some(Active), false, false), now) == Some(three)
    ensures child in three.plans && three.plans[child].status == Active && ParentClosed(three, three.plans[child])
    ensures !ClosedBottomUp(three)
  {
    ParentIsOther(db, child);
    hide Inv, Update, ClosedBottomUp, HasOpenBranch, MayUpdate;
    MayCancel(db, child);
    one := UpdateStatuses(db, child, Canceled, now);
    OpenBranchesAre(db, one, child, parent);
    MayCancel(one, parent);
    two := UpdateStatuses(one, parent, Canceled, now);
    MayReopen(two, child);
    three := UpdateStatuses(two, child, Active, now);
    StaysUnderClosed(two, three, child, parent);
    hide StatusesAfter, ParentClosed;
  }

  /** A run from empty tables: a plan, a branch of it, both canceled, and the branch reopened. */
  lemma ReopeningRun(repo: string, f: PhaseId, g: PhaseId, now: int)
    requires f != g
    ensures var cancel, reopen := UpdateInput(Some(Canceled), false, false), UpdateInput(Some(Active), false, false);
      var ops := [CreatePlan(0, repo, map[f := Pending], None), OpenBranch(1, 0, map[g := Pending], {f}, None),
                  UpdatePlan(1, cancel, now), UpdatePlan(0, cancel, now), UpdatePlan(1, reopen, now)];
      AllFresh(EMPTY, ops) && !ClosedBottomUp(Run(EMPTY, ops))
  {
    var cancel, reopen := UpdateInput(Some(Canceled), false, false), UpdateInput(Some(Active), false, false);
    var ops := [CreatePlan(0, repo, map[f := Pending], None), OpenBranch(1, 0, map[g := Pending], {f}, None),
                UpdatePlan(1, cancel, now), UpdatePlan(0, cancel, now), UpdatePlan(1, reopen, now)];
    var branched := PlanAndBranch(repo, f, g);
    hide Inv, HasOpenBranch, Next, Fresh, ClosedBottomUp, Run, AllFresh;
    StepKeepsInv(EMPTY, ops[0]);
    StepKeepsInv(Next(EMPTY, ops[0]), ops[1]);
    var one, two, three := ReopenBranch(branched, now);
    FiveSteps(EMPTY, ops, Next(EMPTY, ops[0]), branched, one, two, three);
  }

  lemma ReopenBranch(db: Db, now: int) returns (one: Db, two: Db, three: Db)
    requires Inv(db) && db.plans.Keys == {0, 1} && db.plans[0].parent == None && db.plans[1].parent == Some(0)
    requires !Closed(db.plans[1].status) && !HasOpenBranch(db, 1)
    ensures var cancel, reopen := UpdateInput(Some(Canceled), false, false), UpdateInput(Some(Active), false, false);
      && one == Next(db, UpdatePlan(1, cancel, now)) && Fresh(db, UpdatePlan(1, cancel, now))
      && two == Next(one, UpdatePlan(0, cancel, now)) && Fresh(one, UpdatePlan(0, cancel, now))
      && three == Next(two, UpdatePlan(1, reopen, now)) && Fresh(two, UpdatePlan(1, reopen, now))
      && !ClosedBottomUp(three)
  {
    hide Inv, HasOpenBranch, Next, Fresh, Update, ClosedBottomUp, ParentClosed;
    one, two, three := ReopeningIsAccepted(db, 1, 0, now);
    UpdateIsNext(db, 1, UpdateInput(Some(Canceled), false, false), now);
    UpdateIsNext(one, 0, UpdateInput(Some(Canceled), false, false), now);
    UpdateIsNext(two, 1, UpdateInput(Some(Active), false, false), now);
  }

  lemma UpdateIsNext(db: Db, id: PlanId, input: UpdateInput, now: int)
    ensures Next(db, UpdatePlan(id, input, now)) == Update(db, id, input, now).GetOr(db)
    ensures Fresh(db, UpdatePlan(id, input, now))
  {
    hide Update;
  }

  /** The plan and its branch, both open. */
  lemma PlanAndBranch(repo: string, f: PhaseId, g: PhaseId) returns (db: Db)
    requires f != g
    ensures var create, branch := CreatePlan(0, repo, map[f := Pending], None), OpenBranch(1, 0, map[g := Pending], {f}, None);
      && Inv(EMPTY) && Fresh(EMPTY, create) && Fresh(Next(EMPTY, create), branch)
      && db == Next(Next(EMPTY, create), branch)
    ensures db.plans.Keys == {0, 1} && db.plans[0].parent == None && db.plans[1].parent == Some(0)
    ensures !Closed(db.plans[1].status) && !HasOpenBranch(db, 1)
  {
    var created := OnePlan(repo, f);
    hide Create;
    db := OneBranch(created, f, g);
  }

  lemma OnePlan(repo: string, f: PhaseId) returns (db: Db)
    ensures var create := CreatePlan(0, repo, map[f := Pending], None); Fresh(EMPTY, create) && db == Next(EMPTY, create)
    ensures Inv(EMPTY)
    ensures db.plans == map[0 := Plan(repo, Active, None, 0, 0, 1, None)] && db.phases == map[f := Phase(0, Pending)]
  {
    var rows := map[f := Pending];
    assert f in rows;
    db := Inserted(EMPTY, 0, repo, None, 0, 0, rows);
    assert Create(EMPTY, 0, repo, rows, None) == Some(db);
    assert db.phases == map[f := Phase(0, Pending)];
  }

  lemma OneBranch(db: Db, f: PhaseId, g: PhaseId) returns (db': Db)
    requires f != g && db.phases == map[f := Phase(0, Pending)]
    requires db.plans.Keys == {0} && db.plans[0].status == Active && db.plans[0].parent == None && db.plans[0].depth == 0
    ensures var branch := OpenBranch(1, 0, map[g := Pending], {f}, None); Fresh(db, branch) && db' == Next(db, branch)
    ensures db'.plans.Keys == {0, 1} && db'.plans[0].parent == None && db'.plans[1].parent == Some(0)
    ensures !Closed(db'.plans[1].status) && !HasOpenBranch(db', 1)
  {
    var rows := map[g := Pending];
    MayBranchHere(db, f, g);
    db' := Branched(db, 1, 0, rows, {f});
    BranchedPlans(db, 1, 0, rows, {f});
    hide MayBranch, HasOpenBranch, Branched;
    NoBranchOfSecond(db');
  }

  lemma MayBranchHere(db: Db, f: PhaseId, g: PhaseId)
    requires f != g && db.phases == map[f := Phase(0, Pending)]
    requires db.plans.Keys == {0} && db.plans[0].status == Active && db.plans[0].depth == 0
    ensures MayBranch(db, 0, map[g := Pending], {f}) && map[g := Pending].Keys !! db.phases.Keys
  {
    var rows := map[g := Pending];
    assert g in rows && rows.Keys == {g} && db.phases.Keys == {f};
  }

  lemma BranchedPlans(db: Db, id: PlanId, parent: PlanId, phases: map<PhaseId, PhaseStatus>, anchors: set<PhaseId>)
    requires id !in db.plans && parent in db.plans
    ensures var plans := Branched(db, id, parent, phases, anchors).plans;
      && plans.Keys == db.plans.Keys + {id} && plans[id].parent == Some(parent) && plans[id].status == Active
      && plans[parent].parent == db.plans[parent].parent
  {
  }

  lemma NoBranchOfSecond(db: Db)
    requires db.plans.Keys == {0, 1} && db.plans[0].parent == None && db.plans[1].parent == Some(0)
    ensures !HasOpenBranch(db, 1)
  {
  }

  lemma FiveSteps(db: Db, ops: seq<Op>, a: Db, b: Db, c: Db, d: Db, e: Db)
    requires |ops| == 5
    requires a == Next(db, ops[0]) && b == Next(a, ops[1]) && c == Next(b, ops[2]) && d == Next(c, ops[3]) && e == Next(d, ops[4])
    requires Fresh(db, ops[0]) && Fresh(a, ops[1]) && Fresh(b, ops[2]) && Fresh(c, ops[3]) && Fresh(d, ops[4])
    ensures AllFresh(db, ops) && Run(db, ops) == e
  {
    hide Next, Fresh;
    assert ops[1..][1..] == ops[2..] && ops[2..][1..] == ops[3..] && ops[3..][1..] == ops[4..] && ops[4..][1..] == [];
    assert AllFresh(e, []) && Run(e, []) == e;
    assert AllFresh(d, ops[4..]) && Run(d, ops[4..]) == e;
    assert AllFresh(c, ops[3..]) && Run(c, ops[3..]) == e;
    assert AllFresh(b, ops[2..]) && Run(b, ops[2..]) == e;
    assert AllFresh(a, ops[1..]) && Run(a, ops[1..]) == e;
  }

  lemma MayCancel(db: Db, id: PlanId)
    requires id in db.plans && !HasOpenBranch(db, id)
    ensures MayUpdate(db, id, UpdateInput(Some(Canceled), false, false))
  {
  }

  lemma MayReopen(db: Db, id: PlanId)
    requires id in db.plans
    ensures MayUpdate(db, id, UpdateInput(Some(Active), false, false))
  {
  }

  lemma StaysUnderClosed(two: Db, three: Db, child: PlanId, parent: PlanId)
    requires StatusesAfter(two, three, child, Active) && parent in two.plans && parent != child
    requires Closed(two.plans[parent].status) && two.plans[child].parent == Some(parent)
    ensures three.plans[child].status == Active && ParentClosed(three, three.plans[child]) && !ClosedBottomUp(three)
  {
    NotBottomUp(three, child);
  }

  lemma NotBottomUp(db: Db, id: PlanId)
    requires id in db.plans && !Closed(db.plans[id].status) && ParentClosed(db, db.plans[id])
    ensures !ClosedBottomUp(db)
  {
  }

  lemma ParentIsOther(db: Db, id: PlanId)
    requires Inv(db) && id in db.plans && db.plans[id].parent.Some?
    ensures db.plans[id].parent.value in db.plans && db.plans[id].parent.value != id
  {
    hide AttachmentsValid, PhasesValid, EventsValid;
    assert NodeValid(db, id, db.plans[id]);
  }

  lemma OpenBranchesAre(db: Db, db': Db, child: PlanId, parent: PlanId)
    requires StatusesAfter(db, db', child, Canceled)
    requires forall c :: c in db.plans && db.plans[c].parent == Some(parent) && !Closed(db.plans[c].status) ==> c == child
    ensures !HasOpenBranch(db', parent)
  {
  }
}
