/**
 * Which agent session a PTY holds, what the agent in it is doing, and whether the timeline input is open: correlation
 * and runtime events (backend/src/correlate.rs), activity rows (backend/src/activity.rs), the prompt gate
 * (backend/src/submitted_prompts.rs), the projected activity (backend/src/api/app_state_routes.rs) and the write that
 * follows a sent prompt (backend/src/api/session_routes.rs).
 */
module SessionActivity {
  import opened Text
  import opened Wrappers
  import SubmittedPrompts

  type PtyId = nat
  type SessionId = nat

  datatype Runtime = Idle | Starting | Running | Exited

  /** The columns of `pty_sessions` concerned. */
  datatype PtyRow = PtyRow(
    live: bool,
    runtime: Runtime,
    agent: Option<string>,
    startedAt: Option<int>,
    session: Option<SessionId>,
    correlatedAt: Option<int>)

  datatype ActivityState = Working | AwaitingPrompt | NeedsInput | Blocked | Unknown

  datatype Source = Launcher | Hook | Ingester | Agent | User

  /** A row of `session_activity_state`, without its texts. */
  datatype Activity = Activity(state: ActivityState, source: Source)

  datatype Db = Db(ptys: map<PtyId, PtyRow>, activity: map<PtyId, Activity>, links: map<SessionId, PtyId>)

  function ActivityOf(db: Db, pty: PtyId): Option<Activity> {
    if pty in db.activity then Some(db.activity[pty]) else None
  }

  // ---- The gate and the view -------------------------------------------------

  /** `correlated_for_launch` */
  predicate CorrelatedForLaunch(row: PtyRow) {
    && row.session.Some? && row.correlatedAt.Some?
    && (row.startedAt.Some? ==> row.correlatedAt.value >= row.startedAt.value)
  }

  /** `harness_ready` */
  predicate HarnessReady(row: PtyRow, activity: Option<Activity>) {
    || CorrelatedForLaunch(row)
    || (activity.Some? && (activity.value.source.Hook? || activity.value.source.Agent? || activity.value.source.Ingester?))
  }

  datatype Gate = GateStarting | GateNeedsInput | GateBlocked

  /** `prompt_gate` */
  function PromptGate(row: PtyRow, activity: Option<Activity>): Option<Gate> {
    if row.runtime.Running? && !HarnessReady(row, activity) then Some(GateStarting)
    else if activity.None? then None
    else match activity.value.state
      case NeedsInput => Some(GateNeedsInput)
      case Blocked => Some(GateBlocked)
      case _ => None
  }

  datatype View = Shell | ViewStarting | Reported(state: ActivityState)

  /** The state `activity_view` projects. */
  function ActivityView(row: PtyRow, activity: Option<Activity>): View {
    if !row.live || !(row.runtime.Starting? || row.runtime.Running?) then Shell
    else if row.runtime.Starting? then ViewStarting
    else if !HarnessReady(row, activity) then ViewStarting
    else if activity.Some? then Reported(activity.value.state)
    else Reported(Unknown)
  }

  /** The gate closes for exactly the reason the view shows. */
  predicate Agree(row: PtyRow, activity: Option<Activity>) {
    var gate, view := PromptGate(row, activity), ActivityView(row, activity);
    && (gate == Some(GateStarting) <==> view == ViewStarting)
    && (gate == Some(GateNeedsInput) <==> view == Reported(NeedsInput))
    && (gate == Some(GateBlocked) <==> view == Reported(Blocked))
  }

  /** They agree on every live running PTY, and elsewhere exactly when the PTY shows as a shell and the gate is open. */
  lemma GateAndViewAgreeIff(row: PtyRow, activity: Option<Activity>)
    ensures Agree(row, activity) <==>
      || (row.live && row.runtime.Running?)
      || (!(row.live && row.runtime.Starting?) && !(row.runtime.Running? && !HarnessReady(row, activity))
          && (activity.Some? ==> !activity.value.state.NeedsInput? && !activity.value.state.Blocked?))
  {
    var gate, view := PromptGate(row, activity), ActivityView(row, activity);
    assert row.live && row.runtime.Running? ==> view != Shell;
    assert !(row.live && (row.runtime.Running? || row.runtime.Starting?)) ==> view == Shell;
  }

  // ---- Activity writes -------------------------------------------------------

  /** An agent's own request for attention is not replaced by the end of a turn. */
  predicate KeepsOld(old_: Activity, state: ActivityState) {
    old_.source.Agent? && (old_.state.NeedsInput? || old_.state.Blocked?) && state.AwaitingPrompt?
  }

  function Upserted(activity: map<PtyId, Activity>, pty: PtyId, a: Activity): map<PtyId, Activity> {
    if pty in activity && KeepsOld(activity[pty], a.state) then activity else activity[pty := a]
  }

  /** `activity::set`: only for a live PTY. */
  function Set(db: Db, pty: PtyId, a: Activity): Db {
    if pty in db.ptys && db.ptys[pty].live then db.(activity := Upserted(db.activity, pty, a)) else db
  }

  function Clear(db: Db, pty: PtyId): Db {
    db.(activity := db.activity - {pty})
  }

  predicate TakesSessionActivity(row: PtyRow, session: SessionId) {
    row.session == Some(session) && row.live && (row.runtime.Starting? || row.runtime.Running?)
  }

  /** `set_for_current_agent_session`: every live PTY with an agent that holds the session. */
  function SetForSession(db: Db, session: SessionId, a: Activity): Db {
    var rows := set t | t in db.ptys && TakesSessionActivity(db.ptys[t], session);
    db.(activity := map t | t in db.activity.Keys + rows ::
      if t in rows && !(t in db.activity && KeepsOld(db.activity[t], a.state)) then a else db.activity[t])
  }

  /** `persist_spawn` (backend/src/pty/spawn.rs): a new terminal, or one that ended and is spawned again. */
  function Spawned(db: Db, pty: PtyId, runtime: Runtime, agent: Option<string>, startedAt: Option<int>): Db {
    var session := if pty in db.ptys then db.ptys[pty].session else None;
    var correlatedAt := if pty in db.ptys then db.ptys[pty].correlatedAt else None;
    db.(ptys := db.ptys[pty := PtyRow(true, runtime, agent, startedAt, session, correlatedAt)])
  }

  /** `mark_agent_starting` (backend/src/pty/mod.rs) */
  function Launched(db: Db, pty: PtyId, agent: string, now: int): Db {
    if pty !in db.ptys || !db.ptys[pty].live then db
    else db.(ptys := db.ptys[pty := db.ptys[pty].(agent := Some(agent), runtime := Starting, startedAt := Some(now))])
  }

  /** The running event: the launch keeps the start time it already has. */
  function RuntimeRunning(db: Db, pty: PtyId, agent: string, now: int): Db {
    if pty !in db.ptys || !db.ptys[pty].live then db
    else
      var row := db.ptys[pty];
      var started := if row.startedAt.Some? then row.startedAt else Some(now);
      Set(db.(ptys := db.ptys[pty := row.(agent := Some(agent), runtime := Running, startedAt := started)]), pty,
          Activity(Unknown, Launcher))
  }

  function RuntimeExited(db: Db, pty: PtyId, agent: string): Db {
    Clear(
      if pty in db.ptys && (db.ptys[pty].runtime.Starting? || db.ptys[pty].runtime.Running?)
         && (db.ptys[pty].agent.None? || db.ptys[pty].agent == Some(agent))
      then db.(ptys := db.ptys[pty := db.ptys[pty].(runtime := Exited, agent := Some(agent))]) else db,
      pty)
  }

  /** The prompt route: refused while the gate is closed, unless forced; afterwards the user's write. */
  function SendPrompt(db: Db, pty: PtyId, force: bool): Option<Db> {
    if pty !in db.ptys || !db.ptys[pty].live || !db.ptys[pty].runtime.Running? then None
    else if PromptGate(db.ptys[pty], ActivityOf(db, pty)).Some? && !force then None
    else Some(Set(db, pty, Activity(Working, User)))
  }

  datatype PromptReply = Refused | NotDelivered | Accepted

  class ActivityTable {
    var ptys: map<PtyId, PtyRow>
    var activity: map<PtyId, Activity>
    var links: map<SessionId, PtyId>

    ghost function Tables(): Db
      reads this
    {
      Db(ptys, activity, links)
    }

    constructor ()
      ensures Tables() == Db(map[], map[], map[])
    {
      ptys, activity, links := map[], map[], map[];
    }

    /** `set`; the row as it stands afterwards, or `None` for "live PTY session not found". */
    method SetActivity(pty: PtyId, a: Activity) returns (row: Option<Activity>)
      modifies this`activity
      ensures Tables() == Set(old(Tables()), pty, a)
      ensures row == ActivityOf(Tables(), pty)
    {
      if pty in ptys && ptys[pty].live && !(pty in activity && KeepsOld(activity[pty], a.state)) {
        activity := activity[pty := a];
      }
      row := if pty in activity then Some(activity[pty]) else None;
    }

    method ClearActivity(pty: PtyId)
      modifies this`activity
      ensures Tables() == Clear(old(Tables()), pty)
    {
      activity := activity - {pty};
    }

    method ApplyRunning(pty: PtyId, agent: string, now: int)
      modifies this
      ensures Tables() == RuntimeRunning(old(Tables()), pty, agent, now)
    {
      if pty !in ptys || !ptys[pty].live {
        return;
      }
      var row := ptys[pty];
      ptys := ptys[pty := row.(agent := Some(agent), runtime := Running,
                               startedAt := if row.startedAt.Some? then row.startedAt else Some(now))];
      var _ := SetActivity(pty, Activity(Unknown, Launcher));
    }

    method ApplyExited(pty: PtyId, agent: string)
      modifies this
      ensures Tables() == RuntimeExited(old(Tables()), pty, agent)
    {
      if pty in ptys && (ptys[pty].runtime.Starting? || ptys[pty].runtime.Running?)
         && (ptys[pty].agent.None? || ptys[pty].agent == Some(agent)) {
        ptys := ptys[pty := ptys[pty].(runtime := Exited, agent := Some(agent))];
      }
      ClearActivity(pty);
    }

    /** The prompt route. `delivery` is the error of writing to the terminal, if there is one; the prompt is on record
        before that. */
    method SendSessionPrompt(prompts: SubmittedPrompts.PromptTable, id: SubmittedPrompts.PromptId,
                             pty: PtyId, text: string, force: bool, delivery: Option<string>, now: int)
        returns (reply: PromptReply)
      requires id !in prompts.rows
      modifies this, prompts
      ensures Trim(text) == "" || SendPrompt(old(Tables()), pty, force).None? ==>
        reply == Refused && Tables() == old(Tables()) && prompts.rows == old(prompts.rows)
      ensures Trim(text) != "" && SendPrompt(old(Tables()), pty, force).Some? ==>
        && prompts.rows == old(prompts.rows)[id := SubmittedPrompts.Recorded(pty, text, now).(deliveryError := delivery)]
        && if delivery.Some? then reply == NotDelivered && Tables() == old(Tables())
           else reply == Accepted && Tables() == SendPrompt(old(Tables()), pty, force).value
    {
      if Trim(text) == "" || pty !in ptys || !ptys[pty].live || !ptys[pty].runtime.Running? {
        return Refused;
      }
      var gate := PromptGate(ptys[pty], if pty in activity then Some(activity[pty]) else None);
      if gate.Some? && !force {
        return Refused;
      }
      prompts.Record(id, pty, text, now);
      if delivery.Some? {
        prompts.MarkDeliveryError(id, delivery.value);
        return NotDelivered;
      }
      var _ := SetActivity(pty, Activity(Working, User));
      return Accepted;
    }

    /** `apply`, when nothing runs between its three statements. */
    method Apply(pty: PtyId, session: SessionId, now: int)
      modifies this
      ensures Tables() == Pointed(Released(Linked(old(Tables()), pty, session), pty, session), pty, session, now)
    {
      links := links[session := pty];
      ptys := map t | t in ptys :: if t != pty && ptys[t].session == Some(session) then ptys[t].(session := None) else ptys[t];
      if pty in ptys {
        ptys := ptys[pty := ptys[pty].(session := Some(session), correlatedAt := Some(now))];
      }
    }
  }

  // ---- Readiness across activity writes ----------------------------------------

  datatype Write = WriteSet(pty: PtyId, a: Activity) | WriteClear(pty: PtyId) | WriteSession(session: SessionId, a: Activity)

  function Written(db: Db, w: Write): Db {
    match w
    case WriteSet(pty, a) => Set(db, pty, a)
    case WriteClear(pty) => Clear(db, pty)
    case WriteSession(session, a) => SetForSession(db, session, a)
  }

  function AllWritten(db: Db, ws: seq<Write>): Db
    decreases ws
  {
    if ws == [] then db else AllWritten(Written(db, ws[0]), ws[1..])
  }

  /** A correlated launch stays ready, and its gate never says "starting", through any activity writes. */
  lemma {:induction false} CorrelationSurvivesWrites(db: Db, ws: seq<Write>, pty: PtyId)
    requires pty in db.ptys && CorrelatedForLaunch(db.ptys[pty])
    ensures AllWritten(db, ws).ptys == db.ptys
    ensures var after := AllWritten(db, ws);
      HarnessReady(after.ptys[pty], ActivityOf(after, pty)) && PromptGate(after.ptys[pty], ActivityOf(after, pty)) != Some(GateStarting)
    decreases ws
  {
    if ws != [] {
      CorrelationSurvivesWrites(Written(db, ws[0]), ws[1..], pty);
    }
  }

  /** After a sent prompt the harness counts as ready exactly when its session is correlated for this launch: readiness
      known from activity alone is lost, and the next unforced prompt is refused as "starting". */
  lemma PromptKeepsReadinessIffCorrelated(db: Db, pty: PtyId, force: bool)
    requires SendPrompt(db, pty, force).Some?
    ensures var after := SendPrompt(db, pty, force).value;
      && pty in after.ptys && after.ptys[pty] == db.ptys[pty]
      && (HarnessReady(after.ptys[pty], ActivityOf(after, pty)) <==> CorrelatedForLaunch(db.ptys[pty]))
      && (SendPrompt(after, pty, false).None? <==> !CorrelatedForLaunch(db.ptys[pty]))
  {
    assert ActivityOf(SendPrompt(db, pty, force).value, pty) == Some(Activity(Working, User));
  }

  /** Launching an agent again in a terminal forgets what was known of the previous one: whatever activity and
      correlation it left, once the agent reports running it counts as ready exactly when a session was correlated
      since this launch, and until then prompts are refused as "starting". */
  lemma NewLaunchWaitsForCorrelation(db: Db, pty: PtyId, agent: string, launchedAt: int, now: int)
    requires pty in db.ptys && db.ptys[pty].live
    ensures var after := RuntimeRunning(Launched(db, pty, agent, launchedAt), pty, agent, now);
      && pty in after.ptys && after.ptys[pty].startedAt == Some(launchedAt)
      && (HarnessReady(after.ptys[pty], ActivityOf(after, pty)) <==>
            db.ptys[pty].session.Some? && db.ptys[pty].correlatedAt.Some? && db.ptys[pty].correlatedAt.value >= launchedAt)
      && (SendPrompt(after, pty, false).None? <==> !HarnessReady(after.ptys[pty], ActivityOf(after, pty)))
  {
    var after := RuntimeRunning(Launched(db, pty, agent, launchedAt), pty, agent, now);
    assert ActivityOf(after, pty) == Some(Activity(Unknown, Launcher));
  }

  /** The end of a turn never clears an agent's own request for attention, however often it is reported. */
  lemma {:induction false} RequestsSurviveTurnEnds(db: Db, ws: seq<Write>, pty: PtyId)
    requires pty in db.activity && db.activity[pty].source.Agent?
    requires db.activity[pty].state.NeedsInput? || db.activity[pty].state.Blocked?
    requires forall i :: 0 <= i < |ws| ==> !ws[i].WriteClear? && ws[i].a.state.AwaitingPrompt?
    ensures ActivityOf(AllWritten(db, ws), pty) == Some(db.activity[pty])
    decreases ws
  {
    if ws != [] {
      RequestsSurviveTurnEnds(Written(db, ws[0]), ws[1..], pty);
    }
  }

  // ---- What single writes do ----------------------------------------------------

  /** What a live running terminal shows: starting until the harness is ready, then the activity reported. */
  lemma RunningTerminalShows(row: PtyRow, activity: Option<Activity>)
    requires row.live && row.runtime.Running?
    ensures ActivityView(row, activity) ==
      if !(CorrelatedForLaunch(row) || (activity.Some? && activity.value.source in {Hook, Agent, Ingester})) then ViewStarting
      else if activity.None? then Reported(Unknown)
      else Reported(activity.value.state)
  {
  }

  /** Anything the agent, its hooks or the transcript report makes a running agent ready for prompts, whatever was known
      before; what the launcher or the user writes does not, and loses readiness that rested on such a report alone. */
  lemma ReportMakesReadyIff(db: Db, pty: PtyId, a: Activity)
    requires pty in db.ptys && db.ptys[pty].live && db.ptys[pty].runtime.Running?
    requires !(a.state.AwaitingPrompt? && pty in db.activity && db.activity[pty].source.Agent?)
    ensures var after := Set(db, pty, a);
      && after.activity == db.activity[pty := a] && after.ptys == db.ptys
      && (PromptGate(after.ptys[pty], ActivityOf(after, pty)) == Some(GateStarting) <==>
            !CorrelatedForLaunch(db.ptys[pty]) && a.source in {Launcher, User})
  {
    assert ActivityOf(Set(db, pty, a), pty) == Some(a);
  }

  /** A session's report reaches exactly the live terminals with an agent starting or running on that session, and there
      replaces everything but an agent's own request at the end of a turn. */
  lemma SessionReportReaches(db: Db, session: SessionId, a: Activity, pty: PtyId)
    ensures var after := SetForSession(db, session, a);
      && after.ptys == db.ptys
      && ActivityOf(after, pty) ==
           if && pty in db.ptys && db.ptys[pty].session == Some(session) && db.ptys[pty].live
              && db.ptys[pty].runtime in {Starting, Running}
              && !(pty in db.activity && db.activity[pty].source == Agent && db.activity[pty].state in {NeedsInput, Blocked}
                   && a.state == AwaitingPrompt)
           then Some(a) else ActivityOf(db, pty)
  {
  }

  /** Writes to one terminal leave the others alone, and none reaches a terminal that is gone. */
  lemma WriteReachesOne(db: Db, pty: PtyId, a: Activity, other: PtyId)
    ensures other != pty ==> ActivityOf(Set(db, pty, a), other) == ActivityOf(db, other)
    ensures other != pty ==> ActivityOf(Clear(db, pty), other) == ActivityOf(db, other)
    ensures ActivityOf(Clear(db, pty), pty) == None
    ensures pty !in db.ptys || !db.ptys[pty].live ==> Set(db, pty, a) == db
  {
  }

  /** An exit report ends a starting or running agent when it is the one that was launched, or none was named, and nothing
      else; the terminal's activity goes in any case, and the prompt route refuses from then on. */
  lemma ExitEndsLaunchedAgent(db: Db, pty: PtyId, agent: string, force: bool)
    requires pty in db.ptys
    ensures var after, was := RuntimeExited(db, pty, agent), db.ptys[pty];
      && after.ptys.Keys == db.ptys.Keys && (forall t :: t in db.ptys && t != pty ==> after.ptys[t] == db.ptys[t])
      && after.activity == db.activity - {pty}
      && after.ptys[pty] ==
           (if was.runtime in {Starting, Running} && was.agent in {None, Some(agent)}
            then was.(runtime := Exited, agent := Some(agent)) else was)
      && (was.agent in {None, Some(agent)} ==> SendPrompt(after, pty, force).None?)
  {
  }

  /** A running report starts the clock once and never moves it, and reaches only a live terminal. */
  lemma RunningKeepsStart(db: Db, pty: PtyId, agent: string, now: int)
    requires pty in db.ptys
    ensures var after, was := RuntimeRunning(db, pty, agent, now), db.ptys[pty];
      && (!was.live ==> after == db)
      && (was.live ==>
            && after.ptys == db.ptys[pty := was.(agent := Some(agent), runtime := Running,
                                                startedAt := Some(was.startedAt.GetOr(now)))]
            && ActivityOf(after, pty) == Some(Activity(Unknown, Launcher)))
  {
  }

  // ---- Correlation, statement by statement -------------------------------------

  function Linked(db: Db, pty: PtyId, session: SessionId): Db {
    db.(links := db.links[session := pty])
  }

  /** The session leaves every other PTY. */
  function Released(db: Db, pty: PtyId, session: SessionId): Db {
    db.(ptys := map t | t in db.ptys ::
      if t != pty && db.ptys[t].session == Some(session) then db.ptys[t].(session := None) else db.ptys[t])
  }

  function Pointed(db: Db, pty: PtyId, session: SessionId, now: int): Db {
    if pty in db.ptys then db.(ptys := db.ptys[pty := db.ptys[pty].(session := Some(session), correlatedAt := Some(now))]) else db
  }

  /** `apply` runs three statements, each committed on its own. */
  datatype Step = ToRelease | ToPoint

  datatype Correlation = Correlation(pty: PtyId, session: SessionId, step: Step)

  datatype Sys = Sys(db: Db, running: map<nat, Correlation>)

  datatype Action =
    | Begin(id: nat, pty: PtyId, session: SessionId)
    | Release(id: nat)
    | Point(id: nat, now: int)
    | Abandon(id: nat)             // a statement failed or the caller went away
    | Open(pty: PtyId, runtime: Runtime, launched: Option<string>, startedAt: Option<int>)
    | End(pty: PtyId)              // the terminal is gone
    | Launch(pty: PtyId, agent: string, now: int)
    | Runs(pty: PtyId, agent: string, now: int)
    | Exits(pty: PtyId, agent: string)
    | Writes(w: Write)

  predicate Enabled(s: Sys, a: Action) {
    match a
    case Begin(id, _, _) => id !in s.running
    case Release(id) => id in s.running && s.running[id].step.ToRelease?
    case Point(id, _) => id in s.running && s.running[id].step.ToPoint?
    case Abandon(id) => id in s.running
    case Open(pty, _, _, _) => pty in s.db.ptys ==> !s.db.ptys[pty].live
    case _ => true
  }

  function Next(s: Sys, a: Action): Sys
    requires Enabled(s, a)
  {
    match a
    case Begin(id, pty, session) => Sys(Linked(s.db, pty, session), s.running[id := Correlation(pty, session, ToRelease)])
    case Release(id) =>
      var c := s.running[id];
      Sys(Released(s.db, c.pty, c.session), s.running[id := c.(step := ToPoint)])
    case Point(id, now) =>
      var c := s.running[id];
      Sys(Pointed(s.db, c.pty, c.session, now), s.running - {id})
    case Abandon(id) => s.(running := s.running - {id})
    case Open(pty, runtime, launched, startedAt) => s.(db := Spawned(s.db, pty, runtime, launched, startedAt))
    case End(pty) => if pty in s.db.ptys then s.(db := s.db.(ptys := s.db.ptys[pty := s.db.ptys[pty].(live := false)])) else s
    case Launch(pty, agent, now) => s.(db := Launched(s.db, pty, agent, now))
    case Runs(pty, agent, now) => s.(db := RuntimeRunning(s.db, pty, agent, now))
    case Exits(pty, agent) => s.(db := RuntimeExited(s.db, pty, agent))
    case Writes(w) => s.(db := Written(s.db, w))
  }

  /** An agent session is current in at most one PTY. */
  predicate Exclusive(db: Db) {
    forall p, q :: p in db.ptys && q in db.ptys && db.ptys[p].session.Some? && db.ptys[p].session == db.ptys[q].session ==> p == q
  }

  /** No two correlations of one session to different PTYs run at once. */
  predicate Orderly(s: Sys, a: Action) {
    a.Begin? ==> forall id :: id in s.running && s.running[id].session == a.session ==> s.running[id].pty == a.pty
  }

  predicate Inv(s: Sys) {
    && Exclusive(s.db)
    && (forall i, j | i in s.running && j in s.running ::
          s.running[i].session == s.running[j].session ==> s.running[i].pty == s.running[j].pty)
    && (forall i, q | i in s.running && s.running[i].step.ToPoint? && q in s.db.ptys ::
          s.db.ptys[q].session == Some(s.running[i].session) ==> q == s.running[i].pty)
  }

  lemma OtherStepKeepsSessions(s: Sys, a: Action)
    requires Enabled(s, a) && !a.Begin? && !a.Release? && !a.Point? && !a.Abandon? && !a.Writes?
    ensures Next(s, a).running == s.running
    ensures s.db.ptys.Keys <= Next(s, a).db.ptys.Keys
    ensures forall t :: t in Next(s, a).db.ptys ==>
      Next(s, a).db.ptys[t].session == if t in s.db.ptys then s.db.ptys[t].session else None
  {
  }

  lemma StepKeepsInv(s: Sys, a: Action)
    requires Inv(s) && Enabled(s, a) && Orderly(s, a)
    ensures Inv(Next(s, a))
  {
    if a.Writes? {
      assert Next(s, a).db.ptys == s.db.ptys;
    } else if !a.Begin? && !a.Release? && !a.Point? && !a.Abandon? {
      OtherStepKeepsSessions(s, a);
    }
  }

  predicate Schedule(s: Sys, actions: seq<Action>, orderly: bool)
    decreases actions
  {
    actions != [] ==>
      && Enabled(s, actions[0]) && (orderly ==> Orderly(s, actions[0]))
      && Schedule(Next(s, actions[0]), actions[1..], orderly)
  }

  function After(s: Sys, actions: seq<Action>): Sys
    requires Schedule(s, actions, false)
    decreases actions
  {
    if actions == [] then s else After(Next(s, actions[0]), actions[1..])
  }

  lemma {:induction false} OrderlyIsSchedule(s: Sys, actions: seq<Action>)
    requires Schedule(s, actions, true)
    ensures Schedule(s, actions, false)
    decreases actions
  {
    if actions != [] {
      OrderlyIsSchedule(Next(s, actions[0]), actions[1..]);
    }
  }

  /** A correlation that nothing interrupts moves its session to the terminal and out of every other one, and touches nothing
      else; until its last statement it may be given up. */
  lemma CorrelationAlone(s: Sys, id: nat, pty: PtyId, session: SessionId, now: int)
    requires id !in s.running && pty in s.db.ptys
    ensures var actions := [Begin(id, pty, session), Release(id), Point(id, now)];
      && Schedule(s, actions, false)
      && Enabled(After(s, actions[..1]), Abandon(id)) && Enabled(After(s, actions[..2]), Abandon(id))
      && var after := After(s, actions);
         && after.running == s.running && after.db.activity == s.db.activity && after.db.links == s.db.links[session := pty]
         && after.db.ptys.Keys == s.db.ptys.Keys
         && after.db.ptys[pty] == s.db.ptys[pty].(session := Some(session), correlatedAt := Some(now))
         && (forall t :: t in s.db.ptys && t != pty ==>
               after.db.ptys[t] == if s.db.ptys[t].session == Some(session) then s.db.ptys[t].(session := None) else s.db.ptys[t])
  {
    var s1 := Next(s, Begin(id, pty, session));
    var s2 := Next(s1, Release(id));
    var s3 := Next(s2, Point(id, now));
    var actions := [Begin(id, pty, session), Release(id), Point(id, now)];
    assert actions[1..] == [Release(id), Point(id, now)] && actions[1..][1..] == [Point(id, now)] && [Point(id, now)][1..] == [];
    assert actions[..1] == [actions[0]] && actions[..2] == [actions[0], actions[1]];
    assert [actions[0], actions[1]][1..] == [actions[1]] && [actions[1]][1..] == [] && [actions[0]][1..] == [];
    assert Schedule(s3, [], false) && After(s3, []) == s3 && Schedule(s2, [], false) && After(s2, []) == s2;
    assert Schedule(s1, [], false) && After(s1, []) == s1;
    assert Schedule(s2, [Point(id, now)], false) && After(s2, [Point(id, now)]) == s3;
    assert Schedule(s1, [Release(id)], false) && After(s1, [Release(id)]) == s2;
  }

  /** A terminal may end at any time; ended it shows as a shell and refuses prompts, and may be spawned again, live, with the
      session and correlation it had. No other terminal and no activity changes. */
  lemma TerminalComesAndGoes(s: Sys, pty: PtyId, runtime: Runtime, launched: Option<string>, startedAt: Option<int>, force: bool)
    requires pty in s.db.ptys
    ensures Enabled(s, End(pty))
    ensures var ended := Next(s, End(pty));
      && ended.db.ptys == s.db.ptys[pty := s.db.ptys[pty].(live := false)] && ended.db.activity == s.db.activity
      && ActivityView(ended.db.ptys[pty], ActivityOf(ended.db, pty)) == Shell && SendPrompt(ended.db, pty, force).None?
      && Enabled(ended, Open(pty, runtime, launched, startedAt))
      && var again, was := Next(ended, Open(pty, runtime, launched, startedAt)), s.db.ptys[pty];
         && again.db.ptys == s.db.ptys[pty := PtyRow(true, runtime, launched, startedAt, was.session, was.correlatedAt)]
         && again.db.activity == s.db.activity && again.db.links == s.db.links && again.running == s.running
    ensures forall a: Action :: a.Launch? || a.Runs? || a.Exits? || a.Writes? ==> Enabled(s, a)
  {
    var ended := Next(s, End(pty));
    assert ended.db.ptys[pty := s.db.ptys[pty]] == s.db.ptys;
  }

  /** Between correlations that do not race for a session, it is current in at most one PTY at every statement. */
  lemma {:induction false} OrderlyRunsStayExclusive(s: Sys, actions: seq<Action>)
    requires Inv(s) && Schedule(s, actions, true)
    ensures Schedule(s, actions, false) && Inv(After(s, actions)) && Exclusive(After(s, actions).db)
    decreases actions
  {
    OrderlyIsSchedule(s, actions);
    if actions != [] {
      StepKeepsInv(s, actions[0]);
      OrderlyRunsStayExclusive(Next(s, actions[0]), actions[1..]);
    }
  }

  const INITIAL := Sys(Db(map[], map[], map[]), map[])

  /** From empty tables, over every run whose correlations do not race for a session. */
  lemma SessionsStayExclusive(actions: seq<Action>)
    requires Schedule(INITIAL, actions, true)
    ensures Schedule(INITIAL, actions, false) && Exclusive(After(INITIAL, actions).db)
  {
    OrderlyRunsStayExclusive(INITIAL, actions);
  }

  // ---- Exactly when a correlation is safe ----------------------------------------

  /** If the run can take place, sessions are exclusive after it. */
  predicate ExclusiveAfter(s: Sys, actions: seq<Action>) {
    Schedule(s, actions, false) ==> Exclusive(After(s, actions).db)
  }

  /** Sessions are exclusive at every statement from here on, as long as no further correlation races. */
  ghost predicate StaysExclusive(s: Sys) {
    forall actions :: Schedule(s, actions, true) ==> ExclusiveAfter(s, actions)
  }

  lemma StaysAfter(s: Sys, a: Action)
    requires Enabled(s, a) && Orderly(s, a)
    ensures StaysExclusive(s) ==> StaysExclusive(Next(s, a))
  {
    hide Next, Enabled, Orderly, Exclusive;
    if StaysExclusive(s) {
      forall actions | Schedule(Next(s, a), actions, true) ensures ExclusiveAfter(Next(s, a), actions) {
        var longer := [a] + actions;
        assert longer[0] == a && longer[1..] == actions;
        assert Schedule(s, longer, true);
        assert ExclusiveAfter(s, longer);
      }
    }
  }

  lemma StaysNow(s: Sys)
    ensures StaysExclusive(s) ==> Exclusive(s.db)
  {
    assert Schedule(s, [], true) && After(s, []) == s;
    assert StaysExclusive(s) ==> ExclusiveAfter(s, []);
  }

  /** A terminal that is not there can be opened. */
  lemma WithPty(s: Sys, pty: PtyId) returns (u: Sys)
    ensures pty in u.db.ptys && s.db.ptys.Keys <= u.db.ptys.Keys && u.running == s.running
    ensures StaysExclusive(s) ==> StaysExclusive(u)
  {
    hide StaysExclusive;
    u := s;
    if pty !in s.db.ptys {
      StaysAfter(s, Open(pty, Idle, None, None));
      u := Next(s, Open(pty, Idle, None, None));
    }
  }

  lemma ReleaseStep(s: Sys, i: nat) returns (u: Sys)
    requires i in s.running && s.running[i].step.ToRelease?
    ensures u.db.ptys.Keys == s.db.ptys.Keys && u.running == s.running[i := s.running[i].(step := ToPoint)]
    ensures StaysExclusive(s) ==> StaysExclusive(u)
  {
    hide StaysExclusive;
    StaysAfter(s, Release(i));
    u := Next(s, Release(i));
  }

  lemma PointStep(s: Sys, i: nat) returns (u: Sys)
    requires i in s.running && s.running[i].step.ToPoint? && s.running[i].pty in s.db.ptys
    ensures u.db.ptys.Keys == s.db.ptys.Keys && u.running == s.running - {i}
    ensures u.db.ptys[s.running[i].pty].session == Some(s.running[i].session)
    ensures forall t :: t in s.db.ptys && t != s.running[i].pty ==> u.db.ptys[t] == s.db.ptys[t]
    ensures StaysExclusive(s) ==> StaysExclusive(u)
  {
    hide StaysExclusive;
    StaysAfter(s, Point(i, 0));
    u := Next(s, Point(i, 0));
  }

  /** Two correlations of one session to different terminals, both in flight, can leave it current in both. */
  lemma TwoInFlightShare(s: Sys, i: nat, j: nat)
    requires i in s.running && j in s.running && s.running[i].session == s.running[j].session
    requires s.running[i].pty != s.running[j].pty && s.running[i].step.ToRelease?
    ensures !StaysExclusive(s)
  {
    hide StaysExclusive, Next, Enabled;
    var p, q := s.running[i].pty, s.running[j].pty;
    var u := WithPty(s, p);
    u := WithPty(u, q);
    if u.running[j].step.ToRelease? {
      u := ReleaseStep(u, j);
    }
    u := ReleaseStep(u, i);
    u := PointStep(u, j);
    u := PointStep(u, i);
    StaysNow(u);
    assert u.db.ptys[p].session == u.db.ptys[q].session == Some(s.running[i].session);
  }

  /** The exact condition, in every state reachable without a race: whatever runs next, sessions stay exclusive after a
      correlation begins if and only if no correlation of its session to another terminal is in flight. */
  lemma CorrelationIsSafeIffAlone(s: Sys, id: nat, pty: PtyId, session: SessionId)
    requires Inv(s) && id !in s.running
    ensures StaysExclusive(Next(s, Begin(id, pty, session))) <==>
      forall j :: j in s.running && s.running[j].session == session ==> s.running[j].pty == pty
  {
    var a := Begin(id, pty, session);
    var t := Next(s, a);
    if Orderly(s, a) {
      StepKeepsInv(s, a);
      hide Inv, Next;
      forall actions | Schedule(t, actions, true) ensures ExclusiveAfter(t, actions) {
        OrderlyRunsStayExclusive(t, actions);
      }
    } else {
      var j :| j in s.running && s.running[j].session == session && s.running[j].pty != pty;
      assert t.running[j] == s.running[j] && t.running[id] == Correlation(pty, session, ToRelease);
      TwoInFlightShare(t, id, j);
    }
  }

  /** Racing correlations break it: any session, any two PTYs, both releases before both updates. */
  lemma RacingCorrelationsShare(db: Db, p: PtyId, q: PtyId, session: SessionId)
    requires p in db.ptys && q in db.ptys && p != q
    ensures var race := [Begin(0, p, session), Begin(1, q, session), Release(0), Release(1), Point(0, 0), Point(1, 0)];
      Schedule(Sys(db, map[]), race, false) && !Exclusive(After(Sys(db, map[]), race).db)
  {
    hide Linked, Released, Pointed, Exclusive, Orderly;
    var s0 := Sys(db, map[]);
    var s1 := Next(s0, Begin(0, p, session));
    var s2 := Next(s1, Begin(1, q, session));
    var s3 := Next(s2, Release(0));
    var s4 := Next(s3, Release(1));
    var s5 := Next(s4, Point(0, 0));
    var s6 := Next(s5, Point(1, 0));
    assert s6.db == RaceResult(db, p, q, session);
    RaceShares(db, p, q, session);
    var race := [Begin(0, p, session), Begin(1, q, session), Release(0), Release(1), Point(0, 0), Point(1, 0)];
    assert Enabled(s5, Point(1, 0)) && Enabled(s4, Point(0, 0)) && Enabled(s3, Release(1)) && Enabled(s2, Release(0));
    hide Next, Enabled;
    assert race[5..] == [Point(1, 0)] && race[5..][1..] == [] && race[4..][1..] == race[5..] && race[3..][1..] == race[4..];
    assert race[2..][1..] == race[3..] && race[1..][1..] == race[2..];
    assert Schedule(s6, [], false) && After(s6, []) == s6;
    assert Schedule(s5, race[5..], false) && After(s5, race[5..]) == s6;
    assert Schedule(s4, race[4..], false) && After(s4, race[4..]) == s6;
    assert Schedule(s3, race[3..], false) && After(s3, race[3..]) == s6;
    assert Schedule(s2, race[2..], false) && After(s2, race[2..]) == s6;
    assert Schedule(s1, race[1..], false) && After(s1, race[1..]) == s6;
  }

  function RaceResult(db: Db, p: PtyId, q: PtyId, session: SessionId): Db {
    Pointed(Pointed(Released(Released(Linked(Linked(db, p, session), q, session), p, session), q, session), p, session, 0),
            q, session, 0)
  }

  lemma RaceShares(db: Db, p: PtyId, q: PtyId, session: SessionId)
    requires p in db.ptys && q in db.ptys && p != q
    ensures !Exclusive(RaceResult(db, p, q, session))
  {
    var after := RaceResult(db, p, q, session);
    assert after.ptys[p].session == after.ptys[q].session == Some(session);
  }
}
