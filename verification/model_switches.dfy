/**
 * The model-switch guard of one transcript session (backend/src/model_switches.rs).
 *
 * A switch row is identified by its position in the session's log. What `turn_state` and the
 * transcript parsers read is part of the observation. The first half is the guard as a sequence of
 * atomic calls; the second half splits the transactions into their statements and row locks.
 */
module ModelSwitches {
  import opened Wrappers

  datatype Observation = Observation(
    model: string,
    effort: Option<string>,
    offset: int,
    turnInFlight: bool,
    turnId: Option<string>)

  /** The guard's columns of `agent_session_metadata`. */
  datatype Metadata = Metadata(observedModel: Option<string>, observedEffort: Option<string>, confirmedModel: Option<string>)

  /** `agent_model_switches` */
  datatype Switch = Switch(
    offset: int,
    fromModel: string,
    toModel: string,
    fromEffort: Option<string>,
    toEffort: Option<string>,
    turnInFlight: bool,
    turnId: Option<string>,
    enforced: bool,
    acknowledged: bool,
    adopted: Option<bool>,
    interrupted: bool)

  datatype Session = Session(meta: Option<Metadata>, log: seq<Switch>)

  // ---- One observation -------------------------------------------------------

  /** The observed model, when there is one that is not empty. */
  function ObservedModel(meta: Option<Metadata>): Option<string> {
    if meta.Some? && meta.value.observedModel.Some? && meta.value.observedModel.value != ""
    then meta.value.observedModel else None
  }

  /** `write_baseline`: an existing confirmed model stays. */
  function Baseline(meta: Option<Metadata>, model: string, effort: Option<string>, confirmed: string): Metadata {
    Metadata(Some(model), effort,
      if meta.Some? && meta.value.confirmedModel.Some? then meta.value.confirmedModel else Some(confirmed))
  }

  function NewSwitch(seen: Metadata, previous: string, o: Observation, confirmed: string): Switch {
    Switch(o.offset, previous, o.model, seen.observedEffort, o.effort, o.turnInFlight, o.turnId,
           o.model != confirmed, false, None, false)
  }

  predicate OffsetTaken(log: seq<Switch>, offset: int) {
    exists i :: 0 <= i < |log| && log[i].offset == offset
  }

  /** What `observe_event` does to `now` after reading `seen`. */
  function ObserveFrom(seen: Option<Metadata>, now: Session, o: Observation): Session {
    var previous := ObservedModel(seen);
    if previous.None? then
      now.(meta := Some(Baseline(now.meta, o.model, o.effort, o.model)))
    else if previous.value == o.model then
      if seen.value.observedEffort != o.effort
      then now.(meta := Some(Baseline(now.meta, o.model, o.effort, previous.value)))
      else now
    else
      var confirmed := seen.value.confirmedModel.GetOr(previous.value);
      Session(
        Some(Baseline(now.meta, o.model, o.effort, confirmed)),
        if OffsetTaken(now.log, o.offset) then now.log else now.log + [NewSwitch(seen.value, previous.value, o, confirmed)])
  }

  function Observe(s: Session, o: Observation): Session {
    ObserveFrom(s.meta, s, o)
  }

  // ---- One acknowledgement ---------------------------------------------------

  predicate CanAcknowledge(log: seq<Switch>, i: nat) {
    i < |log| && !log[i].acknowledged
  }

  function Close(w: Switch, adopt: bool): Switch {
    w.(acknowledged := true, adopted := Some(adopt))
  }

  /** The log once the rows in `rows` are closed. */
  function CloseRows(log: seq<Switch>, rows: set<nat>, adopt: bool): (r: seq<Switch>)
    ensures |r| == |log|
    ensures forall j :: 0 <= j < |log| ==> r[j] == if j in rows then Close(log[j], adopt) else log[j]
  {
    seq(|log|, j requires 0 <= j < |log| => if j in rows then Close(log[j], adopt) else log[j])
  }

  /** The rows one adoption answers: every open row onto the same model. */
  function OpenOnto(log: seq<Switch>, model: string): set<nat> {
    set j: nat | j < |log| && !log[j].acknowledged && log[j].toModel == model
  }

  function Confirm(meta: Option<Metadata>, model: string): Option<Metadata> {
    if meta.Some? then Some(meta.value.(confirmedModel := Some(model))) else None
  }

  function Acknowledge(s: Session, i: nat, adopt: bool): Session {
    if !CanAcknowledge(s.log, i) then s
    else if !adopt then s.(log := CloseRows(s.log, {i}, false))
    else Session(Confirm(s.meta, s.log[i].toModel), CloseRows(s.log, OpenOnto(s.log, s.log[i].toModel), true))
  }

  function Interrupt(s: Session, i: nat): Session {
    if i < |s.log| then s.(log := s.log[i := s.log[i].(interrupted := true)]) else s
  }

  /** The three writers as the program runs them, statement by statement. */
  class SwitchGuard {
    var meta: Option<Metadata>
    var log: seq<Switch>

    ghost function State(): Session
      reads this
    {
      Session(meta, log)
    }

    constructor ()
      ensures State() == Session(None, [])
    {
      meta := None;
      log := [];
    }

    method WriteBaseline(model: string, effort: Option<string>, confirmed: string)
      modifies this`meta
      ensures meta == Some(Baseline(old(meta), model, effort, confirmed))
    {
      if meta.None? {
        meta := Some(Metadata(Some(model), effort, Some(confirmed)));
      } else {
        var kept := meta.value.confirmedModel;
        meta := Some(Metadata(Some(model), effort, if kept.Some? then kept else Some(confirmed)));
      }
    }

    /** `observe_event`; returns the position of the new row, if one was inserted. */
    method ObserveEvent(o: Observation) returns (id: Option<nat>)
      modifies this
      ensures State() == Observe(old(State()), o)
      ensures id == if |log| > |old(log)| then Some(|old(log)|) else None
    {
      id := None;
      var baseline := meta.GetOr(Metadata(None, None, None));
      var previous := if baseline.observedModel == Some("") then None else baseline.observedModel;
      if previous.None? {
        WriteBaseline(o.model, o.effort, o.model);
        return;
      }
      if previous.value == o.model {
        if baseline.observedEffort != o.effort {
          WriteBaseline(o.model, o.effort, previous.value);
        }
        return;
      }
      var confirmed := baseline.confirmedModel.GetOr(previous.value);
      var enforced := o.model != confirmed;
      if !OffsetTaken(log, o.offset) {
        id := Some(|log|);
        log := log + [Switch(o.offset, previous.value, o.model, baseline.observedEffort, o.effort,
                             o.turnInFlight, o.turnId, enforced, false, None, false)];
      }
      WriteBaseline(o.model, o.effort, confirmed);
    }

    /** `acknowledge` on the current session; false when the row is not an open one. */
    method AcknowledgeSwitch(i: nat, adopt: bool) returns (closed: bool)
      modifies this
      ensures State() == Acknowledge(old(State()), i, adopt)
      ensures closed == CanAcknowledge(old(log), i)
    {
      closed := CanAcknowledge(log, i);
      if !closed {
        return;
      }
      var toModel := log[i].toModel;
      log := CloseRows(log, {i}, adopt);
      if adopt {
        meta := Confirm(meta, toModel);
        var others := OpenOnto(log, toModel);
        assert OpenOnto(old(log), toModel) == others + {i};
        log := CloseRows(log, others, true);
        assert log == CloseRows(old(log), OpenOnto(old(log), toModel), true);
      }
    }
  }

  // ---- The log is the run-collapsed input ------------------------------------

  datatype Op = Seen(o: Observation) | Answer(i: nat, adopt: bool) | Stop(i: nat)

  function Apply(s: Session, op: Op): Session {
    match op
    case Seen(o) => Observe(s, o)
    case Answer(i, adopt) => Acknowledge(s, i, adopt)
    case Stop(i) => Interrupt(s, i)
  }

  function Run(s: Session, ops: seq<Op>): Session {
    if ops == [] then s else Apply(Run(s, ops[..|ops| - 1]), ops[|ops| - 1])
  }

  function Observations(ops: seq<Op>): seq<Observation> {
    if ops == [] then []
    else
      var rest := Observations(ops[..|ops| - 1]);
      if ops[|ops| - 1].Seen? then rest + [ops[|ops| - 1].o] else rest
  }

  function Models(os: seq<Observation>): (ms: seq<string>)
    ensures |ms| == |os| && forall i :: 0 <= i < |os| ==> ms[i] == os[i].model
  {
    seq(|os|, i requires 0 <= i < |os| => os[i].model)
  }

  function ToModels(log: seq<Switch>): (ms: seq<string>)
    ensures |ms| == |log| && forall i :: 0 <= i < |log| ==> ms[i] == log[i].toModel
  {
    seq(|log|, i requires 0 <= i < |log| => log[i].toModel)
  }

  /** Adjacent repeats collapsed to one. */
  function Collapse(ms: seq<string>): seq<string> {
    if |ms| <= 1 then ms
    else if ms[|ms| - 1] == ms[|ms| - 2] then Collapse(ms[..|ms| - 1])
    else Collapse(ms[..|ms| - 1]) + [ms[|ms| - 1]]
  }

  /** The rows a transcript calls for: one per change from one observation to the next, naming both. */
  ghost predicate RowsOfChanges(log: seq<Switch>, os: seq<Observation>) {
    if |os| <= 1 then log == []
    else
      var o, before := os[|os| - 1], os[|os| - 2];
      if o.model == before.model then RowsOfChanges(log, os[..|os| - 1])
      else
        && log != []
        && RowsOfChanges(log[..|log| - 1], os[..|os| - 1])
        && var w := log[|log| - 1];
           w.offset == o.offset && w.fromModel == before.model && w.fromEffort == before.effort
           && w.toModel == o.model && w.toEffort == o.effort
           && w.turnInFlight == o.turnInFlight && w.turnId == o.turnId
  }

  /** The parsers report no empty model, and the transcript gives each record its own offset. */
  ghost predicate Transcript(os: seq<Observation>) {
    && (forall i :: 0 <= i < |os| ==> os[i].model != "")
    && (forall i, j :: 0 <= i < j < |os| ==> os[i].offset != os[j].offset)
  }

  /** Everything but the answers a row collects. */
  predicate SameTransition(a: Switch, b: Switch) {
    a.(acknowledged := b.acknowledged, adopted := b.adopted, interrupted := b.interrupted) == b
  }

  predicate SameTransitions(a: seq<Switch>, b: seq<Switch>) {
    |a| == |b| && forall i :: 0 <= i < |a| ==> SameTransition(a[i], b[i])
  }

  /** Answers and interrupts leave the observed baseline and the recorded transitions alone. */
  lemma AnswersKeepTransitions(s: Session, op: Op)
    requires !op.Seen?
    ensures SameTransitions(s.log, Apply(s, op).log)
    ensures s.meta.Some? <==> Apply(s, op).meta.Some?
    ensures s.meta.Some? ==> Apply(s, op).meta.value.observedModel == s.meta.value.observedModel
    ensures s.meta.Some? ==> Apply(s, op).meta.value.observedEffort == s.meta.value.observedEffort
  {
    match op
    case Answer(i, adopt) =>
      if CanAcknowledge(s.log, i) {
        hide OpenOnto, CanAcknowledge;
        CloseKeepsTransitions(s.log, {i}, false);
        CloseKeepsTransitions(s.log, OpenOnto(s.log, s.log[i].toModel), true);
        hide SameTransitions, CloseRows;
      }
    case Stop(i) =>
  }

  lemma CloseKeepsTransitions(log: seq<Switch>, rows: set<nat>, adopt: bool)
    ensures SameTransitions(log, CloseRows(log, rows, adopt))
  {
  }

  lemma {:induction false} RowsOfChangesFrame(a: seq<Switch>, b: seq<Switch>, os: seq<Observation>)
    requires RowsOfChanges(a, os) && SameTransitions(a, b)
    ensures RowsOfChanges(b, os)
  {
    if |os| > 1 {
      if os[|os| - 1].model == os[|os| - 2].model {
        RowsOfChangesFrame(a, b, os[..|os| - 1]);
      } else {
        RowsOfChangesFrame(a[..|a| - 1], b[..|b| - 1], os[..|os| - 1]);
      }
    }
  }

  lemma {:induction false} OffsetsComeFromInput(log: seq<Switch>, os: seq<Observation>, j: nat)
    requires RowsOfChanges(log, os) && j < |log|
    ensures exists k :: 0 <= k < |os| && os[k].offset == log[j].offset
  {
    var front := os[..|os| - 1];
    if os[|os| - 1].model == os[|os| - 2].model {
      OffsetsComeFromInput(log, front, j);
      var k :| 0 <= k < |front| && front[k].offset == log[j].offset;
      assert os[k].offset == log[j].offset;
    } else if j < |log| - 1 {
      OffsetsComeFromInput(log[..|log| - 1], front, j);
      var k :| 0 <= k < |front| && front[k].offset == log[j].offset;
      assert os[k].offset == log[j].offset;
    }
  }

  /** What a run leaves behind, in terms of the observations alone. */
  ghost predicate Tracks(s: Session, os: seq<Observation>) {
    && RowsOfChanges(s.log, os)
    && (os == [] ==> ObservedModel(s.meta).None?)
    && (os != [] ==> && s.meta.Some?
                     && s.meta.value.observedModel == Some(os[|os| - 1].model)
                     && s.meta.value.observedEffort == os[|os| - 1].effort)
  }

  lemma ObserveTracks(s: Session, os: seq<Observation>, o: Observation)
    requires Tracks(s, os) && Transcript(os + [o])
    ensures Tracks(Observe(s, o), os + [o])
  {
    var all := os + [o];
    assert all[..|all| - 1] == os && o.model != "" by { assert all[|all| - 1] == o; }
    if os != [] {
      assert all[|os| - 1] == os[|os| - 1];
      if os[|os| - 1].model != o.model {
        NewOffset(s.log, os, o);
        assert Observe(s, o).log[..|s.log|] == s.log;
      }
    }
  }

  /** Over every interleaving of observations, answers and interrupts, each row names the observation that
      caused it and the one immediately before. */
  lemma {:induction false} RunTracks(s: Session, ops: seq<Op>)
    requires ObservedModel(s.meta).None? && s.log == []
    requires Transcript(Observations(ops))
    ensures Tracks(Run(s, ops), Observations(ops))
  {
    if ops != [] {
      var front, op := ops[..|ops| - 1], ops[|ops| - 1];
      assert Transcript(Observations(front)) by {
        TranscriptPrefix(Observations(front), Observations(ops));
      }
      RunTracks(s, front);
      var mid := Run(s, front);
      if op.Seen? {
        ObserveTracks(mid, Observations(front), op.o);
      } else {
        AnswersKeepTransitions(mid, op);
        RowsOfChangesFrame(mid.log, Apply(mid, op).log, Observations(front));
      }
    }
  }

  lemma TranscriptPrefix(a: seq<Observation>, b: seq<Observation>)
    requires a <= b && Transcript(b)
    ensures Transcript(a)
  {
    assert forall i :: 0 <= i < |a| ==> a[i] == b[i];
  }

  lemma ToModelsLast(log: seq<Switch>)
    requires log != []
    ensures ToModels(log) == ToModels(log[..|log| - 1]) + [log[|log| - 1].toModel]
  {
  }

  lemma {:induction false} RowsAreCollapse(log: seq<Switch>, os: seq<Observation>)
    requires RowsOfChanges(log, os) && os != []
    ensures [os[0].model] + ToModels(log) == Collapse(Models(os))
  {
    var ms := Models(os);
    if |os| == 1 {
      assert ms == [os[0].model] && ToModels(log) == [];
    } else {
      var front := os[..|os| - 1];
      assert Models(front) == ms[..|ms| - 1];
      assert front[0] == os[0];
      if os[|os| - 1].model == os[|os| - 2].model {
        RowsAreCollapse(log, front);
      } else {
        var before := log[..|log| - 1];
        RowsAreCollapse(before, front);
        assert log[|log| - 1].toModel == os[|os| - 1].model;
        hide RowsOfChanges;
        ToModelsLast(log);
        assert Collapse(ms) == Collapse(Models(front)) + [os[|os| - 1].model];
        hide Collapse, Models, ToModels;
        assert [os[0].model] + ToModels(log) == ([os[0].model] + ToModels(before)) + [os[|os| - 1].model];
      }
    }
  }

  /** The launch model followed by the log's target models is the observed sequence with repeats collapsed. */
  lemma LogIsCollapsedInput(s: Session, ops: seq<Op>)
    requires ObservedModel(s.meta).None? && s.log == []
    requires Transcript(Observations(ops)) && Observations(ops) != []
    ensures [Observations(ops)[0].model] + ToModels(Run(s, ops).log) == Collapse(Models(Observations(ops)))
  {
    RunTracks(s, ops);
    RowsAreCollapse(Run(s, ops).log, Observations(ops));
  }

  // ---- A departure from the confirmed model is always on record ---------------

  /** What one answer does: refused, nothing; declined, it closes that row alone; adopted, it closes every open row onto
      the model and confirms it. Nothing else in any row changes. */
  lemma AnswerEffect(s: Session, i: nat, adopt: bool)
    ensures var t := Acknowledge(s, i, adopt);
      && |t.log| == |s.log|
      && (i >= |s.log| || s.log[i].acknowledged ==> t == s)
      && (i < |s.log| && !s.log[i].acknowledged ==>
            && (forall j :: 0 <= j < |s.log| ==>
                  t.log[j] == if j == i || (adopt && !s.log[j].acknowledged && s.log[j].toModel == s.log[i].toModel)
                              then s.log[j].(acknowledged := true, adopted := Some(adopt)) else s.log[j])
            && t.meta == if adopt && s.meta.Some? then Some(s.meta.value.(confirmedModel := Some(s.log[i].toModel))) else s.meta)
  {
  }

  /** Off the confirmed model, the latest row is enforced and is open or was declined. */
  predicate Guarded(s: Session) {
    s.meta.Some? && ObservedModel(s.meta).Some? ==>
      && s.meta.value.confirmedModel.Some?
      && (s.meta.value.confirmedModel != s.meta.value.observedModel ==>
            s.log != [] && Standing(s.log[|s.log| - 1]))
      && (s.log != [] ==> Some(s.log[|s.log| - 1].toModel) == s.meta.value.observedModel)
  }

  predicate Standing(w: Switch) {
    w.enforced && (!w.acknowledged || w.adopted == Some(false))
  }

  lemma ObserveKeepsGuard(s: Session, o: Observation)
    requires Guarded(s) && o.model != "" && !OffsetTaken(s.log, o.offset)
    requires ObservedModel(s.meta).None? ==> s.log == [] && (s.meta.Some? ==> s.meta.value.confirmedModel.None?)
    ensures Guarded(Observe(s, o))
  {
  }

  /** Adopting keeps the guard exactly when it adopts the model now running, or leaves a standing row
      behind: adopting a stale row over an already accepted departure breaks it. */
  lemma AdoptKeepsGuardIff(s: Session, i: nat)
    requires Guarded(s) && ObservedModel(s.meta).Some? && CanAcknowledge(s.log, i)
    ensures Guarded(Acknowledge(s, i, true))
       <==> Some(s.log[i].toModel) == s.meta.value.observedModel || Standing(s.log[|s.log| - 1])
  {
    var last := |s.log| - 1;
    var after := Acknowledge(s, i, true);
    if Some(s.log[i].toModel) != s.meta.value.observedModel {
      assert last !in OpenOnto(s.log, s.log[i].toModel);
      assert after.log[last] == s.log[last];
    }
  }

  lemma DeclineKeepsGuard(s: Session, i: nat)
    requires Guarded(s)
    ensures Guarded(Acknowledge(s, i, false))
  {
  }

  /** Each adoption accepts the model now running, or leaves a standing row behind. */
  ghost predicate Careful(ops: seq<Op>) {
    ops != [] ==>
      && Careful(ops[..|ops| - 1])
      && var s, op := Run(Session(None, []), ops[..|ops| - 1]), ops[|ops| - 1];
         op.Answer? && op.adopt && CanAcknowledge(s.log, op.i) && s.meta.Some? ==>
           Some(s.log[op.i].toModel) == s.meta.value.observedModel || Standing(s.log[|s.log| - 1])
  }

  lemma {:induction false} NothingObserved(ops: seq<Op>)
    requires Observations(ops) == []
    ensures Run(Session(None, []), ops) == Session(None, [])
  {
    if ops != [] {
      NothingObserved(ops[..|ops| - 1]);
    }
  }

  /** Over every run with careful adoptions: whenever the session runs on a model other than the confirmed
      one, the latest row is enforced and is open or was declined. */
  lemma {:induction false} DeparturesStayOnRecord(ops: seq<Op>)
    requires Transcript(Observations(ops)) && Careful(ops)
    ensures Guarded(Run(Session(None, []), ops))
  {
    if ops != [] {
      var front, op := ops[..|ops| - 1], ops[|ops| - 1];
      var mid := Run(Session(None, []), front);
      TranscriptPrefix(Observations(front), Observations(ops));
      DeparturesStayOnRecord(front);
      RunTracks(Session(None, []), front);
      match op
      case Seen(o) =>
        if Observations(front) == [] {
          NothingObserved(front);
        } else {
          NewOffset(mid.log, Observations(front), o);
          ObserveKeepsGuard(mid, o);
        }
      case Answer(i, adopt) =>
        if adopt && CanAcknowledge(mid.log, i) && ObservedModel(mid.meta).Some? {
          AdoptKeepsGuardIff(mid, i);
        } else if !adopt {
          DeclineKeepsGuard(mid, i);
        }
      case Stop(i) =>
    }
  }

  /** Guarded after every operation of the run. */
  ghost predicate GuardedThroughout(ops: seq<Op>) {
    Guarded(Run(Session(None, []), ops)) && (ops != [] ==> GuardedThroughout(ops[..|ops| - 1]))
  }

  /** And careful adoptions are exactly what it takes. */
  lemma {:induction false} GuardedThroughoutIffCareful(ops: seq<Op>)
    requires Transcript(Observations(ops))
    ensures GuardedThroughout(ops) <==> Careful(ops)
  {
    if ops != [] {
      var front, op := ops[..|ops| - 1], ops[|ops| - 1];
      var mid := Run(Session(None, []), front);
      TranscriptPrefix(Observations(front), Observations(ops));
      GuardedThroughoutIffCareful(front);
      if Careful(ops) {
        DeparturesStayOnRecord(ops);
      } else if GuardedThroughout(front) {
        RunTracks(Session(None, []), front);
        RowsNeedObservation(mid, Observations(front));
        AdoptKeepsGuardIff(mid, op.i);
      }
    }
  }

  lemma RowsNeedObservation(s: Session, os: seq<Observation>)
    requires Tracks(s, os) && Transcript(os) && s.log != []
    ensures ObservedModel(s.meta).Some?
  {
  }

  /** A run that fails, for any two models: go from one to the other and back, then adopt the first switch. */
  lemma StaleAdoptionBreaksGuard(a: Observation, b: Observation, c: Observation)
    requires a.model != "" && b.model != "" && c.model == a.model && b.model != a.model
    requires a.offset != b.offset && a.offset != c.offset && b.offset != c.offset
    ensures var ops := [Seen(a), Seen(b), Seen(c), Answer(0, true)];
      && Transcript(Observations(ops)) && Guarded(Run(Session(None, []), ops[..3])) && !Guarded(Run(Session(None, []), ops))
  {
    var ops := [Seen(a), Seen(b), Seen(c), Answer(0, true)];
    var none := Session(None, []);
    assert ops[..3] == [Seen(a), Seen(b), Seen(c)] && ops[..2] == [Seen(a), Seen(b)] && ops[..1] == [Seen(a)];
    assert ops[..3][..2] == ops[..2] && ops[..2][..1] == ops[..1] && ops[..1][..0] == [];
    assert ops[..|ops| - 1] == ops[..3];
    assert Observations(ops[..1]) == [a];
    assert Observations(ops[..2]) == [a, b];
    assert Observations(ops[..3]) == [a, b, c] == Observations(ops);
    hide Observations;
    var s3 := ThereAndBack(a, b, c);
    hide Observe, Acknowledge;
    assert Run(none, ops[..1]) == Observe(none, a);
    assert Run(none, ops[..2]) == Observe(Observe(none, a), b);
    assert Run(none, ops[..3]) == s3;
    assert Run(none, ops) == Acknowledge(s3, 0, true);
    hide Run, Guarded;
    AdoptKeepsGuardIff(s3, 0);
  }

  /** Two switches, the second back to the model that is still the confirmed one. */
  lemma ThereAndBack(a: Observation, b: Observation, c: Observation) returns (s: Session)
    requires a.model != "" && b.model != "" && c.model == a.model && b.model != a.model && b.offset != c.offset
    ensures s == Observe(Observe(Observe(Session(None, []), a), b), c)
    ensures Guarded(s) && ObservedModel(s.meta) == Some(a.model) == s.meta.value.observedModel
    ensures |s.log| == 2 && CanAcknowledge(s.log, 0) && s.log[0].toModel == b.model && !Standing(s.log[1])
  {
    var s1 := Observe(Session(None, []), a);
    var s2 := Observe(s1, b);
    assert s2.log == [NewSwitch(s1.meta.value, a.model, b, a.model)];
    assert !OffsetTaken(s2.log, c.offset);
    s := Observe(s2, c);
  }

  lemma NewOffset(log: seq<Switch>, os: seq<Observation>, o: Observation)
    requires RowsOfChanges(log, os) && Transcript(os + [o])
    ensures !OffsetTaken(log, o.offset) && o.model != ""
  {
    var all := os + [o];
    assert all[|os|] == o;
    forall j | 0 <= j < |log| ensures log[j].offset != o.offset {
      OffsetsComeFromInput(log, os, j);
      var k :| 0 <= k < |os| && os[k].offset == log[j].offset;
      assert all[k].offset != all[|os|].offset;
    }
  }

  // ---- Transactions, statement by statement ----------------------------------

  type TxId = nat

  /** A transaction in flight. `rows` are the switch rows it has updated and so locked. */
  datatype Tx =
    | Observing(o: Observation, seen: Option<Metadata>, locked: bool)
    | Acking(row: nat, adopt: bool, confirmed: bool, swept: bool, rows: set<nat>)

  /** Committed rows, the holder of the metadata row's lock, and the open transactions. */
  datatype Sys = Sys(session: Session, holder: Option<TxId>, txs: map<TxId, Tx>)

  datatype Action =
    | InsertMetadata                                  // another writer creates the row
    | BeginObserve(t: TxId, o: Observation)           // SELECT ... FOR UPDATE
    | CommitObserve(t: TxId)                          // insert, write_baseline, commit
    | BeginAck(t: TxId, row: nat, adopt: bool)        // first UPDATE of acknowledge
    | ConfirmAck(t: TxId)                             // second: the confirmed model
    | SweepAck(t: TxId)                               // third: other open rows onto the model
    | CommitAck(t: TxId)
    | Abort(t: TxId)
    | MarkInterrupted(row: nat)

  predicate RowLocked(s: Sys, row: nat, except: Option<TxId>) {
    exists t :: t in s.txs && Some(t) != except && s.txs[t].Acking? && row in s.txs[t].rows
  }

  function Target(s: Sys, t: TxId): string
    requires t in s.txs && s.txs[t].Acking? && s.txs[t].row < |s.session.log|
  {
    s.session.log[s.txs[t].row].toModel
  }

  /** A statement runs when the locks it needs are free. */
  predicate Enabled(s: Sys, a: Action) {
    match a
    case InsertMetadata => s.session.meta.None?
    case BeginObserve(t, o) => t !in s.txs && o.model != "" && (s.session.meta.Some? ==> s.holder.None?)
    case CommitObserve(t) => t in s.txs && s.txs[t].Observing? && (s.txs[t].locked || s.holder.None?)
    case BeginAck(t, row, _) => t !in s.txs && CanAcknowledge(s.session.log, row) && !RowLocked(s, row, None)
    case ConfirmAck(t) =>
      t in s.txs && s.txs[t].Acking? && s.txs[t].adopt && !s.txs[t].confirmed && s.holder.None?
    case SweepAck(t) =>
      && t in s.txs && s.txs[t].Acking? && s.txs[t].confirmed && !s.txs[t].swept
      && s.txs[t].row < |s.session.log|
      && forall j :: j in OpenOnto(s.session.log, Target(s, t)) ==> !RowLocked(s, j, Some(t))
    case CommitAck(t) =>
      t in s.txs && s.txs[t].Acking? && s.txs[t].row < |s.session.log| && (s.txs[t].adopt ==> s.txs[t].swept)
    case Abort(t) => t in s.txs
    case MarkInterrupted(row) => row < |s.session.log| && !RowLocked(s, row, None)
  }

  function Released(s: Sys, t: TxId): Sys {
    s.(holder := if s.holder == Some(t) then None else s.holder, txs := s.txs - {t})
  }

  function Next(s: Sys, a: Action): Sys
    requires Enabled(s, a)
  {
    match a
    case InsertMetadata => s.(session := s.session.(meta := Some(Metadata(None, None, None))))
    case BeginObserve(t, o) =>
      var locks := s.session.meta.Some?;
      s.(holder := if locks then Some(t) else s.holder, txs := s.txs[t := Observing(o, s.session.meta, locks)])
    case CommitObserve(t) => Released(s.(session := ObserveFrom(s.txs[t].seen, s.session, s.txs[t].o)), t)
    case BeginAck(t, row, adopt) => s.(txs := s.txs[t := Acking(row, adopt, false, false, {row})])
    case ConfirmAck(t) => s.(holder := Some(t), txs := s.txs[t := s.txs[t].(confirmed := true)])
    case SweepAck(t) =>
      s.(txs := s.txs[t := s.txs[t].(swept := true, rows := s.txs[t].rows + OpenOnto(s.session.log, Target(s, t)))])
    case CommitAck(t) =>
      var tx := s.txs[t];
      Released(s.(session := Session(
        if tx.adopt then Confirm(s.session.meta, Target(s, t)) else s.session.meta,
        CloseRows(s.session.log, tx.rows, tx.adopt))), t)
    case Abort(t) => Released(s, t)
    case MarkInterrupted(row) => s.(session := Interrupt(s.session, row))
  }

  /** No open enforced switch is onto the model the session is confirmed on. */
  predicate Answered(s: Session) {
    forall j :: 0 <= j < |s.log| && s.log[j].enforced && !s.log[j].acknowledged ==>
      s.meta.Some? && s.meta.value.confirmedModel != Some(s.log[j].toModel)
  }

  /** A session with rows or an observed model has a confirmed one. */
  predicate Grounded(s: Session) {
    && (s.log != [] ==> ObservedModel(s.meta).Some?)
    && (ObservedModel(s.meta).Some? ==> s.meta.value.confirmedModel.Some?)
  }

  predicate HoldsLock(tx: Tx) {
    (tx.Observing? && tx.locked) || (tx.Acking? && tx.confirmed)
  }

  ghost predicate TxValid(s: Sys, t: TxId, tx: Tx) {
    && (HoldsLock(tx) <==> s.holder == Some(t))
    && match tx
       case Observing(o, seen, locked) => o.model != "" && (if locked then seen.Some? && seen == s.session.meta else seen.None?)
       case Acking(row, adopt, confirmed, swept, rows) =>
         && row in rows && row < |s.session.log|
         && (swept ==> confirmed) && (confirmed ==> adopt)
         && (forall j :: j in rows ==> CanAcknowledge(s.session.log, j))
         && (adopt ==> forall j :: j in rows ==> s.session.log[j].toModel == s.session.log[row].toModel)
         && (!swept ==> rows == {row})
         && (swept ==> OpenOnto(s.session.log, s.session.log[row].toModel) <= rows)
  }

  ghost predicate Inv(s: Sys) {
    && Answered(s.session) && Grounded(s.session)
    && (s.holder.Some? ==> s.holder.value in s.txs)
    && (forall t :: t in s.txs ==> TxValid(s, t, s.txs[t]))
    && (forall t, u, j | t in s.txs && u in s.txs && t != u && s.txs[t].Acking? && s.txs[u].Acking? ::
          j in s.txs[t].rows ==> j !in s.txs[u].rows)
  }

  /** Every statement of every transaction keeps the invariant. */
  lemma StepKeepsInv(s: Sys, a: Action)
    requires Inv(s) && Enabled(s, a)
    ensures Inv(Next(s, a))
  {
    match a
    case CommitObserve(t) => CommitObserveKeepsInv(s, t);
    case CommitAck(t) => CommitAckKeepsInv(s, t);
    case BeginAck(t, row, adopt) => BeginAckKeepsInv(s, t, row, adopt);
    case SweepAck(t) => SweepAckKeepsInv(s, t);
    case Abort(t) => AbortKeepsInv(s, t);
    case MarkInterrupted(row) => InterruptKeepsInv(s, row);
    case _ => LockStepKeepsInv(s, a);
  }

  lemma LockStepKeepsInv(s: Sys, a: Action)
    requires Inv(s) && Enabled(s, a) && (a.InsertMetadata? || a.BeginObserve? || a.ConfirmAck?)
    ensures Inv(Next(s, a))
  {
    var s' := Next(s, a);
    forall u | u in s'.txs ensures TxValid(s', u, s'.txs[u]) {
      assert u in s.txs ==> TxValid(s, u, s.txs[u]);
    }
  }

  lemma BeginAckKeepsInv(s: Sys, t: TxId, row: nat, adopt: bool)
    requires Inv(s) && Enabled(s, BeginAck(t, row, adopt))
    ensures Inv(Next(s, BeginAck(t, row, adopt)))
  {
    var s' := Next(s, BeginAck(t, row, adopt));
    forall u | u in s'.txs ensures TxValid(s', u, s'.txs[u]) {
      assert u in s.txs ==> TxValid(s, u, s.txs[u]);
    }
  }

  lemma SweepAckKeepsInv(s: Sys, t: TxId)
    requires Inv(s) && Enabled(s, SweepAck(t))
    ensures Inv(Next(s, SweepAck(t)))
  {
    var s' := Next(s, SweepAck(t));
    forall u | u in s'.txs ensures TxValid(s', u, s'.txs[u]) {
      assert TxValid(s, u, s.txs[u]);
    }
  }

  lemma AbortKeepsInv(s: Sys, t: TxId)
    requires Inv(s) && t in s.txs
    ensures Inv(Next(s, Abort(t)))
  {
    var s' := Next(s, Abort(t));
    forall u | u in s'.txs ensures TxValid(s', u, s'.txs[u]) {
      assert TxValid(s, u, s.txs[u]);
    }
  }

  lemma InterruptKeepsInv(s: Sys, row: nat)
    requires Inv(s) && row < |s.session.log|
    ensures Inv(s.(session := Interrupt(s.session, row)))
  {
    var s' := s.(session := Interrupt(s.session, row));
    var log, log' := s.session.log, s'.session.log;
    assert forall model :: OpenOnto(log', model) == OpenOnto(log, model);
    forall u | u in s'.txs ensures TxValid(s', u, s'.txs[u]) {
      assert TxValid(s, u, s.txs[u]);
    }
  }

  lemma CommitObserveKeepsInv(s: Sys, t: TxId)
    requires Inv(s) && Enabled(s, CommitObserve(t))
    ensures Inv(Next(s, CommitObserve(t)))
  {
    var s' := Next(s, CommitObserve(t));
    assert TxValid(s, t, s.txs[t]);
    forall u | u in s'.txs ensures TxValid(s', u, s'.txs[u]) {
      assert TxValid(s, u, s.txs[u]);
    }
  }

  lemma CommitAckKeepsInv(s: Sys, t: TxId)
    requires Inv(s) && Enabled(s, CommitAck(t))
    ensures Inv(Next(s, CommitAck(t)))
  {
    var s' := Next(s, CommitAck(t));
    assert TxValid(s, t, s.txs[t]);
    forall u | u in s'.txs ensures TxValid(s', u, s'.txs[u]) {
      assert TxValid(s, u, s.txs[u]);
    }
  }

  /** Before anything is observed: no rows, no baseline, nothing in flight. */
  const QUIET := Sys(Session(None, []), None, map[])

  ghost predicate Schedule(s: Sys, actions: seq<Action>)
    decreases actions
  {
    actions != [] ==> Enabled(s, actions[0]) && Schedule(Next(s, actions[0]), actions[1..])
  }

  ghost function After(s: Sys, actions: seq<Action>): Sys
    requires Schedule(s, actions)
    decreases actions
  {
    if actions == [] then s else After(Next(s, actions[0]), actions[1..])
  }

  lemma {:induction false} RunKeepsInv(s: Sys, actions: seq<Action>)
    requires Inv(s) && Schedule(s, actions)
    ensures Inv(After(s, actions))
    decreases actions
  {
    hide Inv, Next, Enabled;
    if actions != [] {
      StepKeepsInv(s, actions[0]);
      RunKeepsInv(Next(s, actions[0]), actions[1..]);
    }
  }

  /** In every committed state of every schedule, no open enforced switch is onto the confirmed model. */
  lemma NoPendingSwitchIsConfirmed(actions: seq<Action>)
    requires Schedule(QUIET, actions)
    ensures Answered(After(QUIET, actions).session)
  {
    assert Inv(QUIET);
    RunKeepsInv(QUIET, actions);
  }

  /** A confirmed model, once there, changes only when an adoption commits, and then to the adopted model. */
  lemma ConfirmedChangesOnlyByAdoption(s: Sys, a: Action)
    requires Inv(s) && Enabled(s, a)
    requires s.session.meta.Some? && s.session.meta.value.confirmedModel.Some?
    ensures Next(s, a).session.meta.Some?
    ensures Next(s, a).session.meta.value.confirmedModel != s.session.meta.value.confirmedModel ==>
      && a.CommitAck? && s.txs[a.t].adopt
      && Next(s, a).session.meta.value.confirmedModel == Some(Target(s, a.t))
  {
    if a.CommitObserve? {
      assert TxValid(s, a.t, s.txs[a.t]);
    }
  }

  /** Under the row lock a commit is exactly the atomic observation. */
  lemma LockedObserveIsAtomic(s: Sys, t: TxId)
    requires Inv(s) && t in s.txs && s.txs[t].Observing? && s.txs[t].locked
    ensures Next(s, CommitObserve(t)).session == Observe(s.session, s.txs[t].o)
  {
    assert TxValid(s, t, s.txs[t]);
  }

  // ---- The log over every schedule ----------------------------------------------

  /** The observations committed, in commit order. */
  ghost function Committed(s: Sys, actions: seq<Action>): seq<Observation>
    requires Schedule(s, actions)
    decreases actions
  {
    if actions == [] then []
    else (if actions[0].CommitObserve? then [s.txs[actions[0].t].o] else []) + Committed(Next(s, actions[0]), actions[1..])
  }

  /** The metadata row is there, and every observation in flight holds its lock. */
  predicate RowExists(s: Sys) {
    s.session.meta.Some? && forall t :: t in s.txs && s.txs[t].Observing? ==> s.txs[t].locked
  }

  /** Seen from the log, a commit of an observation is one observation and every other statement is an answer. */
  lemma StepTracks(s: Sys, a: Action, os: seq<Observation>)
    requires Inv(s) && RowExists(s) && Enabled(s, a) && Tracks(s.session, os)
    requires a.CommitObserve? ==> Transcript(os + [s.txs[a.t].o])
    ensures RowExists(Next(s, a))
    ensures Tracks(Next(s, a).session, if a.CommitObserve? then os + [s.txs[a.t].o] else os)
  {
    if a.CommitObserve? {
      LockedObserveIsAtomic(s, a.t);
      ObserveTracks(s.session, os, s.txs[a.t].o);
    } else {
      AnswerStep(s, a);
      hide Inv, Enabled, Next;
      RowsOfChangesFrame(s.session.log, Next(s, a).session.log, os);
    }
  }

  lemma AnswerStep(s: Sys, a: Action)
    requires Inv(s) && RowExists(s) && Enabled(s, a) && !a.CommitObserve?
    ensures RowExists(Next(s, a)) && SameTransitions(s.session.log, Next(s, a).session.log)
    ensures Next(s, a).session.meta.value.observedModel == s.session.meta.value.observedModel
    ensures Next(s, a).session.meta.value.observedEffort == s.session.meta.value.observedEffort
  {
    if a.CommitAck? {
      CloseKeepsTransitions(s.session.log, s.txs[a.t].rows, s.txs[a.t].adopt);
    }
  }

  lemma {:induction false} ScheduleTracks(s: Sys, actions: seq<Action>, os: seq<Observation>)
    requires Inv(s) && RowExists(s) && Schedule(s, actions) && Tracks(s.session, os)
    requires Transcript(os + Committed(s, actions))
    ensures Tracks(After(s, actions).session, os + Committed(s, actions))
    decreases actions
  {
    if actions == [] {
      assert os + [] == os;
    } else {
      var a, s' := actions[0], Next(s, actions[0]);
      var more := if a.CommitObserve? then [s.txs[a.t].o] else [];
      var rest := Committed(s', actions[1..]);
      assert (os + more) + rest == os + Committed(s, actions);
      TranscriptPrefix(os + more, os + Committed(s, actions));
      assert os + [] == os;
      StepTracks(s, a, os);
      StepKeepsInv(s, a);
      hide Inv, Next, Enabled, Tracks, Transcript;
      ScheduleTracks(s', actions[1..], os + more);
    }
  }

  /** Where a session's metadata row exists before anything is observed. */
  const REGISTERED := Sys(Session(Some(Metadata(None, None, None)), []), None, map[])

  /** Over every schedule of transactions, failed ones included: each row of the log names the observation that caused it
      and the one committed immediately before, and the launch model followed by the log's target models is the sequence
      of committed observations with adjacent repeats collapsed. */
  lemma LogIsCollapsedCommits(actions: seq<Action>)
    requires Schedule(REGISTERED, actions)
    requires var os := Committed(REGISTERED, actions); Transcript(os) && os != []
    ensures var os, log := Committed(REGISTERED, actions), After(REGISTERED, actions).session.log;
      RowsOfChanges(log, os) && [os[0].model] + ToModels(log) == Collapse(Models(os))
  {
    var os := Committed(REGISTERED, actions);
    assert Inv(REGISTERED) && RowExists(REGISTERED);
    assert [] + os == os;
    ScheduleTracks(REGISTERED, actions, []);
    hide Inv, Schedule, After, Committed;
    RowsAreCollapse(After(REGISTERED, actions).session.log, os);
  }

  // ---- Transactions are serializable ---------------------------------------------

  /** A committed acknowledgement is exactly the atomic one, whatever ran between its statements. */
  lemma CommittedAckIsAtomic(s: Sys, t: TxId)
    requires Inv(s) && Enabled(s, CommitAck(t))
    ensures Next(s, CommitAck(t)).session == Acknowledge(s.session, s.txs[t].row, s.txs[t].adopt)
  {
    var tx := s.txs[t];
    assert TxValid(s, t, tx);
    assert CanAcknowledge(s.session.log, tx.row);
    if tx.adopt {
      assert tx.rows == OpenOnto(s.session.log, s.session.log[tx.row].toModel);
    }
  }

  /** The calls a schedule amounts to, in the order in which they committed. */
  ghost function Serial(s: Sys, actions: seq<Action>): seq<Op>
    requires Schedule(s, actions)
    decreases actions
  {
    if actions == [] then [] else CallOf(s, actions[0]) + Serial(Next(s, actions[0]), actions[1..])
  }

  function CallOf(s: Sys, a: Action): seq<Op>
    requires Enabled(s, a)
  {
    match a
    case CommitObserve(t) => [Seen(s.txs[t].o)]
    case CommitAck(t) => [Answer(s.txs[t].row, s.txs[t].adopt)]
    case MarkInterrupted(row) => [Stop(row)]
    case _ => []
  }

  lemma StepIsCall(s: Sys, a: Action)
    requires Inv(s) && RowExists(s) && Enabled(s, a)
    ensures RowExists(Next(s, a)) && Next(s, a).session == Run(s.session, CallOf(s, a))
  {
    if a.CommitObserve? {
      LockedObserveIsAtomic(s, a.t);
    } else if a.CommitAck? {
      CommittedAckIsAtomic(s, a.t);
    }
    hide Inv, Observe, Acknowledge, Interrupt;
    assert forall op: Op :: [op][..0] == [];
  }

  lemma {:induction false} RunAppend(s: Session, a: seq<Op>, b: seq<Op>)
    ensures Run(s, a + b) == Run(Run(s, a), b)
  {
    if b == [] {
      assert a + b == a;
    } else {
      assert (a + b)[..|a + b| - 1] == a + b[..|b| - 1];
      RunAppend(s, a, b[..|b| - 1]);
    }
  }

  /** Where the metadata row exists, transactions are serializable: every schedule of their statements, aborted ones
      included, leaves the session as the calls would, one after the other in the order of their commits. */
  lemma {:induction false} SchedulesAreSerial(s: Sys, actions: seq<Action>)
    requires Inv(s) && RowExists(s) && Schedule(s, actions)
    ensures After(s, actions).session == Run(s.session, Serial(s, actions))
    decreases actions
  {
    hide Inv, Next, Enabled, RowExists, CallOf;
    if actions != [] {
      var a, s' := actions[0], Next(s, actions[0]);
      StepIsCall(s, a);
      StepKeepsInv(s, a);
      SchedulesAreSerial(s', actions[1..]);
      RunAppend(s.session, CallOf(s, a), Serial(s', actions[1..]));
    }
  }

  /** The statements of one call. */
  function Statements(t: TxId, op: Op): seq<Action> {
    match op
    case Seen(o) => [BeginObserve(t, o), CommitObserve(t)]
    case Answer(i, adopt) =>
      if adopt then [BeginAck(t, i, true), ConfirmAck(t), SweepAck(t), CommitAck(t)] else [BeginAck(t, i, false), CommitAck(t)]
    case Stop(i) => [MarkInterrupted(i)]
  }

  /** With no transaction open, every call can run to its end, and is then the atomic call. */
  lemma AloneIsTheCall(s: Sys, t: TxId, op: Op)
    requires Inv(s) && s.txs == map[]
    requires match op case Seen(o) => o.model != "" case Answer(i, _) => CanAcknowledge(s.session.log, i) case Stop(i) => i < |s.session.log|
    ensures Schedule(s, Statements(t, op))
    ensures After(s, Statements(t, op)) == s.(session := Apply(s.session, op))
  {
    assert s.holder.None?;
    match op
    case Seen(o) =>
      var s1 := Next(s, BeginObserve(t, o));
      StepKeepsInv(s, BeginObserve(t, o));
      assert Enabled(s1, CommitObserve(t));
      LastStep(s1, CommitObserve(t));
      assert Statements(t, op)[1..] == [CommitObserve(t)];
    case Answer(i, adopt) => AckAlone(s, t, i, adopt);
    case Stop(i) => LastStep(s, MarkInterrupted(i));
  }

  lemma LastStep(s: Sys, a: Action)
    requires Enabled(s, a)
    ensures Schedule(s, [a]) && After(s, [a]) == Next(s, a)
  {
    assert Schedule(Next(s, a), []) && [a][1..] == [];
  }

  lemma AckAlone(s: Sys, t: TxId, i: nat, adopt: bool)
    requires Inv(s) && s.txs == map[] && s.holder.None? && CanAcknowledge(s.session.log, i)
    ensures Schedule(s, Statements(t, Answer(i, adopt)))
    ensures After(s, Statements(t, Answer(i, adopt))) == s.(session := Acknowledge(s.session, i, adopt))
  {
    var s1 := Next(s, BeginAck(t, i, adopt));
    StepKeepsInv(s, BeginAck(t, i, adopt));
    if adopt {
      var s2 := Next(s1, ConfirmAck(t));
      StepKeepsInv(s1, ConfirmAck(t));
      var s3 := Next(s2, SweepAck(t));
      StepKeepsInv(s2, SweepAck(t));
      CommittedAckIsAtomic(s3, t);
      assert Next(s3, CommitAck(t)) == s.(session := Acknowledge(s.session, i, adopt));
      hide Inv;
      LastStep(s3, CommitAck(t));
      var all := Statements(t, Answer(i, adopt));
      assert all[1..][1..][1..] == [CommitAck(t)] && all[1..][1..] == [SweepAck(t), CommitAck(t)];
      assert Schedule(s2, all[1..][1..]) && After(s2, all[1..][1..]) == After(s3, [CommitAck(t)]);
    } else {
      CommittedAckIsAtomic(s1, t);
      LastStep(s1, CommitAck(t));
      assert Statements(t, Answer(i, adopt))[1..] == [CommitAck(t)];
    }
  }

  predicate OffsetsApart(log: seq<Switch>) {
    forall i, j :: 0 <= i < j < |log| ==> log[i].offset != log[j].offset
  }

  /** A record read again adds no row: over every schedule, first sightings included, no two rows have one offset. */
  lemma {:induction false} NoOffsetTwice(s: Sys, actions: seq<Action>)
    requires Inv(s) && Schedule(s, actions) && OffsetsApart(s.session.log)
    ensures OffsetsApart(After(s, actions).session.log)
    decreases actions
  {
    if actions != [] {
      var s' := Next(s, actions[0]);
      StepKeepsInv(s, actions[0]);
      OffsetsStayApart(s, actions[0]);
      hide Inv, Next, Enabled, OffsetsApart;
      NoOffsetTwice(s', actions[1..]);
    }
  }

  lemma OffsetsStayApart(s: Sys, a: Action)
    requires Inv(s) && Enabled(s, a) && OffsetsApart(s.session.log)
    ensures OffsetsApart(Next(s, a).session.log)
  {
    if a.CommitObserve? && |Next(s, a).session.log| > |s.session.log| {
      var o := s.txs[a.t].o;
      assert !OffsetTaken(s.session.log, o.offset);
      assert forall i :: 0 <= i < |s.session.log| ==> s.session.log[i].offset != o.offset;
    }
    hide Inv;
  }

  /** Without a row there is nothing to lock: a first sighting is atomic exactly when no other first sighting
      got in between with another model. Otherwise the switch goes unrecorded. */
  lemma UnlockedObserveIsAtomicIff(s: Sys, t: TxId)
    requires Inv(s) && Enabled(s, CommitObserve(t)) && !s.txs[t].locked
    requires !OffsetTaken(s.session.log, s.txs[t].o.offset)
    ensures Next(s, CommitObserve(t)).session == Observe(s.session, s.txs[t].o)
       <==> ObservedModel(s.session.meta) in {None, Some(s.txs[t].o.model)}
  {
    assert TxValid(s, t, s.txs[t]);
  }

  /** A schedule in which the model moves from `a` to `b` and no row says so. */
  lemma FirstSightingsRace(a: Observation, b: Observation)
    requires a.model != "" && b.model != "" && a.model != b.model
    ensures var race := [BeginObserve(0, a), BeginObserve(1, b), CommitObserve(0), CommitObserve(1)];
      && Schedule(QUIET, race)
      && After(QUIET, race).session == Session(Some(Metadata(Some(b.model), b.effort, Some(a.model))), [])
  {
    var s1 := Next(QUIET, BeginObserve(0, a));
    var s2 := Next(s1, BeginObserve(1, b));
    var s3 := Next(s2, CommitObserve(0));
    var s4 := Next(s3, CommitObserve(1));
    var race := [BeginObserve(0, a), BeginObserve(1, b), CommitObserve(0), CommitObserve(1)];
    assert race[1..][1..][1..] == [CommitObserve(1)] && race[1..][1..] == [CommitObserve(0), CommitObserve(1)];
    assert [CommitObserve(1)][1..] == [];
    assert Schedule(s4, []) && After(s4, []) == s4;
    assert Schedule(s3, [CommitObserve(1)]) && After(s3, [CommitObserve(1)]) == s4;
    assert Schedule(s2, race[1..][1..]) && After(s2, race[1..][1..]) == s4;
    assert Schedule(s1, race[1..]) && After(s1, race[1..]) == s4;
  }

  // ---- Enforcement -----------------------------------------------------------

  /** The rows `pending_enforcement` returns while the session's PTY is live, running and working. */
  function PendingEnforcement(log: seq<Switch>, working: bool): set<nat> {
    set j: nat | j < |log| && working && log[j].enforced && !log[j].acknowledged && !log[j].interrupted
  }

  /** Only a turn on a model other than the confirmed one is stopped, and no row is stopped twice. */
  lemma EnforcementStopsOnlyDepartures(actions: seq<Action>, working: bool, j: nat)
    requires Schedule(QUIET, actions)
    requires var s := After(QUIET, actions); j in PendingEnforcement(s.session.log, working)
    ensures var s := After(QUIET, actions);
      && s.session.meta.Some?
      && s.session.meta.value.confirmedModel != Some(s.session.log[j].toModel)
      && (Enabled(s, MarkInterrupted(j)) ==> j !in PendingEnforcement(Next(s, MarkInterrupted(j)).session.log, working))
  {
    NoPendingSwitchIsConfirmed(actions);
  }

  /** A departure from the confirmed model is pending enforcement as soon as it is observed while the turn runs. */
  lemma DepartureIsPending(s: Session, o: Observation)
    requires ObservedModel(s.meta).Some? && ObservedModel(s.meta).value != o.model
    requires s.meta.value.confirmedModel.Some? && !OffsetTaken(s.log, o.offset)
    ensures var log := Observe(s, o).log;
      && |log| == |s.log| + 1
      && (|s.log| in PendingEnforcement(log, true) <==> s.meta.value.confirmedModel != Some(o.model))
      && (forall j :: 0 <= j < |s.log| ==> (j in PendingEnforcement(log, true) <==> j in PendingEnforcement(s.log, true)))
  {
  }

  /** One statement interrupts a row exactly when it says so, and no row starts interrupted. */
  lemma InterruptStep(s: Sys, a: Action, j: nat)
    requires Inv(s) && Enabled(s, a)
    ensures |Next(s, a).session.log| >= |s.session.log|
    ensures j < |Next(s, a).session.log| ==>
      (Next(s, a).session.log[j].interrupted <==> (j < |s.session.log| && s.session.log[j].interrupted) || a == MarkInterrupted(j))
  {
    if a.CommitObserve? {
      assert TxValid(s, a.t, s.txs[a.t]);
    }
  }

  lemma {:induction false} InterruptedIffMarked(s: Sys, actions: seq<Action>, j: nat)
    requires Inv(s) && Schedule(s, actions)
    ensures |After(s, actions).session.log| >= |s.session.log|
    ensures j < |After(s, actions).session.log| ==>
      (After(s, actions).session.log[j].interrupted <==>
         (j < |s.session.log| && s.session.log[j].interrupted) || MarkInterrupted(j) in actions)
    decreases actions
  {
    if actions != [] {
      InterruptStep(s, actions[0], j);
      StepKeepsInv(s, actions[0]);
      assert actions == [actions[0]] + actions[1..];
      assert j >= |Next(s, actions[0]).session.log| ==> actions[0] != MarkInterrupted(j);
      hide Inv, Next, Enabled;
      InterruptedIffMarked(Next(s, actions[0]), actions[1..], j);
    }
  }

  /** Over every schedule: a row is stopped while its session works if and only if it is an enforced open one that was not
      stopped before. */
  lemma PendingIffNotInterrupted(actions: seq<Action>, working: bool, j: nat)
    requires Schedule(QUIET, actions) && j < |After(QUIET, actions).session.log|
    ensures var log := After(QUIET, actions).session.log;
      j in PendingEnforcement(log, working) <==>
        working && log[j].enforced && !log[j].acknowledged && MarkInterrupted(j) !in actions
  {
    assert Inv(QUIET);
    InterruptedIffMarked(QUIET, actions, j);
    hide Inv, After, Schedule;
  }
}
