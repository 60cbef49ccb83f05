/**
 * The single-flight snapshot cache (backend/src/api/app_state_routes.rs).
 *
 * Callers interleave at every await point; a build that fails or whose caller is dropped releases the lock.
 * A snapshot is represented by the build that made it. `now` is a step counter and, like `completed` and
 * `attempts`, exists only to state the properties.
 */
module CoalescedSnapshot {
  import opened Wrappers

  type Caller = nat

  datatype Build = Build(builder: Caller, startedAt: nat, completedAt: nat)

  datatype Cached = Cached(completedBuilds: nat, build: Build)

  /** A call: when it loaded the counter, the value it loaded, whether a build was running then, and how far it is. */
  datatype Call = Call(arrivedAt: nat, arrivedAfter: nat, duringBuild: bool, phase: Phase)

  datatype Phase =
    | Waiting
    | Building(startedAt: nat)
    | Storing(built: Build)
    | Returned(build: Build)
    | Failed
    | Dropped

  datatype Attempt = Attempt(from: nat, until: nat)

  datatype Sys = Sys(
    now: nat,
    completedBuilds: nat,
    holder: Option<Caller>,
    cached: Option<Cached>,
    calls: map<Caller, Call>,
    completed: seq<Build>,
    attempts: seq<Attempt>)

  const INITIAL := Sys(0, 0, None, None, map[], [], [])

  datatype Action =
    | Arrive(c: Caller)     // load the counter
    | Acquire(c: Caller)    // take the lock; return the stored snapshot or start a build
    | Complete(c: Caller)   // the build succeeds; increment the counter
    | Store(c: Caller)      // replace the stored snapshot and return
    | Fail(c: Caller)       // the build returns an error
    | Drop(c: Caller)       // the caller's future is dropped at an await

  predicate BuildRunning(s: Sys) {
    s.holder.Some? && s.holder.value in s.calls && s.calls[s.holder.value].phase.Building?
  }

  predicate Enabled(s: Sys, a: Action) {
    match a
    case Arrive(c) => c !in s.calls
    case Acquire(c) => c in s.calls && s.calls[c].phase.Waiting? && s.holder.None?
    case Complete(c) => c in s.calls && s.calls[c].phase.Building?
    case Store(c) => c in s.calls && s.calls[c].phase.Storing?
    case Fail(c) => c in s.calls && s.calls[c].phase.Building?
    case Drop(c) => c in s.calls && (s.calls[c].phase.Waiting? || s.calls[c].phase.Building?)
  }

  function Enter(s: Sys, c: Caller, phase: Phase): map<Caller, Call>
    requires c in s.calls
  {
    s.calls[c := s.calls[c].(phase := phase)]
  }

  function Next(s: Sys, a: Action): Sys
    requires Enabled(s, a)
  {
    var t := s.(now := s.now + 1);
    match a
    case Arrive(c) =>
      t.(calls := s.calls[c := Call(s.now, s.completedBuilds, BuildRunning(s), Waiting)])
    case Acquire(c) =>
      if s.cached.Some? && s.cached.value.completedBuilds > s.calls[c].arrivedAfter
      then t.(calls := Enter(s, c, Returned(s.cached.value.build)))
      else t.(holder := Some(c), calls := Enter(s, c, Building(s.now)))
    case Complete(c) =>
      var build := Build(c, s.calls[c].phase.startedAt, s.now);
      t.(completedBuilds := s.completedBuilds + 1,
         calls := Enter(s, c, Storing(build)),
         completed := s.completed + [build],
         attempts := s.attempts + [Attempt(build.startedAt, s.now)])
    case Store(c) =>
      var build := s.calls[c].phase.built;
      t.(holder := None, cached := Some(Cached(s.completedBuilds, build)), calls := Enter(s, c, Returned(build)))
    case Fail(c) =>
      t.(holder := None, calls := Enter(s, c, Failed),
         attempts := s.attempts + [Attempt(s.calls[c].phase.startedAt, s.now)])
    case Drop(c) =>
      if s.calls[c].phase.Waiting? then t.(calls := Enter(s, c, Dropped))
      else t.(holder := None, calls := Enter(s, c, Dropped),
              attempts := s.attempts + [Attempt(s.calls[c].phase.startedAt, s.now)])
  }

  // ---- Invariant -------------------------------------------------------------

  predicate HoldsLock(phase: Phase) {
    phase.Building? || phase.Storing?
  }

  ghost predicate CallValid(s: Sys, c: Caller, call: Call) {
    && call.arrivedAt < s.now && call.arrivedAfter <= |s.completed|
    && (HoldsLock(call.phase) <==> s.holder == Some(c))
    && (forall k :: 0 <= k < |s.completed| ==> (k >= call.arrivedAfter <==> s.completed[k].completedAt > call.arrivedAt))
    && (!call.duringBuild ==> forall k :: call.arrivedAfter <= k < |s.completed| ==> s.completed[k].startedAt > call.arrivedAt)
    && match call.phase
       case Building(startedAt) =>
         call.arrivedAt < startedAt < s.now && (s.attempts != [] ==> s.attempts[|s.attempts| - 1].until < startedAt)
       case Storing(built) =>
         s.completed != [] && built == s.completed[|s.completed| - 1] && built.startedAt > call.arrivedAt
         && built.completedAt > call.arrivedAt
       case Returned(build) =>
         build in s.completed && build.completedAt > call.arrivedAt && (!call.duringBuild ==> build.startedAt > call.arrivedAt)
       case _ => true
  }

  /** Build numbers, build times and attempts. */
  ghost predicate TablesValid(s: Sys) {
    && s.completedBuilds == |s.completed|
    && (s.holder.Some? ==> s.holder.value in s.calls)
    && (s.cached.Some? ==>
          && 0 < s.cached.value.completedBuilds <= |s.completed|
          && s.cached.value.build == s.completed[s.cached.value.completedBuilds - 1])
    && (forall k :: 0 <= k < |s.completed| ==> s.completed[k].startedAt < s.completed[k].completedAt < s.now)
    && (forall i :: 0 <= i < |s.attempts| ==> s.attempts[i].from < s.attempts[i].until < s.now)
    && (forall i, j :: 0 <= i < j < |s.attempts| ==> s.attempts[i].until < s.attempts[j].from)
  }

  ghost predicate Inv(s: Sys) {
    && TablesValid(s)
    && (forall c :: c in s.calls ==> CallValid(s, c, s.calls[c]))
    && (BuildRunning(s) ==> forall c :: c in s.calls && !s.calls[c].duringBuild ==>
          s.calls[s.holder.value].phase.startedAt > s.calls[c].arrivedAt)
  }

  lemma TablesStep(s: Sys, a: Action)
    requires Inv(s) && Enabled(s, a)
    ensures TablesValid(Next(s, a))
  {
    if a.c in s.calls {
      assert CallValid(s, a.c, s.calls[a.c]);
    }
  }

  /** A call other than the one stepping stays valid. */
  lemma OtherCallStep(s: Sys, a: Action, c: Caller)
    requires Inv(s) && Enabled(s, a) && c in s.calls && c != a.c
    ensures CallValid(Next(s, a), c, s.calls[c])
  {
    assert CallValid(s, c, s.calls[c]);
    if a.c in s.calls {
      assert CallValid(s, a.c, s.calls[a.c]);
    }
  }

  lemma OwnCallStep(s: Sys, a: Action)
    requires Inv(s) && Enabled(s, a)
    ensures CallValid(Next(s, a), a.c, Next(s, a).calls[a.c])
  {
    if a.c in s.calls {
      assert CallValid(s, a.c, s.calls[a.c]);
    }
  }

  lemma RunningBuildStep(s: Sys, a: Action, c: Caller)
    requires Inv(s) && Enabled(s, a) && BuildRunning(Next(s, a))
    requires c in Next(s, a).calls && !Next(s, a).calls[c].duringBuild
    ensures Next(s, a).calls[Next(s, a).holder.value].phase.startedAt > Next(s, a).calls[c].arrivedAt
  {
    if c in s.calls {
      assert CallValid(s, c, s.calls[c]);
    }
  }

  lemma StepKeepsInv(s: Sys, a: Action)
    requires Inv(s) && Enabled(s, a)
    ensures Inv(Next(s, a))
  {
    var s' := Next(s, a);
    TablesStep(s, a);
    OwnCallStep(s, a);
    hide TablesValid, CallValid;
    forall c | c in s'.calls ensures CallValid(s', c, s'.calls[c]) {
      if c != a.c {
        OtherCallStep(s, a, c);
      }
    }
    if BuildRunning(s') {
      forall c | c in s'.calls && !s'.calls[c].duringBuild
        ensures s'.calls[s'.holder.value].phase.startedAt > s'.calls[c].arrivedAt
      {
        RunningBuildStep(s, a, c);
      }
    }
  }

  // ---- Over every interleaving -----------------------------------------------

  ghost predicate Schedule(s: Sys, actions: seq<Action>)
    decreases actions
  {
    actions != [] ==> Enabled(s, actions[0]) && Schedule(Next(s, actions[0]), actions[1..])
  }

  ghost function After(s: Sys, actions: seq<Action>): Sys
    requires Schedule(s, actions)
    decreases actions
  {
    if actions == [] then s else After(Next(s, actions[0]), actions[1..])
  }

  lemma {:induction false} RunKeepsInv(s: Sys, actions: seq<Action>)
    requires Inv(s) && Schedule(s, actions)
    ensures Inv(After(s, actions))
    decreases actions
  {
    hide Inv, Next, Enabled;
    if actions != [] {
      StepKeepsInv(s, actions[0]);
      RunKeepsInv(Next(s, actions[0]), actions[1..]);
    }
  }

  /** Builds never overlap, the counter is the number of completed builds, and whatever a caller is given was
      built by a build that completed after that caller loaded the counter. */
  lemma SnapshotSafety(actions: seq<Action>)
    requires Schedule(INITIAL, actions)
    ensures var s := After(INITIAL, actions);
      && s.completedBuilds == |s.completed|
      && (forall i, j :: 0 <= i < j < |s.attempts| ==> s.attempts[i].until < s.attempts[j].from)
      && (forall c, d :: c in s.calls && d in s.calls && HoldsLock(s.calls[c].phase) && HoldsLock(s.calls[d].phase) ==> c == d)
      && (forall c :: c in s.calls && s.calls[c].phase.Returned? ==>
            s.calls[c].phase.build in s.completed && s.calls[c].phase.build.completedAt > s.calls[c].arrivedAt)
  {
    RunKeepsInv(INITIAL, actions);
    var s := After(INITIAL, actions);
    hide After, Schedule;
    forall c | c in s.calls ensures CallValid(s, c, s.calls[c]) {
    }
  }

  // ---- Nobody waits on a build that is gone --------------------------------------

  /** A build may end in each of the three ways at any time, and however it ends the next waiting caller gets its turn: it
      is given the snapshot if the build completed after it arrived, and builds its own otherwise. */
  lemma WaitingCallerGetsItsTurn(s: Sys, b: Caller, c: Caller)
    requires Inv(s) && s.holder == Some(b) && s.calls[b].phase.Building? && c in s.calls && s.calls[c].phase.Waiting?
    ensures Enabled(s, Complete(b)) && Enabled(s, Fail(b)) && Enabled(s, Drop(b)) && !Enabled(s, Acquire(c))
    ensures Enabled(s, Drop(c)) && Next(s, Drop(c)).holder == s.holder
    ensures Enabled(Next(s, Complete(b)), Store(b)) && !Enabled(Next(s, Complete(b)), Acquire(c))
    ensures var stored := Next(Next(s, Complete(b)), Store(b));
      && Enabled(stored, Acquire(c))
      && Next(stored, Acquire(c)).calls[c].phase == Returned(Build(b, s.calls[b].phase.startedAt, s.now))
    ensures forall a :: a in {Fail(b), Drop(b)} ==> Enabled(Next(s, a), Acquire(c))
    ensures forall a :: a in {Fail(b), Drop(b)} && (s.cached.None? || s.cached.value.completedBuilds <= s.calls[c].arrivedAfter) ==>
      Next(Next(s, a), Acquire(c)).calls[c].phase.Building?
  {
    assert CallValid(s, b, s.calls[b]) && CallValid(s, c, s.calls[c]);
  }

  // ---- Was the build started after the caller arrived? -----------------------

  /** If the call has returned, its snapshot was started after it arrived. */
  predicate FreshIfReturned(s: Sys, c: Caller) {
    c in s.calls && s.calls[c].phase.Returned? ==> s.calls[c].phase.build.startedAt > s.calls[c].arrivedAt
  }

  ghost predicate AlwaysFresh(s: Sys, c: Caller) {
    forall actions :: Schedule(s, actions) ==> FreshIfReturned(After(s, actions), c)
  }

  /** A call keeps the arrival it recorded. */
  lemma {:induction false} ArrivalIsKept(s: Sys, actions: seq<Action>, c: Caller)
    requires Schedule(s, actions) && c in s.calls
    ensures c in After(s, actions).calls
    ensures After(s, actions).calls[c].duringBuild == s.calls[c].duringBuild
    ensures After(s, actions).calls[c].arrivedAt == s.calls[c].arrivedAt
    decreases actions
  {
    if actions != [] {
      assert c in Next(s, actions[0]).calls;
      ArrivalIsKept(Next(s, actions[0]), actions[1..], c);
    }
  }

  /** A running build that completes next is shared with a caller that arrived while it ran. */
  lemma RunningBuildIsShared(s: Sys, c: Caller)
    requires Inv(s) && BuildRunning(s) && c !in s.calls
    ensures var b := s.holder.value; var share := [Arrive(c), Complete(b), Store(b), Acquire(c)];
      Schedule(s, share) && !FreshIfReturned(After(s, share), c)
  {
    var b := s.holder.value;
    assert CallValid(s, b, s.calls[b]);
    var s1 := Next(s, Arrive(c));
    var s2 := Next(s1, Complete(b));
    var s3 := Next(s2, Store(b));
    var s4 := Next(s3, Acquire(c));
    hide Inv, CallValid, TablesValid;
    var share := [Arrive(c), Complete(b), Store(b), Acquire(c)];
    assert share[1..] == [Complete(b), Store(b), Acquire(c)] && share[1..][1..] == [Store(b), Acquire(c)];
    assert [Store(b), Acquire(c)][1..] == [Acquire(c)] && [Acquire(c)][1..] == [];
    assert s4.calls[c].phase.Returned?;
    hide Next, Enabled;
    assert Schedule(s4, []) && After(s4, []) == s4;
    assert Schedule(s3, [Acquire(c)]) && After(s3, [Acquire(c)]) == s4;
    assert Schedule(s2, [Store(b), Acquire(c)]) && After(s2, [Store(b), Acquire(c)]) == s4;
    assert Schedule(s1, share[1..]) && After(s1, share[1..]) == s4;
  }

  /** The stronger reading of the contract, exactly: a caller is sure to be given only a build that started after
      it arrived if and only if no build was running when it loaded the counter. */
  lemma FreshIffNoBuildRunning(actions: seq<Action>, c: Caller)
    requires Schedule(INITIAL, actions) && c !in After(INITIAL, actions).calls
    ensures var s := After(INITIAL, actions);
      AlwaysFresh(Next(s, Arrive(c)), c) <==> !BuildRunning(s)
  {
    RunKeepsInv(INITIAL, actions);
    var s := After(INITIAL, actions);
    var t := Next(s, Arrive(c));
    StepKeepsInv(s, Arrive(c));
    hide Inv, After, Schedule;
    if BuildRunning(s) {
      RunningBuildIsShared(s, c);
      var b := s.holder.value;
      SharedTail(s, c, b);
    } else {
      forall more | Schedule(t, more) ensures FreshIfReturned(After(t, more), c) {
        RunKeepsInv(t, more);
        ArrivalIsKept(t, more, c);
        ReturnedIsFresh(After(t, more), c);
      }
    }
  }

  lemma SharedTail(s: Sys, c: Caller, b: Caller)
    requires c !in s.calls && Schedule(s, [Arrive(c), Complete(b), Store(b), Acquire(c)])
    requires !FreshIfReturned(After(s, [Arrive(c), Complete(b), Store(b), Acquire(c)]), c)
    ensures !AlwaysFresh(Next(s, Arrive(c)), c)
  {
    var share := [Arrive(c), Complete(b), Store(b), Acquire(c)];
    assert Schedule(Next(s, share[0]), share[1..]);
    assert After(s, share) == After(Next(s, share[0]), share[1..]);
  }

  lemma ReturnedIsFresh(s: Sys, c: Caller)
    requires Inv(s) && c in s.calls && !s.calls[c].duringBuild
    ensures FreshIfReturned(s, c)
  {
    assert CallValid(s, c, s.calls[c]);
  }
}
