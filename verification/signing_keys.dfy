/**
 * The signing-key cache of the bearer check (`SigningKeys` and the background refresh of `AuthState::new`,
 * backend/src/auth.rs).
 *
 * Lookups and background refreshes are tasks that interleave at every await point and may be dropped there. Time is
 * an abstract clock in milliseconds that never goes back. `starts` and `loads` record the refreshes for
 * the statements.
 */
module SigningKeys {
  import opened Wrappers

  const REFRESH_COOLDOWN := 30 * 1000
  const CACHE_TTL := 60 * 60 * 1000

  type TaskId = nat
  type Kid = string
  type Key = nat
  type KeySet = map<Kid, Key>

  datatype Cache = Cache(loadedAt: nat, keys: KeySet)

  datatype RefreshAttempt = RefreshAttempt(at: nat, succeeded: bool)

  /** How a task ended. `Missing` is the "jwks missing key id" error, `Unavailable` the other one. */
  datatype Outcome =
    | Found(key: Key, loadedAt: nat, readAt: nat)
    | Missing(cache: Cache, readAt: nat)
    | Unavailable
    | Refreshed
    | Skipped
    | Dropped

  datatype Phase =
    | Arrived                 // before the lock-free read
    | Queued                  // waiting for the refresh lock
    | Rechecking              // lock held: second read
    | Deciding                // lock held: cooldown test
    | Judging                 // lock held: is the cache usable?
    | Fetching                // lock held: request in flight
    | Storing(cache: Cache)   // lock held: the new cache, stamped, waits for the cache lock
    | Rereading               // lock held: last read
    | Done(outcome: Outcome)

  /** A lookup of `kid`, or a background refresh when there is none. */
  datatype Task = Task(kid: Option<Kid>, phase: Phase)

  datatype Sys = Sys(
    now: nat,
    cache: Option<Cache>,
    last: Option<RefreshAttempt>,
    holder: Option<TaskId>,
    tasks: map<TaskId, Task>,
    starts: seq<nat>,
    loads: set<Cache>)

  const INITIAL := Sys(0, None, None, None, map[], [], {})

  datatype Action =
    | Pass(d: nat)                       // time passes
    | Spawn(t: TaskId, kid: Option<Kid>) // a lookup, or a background tick
    | Read(t: TaskId)                    // one read of the cache, by the task's phase
    | Lock(t: TaskId)
    | Decide(t: TaskId)
    | Receive(t: TaskId, keys: KeySet)   // the request succeeds with at least one usable key
    | Fail(t: TaskId)                    // the request, its status or its payload is bad
    | Store(t: TaskId)
    | Drop(t: TaskId)

  predicate HoldsLock(p: Phase) {
    p.Rechecking? || p.Deciding? || p.Judging? || p.Fetching? || p.Storing? || p.Rereading?
  }

  predicate Reads(p: Phase) {
    p.Arrived? || p.Rechecking? || p.Judging? || p.Rereading?
  }

  predicate Enabled(s: Sys, a: Action) {
    match a
    case Pass(_) => true
    case Spawn(t, _) => t !in s.tasks
    case Read(t) => t in s.tasks && Reads(s.tasks[t].phase) && s.tasks[t].kid.Some?
    case Lock(t) => t in s.tasks && s.tasks[t].phase.Queued? && s.holder.None?
    case Decide(t) => t in s.tasks && s.tasks[t].phase.Deciding?
    case Receive(t, keys) => t in s.tasks && s.tasks[t].phase.Fetching? && keys != map[]
    case Fail(t) => t in s.tasks && s.tasks[t].phase.Fetching?
    case Store(t) => t in s.tasks && s.tasks[t].phase.Storing?
    case Drop(t) => t in s.tasks && !s.tasks[t].phase.Done?
  }

  predicate Usable(cache: Option<Cache>, now: nat) {
    cache.Some? && now - cache.value.loadedAt < CACHE_TTL
  }

  /** `find_cached_key` */
  function CachedKey(cache: Option<Cache>, now: nat, kid: Kid): Option<Key> {
    if Usable(cache, now) && kid in cache.value.keys then Some(cache.value.keys[kid]) else None
  }

  predicate Cooling(last: Option<RefreshAttempt>, now: nat) {
    last.Some? && now - last.value.at < REFRESH_COOLDOWN
  }

  /** The task moves to `p`; finishing gives the lock back. */
  function Move(s: Sys, t: TaskId, p: Phase): Sys
    requires t in s.tasks
  {
    s.(tasks := s.tasks[t := s.tasks[t].(phase := p)],
       holder := if HoldsLock(p) then Some(t) else if s.holder == Some(t) then None else s.holder)
  }

  function FoundHere(s: Sys, kid: Kid): Phase
    requires CachedKey(s.cache, s.now, kid).Some?
  {
    Done(Found(s.cache.value.keys[kid], s.cache.value.loadedAt, s.now))
  }

  /** What one read of the cache makes of a lookup in phase `p`. */
  function AfterRead(s: Sys, p: Phase, kid: Kid): Phase
    requires Reads(p)
  {
    if p.Judging? then
      if Usable(s.cache, s.now) then Done(Missing(s.cache.value, s.now)) else Done(Unavailable)
    else if CachedKey(s.cache, s.now, kid).Some? then FoundHere(s, kid)
    else if p.Arrived? then Queued
    else if p.Rechecking? then Deciding
    else if s.cache.Some? then Done(Missing(s.cache.value, s.now))
    else Done(Unavailable)
  }

  /** Cooling down: a lookup reports, a background refresh skips. Otherwise the refresh starts now. */
  function AfterDecide(s: Sys, t: TaskId): Sys
    requires t in s.tasks
  {
    if Cooling(s.last, s.now) then
      Move(s, t, if s.tasks[t].kid.None? then Done(Skipped)
                 else if s.last.value.succeeded then Judging else Done(Unavailable))
    else
      Move(s, t, Fetching).(last := Some(RefreshAttempt(s.now, false)), starts := s.starts + [s.now])
  }

  function Next(s: Sys, a: Action): Sys
    requires Enabled(s, a)
  {
    match a
    case Pass(d) => s.(now := s.now + d)
    case Spawn(t, kid) => s.(tasks := s.tasks[t := Task(kid, if kid.Some? then Arrived else Queued)])
    case Read(t) => Move(s, t, AfterRead(s, s.tasks[t].phase, s.tasks[t].kid.value))
    case Lock(t) => Move(s, t, if s.tasks[t].kid.Some? then Rechecking else Deciding)
    case Decide(t) => AfterDecide(s, t)
    case Receive(t, keys) => Move(s, t, Storing(Cache(s.now, keys)))
    case Fail(t) => Move(s, t, Done(Unavailable))
    case Store(t) =>
      var cache := s.tasks[t].phase.cache;
      Move(s, t, if s.tasks[t].kid.Some? then Rereading else Done(Refreshed))
        .(cache := Some(cache),
          last := if s.last.Some? then Some(s.last.value.(succeeded := true)) else None,
          loads := s.loads + {cache})
    case Drop(t) => Move(s, t, Done(Dropped))
  }

  // ---- Invariant -------------------------------------------------------------

  /** A lookup past its second read found no usable key, and nobody replaced the cache since. */
  predicate NotCached(s: Sys, kid: Kid) {
    CachedKey(s.cache, s.now, kid).None?
  }

  predicate OutcomeValid(s: Sys, kid: Option<Kid>, o: Outcome) {
    match o
    case Found(key, loadedAt, readAt) =>
      && kid.Some? && loadedAt <= readAt < loadedAt + CACHE_TTL
      && exists c :: c in s.loads && c.loadedAt == loadedAt && kid.value in c.keys && c.keys[kid.value] == key
    case Missing(cache, readAt) =>
      && kid.Some? && cache in s.loads
      && (kid.value !in cache.keys || readAt >= cache.loadedAt + CACHE_TTL)
    case _ => true
  }

  predicate TaskValid(s: Sys, t: TaskId, task: Task) {
    && (HoldsLock(task.phase) <==> s.holder == Some(t))
    && (Reads(task.phase) ==> task.kid.Some?)
    && match task.phase
       case Deciding => task.kid.Some? ==> NotCached(s, task.kid.value)
       case Judging => NotCached(s, task.kid.value)
       case Fetching => s.last.Some? && !s.last.value.succeeded
       case Storing(cache) => cache.loadedAt <= s.now && cache.keys != map[] && s.last.Some? && !s.last.value.succeeded
       case Rereading => s.cache.Some?
       case Done(outcome) => OutcomeValid(s, task.kid, outcome)
       case _ => true
  }

  predicate TablesValid(s: Sys) {
    && (s.holder.Some? ==> s.holder.value in s.tasks)
    && (forall i :: 0 <= i < |s.starts| ==> s.starts[i] <= s.now)
    && (forall i, j :: 0 <= i < j < |s.starts| ==> s.starts[j] - s.starts[i] >= REFRESH_COOLDOWN)
    && (s.starts == [] <==> s.last.None?)
    && (s.starts != [] ==> s.last.value.at == s.starts[|s.starts| - 1])
    && (s.cache.Some? ==> s.cache.value in s.loads)
    && (forall c :: c in s.loads ==> c.loadedAt <= s.now && c.keys != map[])
    && (s.loads == {} <==> s.cache.None?)
  }

  predicate Inv(s: Sys) {
    TablesValid(s) && forall t :: t in s.tasks ==> TaskValid(s, t, s.tasks[t])
  }

  lemma StepKeepsTables(s: Sys, a: Action)
    requires Inv(s) && Enabled(s, a)
    ensures TablesValid(Next(s, a))
  {
    hide TaskValid, AfterRead;
    if a.Store? {
      StoringKeys(s, a.t);
    } else if a.Decide? {
      assert s.starts != [] && !Cooling(s.last, s.now) ==> s.now - s.starts[|s.starts| - 1] >= REFRESH_COOLDOWN;
    }
  }

  lemma StoringKeys(s: Sys, t: TaskId)
    requires Inv(s) && t in s.tasks && s.tasks[t].phase.Storing?
    ensures s.tasks[t].phase.cache.loadedAt <= s.now && s.tasks[t].phase.cache.keys != map[] && s.last.Some?
  {
    assert TaskValid(s, t, s.tasks[t]);
  }

  lemma OwnTaskStep(s: Sys, a: Action)
    requires Inv(s) && Enabled(s, a) && !a.Pass?
    ensures a.t in Next(s, a).tasks && TaskValid(Next(s, a), a.t, Next(s, a).tasks[a.t])
  {
    if a.t in s.tasks {
      assert TaskValid(s, a.t, s.tasks[a.t]);
    }
  }

  lemma OtherTaskStep(s: Sys, a: Action, t: TaskId)
    requires Inv(s) && Enabled(s, a) && t in s.tasks && (a.Pass? || a.t != t)
    ensures t in Next(s, a).tasks && TaskValid(Next(s, a), t, Next(s, a).tasks[t])
  {
    assert TaskValid(s, t, s.tasks[t]);
    if !a.Pass? && a.t in s.tasks {
      assert TaskValid(s, a.t, s.tasks[a.t]);
    }
    hide TablesValid;
  }

  lemma StepKeepsTask(s: Sys, a: Action, t: TaskId)
    requires Inv(s) && Enabled(s, a) && t in Next(s, a).tasks
    ensures TaskValid(Next(s, a), t, Next(s, a).tasks[t])
  {
    hide Inv, TaskValid;
    if !a.Pass? && a.t == t {
      OwnTaskStep(s, a);
    } else {
      OtherTaskStep(s, a, t);
    }
  }

  lemma StepKeepsInv(s: Sys, a: Action)
    requires Inv(s) && Enabled(s, a)
    ensures Inv(Next(s, a))
  {
    StepKeepsTables(s, a);
    forall t | t in Next(s, a).tasks ensures TaskValid(Next(s, a), t, Next(s, a).tasks[t]) {
      StepKeepsTask(s, a, t);
    }
  }

  // ---- Over every interleaving -----------------------------------------------

  ghost predicate Schedule(s: Sys, actions: seq<Action>)
    decreases actions
  {
    actions != [] ==> Enabled(s, actions[0]) && Schedule(Next(s, actions[0]), actions[1..])
  }

  ghost function After(s: Sys, actions: seq<Action>): Sys
    requires Schedule(s, actions)
    decreases actions
  {
    if actions == [] then s else After(Next(s, actions[0]), actions[1..])
  }

  lemma {:induction false} RunKeepsInv(s: Sys, actions: seq<Action>)
    requires Inv(s) && Schedule(s, actions)
    ensures Inv(After(s, actions))
    decreases actions
  {
    hide Inv, Next, Enabled;
    if actions != [] {
      StepKeepsInv(s, actions[0]);
      RunKeepsInv(Next(s, actions[0]), actions[1..]);
    }
  }

  /** Refreshes start at least the cooldown apart and run one at a time. */
  lemma RefreshesAreSpaced(actions: seq<Action>)
    requires Schedule(INITIAL, actions)
    ensures var s := After(INITIAL, actions);
      && (forall i, j :: 0 <= i < j < |s.starts| ==> s.starts[j] - s.starts[i] >= REFRESH_COOLDOWN)
      && (forall t, u :: t in s.tasks && u in s.tasks && s.tasks[t].phase.Fetching? && s.tasks[u].phase.Fetching? ==> t == u)
  {
    RunKeepsInv(INITIAL, actions);
    var s := After(INITIAL, actions);
    hide After, Schedule;
    forall t | t in s.tasks ensures TaskValid(s, t, s.tasks[t]) {
    }
  }

  /** A key that is returned comes, under the requested id, from a loaded key set, and was read less than the
      cache lifetime after it was loaded. */
  lemma FoundKeysAreYoung(actions: seq<Action>, t: TaskId)
    requires Schedule(INITIAL, actions)
    requires var s := After(INITIAL, actions);
      t in s.tasks && s.tasks[t].phase.Done? && s.tasks[t].phase.outcome.Found?
    ensures var s := After(INITIAL, actions); var Found(key, loadedAt, readAt) := s.tasks[t].phase.outcome;
      && s.tasks[t].kid.Some?
      && loadedAt <= readAt < loadedAt + CACHE_TTL
      && exists c :: c in s.loads && c.loadedAt == loadedAt && s.tasks[t].kid.value in c.keys
                     && c.keys[s.tasks[t].kid.value] == key
  {
    RunKeepsInv(INITIAL, actions);
    var s := After(INITIAL, actions);
    assert TaskValid(s, t, s.tasks[t]);
  }

  /** A lookup finds its key whenever it reads a cache that is young enough and holds it: at once, after waiting for the
      lock, and after the refresh it made. */
  lemma CachedKeyIsFound(s: Sys, t: TaskId, kid: Kid)
    requires Enabled(s, Read(t)) && s.tasks[t].kid == Some(kid) && !s.tasks[t].phase.Judging?
    requires s.cache.Some? && s.now < s.cache.value.loadedAt + 3_600_000 && kid in s.cache.value.keys
    ensures Next(s, Read(t)).tasks[t].phase == Done(Found(s.cache.value.keys[kid], s.cache.value.loadedAt, s.now))
  {
  }

  /** Keys that just arrived are found by the lookup that fetched them, unless it waited an hour to store and read them. */
  lemma FetchedKeyIsFound(s: Sys, t: TaskId, kid: Kid)
    requires Inv(s) && t in s.tasks && s.tasks[t].phase.Storing? && s.tasks[t].kid == Some(kid)
    requires kid in s.tasks[t].phase.cache.keys && s.now < s.tasks[t].phase.cache.loadedAt + 3_600_000
    ensures var stored := Next(s, Store(t)); var fetched := s.tasks[t].phase.cache;
      && Enabled(stored, Read(t))
      && Next(stored, Read(t)).tasks[t].phase == Done(Found(fetched.keys[kid], fetched.loadedAt, s.now))
  {
    assert TaskValid(s, t, s.tasks[t]);
  }

  /** A lookup gives up as unavailable only when its request failed, when it is still cooling down from one that failed, or
      when it is cooling down from one that succeeded and the cache is no longer usable. */
  lemma UnavailableOnlyIf(s: Sys, a: Action, t: TaskId)
    requires Inv(s) && Enabled(s, a) && t in Next(s, a).tasks && Next(s, a).tasks[t].phase == Done(Unavailable)
    requires t in s.tasks ==> s.tasks[t].phase != Done(Unavailable)
    ensures t in s.tasks
    ensures
      || a == Fail(t)
      || (a == Decide(t) && s.last.Some? && s.now < s.last.value.at + 30_000 && !s.last.value.succeeded)
      || (a == Read(t) && s.tasks[t].phase.Judging? && (s.cache.None? || s.now >= s.cache.value.loadedAt + 3_600_000))
  {
    if t in s.tasks {
      assert TaskValid(s, t, s.tasks[t]);
    }
  }

  /** A refresh that is running counts as failed until its keys are stored, so a lookup that decides within the cooldown
      of a failed one is refused, and within that of a stored one is judged by the cache. */
  lemma OutcomeIsRemembered(s: Sys, t: TaskId)
    requires Inv(s) && t in s.tasks
    ensures s.tasks[t].phase.Fetching? ==>
      Next(s, Fail(t)).last == Next(s, Drop(t)).last == Some(RefreshAttempt(s.last.value.at, false))
    ensures s.tasks[t].phase.Storing? ==>
      && Next(s, Drop(t)).last == Some(RefreshAttempt(s.last.value.at, false))
      && Next(s, Store(t)).last == Some(RefreshAttempt(s.last.value.at, true))
      && Next(s, Store(t)).cache == Some(s.tasks[t].phase.cache)
  {
    assert TaskValid(s, t, s.tasks[t]);
  }

  lemma CoolingLookup(s: Sys, t: TaskId)
    requires Enabled(s, Decide(t)) && s.tasks[t].kid.Some? && s.last.Some? && s.now < s.last.value.at + 30_000
    ensures Next(s, Decide(t)).tasks[t].phase == if s.last.value.succeeded then Judging else Done(Unavailable)
  {
  }

  /** Deciding, a task starts a request exactly when the last one started at least the cooldown ago. */
  lemma RefreshStartsIffCooledDown(s: Sys, t: TaskId)
    requires Enabled(s, Decide(t))
    ensures Next(s, Decide(t)).tasks[t].phase.Fetching? <==> (s.last.None? || s.now >= s.last.value.at + 30_000)
    ensures Next(s, Decide(t)).tasks[t].phase.Fetching? ==> Next(s, Decide(t)).last == Some(RefreshAttempt(s.now, false))
    ensures Next(s, Decide(t)).starts == if Next(s, Decide(t)).tasks[t].phase.Fetching? then s.starts + [s.now] else s.starts
    ensures !Next(s, Decide(t)).tasks[t].phase.Fetching? && s.tasks[t].kid.None? ==>
      Next(s, Decide(t)).tasks[t].phase == Done(Skipped)
  {
  }

  /** Whatever was cached when a lookup arrived, an hour later it is not served: the lookup waits for the lock. */
  lemma OldKeyIsNotServed(s: Sys, t: TaskId, kid: Kid, d: nat)
    requires Inv(s) && t !in s.tasks && d >= 3_600_000
    ensures Enabled(s, Spawn(t, Some(kid)))
    ensures var arrived := Next(s, Spawn(t, Some(kid)));
      && Enabled(arrived, Pass(d))
      && var later := Next(arrived, Pass(d));
         later.now == s.now + d && Enabled(later, Read(t)) && Next(later, Read(t)).tasks[t].phase == Queued
  {
  }

  // ---- Nobody is stuck --------------------------------------------------------

  function Distance(p: Phase): nat {
    match p
    case Arrived => 8
    case Queued => 7
    case Rechecking => 6
    case Deciding => 5
    case Judging => 4
    case Fetching => 4
    case Storing(_) => 3
    case Rereading => 2
    case Done(_) => 0
  }

  /** The task whose move brings `t` forward: the holder of the lock while `t` waits for it, otherwise `t` itself. */
  function Mover(s: Sys, t: TaskId): (m: TaskId)
    requires Inv(s) && t in s.tasks
    ensures m in s.tasks
  {
    if s.tasks[t].phase.Queued? && s.holder.Some? then s.holder.value else t
  }

  /** The move of an unfinished task; its request, if one is out, is answered with `keys`, or fails. */
  function Forward(s: Sys, t: TaskId, keys: KeySet): Action
    requires t in s.tasks
  {
    match s.tasks[t].phase
    case Queued => Lock(t)
    case Deciding => Decide(t)
    case Fetching => if keys == map[] then Fail(t) else Receive(t, keys)
    case Storing(_) => Store(t)
    case _ => Read(t)
  }

  lemma MoverMoves(s: Sys, t: TaskId, keys: KeySet)
    requires Inv(s) && t in s.tasks && !s.tasks[t].phase.Done?
    ensures var m := Mover(s, t);
      && !s.tasks[m].phase.Done? && Enabled(s, Drop(m)) && Enabled(s, Forward(s, m, keys))
      && var after := Next(s, Forward(s, m, keys));
         && Distance(after.tasks[m].phase) < Distance(s.tasks[m].phase)
         && (m != t ==> after.tasks[t] == s.tasks[t] && after.holder in {Some(m), None})
  {
    assert TaskValid(s, t, s.tasks[t]);
    assert TaskValid(s, Mover(s, t), s.tasks[Mover(s, t)]);
  }

  /** Wherever the interleaving stands, every lookup and every refresh in flight can be brought to its end by moves of that
      task and of the one holding the refresh lock, whether the requests are answered with `keys` or fail. */
  lemma {:induction false} EveryTaskCanFinish(s: Sys, t: TaskId, keys: KeySet) returns (actions: seq<Action>)
    requires Inv(s) && t in s.tasks
    ensures forall a :: a in actions ==> !a.Pass? && !a.Spawn? && !a.Drop? && (a.t == t || s.holder == Some(a.t))
    ensures Schedule(s, actions) && t in After(s, actions).tasks && After(s, actions).tasks[t].phase.Done?
    decreases Distance(s.tasks[t].phase), if s.holder.Some? && s.holder != Some(t) then Distance(s.tasks[Mover(s, t)].phase) else 0
  {
    actions := [];
    if !s.tasks[t].phase.Done? {
      MoverMoves(s, t, keys);
      var a := Forward(s, Mover(s, t), keys);
      var next := Next(s, a);
      StepKeepsInv(s, a);
      var rest := EveryTaskCanFinish(next, t, keys);
      actions := [a] + rest;
      assert actions[1..] == rest;
    }
  }

  /** "Missing key id" is only said of a loaded key set that lacks the id, or that outlived the cache lifetime
      before the last read of the call that loaded it. */
  lemma MissingIsTruthful(actions: seq<Action>, t: TaskId)
    requires Schedule(INITIAL, actions)
    requires var s := After(INITIAL, actions);
      t in s.tasks && s.tasks[t].phase.Done? && s.tasks[t].phase.outcome.Missing?
    ensures var s := After(INITIAL, actions); var Missing(cache, readAt) := s.tasks[t].phase.outcome;
      && s.tasks[t].kid.Some? && cache in s.loads
      && (s.tasks[t].kid.value !in cache.keys || readAt >= cache.loadedAt + CACHE_TTL)
  {
    RunKeepsInv(INITIAL, actions);
    var s := After(INITIAL, actions);
    assert TaskValid(s, t, s.tasks[t]);
  }

  /** The request is on its way, or its keys wait to replace the cache. */
  predicate Refreshing(p: Phase) {
    p.Fetching? || p.Storing?
  }

  predicate PastRefresh(p: Phase) {
    p.Rereading? || p.Done?
  }

  lemma {:induction false} NeverRefreshesAgain(s: Sys, actions: seq<Action>, t: TaskId)
    requires Schedule(s, actions) && t in s.tasks && PastRefresh(s.tasks[t].phase)
    ensures t in After(s, actions).tasks && PastRefresh(After(s, actions).tasks[t].phase)
    decreases actions
  {
    if actions != [] {
      NeverRefreshesAgain(Next(s, actions[0]), actions[1..], t);
    }
  }

  /** While a refresh is in flight, up to the moment it replaces the cache itself, nothing else does. */
  lemma {:induction false} FetchingFreezesCache(s: Sys, actions: seq<Action>, t: TaskId)
    requires Inv(s) && Schedule(s, actions) && t in s.tasks && Refreshing(s.tasks[t].phase)
    requires t in After(s, actions).tasks && Refreshing(After(s, actions).tasks[t].phase)
    ensures After(s, actions).cache == s.cache
    decreases actions
  {
    if actions != [] {
      var a, s' := actions[0], Next(s, actions[0]);
      StepKeepsInv(s, a);
      RefreshStep(s, a, t);
      hide Inv, Next, Enabled;
      if PastRefresh(s'.tasks[t].phase) {
        NeverRefreshesAgain(s', actions[1..], t);
      } else {
        FetchingFreezesCache(s', actions[1..], t);
      }
    }
  }

  lemma RefreshStep(s: Sys, a: Action, t: TaskId)
    requires Inv(s) && Enabled(s, a) && t in s.tasks && Refreshing(s.tasks[t].phase)
    ensures t in Next(s, a).tasks
    ensures PastRefresh(Next(s, a).tasks[t].phase) || (Refreshing(Next(s, a).tasks[t].phase) && Next(s, a).cache == s.cache)
  {
    assert TaskValid(s, t, s.tasks[t]);
    if !a.Pass? && a.t in s.tasks {
      assert TaskValid(s, a.t, s.tasks[a.t]);
    }
    hide TablesValid;
  }

  /** A refresh that fails, or whose caller goes away before the keys it received are stored, leaves the cached keys as
      they were when it started. */
  lemma FailedRefreshKeepsCache(s: Sys, actions: seq<Action>, t: TaskId)
    requires Inv(s) && Enabled(s, Decide(t)) && !Cooling(s.last, s.now)
    requires Schedule(Next(s, Decide(t)), actions)
    requires var u := After(Next(s, Decide(t)), actions); t in u.tasks && Refreshing(u.tasks[t].phase)
    ensures var u := After(Next(s, Decide(t)), actions);
      && (Enabled(u, Fail(t)) ==> Next(u, Fail(t)).cache == s.cache)
      && Enabled(u, Drop(t)) && Next(u, Drop(t)).cache == s.cache
  {
    StepKeepsInv(s, Decide(t));
    FetchingFreezesCache(Next(s, Decide(t)), actions, t);
  }

  /** The same from the start of the program: whatever ran before the refresh and whatever runs during it. */
  lemma EveryFailedRefreshKeepsCache(before: seq<Action>, during: seq<Action>, t: TaskId)
    requires Schedule(INITIAL, before)
    requires var s := After(INITIAL, before);
      Enabled(s, Decide(t)) && !Cooling(s.last, s.now) && Schedule(Next(s, Decide(t)), during)
    requires var u := After(Next(After(INITIAL, before), Decide(t)), during); t in u.tasks && Refreshing(u.tasks[t].phase)
    ensures var s := After(INITIAL, before); var u := After(Next(s, Decide(t)), during);
      && u.cache == s.cache
      && (Enabled(u, Fail(t)) ==> Next(u, Fail(t)).cache == s.cache)
      && Enabled(u, Drop(t)) && Next(u, Drop(t)).cache == s.cache
  {
    RunKeepsInv(INITIAL, before);
    var s := After(INITIAL, before);
    StepKeepsInv(s, Decide(t));
    FailedRefreshKeepsCache(s, during, t);
    FetchingFreezesCache(Next(s, Decide(t)), during, t);
  }
}
