/** Token locks with expiry (app/state.py:51-64) as the webhooks use them: /go holds the briefing lock
    of its task (app/webhooks.py:62-88), cancellation removes the task lock unconditionally
    (app/webhooks.py:277). */
module Locks {
  import opened Wrappers
  import opened Ids

  // Tokens are random; a token drawn is taken to be one never drawn before.
  type Token = nat

  datatype Held = Held(token: Token, until: nat)

  type Keys = map<string, Held>

  const PHASE_TIMEOUT: nat := 600

  /** The value a read of the key finds: none once it has expired. */
  function Stored(keys: Keys, now: nat, key: string): Option<Held> {
    if key in keys && now < keys[key].until then Some(keys[key]) else None
  }

  /** Both keys and clock of the store. */
  class StateStore {
    var keys: Keys
    var now: nat

    constructor ()
      ensures keys == map[] && now == 0
    {
      keys, now := map[], 0;
    }

    /** Set if absent, with expiry. No ttl, or a ttl of 0, means the phase timeout. */
    method AcquireLock(key: string, token: Token, ttl: Option<nat>) returns (got: Option<Token>)
      modifies `keys
      ensures got == if Stored(old(keys), now, key).None? then Some(token) else None
      ensures got.Some? ==> forall t: nat ::
        Stored(keys, t, key).Some? <==> t < now + if ttl in {None, Some(0)} then 600 else ttl.value
      ensures got.Some? ==> Stored(keys, now, key).value.token == token
      ensures got.None? ==> forall t: nat :: Stored(keys, t, key) == Stored(old(keys), t, key)
      ensures forall k, t: nat :: k != key ==> Stored(keys, t, k) == Stored(old(keys), t, k)
      ensures keys == AfterAcquire(old(keys), now, key, token, ttl)
    {
      if Stored(keys, now, key).Some? {
        return None;
      }
      keys := keys[key := Held(token, now + Ttl(ttl))];
      return Some(token);
    }

    /** Deletes the key only if it still holds the token: then it is free at once, and otherwise everything is
        stored as before. */
    method ReleaseLock(key: string, token: Token) returns (removed: bool)
      modifies `keys
      ensures removed <==> Stored(old(keys), now, key).Some? && Stored(old(keys), now, key).value.token == token
      ensures removed ==> forall t: nat :: Stored(keys, t, key).None?
      ensures !removed ==> forall k, t: nat :: Stored(keys, t, k) == Stored(old(keys), t, k)
      ensures forall k, t: nat :: k != key ==> Stored(keys, t, k) == Stored(old(keys), t, k)
      ensures keys == AfterRelease(old(keys), now, key, token)
    {
      var held := Stored(keys, now, key);
      removed := held.Some? && held.value.token == token;
      if removed {
        keys := keys - {key};
      }
    }

    method ForceRelease(key: string)
      modifies `keys
      ensures keys == old(keys) - {key}
    {
      keys := keys - {key};
    }
  }

  function Ttl(ttl: Option<nat>): (t: nat)
    ensures t > 0
  {
    if ttl.Some? && ttl.value > 0 then ttl.value else PHASE_TIMEOUT
  }

  function AfterAcquire(keys: Keys, now: nat, key: string, token: Token, ttl: Option<nat>): Keys {
    if Stored(keys, now, key).None? then keys[key := Held(token, now + Ttl(ttl))] else keys
  }

  function AfterRelease(keys: Keys, now: nat, key: string, token: Token): Keys {
    if Stored(keys, now, key).Some? && Stored(keys, now, key).value.token == token then keys - {key} else keys
  }

  // ---- Any number of clients over time ----

  /** Someone was given the lock: until when, and what has become of it. */
  datatype Grant = Grant(key: string, token: Token, until: nat)

  datatype World = World(keys: Keys, now: nat, drawn: set<Token>, grants: set<Grant>, forced: set<Grant>)

  const START := World(map[], 0, {}, {}, {})

  datatype Event =
    | Acquire(key: string, token: Token, ttl: Option<nat>)
    | Release(key: string, token: Token)
    | Force(key: string)
    | Wait(seconds: nat)

  /** Grants not given back: a release with its token ends a grant, whether or not it is still stored;
      `forced` are those whose key was removed by force since. */
  ghost function Next(w: World, e: Event): World {
    match e
    case Acquire(key, token, ttl) =>
      var grant := Grant(key, token, w.now + Ttl(ttl));
      w.(keys := AfterAcquire(w.keys, w.now, key, token, ttl), drawn := w.drawn + {token},
         grants := if Stored(w.keys, w.now, key).None? then w.grants + {grant} else w.grants)
    case Release(key, token) =>
      w.(keys := AfterRelease(w.keys, w.now, key, token),
         grants := set g | g in w.grants && !(g.key == key && g.token == token))
    case Force(key) =>
      w.(keys := w.keys - {key}, forced := w.forced + set g | g in w.grants && g.key == key)
    case Wait(seconds) => w.(now := w.now + seconds)
  }

  /** Tokens are fresh when drawn. */
  ghost predicate Run(trace: seq<World>, events: seq<Event>) {
    && |trace| == |events| + 1 && trace[0] == START
    && forall i :: 0 <= i < |events| ==>
      && trace[i + 1] == Next(trace[i], events[i])
      && (events[i].Acquire? ==> events[i].token !in trace[i].drawn)
  }

  /** The grant has not been given back and its time is not over. */
  ghost predicate Holds(w: World, g: Grant) { g in w.grants && w.now < g.until }

  ghost predicate Inv(w: World) {
    && (forall g :: g in w.grants ==> g.token in w.drawn)
    && (forall k :: k in w.keys ==> w.keys[k].token in w.drawn)
    && (forall g, h :: g in w.grants && h in w.grants && g.token == h.token ==> g == h)
    && (forall g, k :: g in w.grants && k in w.keys && g.token == w.keys[k].token ==> g.key == k)
    && (forall g :: Holds(w, g) && g !in w.forced ==> g.key in w.keys && w.keys[g.key] == Held(g.token, g.until))
  }

  lemma StepKeeps(w: World, e: Event)
    requires Inv(w) && (e.Acquire? ==> e.token !in w.drawn)
    ensures Inv(Next(w, e))
  {
    var w' := Next(w, e);
    assert forall g :: Holds(w', g) && g in w.grants ==> Holds(w, g);
  }

  lemma {:induction false} RunKeeps(trace: seq<World>, events: seq<Event>, i: nat)
    requires Run(trace, events) && i < |trace|
    ensures Inv(trace[i])
  {
    if i > 0 {
      RunKeeps(trace, events, i - 1);
      assert trace[i - 1 + 1] == Next(trace[i - 1], events[i - 1]);
      StepKeeps(trace[i - 1], events[i - 1]);
    }
  }

  /** Two unexpired holders of one key: only if the key of one was removed by force meanwhile. */
  lemma OneHolder(trace: seq<World>, events: seq<Event>, i: nat, g: Grant, h: Grant)
    requires Run(trace, events) && i < |trace|
    requires Holds(trace[i], g) && Holds(trace[i], h) && g.key == h.key && g != h
    ensures g in trace[i].forced || h in trace[i].forced
  {
    RunKeeps(trace, events, i);
  }

  /** A token whose lock has passed to someone else removes nothing. */
  lemma StaleReleaseIsHarmless(trace: seq<World>, events: seq<Event>, i: nat, g: Grant, h: Grant)
    requires Run(trace, events) && i < |events|
    requires Holds(trace[i], h) && h !in trace[i].forced && g.token != h.token
    requires events[i] == Release(g.key, g.token)
    ensures Holds(trace[i + 1], h) && h.key in trace[i + 1].keys && trace[i + 1].keys[h.key] == Held(h.token, h.until)
  {
    RunKeeps(trace, events, i);
    RunKeeps(trace, events, i + 1);
    assert trace[i + 1] == Next(trace[i], events[i]);
  }

  // ---- A lock given back is free ----

  /** Nobody has asked for this key between two points of the run. */
  ghost predicate NobodyAsks(events: seq<Event>, key: string, i: nat, j: nat) {
    i <= j <= |events| && forall k :: i <= k < j ==> !(events[k].Acquire? && events[k].key == key)
  }

  lemma FreeStays(w: World, e: Event, key: string)
    requires !(e.Acquire? && e.key == key) && key !in w.keys
    ensures key !in Next(w, e).keys
  {
  }

  lemma {:induction false} FreeUntilAsked(trace: seq<World>, events: seq<Event>, i: nat, j: nat, key: string)
    requires Run(trace, events) && NobodyAsks(events, key, i, j) && key !in trace[i].keys
    ensures key !in trace[j].keys
  {
    if i < j {
      FreeUntilAsked(trace, events, i, j - 1, key);
      assert trace[j - 1 + 1] == Next(trace[j - 1], events[j - 1]);
      FreeStays(trace[j - 1], events[j - 1], key);
    }
  }

  /** When a holder in time, whose key was not removed by force, gives the lock back, the next one who asks
      gets it, however soon, for the time asked for. */
  lemma ReleasedIsGranted(trace: seq<World>, events: seq<Event>, i: nat, j: nat, g: Grant)
    requires Run(trace, events) && i < j < |events| && NobodyAsks(events, g.key, i + 1, j)
    requires Holds(trace[i], g) && g !in trace[i].forced && events[i] == Release(g.key, g.token)
    requires events[j].Acquire? && events[j].key == g.key
    ensures exists h :: Holds(trace[j + 1], h) && h.key == g.key && h.token == events[j].token && h !in trace[j].grants
    ensures Stored(trace[j + 1].keys, trace[j + 1].now, g.key).Some?
      && Stored(trace[j + 1].keys, trace[j + 1].now, g.key).value.token == events[j].token
  {
    RunKeeps(trace, events, i);
    RunKeeps(trace, events, j);
    assert trace[i + 1] == Next(trace[i], events[i]);
    FreeUntilAsked(trace, events, i + 1, j, g.key);
    assert trace[j + 1] == Next(trace[j], events[j]);
    var h := Grant(g.key, events[j].token, trace[j].now + Ttl(events[j].ttl));
    assert Holds(trace[j + 1], h);
  }

  // ---- The webhooks' use ----

  /** Only cancellation removes keys by force, and only task locks. */
  ghost predicate OnlyCancelForces(events: seq<Event>) {
    forall i :: 0 <= i < |events| && events[i].Force? ==> exists task :: events[i].key == ShowLock(TaskLock(task))
  }

  ghost predicate GoLockUnforced(w: World, task: string) {
    forall g :: g in w.forced ==> g.key != ShowLock(BriefingLock(task))
  }

  lemma StepForces(w: World, e: Event, task: string)
    requires GoLockUnforced(w, task) && (e.Force? ==> exists other :: e.key == ShowLock(TaskLock(other)))
    ensures GoLockUnforced(Next(w, e), task)
  {
    hide ShowLock;
    if e.Force? {
      var other :| e.key == ShowLock(TaskLock(other));
      if e.key == ShowLock(BriefingLock(task)) {
        LocksDiffer(TaskLock(other), BriefingLock(task));
      }
    }
  }

  lemma {:induction false} GoNeverForced(trace: seq<World>, events: seq<Event>, i: nat, task: string)
    requires Run(trace, events) && OnlyCancelForces(events) && i < |trace|
    ensures GoLockUnforced(trace[i], task)
  {
    hide ShowLock;
    if i > 0 {
      assert trace[i - 1 + 1] == Next(trace[i - 1], events[i - 1]);
      hide Next, GoLockUnforced;
      GoNeverForced(trace, events, i - 1, task);
      StepForces(trace[i - 1], events[i - 1], task);
    } else {
      NoneForcedYet(task);
    }
  }

  lemma NoneForcedYet(task: string)
    ensures GoLockUnforced(START, task)
  {
  }

  /** At any time at most one /go of a task is inside its locked section with time left, whatever is
      cancelled meanwhile. */
  lemma OneGoAtATime(trace: seq<World>, events: seq<Event>, i: nat, task: string, g: Grant, h: Grant)
    requires Run(trace, events) && OnlyCancelForces(events) && i < |trace|
    requires Holds(trace[i], g) && Holds(trace[i], h) && g.key == h.key == ShowLock(BriefingLock(task))
    ensures g == h
  {
    GoNeverForced(trace, events, i, task);
    if g != h {
      OneHolder(trace, events, i, g, h);
    }
  }

  /** Without the restriction two clients can hold one key: acquire, force, acquire. */
  lemma ForceBreaksExclusion(key: string) returns (trace: seq<World>, events: seq<Event>, g: Grant, h: Grant)
    ensures Run(trace, events) && Holds(Last(trace), g) && Holds(Last(trace), h) && g.key == h.key == key && g != h
  {
    g, h := Grant(key, 1, Ttl(None)), Grant(key, 2, Ttl(None));
    events := [Acquire(key, 1, None), Force(key), Acquire(key, 2, None)];
    var a := Next(START, events[0]);
    var b := Next(a, events[1]);
    trace := [START, a, b, Next(b, events[2])];
    assert g in a.grants && g in b.grants;
  }
}
