/**
 The Redis lease lock: a key is set if it is absent, with an expiry, and deleted by whoever
 holds the stored token. A job takes the lock, runs its section, and releases.
 */
module LeaseLock {
  import opened Wrappers

  type Key = string
  type Token = nat       // crypto.randomUUID()
  type Millis = nat

  datatype Held = Held(token: Token, expiresAt: Millis)

  type Store = map<Key, Held>

  // What a read of the key sees: an expired value is gone.
  function Stored(store: Store, key: Key, now: Millis): Option<Token> {
    if key in store && now < store[key].expiresAt then Some(store[key].token) else None
  }

  // SET key token EX ttl NX
  function SetIfAbsent(store: Store, key: Key, token: Token, ttlSeconds: nat, now: Millis): Store {
    if Stored(store, key, now).Some? then store else store[key := Held(token, now + ttlSeconds * 1000)]
  }

  // The release script: compare, then delete.
  function CompareAndDelete(store: Store, key: Key, token: Token, now: Millis): Store {
    if Stored(store, key, now) == Some(token) then store - {key} else store
  }

  // A section returns a value or throws; a call under the lock does the same, or skips it.
  datatype Section<T> = Returned(value: T) | Threw(message: string)
  datatype Outcome<T> = Skipped | Ran(section: Section<T>)

  class RedisLockService {
    var store: Store

    constructor ()
      ensures store == map[]
    {
      store := map[];
    }

    method Acquire(key: Key, ttlSeconds: nat, drawn: Token, now: Millis) returns (token: Option<Token>)
      modifies this
      ensures store == SetIfAbsent(old(store), key, drawn, ttlSeconds, now)
      ensures if key in old(store) && now < old(store)[key].expiresAt
              then token == None && store == old(store)
              else token == Some(drawn) && store == old(store)[key := Held(drawn, now + ttlSeconds * 1000)]
    {
      if key in store && now < store[key].expiresAt {
        return None;
      }
      store := store[key := Held(drawn, now + ttlSeconds * 1000)];
      return Some(drawn);
    }

    method Release(key: Key, token: Token, now: Millis)
      modifies this
      ensures store == CompareAndDelete(old(store), key, token, now)
      ensures key in old(store) && old(store)[key].token == token ==> key !in store || store[key].expiresAt <= now
      ensures key in old(store) && old(store)[key].token != token ==> key in store && store[key] == old(store)[key]
      ensures forall k :: k in store ==> k in old(store) && store[k] == old(store)[k]
      ensures forall k :: k in old(store) && k != key ==> k in store
    {
      if key in store && now < store[key].expiresAt && store[key].token == token {
        store := map k | k in store && k != key :: store[k];
      }
    }

    // Run a section under the lock, or skip it. `section` is how the section ends and `meanwhile`
    // what the store has become by then, through other clients; the release follows either way.
    method WithLock<T>(key: Key, ttlSeconds: nat, drawn: Token, now: Millis, meanwhile: Store, ended: Millis, section: Section<T>)
      returns (outcome: Outcome<T>)
      modifies this
      ensures Stored(old(store), key, now).Some? ==> outcome == Skipped && store == old(store)
      ensures Stored(old(store), key, now).None? ==>
        outcome == Ran(section) && store == CompareAndDelete(meanwhile, key, drawn, ended)
      ensures outcome == Skipped <==> key in old(store) && now < old(store)[key].expiresAt
      ensures outcome != Skipped && key in meanwhile && meanwhile[key].token == drawn ==> key !in store || store[key].expiresAt <= ended
      ensures outcome != Skipped && key in meanwhile && meanwhile[key].token != drawn ==> key in store && store[key] == meanwhile[key]
    {
      var token := Acquire(key, ttlSeconds, drawn, now);
      if token.None? {
        return Skipped;
      }
      store := meanwhile;
      Release(key, token.value, ended);
      return Ran(section);
    }
  }

  // ---------- Jobs under the lock, interleaved ----------

  // A job that got the lock. Its section runs until it ends; the release comes afterwards, or
  // never, if the holder crashed.
  datatype Job = Job(key: Key, acquiredAt: Millis, ttlSeconds: nat, ended: bool)

  datatype World = World(now: Millis, store: Store, jobs: map<Token, Job>)

  datatype Action =
    | Acquire(key: Key, ttlSeconds: nat, token: Token)
    | EndSection(token: Token)
    | Release(key: Key, token: Token)

  datatype Step = Step(at: Millis, action: Action)

  // A token is drawn fresh; a job ends its section once, and releases its own key with its own
  // token after that. Redis refuses an expiry of zero.
  predicate CanStep(w: World, s: Step) {
    && w.now <= s.at
    && match s.action
       case Acquire(_, ttl, token) => token !in w.jobs && ttl > 0
       case EndSection(token) => token in w.jobs && !w.jobs[token].ended
       case Release(key, token) => token in w.jobs && w.jobs[token].ended && w.jobs[token].key == key
  }

  function Next(w: World, s: Step): World {
    match s.action
    case Acquire(key, ttl, token) =>
      World(s.at, SetIfAbsent(w.store, key, token, ttl, s.at),
            if Stored(w.store, key, s.at).Some? then w.jobs else w.jobs[token := Job(key, s.at, ttl, false)])
    case EndSection(token) =>
      World(s.at, w.store, if token in w.jobs then w.jobs[token := w.jobs[token].(ended := true)] else w.jobs)
    case Release(key, token) => World(s.at, CompareAndDelete(w.store, key, token, s.at), w.jobs)
  }

  predicate IsRun(w: World, steps: seq<Step>)
    decreases |steps|
  {
    steps != [] ==> CanStep(w, steps[0]) && IsRun(Next(w, steps[0]), steps[1..])
  }

  function Run(w: World, steps: seq<Step>): World
    decreases |steps|
  {
    if steps == [] then w else Run(Next(w, steps[0]), steps[1..])
  }

  const START := World(0, map[], map[])

  function Deadline(j: Job): Millis {
    j.acquiredAt + j.ttlSeconds * 1000
  }

  // The section is running, within the lease.
  predicate HoldsAt(w: World, token: Token, now: Millis) {
    token in w.jobs && !w.jobs[token].ended && now < Deadline(w.jobs[token])
  }

  // A running section within its lease owns the stored value.
  ghost predicate HoldersStored(w: World) {
    forall token :: HoldsAt(w, token, w.now) ==>
      w.jobs[token].key in w.store && w.store[w.jobs[token].key] == Held(token, Deadline(w.jobs[token]))
  }

  // A stored value belongs to a job on its key and expires at that job's deadline.
  ghost predicate StoredByJobs(w: World) {
    forall key :: key in w.store ==>
      && w.store[key].token in w.jobs && w.jobs[w.store[key].token].key == key
      && w.store[key].expiresAt == Deadline(w.jobs[w.store[key].token])
  }

  ghost predicate Inv(w: World) {
    HoldersStored(w) && StoredByJobs(w)
  }

  lemma AcquireKeepsInv(w: World, s: Step)
    requires Inv(w) && CanStep(w, s) && s.action.Acquire?
    ensures Inv(Next(w, s))
  {
    var w' := Next(w, s);
    forall token | HoldsAt(w', token, w'.now)
      ensures w'.jobs[token].key in w'.store && w'.store[w'.jobs[token].key] == Held(token, Deadline(w'.jobs[token]))
    {
      if token in w.jobs { assert HoldsAt(w, token, w.now); }
    }
  }

  lemma ReleaseKeepsInv(w: World, s: Step)
    requires Inv(w) && CanStep(w, s) && s.action.Release?
    ensures Inv(Next(w, s))
  {
    var w' := Next(w, s);
    forall token | HoldsAt(w', token, w'.now)
      ensures w'.jobs[token].key in w'.store && w'.store[w'.jobs[token].key] == Held(token, Deadline(w'.jobs[token]))
    {
      assert HoldsAt(w, token, w.now);
    }
  }

  lemma NextKeepsInv(w: World, s: Step)
    requires Inv(w) && CanStep(w, s)
    ensures Inv(Next(w, s))
  {
    match s.action
    case Acquire(_, _, _) => AcquireKeepsInv(w, s);
    case Release(_, _) => ReleaseKeepsInv(w, s);
    case EndSection(_) =>
      var w' := Next(w, s);
      assert forall token :: HoldsAt(w', token, w'.now) ==> HoldsAt(w, token, w.now);
  }

  lemma {:induction false} RunKeepsInv(w: World, steps: seq<Step>)
    requires Inv(w) && IsRun(w, steps)
    ensures Inv(Run(w, steps))
    decreases |steps|
  {
    if steps != [] {
      NextKeepsInv(w, steps[0]);
      RunKeepsInv(Next(w, steps[0]), steps[1..]);
    }
  }

  // Two sections on one key never run at once, as long as each is within its lease.
  lemma MutualExclusion(steps: seq<Step>, a: Token, b: Token, now: Millis)
    requires IsRun(START, steps) && Run(START, steps).now <= now
    ensures var w := Run(START, steps);
            HoldsAt(w, a, now) && HoldsAt(w, b, now) && w.jobs[a].key == w.jobs[b].key ==> a == b
  {
    RunKeepsInv(START, steps);
    var w := Run(START, steps);
    assert HoldsAt(w, a, now) ==> HoldsAt(w, a, w.now);
    assert HoldsAt(w, b, now) ==> HoldsAt(w, b, w.now);
  }

  // Every section running now is within its lease.
  ghost predicate InTime(w: World, now: Millis) {
    forall token :: token in w.jobs && !w.jobs[token].ended ==> now < Deadline(w.jobs[token])
  }

  // If every section ends within its lease, sections on one key never overlap.
  lemma NoOverlap(steps: seq<Step>, a: Token, b: Token)
    requires IsRun(START, steps) && InTime(Run(START, steps), Run(START, steps).now)
    ensures var w := Run(START, steps);
            a in w.jobs && b in w.jobs && !w.jobs[a].ended && !w.jobs[b].ended && w.jobs[a].key == w.jobs[b].key ==> a == b
  {
    MutualExclusion(steps, a, b, Run(START, steps).now);
  }

  // The condition is needed: a section that outlives its lease meets the next holder.
  lemma OverlapPastDeadline(key: Key, ttl: nat)
    requires ttl > 0
    ensures var steps := [Step(0, Action.Acquire(key, ttl, 1)), Step(ttl * 1000, Action.Acquire(key, ttl, 2))];
            IsRun(START, steps)
            && var w := Run(START, steps);
               1 in w.jobs && 2 in w.jobs && !w.jobs[1].ended && !w.jobs[2].ended && w.jobs[1].key == w.jobs[2].key
  {
    var s1, s2 := Step(0, Action.Acquire(key, ttl, 1)), Step(ttl * 1000, Action.Acquire(key, ttl, 2));
    var steps := [s1, s2];
    assert steps[1..] == [s2] && [s2][1..] == [];
    assert IsRun(Next(START, s1), [s2]);
    assert Run(Next(START, s1), [s2]) == Next(Next(START, s1), s2);
  }

  // ---------- When do sections overlap? ----------

  // The section runs, and no other on its key does.
  ghost predicate RunsAlone(w: World, token: Token) {
    && token in w.jobs && !w.jobs[token].ended
    && (forall k :: k in w.jobs && !w.jobs[k].ended && w.jobs[k].key == w.jobs[token].key ==> k == token)
  }

  predicate NeverEnds(steps: seq<Step>, token: Token) {
    forall s :: s in steps ==> s.action != EndSection(token)
  }

  // Whatever the others do up to a time, while the section has not ended, it runs alone.
  ghost predicate AloneUntil(w: World, token: Token, until: Millis) {
    forall steps :: IsRun(w, steps) && NeverEnds(steps, token) && Run(w, steps).now <= until ==>
      RunsAlone(Run(w, steps), token)
  }

  lemma {:induction false} ClockAdvances(w: World, steps: seq<Step>)
    requires IsRun(w, steps)
    ensures w.now <= Run(w, steps).now
    decreases |steps|
  {
    if steps != [] {
      ClockAdvances(Next(w, steps[0]), steps[1..]);
    }
  }

  // Within its lease it stays alone.
  lemma {:induction false} StaysAlone(w: World, steps: seq<Step>, token: Token)
    requires Inv(w) && RunsAlone(w, token) && IsRun(w, steps) && NeverEnds(steps, token)
    requires Run(w, steps).now < Deadline(w.jobs[token])
    ensures RunsAlone(Run(w, steps), token)
    decreases |steps|
  {
    if steps != [] {
      var w' := Next(w, steps[0]);
      NextKeepsInv(w, steps[0]);
      ClockAdvances(w', steps[1..]);
      assert HoldsAt(w, token, w.now) && steps[0] in steps;
      StaysAlone(w', steps[1..], token);
    }
  }

  ghost function FreshToken(jobs: set<Token>): (n: Token)
    ensures forall token :: token in jobs ==> token < n
  {
    if jobs == {} then 0 else
      var token :| token in jobs;
      var n := FreshToken(jobs - {token});
      assert forall k :: k in jobs ==> k == token || k in jobs - {token};
      if n <= token then token + 1 else n
  }

  // At its deadline the next client gets the lock.
  lemma NextHolderOverlaps(w: World, token: Token) returns (steps: seq<Step>)
    requires Inv(w) && RunsAlone(w, token) && w.now < Deadline(w.jobs[token])
    ensures IsRun(w, steps) && NeverEnds(steps, token) && Run(w, steps).now == Deadline(w.jobs[token])
    ensures !RunsAlone(Run(w, steps), token)
  {
    var job, next := w.jobs[token], FreshToken(w.jobs.Keys);
    var s := Step(Deadline(job), Action.Acquire(job.key, 1, next));
    assert HoldsAt(w, token, w.now);
    assert next !in w.jobs && Stored(w.store, job.key, s.at).None?;
    steps := [s];
    assert steps[1..] == [] && Run(w, steps) == Next(w, s);
    assert next in Next(w, s).jobs && !Next(w, s).jobs[next].ended;
  }

  // Exactly when: a section that runs alone within its lease is bound to stay alone up to a time,
  // however late it ends, if and only if that time is before its deadline.
  lemma AloneUntilIff(w: World, token: Token, until: Millis)
    requires Inv(w) && RunsAlone(w, token) && w.now < Deadline(w.jobs[token]) && w.now <= until
    ensures AloneUntil(w, token, until) <==> until < w.jobs[token].acquiredAt + w.jobs[token].ttlSeconds * 1000
  {
    if until < Deadline(w.jobs[token]) {
      forall steps | IsRun(w, steps) && NeverEnds(steps, token) && Run(w, steps).now <= until
        ensures RunsAlone(Run(w, steps), token)
      {
        StaysAlone(w, steps, token);
      }
    } else {
      var steps := NextHolderOverlaps(w, token);
    }
  }

  // A late release takes nothing away from another holder.
  lemma StaleReleaseHarmless(w: World, s: Step, other: Token)
    requires Inv(w) && CanStep(w, s) && s.action.Release?
    requires HoldsAt(w, other, s.at) && other != s.action.token
    ensures HoldsAt(Next(w, s), other, s.at)
    ensures Stored(Next(w, s).store, w.jobs[other].key, s.at) == Some(other)
  {
    assert HoldsAt(w, other, w.now);
  }

  // An attempt succeeds exactly if nothing unexpired is stored for the key; it is then stored, and
  // expires after the lease. Nobody's lock is taken over while a section is within its lease.
  lemma AcquireIff(w: World, key: Key, ttl: nat, token: Token, at: Millis)
    requires Inv(w) && CanStep(w, Step(at, Action.Acquire(key, ttl, token)))
    ensures var w' := Next(w, Step(at, Action.Acquire(key, ttl, token)));
            if key in w.store && at < w.store[key].expiresAt
            then w'.store == w.store && w'.jobs == w.jobs
            else w'.store == w.store[key := Held(token, at + ttl * 1000)] && w'.jobs == w.jobs[token := Job(key, at, ttl, false)]
    ensures (exists j :: HoldsAt(w, j, at) && w.jobs[j].key == key) ==>
      token !in Next(w, Step(at, Action.Acquire(key, ttl, token))).jobs
  {
    if j :| HoldsAt(w, j, at) && w.jobs[j].key == key {
      assert HoldsAt(w, j, w.now);
    }
  }

  // ---------- After a release ----------

  // No step acquires or releases the key.
  predicate KeyUntouched(steps: seq<Step>, key: Key) {
    forall s :: s in steps ==> s.action.EndSection? || s.action.key != key
  }

  lemma {:induction false} UntouchedStays(w: World, steps: seq<Step>, key: Key)
    requires IsRun(w, steps) && KeyUntouched(steps, key)
    ensures key in Run(w, steps).store <==> key in w.store
    ensures key in w.store ==> Run(w, steps).store[key] == w.store[key]
    decreases |steps|
  {
    if steps != [] {
      assert steps[0] in steps;
      UntouchedStays(Next(w, steps[0]), steps[1..], key);
    }
  }

  // Exactly when: after a release the next attempt on the key gets the lock if and only if no other
  // job's unexpired value is stored. In particular it does at once after the holder's own release.
  lemma ReleaseFrees(before: seq<Step>, key: Key, token: Token, released: Millis, mid: seq<Step>, next: Token, ttl: nat, at: Millis)
    requires IsRun(START, before) && CanStep(Run(START, before), Step(released, Action.Release(key, token)))
    requires var w1 := Next(Run(START, before), Step(released, Action.Release(key, token)));
             IsRun(w1, mid) && KeyUntouched(mid, key) && CanStep(Run(w1, mid), Step(at, Action.Acquire(key, ttl, next)))
    ensures var w := Run(START, before);
            var w2 := Run(Next(w, Step(released, Action.Release(key, token))), mid);
            (next in Next(w2, Step(at, Action.Acquire(key, ttl, next))).jobs) <==>
              !(key in w.store && w.store[key].token != token && at < w.store[key].expiresAt)
  {
    var w1 := Next(Run(START, before), Step(released, Action.Release(key, token)));
    UntouchedStays(w1, mid, key);
    ClockAdvances(w1, mid);
  }

  // An undisturbed job takes a free key, holds it while its section runs, and leaves it free.
  lemma JobLeavesKeyFree(w: World, key: Key, ttl: nat, token: Token, start: Millis, ended: Millis, released: Millis)
    requires token !in w.jobs && ttl > 0 && w.now <= start <= ended <= released
    requires key in w.store ==> w.store[key].expiresAt <= start
    ensures var acquire, end, release :=
              Step(start, Action.Acquire(key, ttl, token)), Step(ended, EndSection(token)), Step(released, Action.Release(key, token));
            && CanStep(w, acquire) && CanStep(Next(w, acquire), end) && CanStep(Next(Next(w, acquire), end), release)
            && Next(w, acquire).store == w.store[key := Held(token, start + ttl * 1000)] == Next(Next(w, acquire), end).store
            && var w3 := Next(Next(Next(w, acquire), end), release);
               (key in w3.store ==> w3.store[key].expiresAt <= released) && (forall k :: k != key && k in w.store ==> k in w3.store && w3.store[k] == w.store[k])
  {
  }

  // The holder of a token has crashed: it never releases.
  predicate NeverReleases(steps: seq<Step>, token: Token) {
    forall s :: s in steps ==> !(s.action.Release? && s.action.token == token)
  }

  // No attempt to acquire the key from a time on.
  predicate NoAttemptFrom(steps: seq<Step>, key: Key, from: Millis) {
    forall s :: s in steps && s.action.Acquire? && s.action.key == key ==> s.at < from
  }

  // Without a release the stored value stays as it is, whatever attempts there are before its expiry.
  lemma {:induction false} ValueStays(w: World, steps: seq<Step>, key: Key, token: Token, expiresAt: Millis)
    requires IsRun(w, steps) && key in w.store && w.store[key] == Held(token, expiresAt)
    requires NeverReleases(steps, token) && NoAttemptFrom(steps, key, expiresAt)
    ensures key in Run(w, steps).store && Run(w, steps).store[key] == Held(token, expiresAt)
    decreases |steps|
  {
    if steps != [] {
      assert steps[0] in steps;
      ValueStays(Next(w, steps[0]), steps[1..], key, token, expiresAt);
    }
  }

  // Exactly when: once a holder has crashed, an attempt with none at or after the deadline before
  // it gets the lock if and only if the deadline has come, whatever else happened in between.
  lemma CrashBlocksForLease(before: seq<Step>, token: Token, after: seq<Step>, next: Token, ttl: nat, at: Millis)
    requires IsRun(START, before) && IsRun(Run(START, before), after)
    requires var w := Run(START, before);
             && token in w.jobs && Stored(w.store, w.jobs[token].key, w.now) == Some(token)
             && NeverReleases(after, token) && NoAttemptFrom(after, w.jobs[token].key, Deadline(w.jobs[token]))
    requires CanStep(Run(Run(START, before), after), Step(at, Action.Acquire(Run(START, before).jobs[token].key, ttl, next)))
    ensures next in Next(Run(Run(START, before), after), Step(at, Action.Acquire(Run(START, before).jobs[token].key, ttl, next))).jobs
       <==> Run(START, before).jobs[token].acquiredAt + Run(START, before).jobs[token].ttlSeconds * 1000 <= at
  {
    var w := Run(START, before);
    RunKeepsInv(START, before);
    ValueStays(w, after, w.jobs[token].key, token, Deadline(w.jobs[token]));
  }
}
