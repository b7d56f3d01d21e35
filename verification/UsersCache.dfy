/**
 The shared cache of user profiles: filled on reads, invalidated by the events that writes emit,
 some time after the write.
 */
module UsersCache {
  import opened Wrappers
  import opened Roles

  type UserId = nat

  // The profile fields the cache must agree on; login times are left out.
  datatype Profile = Profile(displayName: string, avatarUrl: Option<string>, roles: seq<Role>, isActive: bool)

  type Profiles = map<UserId, Profile>

  datatype Key = ById(id: UserId) | AllUsers

  datatype Value = One(profile: Profile) | Many(profiles: Profiles)

  // What a read of the table gives for a key; a missing user is not cached.
  function Fresh(users: Profiles, key: Key): Option<Value> {
    match key
    case ById(id) => if id in users then Some(One(users[id])) else None
    case AllUsers => Some(Many(map u | u in users && users[u].isActive :: users[u]))
  }

  datatype Fill = Fill(key: Key, value: Value)

  // Invalidations on their way are counted per key.
  datatype World = World(users: Profiles, cache: map<Key, Value>, pending: multiset<Key>, fills: map<nat, Fill>)

  datatype Step =
    | Save(user: UserId, profile: Profile)      // an update, a change of roles, a deactivation
    | Create(user: UserId, profile: Profile)    // a registration
    | Land(key: Key)                            // an invalidation reaches the cache
    | Evict(key: Key)                           // the entry's time is up, or another instance drops it
    | ReadToFill(req: nat, key: Key)            // after a miss, the table is read
    | SetFill(req: nat)                         // and stores what it read

  // The keys whose invalidation a write sets off.
  function Named(s: Step): multiset<Key> {
    match s
    case Save(user, _) => multiset{ById(user), AllUsers}
    case Create(_, _) => multiset{AllUsers}
    case _ => multiset{}
  }

  predicate CanStep(w: World, s: Step) {
    match s
    case Save(user, _) => user in w.users
    case Create(user, _) => user !in w.users
    case Land(key) => key in w.pending
    case Evict(_) => true
    case ReadToFill(req, key) => req !in w.fills
    case SetFill(req) => req in w.fills
  }

  function Next(w: World, s: Step): World {
    match s
    case Save(user, profile) => w.(users := w.users[user := profile], pending := w.pending + Named(s))
    case Create(user, profile) => w.(users := w.users[user := profile], pending := w.pending + Named(s))
    case Land(key) => w.(cache := w.cache - {key}, pending := w.pending - multiset{key})
    case Evict(key) => w.(cache := w.cache - {key})
    case ReadToFill(req, key) =>
      var value := Fresh(w.users, key);
      if value.None? then w else w.(fills := w.fills[req := Fill(key, value.value)])
    case SetFill(req) =>
      if req !in w.fills then w
      else w.(cache := w.cache[w.fills[req].key := w.fills[req].value], fills := w.fills - {req})
  }

  // No fill of a key is under way when a write names the key.
  predicate FillsApart(w: World, s: Step) {
    forall q :: q in w.fills ==> w.fills[q].key !in Named(s)
  }

  predicate IsRun(w: World, steps: seq<Step>)
    decreases |steps|
  {
    steps != [] ==> CanStep(w, steps[0]) && IsRun(Next(w, steps[0]), steps[1..])
  }

  predicate NoOverlap(w: World, steps: seq<Step>)
    decreases |steps|
  {
    steps != [] ==> FillsApart(w, steps[0]) && NoOverlap(Next(w, steps[0]), steps[1..])
  }

  function Run(w: World, steps: seq<Step>): World
    decreases |steps|
  {
    if steps == [] then w else Run(Next(w, steps[0]), steps[1..])
  }

  // Each cached entry is what the table gives, or an invalidation of it is on its way.
  ghost predicate Coherent(w: World) {
    forall key :: key in w.cache ==> Some(w.cache[key]) == Fresh(w.users, key) || key in w.pending
  }

  ghost predicate FillsFresh(w: World) {
    forall q :: q in w.fills ==> Some(w.fills[q].value) == Fresh(w.users, w.fills[q].key)
  }

  // A write changes what the table gives for the keys it names only.
  lemma WriteTouchesNamed(w: World, s: Step, key: Key)
    requires CanStep(w, s) && key !in Named(s) && Fresh(w.users, key).Some?
    ensures Fresh(Next(w, s).users, key) == Fresh(w.users, key)
  {
  }

  lemma FillsStayFresh(w: World, s: Step)
    requires FillsFresh(w) && CanStep(w, s) && FillsApart(w, s)
    ensures FillsFresh(Next(w, s))
  {
    var w' := Next(w, s);
    forall q | q in w'.fills
      ensures Some(w'.fills[q].value) == Fresh(w'.users, w'.fills[q].key)
    {
      if q in w.fills { WriteTouchesNamed(w, s, w.fills[q].key); }
    }
  }

  lemma StaysCoherent(w: World, s: Step)
    requires Coherent(w) && FillsFresh(w) && CanStep(w, s)
    ensures Coherent(Next(w, s))
  {
    var w' := Next(w, s);
    if s.Save? || s.Create? {
      forall key | key in w'.cache
        ensures Some(w'.cache[key]) == Fresh(w'.users, key) || key in w'.pending
      {
        if key !in Named(s) && Fresh(w.users, key).Some? { WriteTouchesNamed(w, s, key); }
      }
    }
  }

  lemma NextKeeps(w: World, s: Step)
    requires Coherent(w) && FillsFresh(w) && CanStep(w, s) && FillsApart(w, s)
    ensures Coherent(Next(w, s)) && FillsFresh(Next(w, s))
  {
    FillsStayFresh(w, s);
    StaysCoherent(w, s);
  }

  // In every state of a run in which no fill overlaps a write of its key, the cache is coherent.
  lemma {:induction false} CacheCoherence(w: World, steps: seq<Step>)
    requires Coherent(w) && FillsFresh(w) && IsRun(w, steps) && NoOverlap(w, steps)
    ensures Coherent(Run(w, steps)) && FillsFresh(Run(w, steps))
    decreases |steps|
  {
    if steps != [] {
      NextKeeps(w, steps[0]);
      CacheCoherence(Next(w, steps[0]), steps[1..]);
    }
  }

  // A miss left undisturbed stores what the table holds: the user's row, or the active users; a
  // missing user is not stored.
  lemma MissStoresRow(w: World, req: nat, key: Key)
    requires req !in w.fills
    ensures CanStep(w, ReadToFill(req, key))
    ensures var read := Next(w, ReadToFill(req, key));
            if key.ById? && key.id !in w.users then read == w
            else CanStep(read, SetFill(req)) &&
                 Next(read, SetFill(req)) == w.(cache := w.cache[key :=
                   if key.ById? then One(w.users[key.id]) else Many(map u | u in w.users && w.users[u].isActive :: w.users[u])])
  {
    var value := Fresh(w.users, key);
    if value.Some? { assert w.fills[req := Fill(key, value.value)] - {req} == w.fills; }
  }

  // The invalidations of a key on their way all land.
  lemma {:induction false} LandAll(w: World, key: Key) returns (steps: seq<Step>)
    ensures IsRun(w, steps) && NoOverlap(w, steps)
    ensures Run(w, steps).users == w.users && Run(w, steps).fills == w.fills && key !in Run(w, steps).pending
    decreases w.pending[key]
  {
    steps := [];
    if key in w.pending {
      var landed := Next(w, Land(key));
      steps := LandAll(landed, key);
      Played(w, Land(key), steps, landed);
      steps := [Land(key)] + steps;
    }
  }

  // A fill that is no longer what the table gives is stored after the invalidations of its key.
  lemma StaleFillShows(w: World, q: nat) returns (steps: seq<Step>)
    requires q in w.fills && Some(w.fills[q].value) != Fresh(w.users, w.fills[q].key)
    ensures IsRun(w, steps) && NoOverlap(w, steps) && !Coherent(Run(w, steps))
  {
    var key := w.fills[q].key;
    var landings := LandAll(w, key);
    var landed := Run(w, landings);
    var filled := Next(landed, SetFill(q));
    assert key in filled.cache && key !in filled.pending && !Coherent(filled);
    Played(landed, SetFill(q), [], filled);
    assert [SetFill(q)] + [] == [SetFill(q)];
    RunsJoin(w, landings, [SetFill(q)]);
    steps := landings + [SetFill(q)];
  }

  lemma {:induction false} RunsJoin(w: World, a: seq<Step>, b: seq<Step>)
    requires IsRun(w, a) && NoOverlap(w, a) && IsRun(Run(w, a), b) && NoOverlap(Run(w, a), b)
    ensures IsRun(w, a + b) && NoOverlap(w, a + b) && Run(w, a + b) == Run(Run(w, a), b)
    decreases |a|
  {
    if a == [] {
      assert a + b == b;
    } else {
      assert (a + b)[1..] == a[1..] + b;
      RunsJoin(Next(w, a[0]), a[1..], b);
    }
  }

  // Every continuation without further overlaps is coherent.
  ghost predicate StaysCoherentApart(w: World) {
    forall steps :: IsRun(w, steps) && NoOverlap(w, steps) ==> Coherent(Run(w, steps))
  }

  // Exactly when: a coherent cache stays coherent, as long as no further fill overlaps a write, if
  // and only if every fill under way still holds what the table gives.
  lemma CoherentIffFillsFresh(w: World)
    requires Coherent(w)
    ensures StaysCoherentApart(w) <==> FillsFresh(w)
  {
    if FillsFresh(w) {
      forall steps | IsRun(w, steps) && NoOverlap(w, steps)
        ensures Coherent(Run(w, steps))
      {
        CacheCoherence(w, steps);
      }
    } else {
      var q :| q in w.fills && Some(w.fills[q].value) != Fresh(w.users, w.fills[q].key);
      var steps := StaleFillShows(w, q);
    }
  }

  // Once every invalidation has landed, what is cached is what the table says.
  lemma QuiescentCacheIsTable(users: Profiles, steps: seq<Step>, key: Key)
    requires IsRun(World(users, map[], multiset{}, map[]), steps) && NoOverlap(World(users, map[], multiset{}, map[]), steps)
    requires Run(World(users, map[], multiset{}, map[]), steps).pending == multiset{}
    ensures var w := Run(World(users, map[], multiset{}, map[]), steps);
            key in w.cache ==> Some(w.cache[key]) == Fresh(w.users, key)
  {
    CacheCoherence(World(users, map[], multiset{}, map[]), steps);
  }

  // The invalidation lands, then the fill stores what it read before the write.
  lemma LateFill(user: UserId, before: Profile, after: Profile) returns (w: World, steps: seq<Step>)
    requires before != after
    ensures w == World(map[user := after], map[], multiset{ById(user), AllUsers}, map[0 := Fill(ById(user), One(before))])
    ensures IsRun(w, steps) && !Coherent(Run(w, steps))
  {
    w := World(map[user := after], map[], multiset{ById(user), AllUsers}, map[0 := Fill(ById(user), One(before))]);
    var landed := w.(pending := multiset{AllUsers});
    var filled := World(map[user := after], map[ById(user) := One(before)], multiset{AllUsers}, map[]);
    assert landed.fills - {0} == map[];
    Played(landed, SetFill(0), [], filled);
    steps := [SetFill(0)] + [];
    Played(w, Land(ById(user)), steps, landed);
    steps := [Land(ById(user))] + steps;
    assert ById(user) in filled.cache;
  }

  // Why the condition: a fill that reads before a write and stores after its invalidation leaves
  // a stale entry with nothing on its way to remove it.
  lemma OverlapLeavesStale(user: UserId, before: Profile, after: Profile) returns (w: World, steps: seq<Step>)
    requires before != after
    ensures w == World(map[user := before], map[], multiset{}, map[])
    ensures IsRun(w, steps) && !NoOverlap(w, steps) && !Coherent(Run(w, steps))
  {
    w := World(map[user := before], map[], multiset{}, map[]);
    var read := w.(fills := map[0 := Fill(ById(user), One(before))]);
    var saved;
    saved, steps := LateFill(user, before, after);
    assert read.fills[0].key in Named(Save(user, after));
    Played(read, Save(user, after), steps, saved);
    steps := [Save(user, after)] + steps;
    Played(w, ReadToFill(0, ById(user)), steps, read);
    steps := [ReadToFill(0, ById(user))] + steps;
  }

  // A run that begins with a step to the given world.
  lemma Played(w: World, s: Step, rest: seq<Step>, w': World)
    requires CanStep(w, s) && Next(w, s) == w'
    ensures Run(w, [s] + rest) == Run(w', rest)
    ensures IsRun(w', rest) ==> IsRun(w, [s] + rest)
    ensures NoOverlap(w, [s] + rest) <==> FillsApart(w, s) && NoOverlap(w', rest)
  {
    assert ([s] + rest)[1..] == rest;
  }

  // ---------- The service as it runs ----------

  datatype Result = Updated(profile: Profile) | NotFound | LastSuperAdmin

  function Admins(users: Profiles): set<UserId> {
    set u | u in users && SuperAdmin in users[u].roles
  }

  class UsersService {
    var users: Profiles
    var cache: map<Key, Value>
    var pending: multiset<Key>

    function View(): World
      reads this
    {
      World(users, cache, pending, map[])
    }

    constructor (users: Profiles)
      ensures View() == World(users, map[], multiset{}, map[])
    {
      this.users := users;
      cache, pending := map[], multiset{};
    }

    // A cached list is returned as it is; otherwise the table is read and the list cached.
    method FindAll() returns (profiles: Profiles)
      requires AllUsers in cache ==> cache[AllUsers].Many?
      modifies this`cache
      ensures AllUsers in old(cache) ==> Many(profiles) == old(cache)[AllUsers]
      ensures AllUsers !in old(cache) ==> profiles == map u | u in users && users[u].isActive :: users[u]
      ensures cache == old(cache)[AllUsers := Many(profiles)]
    {
      if AllUsers in cache {
        profiles := cache[AllUsers].profiles;
        assert cache == cache[AllUsers := Many(profiles)];
        return;
      }
      profiles := map u | u in users && users[u].isActive :: users[u];
      cache := cache[AllUsers := Many(profiles)];
    }

    method FindById(id: UserId) returns (profile: Option<Profile>)
      requires ById(id) in cache ==> cache[ById(id)].One?
      modifies this`cache
      ensures ById(id) in old(cache) ==> profile == Some(old(cache)[ById(id)].profile) && cache == old(cache)
      ensures ById(id) !in old(cache) && id in users ==> profile == Some(users[id]) && cache == old(cache)[ById(id) := One(users[id])]
      ensures ById(id) !in old(cache) && id !in users ==> profile == None && cache == old(cache)
    {
      if ById(id) in cache {
        return Some(cache[ById(id)].profile);
      }
      if id !in users {
        return None;
      }
      cache := cache[ById(id) := One(users[id])];
      return Some(users[id]);
    }

    // An absent field is left as it is; an avatar given as null is cleared.
    method Update(id: UserId, displayName: Option<string>, avatarUrl: Option<Option<string>>) returns (result: Result)
      modifies this`users, this`pending
      ensures id !in old(users) ==> result == NotFound && View() == old(View())
      ensures id in old(users) ==>
        && result.Updated? && View() == Next(old(View()), Save(id, result.profile))
        && result.profile.displayName == GetOr(displayName, old(users)[id].displayName)
        && result.profile.avatarUrl == GetOr(avatarUrl, old(users)[id].avatarUrl)
        && result.profile.roles == old(users)[id].roles && result.profile.isActive == old(users)[id].isActive
        && users == old(users)[id := result.profile] && pending == old(pending) + multiset{ById(id), AllUsers}
    {
      if id !in users {
        return NotFound;
      }
      var profile := users[id];
      if displayName.Some? {
        profile := profile.(displayName := displayName.value);
      }
      if avatarUrl.Some? {
        profile := profile.(avatarUrl := avatarUrl.value);
      }
      Store(id, profile);
      return Updated(profile);
    }

    // Without interference; RoleManagement interleaves the statements.
    method SetRoles(id: UserId, roles: seq<Role>) returns (result: Result)
      modifies this`users, this`pending
      ensures result.NotFound? <==> id !in old(users)
      ensures result.LastSuperAdmin? <==>
        id in old(users) && SuperAdmin !in roles && Admins(old(users)) == {id}
      ensures !result.Updated? ==> View() == old(View())
      ensures result.Updated? ==>
        && result.profile == old(users)[id].(roles := roles)
        && View() == Next(old(View()), Save(id, result.profile))
        && users == old(users)[id := result.profile] && pending == old(pending) + multiset{ById(id), AllUsers}
      ensures Admins(old(users)) == set u | u in old(users) && SuperAdmin in old(users)[u].roles
      ensures Admins(old(users)) != {} ==> Admins(users) != {}
    {
      if SuperAdmin !in roles {
        if id !in users {
          return NotFound;
        }
        if SuperAdmin in users[id].roles {
          OnlyOne(Admins(users), id);
          if |Admins(users)| <= 1 {
            return LastSuperAdmin;
          }
        }
      }
      if id !in users {
        return NotFound;
      }
      ghost var before := Admins(users);
      Store(id, users[id].(roles := roles));
      if before != {} {
        ghost var u :| u in before && (SuperAdmin in roles || u != id);
        assert u in Admins(users);
      }
      return Updated(users[id]);
    }

    method Deactivate(id: UserId) returns (result: Result)
      modifies this`users, this`pending
      ensures id !in old(users) ==> result == NotFound && View() == old(View())
      ensures id in old(users) ==>
        && result == Updated(old(users)[id].(isActive := false))
        && View() == Next(old(View()), Save(id, result.profile))
        && users == old(users)[id := result.profile] && pending == old(pending) + multiset{ById(id), AllUsers}
    {
      if id !in users {
        return NotFound;
      }
      Store(id, users[id].(isActive := false));
      return Updated(users[id]);
    }

    // Write the row and set off the invalidation of both its keys.
    method Store(id: UserId, profile: Profile)
      modifies this`users, this`pending
      ensures users == old(users)[id := profile] && pending == old(pending) + multiset{ById(id), AllUsers}
    {
      users := users[id := profile];
      pending := pending + multiset{ById(id), AllUsers};
    }

    method Invalidate(key: Key)
      requires key in pending
      modifies this`cache, this`pending
      ensures View() == Next(old(View()), Land(key))
      ensures cache == old(cache) - {key} && pending == old(pending) - multiset{key}
    {
      cache := cache - {key};
      pending := pending - multiset{key};
    }
  }

  lemma OnlyOne(ids: set<UserId>, id: UserId)
    requires id in ids
    ensures |ids| <= 1 <==> ids == {id}
    ensures ids != {id} ==> exists u :: u in ids && u != id
  {
    assert ids == (ids - {id}) + {id};
    if ids != {id} {
      var u :| u in ids - {id};
    }
  }
}
