/**
 Replacing a user's roles without ever losing the last super admin: transactions that read,
 count and write while others do the same, committed under serializable isolation.
 */
module RoleManagement {
  import opened Wrappers
  import opened Roles

  type UserId = nat

  datatype User = User(roles: seq<Role>, isActive: bool)

  type Users = map<UserId, User>

  function SuperAdmins(users: Users): set<UserId> {
    set u | u in users && SuperAdmin in users[u].roles
  }

  function ActiveSuperAdmins(users: Users): set<UserId> {
    set u | u in SuperAdmins(users) && users[u].isActive
  }

  // How far a transaction has come, with what it has read. It counts in the snapshot it took when
  // it read its target.
  datatype Stage =
    | Begun
    | MustCount(targetRoles: seq<Role>, admins: set<UserId>)                  // the target is a super admin; its snapshot
    | Ready(seen: Option<seq<Role>>, counted: Option<set<UserId>>)            // about to write and commit

  datatype Tx = Tx(target: UserId, roles: seq<Role>, stage: Stage)

  // What has been committed, in the order of the commits.
  datatype Entry = Registered(user: UserId) | Deactivated(user: UserId) | Assigned(tx: Tx)

  datatype World = World(users: Users, txs: map<nat, Tx>, log: seq<Entry>)

  datatype Step =
    | Register(user: UserId)
    | Deactivate(user: UserId)
    | Begin(tx: nat, target: UserId, roles: seq<Role>)
    | ReadTarget(tx: nat)
    | Count(tx: nat)
    | Commit(tx: nat)
    | Abort(tx: nat)

  predicate CanStep(w: World, s: Step) {
    match s
    case Register(user) => user !in w.users
    case Begin(tx, _, _) => tx !in w.txs
    case ReadTarget(tx) => tx in w.txs && w.txs[tx].stage.Begun?
    case Count(tx) => tx in w.txs && w.txs[tx].stage.MustCount?
    case Commit(tx) => tx in w.txs && w.txs[tx].stage.Ready?
    case _ => true
  }

  // A new role set that keeps super_admin is written without a check.
  function Start(target: UserId, roles: seq<Role>): Tx {
    Tx(target, roles, if SuperAdmin in roles then Ready(None, None) else Begun)
  }

  // An update of a missing row fails.
  function WithRoles(users: Users, target: UserId, roles: seq<Role>): Users {
    if target in users then users[target := users[target].(roles := roles)] else users
  }

  function Apply(users: Users, e: Entry): Users {
    match e
    case Registered(user) => users[user := User([RegularUser], true)]
    case Deactivated(user) => if user in users then users[user := users[user].(isActive := false)] else users
    case Assigned(t) => WithRoles(users, t.target, t.roles)
  }

  function Committed(w: World, e: Entry): World {
    w.(users := Apply(w.users, e), log := w.log + [e])
  }

  function Next(w: World, s: Step): World {
    match s
    case Register(user) => Committed(w, Registered(user))
    case Deactivate(user) => if user in w.users then Committed(w, Deactivated(user)) else w
    case Begin(tx, target, roles) => w.(txs := w.txs[tx := Start(target, roles)])
    case ReadTarget(tx) =>
      if tx !in w.txs then w
      else
        var t := w.txs[tx];
        if t.target !in w.users then w.(txs := w.txs - {tx})
        else
          var seen := w.users[t.target].roles;
          w.(txs := w.txs[tx := t.(stage := if SuperAdmin in seen then MustCount(seen, SuperAdmins(w.users)) else Ready(Some(seen), None))])
    case Count(tx) =>
      if tx !in w.txs || !w.txs[tx].stage.MustCount? then w
      else
        var t := w.txs[tx];
        if |t.stage.admins| <= 1 then w.(txs := w.txs - {tx})
        else w.(txs := w.txs[tx := t.(stage := Ready(Some(t.stage.targetRoles), Some(t.stage.admins)))])
    case Commit(tx) =>
      if tx !in w.txs then w
      else if w.txs[tx].target !in w.users then w.(txs := w.txs - {tx})
      else Committed(w, Assigned(w.txs[tx])).(txs := w.txs - {tx})
    case Abort(tx) => w.(txs := w.txs - {tx})
  }

  predicate IsRun(w: World, steps: seq<Step>)
    decreases |steps|
  {
    steps != [] ==> CanStep(w, steps[0]) && IsRun(Next(w, steps[0]), steps[1..])
  }

  function Run(w: World, steps: seq<Step>): World
    decreases |steps|
  {
    if steps == [] then w else Run(Next(w, steps[0]), steps[1..])
  }

  function Initial(users: Users): World {
    World(users, map[], [])
  }

  // ---------- Serializable isolation ----------

  // Everything the transaction read is so in these tables.
  predicate Validates(users: Users, t: Tx) {
    && t.stage.Ready? && t.target in users
    && (t.stage.seen.Some? ==> users[t.target].roles == t.stage.seen.value)
    && (t.stage.counted.Some? ==> SuperAdmins(users) == t.stage.counted.value)
  }

  predicate Fits(users: Users, e: Entry) {
    match e
    case Registered(user) => user !in users
    case Deactivated(user) => user in users
    case Assigned(t) => Validates(users, t)
  }

  // One after the other, without interleaving, each reads what it did read.
  predicate Replays(users: Users, order: seq<Entry>)
    decreases |order|
  {
    order != [] ==> Fits(users, order[0]) && Replays(Apply(users, order[0]), order[1..])
  }

  function Replayed(users: Users, order: seq<Entry>): Users
    decreases |order|
  {
    if order == [] then users else Replayed(Apply(users, order[0]), order[1..])
  }

  ghost predicate IsSerialOrder(users: Users, w: World, order: seq<Entry>) {
    multiset(order) == multiset(w.log) && Replays(users, order) && Replayed(users, order) == w.users
  }

  // What serializable isolation promises: what has been committed could have been committed one
  // after the other, in some order, which need not be the order of the commits.
  ghost predicate Serializable(users: Users, w: World) {
    exists order :: IsSerialOrder(users, w, order)
  }

  // ---------- The last super admin ----------

  // A transaction about to drop super_admin has seen its target, and if that was a super admin
  // it has counted more than one.
  predicate CheckedOk(t: Tx) {
    && (!t.stage.Ready? ==> SuperAdmin !in t.roles)
    && (t.stage.Ready? && SuperAdmin !in t.roles ==>
          && t.stage.seen.Some?
          && (SuperAdmin in t.stage.seen.value ==> t.stage.counted.Some? && |t.stage.counted.value| > 1))
  }

  ghost predicate Inv(w: World) {
    && (forall tx :: tx in w.txs ==> CheckedOk(w.txs[tx]))
    && (forall e :: e in w.log && e.Assigned? ==> CheckedOk(e.tx))
  }

  lemma {:induction false} RunKeepsInv(w: World, steps: seq<Step>)
    requires Inv(w) && IsRun(w, steps)
    ensures Inv(Run(w, steps))
    decreases |steps|
  {
    if steps != [] {
      RunKeepsInv(Next(w, steps[0]), steps[1..]);
    }
  }

  lemma ApplyKeepsOne(users: Users, e: Entry)
    requires Fits(users, e) && (e.Assigned? ==> CheckedOk(e.tx)) && SuperAdmins(users) != {}
    ensures SuperAdmins(Apply(users, e)) != {}
  {
    var after := Apply(users, e);
    if e.Assigned? && SuperAdmin !in e.tx.roles && SuperAdmin in e.tx.stage.seen.value {
      assert SuperAdmins(users) == (SuperAdmins(users) - {e.tx.target}) + {e.tx.target};
      var u :| u in SuperAdmins(users) - {e.tx.target};
      assert u in SuperAdmins(after);
    } else {
      var u :| u in SuperAdmins(users);
      assert u in SuperAdmins(after);
    }
  }

  lemma {:induction false} ReplayKeepsOne(users: Users, order: seq<Entry>)
    requires Replays(users, order) && (forall e :: e in order && e.Assigned? ==> CheckedOk(e.tx)) && SuperAdmins(users) != {}
    ensures SuperAdmins(Replayed(users, order)) != {}
    decreases |order|
  {
    if order != [] {
      assert order[0] in order;
      ApplyKeepsOne(users, order[0]);
      ReplayKeepsOne(Apply(users, order[0]), order[1..]);
    }
  }

  // Once there is a super admin, there is one in every later state, however transactions,
  // registrations and deactivations interleave, as long as what they commit is serializable.
  lemma LastSuperAdminStays(users: Users, steps: seq<Step>)
    requires IsRun(Initial(users), steps) && SuperAdmins(users) != {}
    requires Serializable(users, Run(Initial(users), steps))
    ensures SuperAdmins(Run(Initial(users), steps).users) != {}
  {
    var w := Run(Initial(users), steps);
    RunKeepsInv(Initial(users), steps);
    var order :| IsSerialOrder(users, w, order);
    forall e | e in order
      ensures e in w.log
    {
      assert e in multiset(order);
    }
    ReplayKeepsOne(users, order);
  }

  // Every transaction commits while everything it read is still so.
  predicate ValidatedAtCommit(w: World, steps: seq<Step>)
    decreases |steps|
  {
    steps != [] ==>
      && (steps[0].Commit? && steps[0].tx in w.txs && w.txs[steps[0].tx].target in w.users ==> Validates(w.users, w.txs[steps[0].tx]))
      && ValidatedAtCommit(Next(w, steps[0]), steps[1..])
  }

  // A step commits nothing, or one entry.
  lemma LogGrows(w: World, s: Step) returns (entries: seq<Entry>)
    requires CanStep(w, s)
    requires s.Commit? && s.tx in w.txs && w.txs[s.tx].target in w.users ==> Validates(w.users, w.txs[s.tx])
    ensures |entries| <= 1 && Next(w, s).log == w.log + entries
    ensures if entries == [] then Next(w, s).users == w.users
            else Fits(w.users, entries[0]) && Next(w, s).users == Apply(w.users, entries[0])
  {
    entries := Next(w, s).log[|w.log|..];
  }

  lemma {:induction false} LogReplays(w: World, steps: seq<Step>) returns (added: seq<Entry>)
    requires IsRun(w, steps) && ValidatedAtCommit(w, steps)
    ensures Run(w, steps).log == w.log + added
    ensures Replays(w.users, added) && Replayed(w.users, added) == Run(w, steps).users
    decreases |steps|
  {
    added := [];
    if steps != [] {
      var w' := Next(w, steps[0]);
      added := LogReplays(w', steps[1..]);
      var entries := LogGrows(w, steps[0]);
      if entries != [] {
        assert (entries + added)[1..] == added;
        added := entries + added;
      }
    }
  }

  // Such runs are serializable, in the order of the commits.
  lemma ValidatedIsSerializable(users: Users, steps: seq<Step>)
    requires IsRun(Initial(users), steps) && ValidatedAtCommit(Initial(users), steps)
    ensures Serializable(users, Run(Initial(users), steps))
  {
    var added := LogReplays(Initial(users), steps);
    assert IsSerialOrder(users, Run(Initial(users), steps), added);
  }

  // ---------- One transaction on its own ----------

  // Left alone, a change of roles is refused exactly for a missing user or the only super admin
  // losing the role; otherwise the user has the new roles and nobody else changes.
  lemma AloneReplacesRoles(w: World, tx: nat, target: UserId, roles: seq<Role>) returns (steps: seq<Step>)
    requires tx !in w.txs
    ensures IsRun(w, steps) && tx !in Run(w, steps).txs
    ensures Run(w, steps).users ==
      if target !in w.users || (SuperAdmin !in roles && SuperAdmins(w.users) == {target}) then w.users
      else w.users[target := User(roles, w.users[target].isActive)]
    ensures forall u :: u in SuperAdmins(w.users) <==> u in w.users && SuperAdmin in w.users[u].roles
  {
    var begun := Next(w, Begin(tx, target, roles));
    if SuperAdmin in roles {
      steps := CommitAlone(begun, tx);
    } else {
      steps := CheckAlone(begun, tx);
    }
    Prepend(w, Begin(tx, target, roles), steps);
    steps := [Begin(tx, target, roles)] + steps;
  }

  lemma CommitAlone(w: World, tx: nat) returns (steps: seq<Step>)
    requires tx in w.txs && w.txs[tx].stage.Ready?
    ensures IsRun(w, steps) && tx !in Run(w, steps).txs
    ensures var t := w.txs[tx];
            Run(w, steps).users ==
              if t.target !in w.users then w.users else w.users[t.target := User(t.roles, w.users[t.target].isActive)]
  {
    Prepend(w, Commit(tx), []);
    steps := [Commit(tx)] + [];
  }

  lemma CheckAlone(w: World, tx: nat) returns (steps: seq<Step>)
    requires tx in w.txs && w.txs[tx].stage.Begun? && SuperAdmin !in w.txs[tx].roles
    ensures IsRun(w, steps) && tx !in Run(w, steps).txs
    ensures var t := w.txs[tx];
            Run(w, steps).users ==
              if t.target !in w.users || SuperAdmins(w.users) == {t.target} then w.users
              else w.users[t.target := User(t.roles, w.users[t.target].isActive)]
  {
    var t, w1 := w.txs[tx], Next(w, ReadTarget(tx));
    steps := [];
    if t.target in w.users {
      if SuperAdmin in w.users[t.target].roles {
        OnlyOne(SuperAdmins(w.users), t.target);
        var w2 := Next(w1, Count(tx));
        if |SuperAdmins(w.users)| > 1 { steps := CommitAlone(w2, tx); }
        Prepend(w1, Count(tx), steps);
        steps := [Count(tx)] + steps;
      } else {
        assert t.target !in SuperAdmins(w.users);
        steps := CommitAlone(w1, tx);
      }
    }
    Prepend(w, ReadTarget(tx), steps);
    steps := [ReadTarget(tx)] + steps;
  }

  lemma OnlyOne(ids: set<UserId>, id: UserId)
    requires id in ids
    ensures |ids| <= 1 <==> ids == {id}
  {
    assert ids == (ids - {id}) + {id};
  }

  // Nobody becomes a super admin but by a committed change of roles that says so.
  lemma OnlyAssignedGain(w: World, s: Step, user: UserId)
    requires CanStep(w, s) && user in Next(w, s).users && SuperAdmin in Next(w, s).users[user].roles
    requires user !in w.users || SuperAdmin !in w.users[user].roles
    ensures s.Commit? && w.txs[s.tx].target == user && SuperAdmin in w.txs[s.tx].roles
  {
  }

  // ---------- Without serializable isolation ----------

  predicate NoReads(steps: seq<Step>) {
    forall s :: s in steps ==> !s.ReadTarget? && !s.Count?
  }

  // Some transaction has made its checks and is about to take super_admin from the user.
  predicate Demoted(w: World, user: UserId) {
    exists tx :: tx in w.txs && w.txs[tx].stage.Ready? && w.txs[tx].target == user && SuperAdmin !in w.txs[tx].roles
  }

  // Whatever commits before the next transaction reads, a super admin is left.
  ghost predicate OneIsLeft(w: World) {
    forall steps :: IsRun(w, steps) && NoReads(steps) ==> SuperAdmins(Run(w, steps).users) != {}
  }

  lemma {:induction false} NotDemotedStays(w: World, steps: seq<Step>, user: UserId)
    requires IsRun(w, steps) && NoReads(steps) && user in SuperAdmins(w.users) && !Demoted(w, user)
    ensures user in SuperAdmins(Run(w, steps).users)
    decreases |steps|
  {
    if steps != [] {
      var w' := Next(w, steps[0]);
      assert steps[0] in steps;
      forall tx | tx in w'.txs && w'.txs[tx].stage.Ready? && w'.txs[tx].target == user
        ensures SuperAdmin in w'.txs[tx].roles
      {
        assert tx in w.txs ==> w'.txs[tx] == w.txs[tx];
      }
      NotDemotedStays(w', steps[1..], user);
    }
  }

  lemma {:induction false} AllDemotedGo(w: World) returns (steps: seq<Step>)
    requires forall u :: u in SuperAdmins(w.users) ==> Demoted(w, u)
    ensures IsRun(w, steps) && NoReads(steps) && SuperAdmins(Run(w, steps).users) == {}
    decreases |SuperAdmins(w.users)|
  {
    steps := [];
    if SuperAdmins(w.users) != {} {
      var u :| u in SuperAdmins(w.users);
      var tx :| tx in w.txs && w.txs[tx].stage.Ready? && w.txs[tx].target == u && SuperAdmin !in w.txs[tx].roles;
      var w' := Next(w, Commit(tx));
      assert SuperAdmins(w'.users) == SuperAdmins(w.users) - {u};
      forall v | v in SuperAdmins(w'.users)
        ensures Demoted(w', v)
      {
        var ty :| ty in w.txs && w.txs[ty].stage.Ready? && w.txs[ty].target == v && SuperAdmin !in w.txs[ty].roles;
        assert ty in w'.txs;
      }
      steps := AllDemotedGo(w');
      Prepend(w, Commit(tx), steps);
      steps := [Commit(tx)] + steps;
    }
  }

  // Exactly when: with no isolation at all a super admin is sure to be left, up to the next
  // check, if and only if one is not about to be demoted.
  lemma OneIsLeftIff(w: World)
    ensures OneIsLeft(w) <==> exists u :: u in SuperAdmins(w.users) && !Demoted(w, u)
  {
    if u :| u in SuperAdmins(w.users) && !Demoted(w, u) {
      forall steps | IsRun(w, steps) && NoReads(steps)
        ensures SuperAdmins(Run(w, steps).users) != {}
      {
        NotDemotedStays(w, steps, u);
      }
    } else {
      var steps := AllDemotedGo(w);
    }
  }

  lemma Prepend(w: World, s: Step, rest: seq<Step>)
    ensures Run(w, [s] + rest) == Run(Next(w, s), rest)
    ensures CanStep(w, s) && IsRun(Next(w, s), rest) ==> IsRun(w, [s] + rest)
  {
    assert ([s] + rest)[1..] == rest;
  }

  const BOTH: Users := map[1 := User([SuperAdmin], true), 2 := User([SuperAdmin], true)]

  // Both transactions have begun; both read and count two super admins.
  lemma BothCount() returns (steps: seq<Step>, w: World)
    ensures var begun := World(BOTH, map[1 := Tx(1, [Admin], Begun), 2 := Tx(2, [Admin], Begun)], []);
            IsRun(begun, steps) && Run(begun, steps) == w
    ensures var t := Ready(Some([SuperAdmin]), Some({1, 2}));
            w == World(BOTH, map[1 := Tx(1, [Admin], t), 2 := Tx(2, [Admin], t)], [])
  {
    var m, t := MustCount([SuperAdmin], {1, 2}), Ready(Some([SuperAdmin]), Some({1, 2}));
    var w0 := World(BOTH, map[1 := Tx(1, [Admin], Begun), 2 := Tx(2, [Admin], Begun)], []);
    var w1 := World(BOTH, map[1 := Tx(1, [Admin], m), 2 := Tx(2, [Admin], Begun)], []);
    var w2 := World(BOTH, map[1 := Tx(1, [Admin], m), 2 := Tx(2, [Admin], m)], []);
    var w3 := World(BOTH, map[1 := Tx(1, [Admin], t), 2 := Tx(2, [Admin], m)], []);
    w := World(BOTH, map[1 := Tx(1, [Admin], t), 2 := Tx(2, [Admin], t)], []);
    assert SuperAdmins(BOTH) == {1, 2};
    assert Next(w0, ReadTarget(1)) == w1 && Next(w1, ReadTarget(2)) == w2;
    assert Next(w2, Count(1)) == w3 && Next(w3, Count(2)) == w;
    steps := [];
    Prepend(w3, Count(2), steps);
    steps := [Count(2)] + steps;
    Prepend(w2, Count(1), steps);
    steps := [Count(1)] + steps;
    Prepend(w1, ReadTarget(2), steps);
    steps := [ReadTarget(2)] + steps;
    Prepend(w0, ReadTarget(1), steps);
    steps := [ReadTarget(1)] + steps;
  }

  lemma {:induction false} RunsJoin(w: World, a: seq<Step>, b: seq<Step>)
    requires IsRun(w, a) && IsRun(Run(w, a), b)
    ensures IsRun(w, a + b) && Run(w, a + b) == Run(Run(w, a), b)
    decreases |a|
  {
    if a == [] {
      assert a + b == b;
    } else {
      assert (a + b)[1..] == a[1..] + b;
      RunsJoin(Next(w, a[0]), a[1..], b);
    }
  }

  // Why the isolation level: two super admins can demote each other, in a run that no serial
  // order explains.
  lemma WriteSkew() returns (steps: seq<Step>)
    ensures IsRun(Initial(BOTH), steps) && SuperAdmins(BOTH) == {1, 2}
    ensures SuperAdmins(Run(Initial(BOTH), steps).users) == {} && !Serializable(BOTH, Run(Initial(BOTH), steps))
  {
    var checks, w := BothCount();
    assert SuperAdmins(BOTH) == {1, 2};
    var commits := AllDemotedGo(w) by {
      assert 1 in w.txs && 2 in w.txs;
      assert Demoted(w, 1) && Demoted(w, 2);
    }
    var begun := World(BOTH, map[1 := Tx(1, [Admin], Begun), 2 := Tx(2, [Admin], Begun)], []);
    RunsJoin(begun, checks, commits);
    steps := checks + commits;
    var one := Next(Initial(BOTH), Begin(1, 1, [Admin]));
    assert Next(one, Begin(2, 2, [Admin])) == begun;
    Prepend(one, Begin(2, 2, [Admin]), steps);
    steps := [Begin(2, 2, [Admin])] + steps;
    Prepend(Initial(BOTH), Begin(1, 1, [Admin]), steps);
    steps := [Begin(1, 1, [Admin])] + steps;
    if Serializable(BOTH, Run(Initial(BOTH), steps)) {
      LastSuperAdminStays(BOTH, steps);
      assert false;
    }
  }

  // ---------- An active super admin ----------

  // The check counts super admins, active or not, and deactivation does not check at all. Some
  // active super admin remains after a deactivation, or after a committed demotion, if and only
  // if there is one among the other users.
  lemma ActiveSuperAdminLeftIff(w: World, s: Step)
    requires s.Deactivate? || (s.Commit? && s.tx in w.txs && SuperAdmin !in w.txs[s.tx].roles)
    ensures var user := if s.Deactivate? then s.user else w.txs[s.tx].target;
            ActiveSuperAdmins(Next(w, s).users) != {} <==> exists u :: u in ActiveSuperAdmins(w.users) && u != user
  {
    var user := if s.Deactivate? then s.user else w.txs[s.tx].target;
    var left := ActiveSuperAdmins(w.users) - {user};
    assert ActiveSuperAdmins(Next(w, s).users) == left;
    if u :| u in ActiveSuperAdmins(w.users) && u != user { assert u in left; }
    if u :| u in left { assert u in ActiveSuperAdmins(w.users) && u != user; }
  }

  // Deactivating the only super admin leaves a super admin that cannot act.
  lemma LastSuperAdminCanBeDeactivated()
    ensures var w := Initial(map[1 := User([SuperAdmin], true)]);
            && SuperAdmins(Next(w, Deactivate(1)).users) == {1}
            && ActiveSuperAdmins(w.users) == {1} && ActiveSuperAdmins(Next(w, Deactivate(1)).users) == {}
  {
  }
}
