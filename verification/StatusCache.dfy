/**
 The per-process cache of each user's active flag and roles. Requests, database writes and
 invalidations interleave: a validation that misses the cache suspends for its database read.
 */
module StatusCache {
  import opened Wrappers
  import opened Roles

  type UserId = nat
  type Millis = nat

  const CACHE_TTL: nat := 30_000
  const MAX_CACHE_SIZE: nat := 10_000

  // A user row as selected, and what validation makes of a row or its absence.
  datatype UserRow = UserRow(isActive: bool, roles: seq<Role>)
  datatype Status = Status(ok: bool, roles: seq<Role>)

  function StatusOf(row: Option<UserRow>): Status {
    if row.Some? then Status(row.value.isActive, row.value.roles) else Status(false, [])
  }

  datatype Entry = Entry(status: Status, exp: Millis)

  type Cache = map<UserId, Entry>

  function Hit(cache: Cache, user: UserId, now: Millis): Option<Status> {
    if user in cache && now < cache[user].exp then Some(cache[user].status) else None
  }

  function Swept(cache: Cache, now: Millis): Cache {
    map u | u in cache && now < cache[u].exp :: cache[u]
  }

  // Storing an entry sweeps the cache once it has more than `max` entries.
  function Filled(cache: Cache, user: UserId, entry: Entry, now: Millis, max: nat): Cache {
    var filled := cache[user := entry];
    if |filled| > max then Swept(filled, now) else filled
  }

  // ---------- The interleaved machine ----------

  datatype Write = Write(at: Millis, user: UserId, row: Option<UserRow>)

  // A validation that missed: waiting for its read, or holding what it read.
  datatype Pending =
    | Waiting(user: UserId, started: Millis)
    | Holding(user: UserId, started: Millis, status: Status)

  // The log of database writes is the database: its value at any instant can be read off it.
  datatype Machine = Machine(now: Millis, log: seq<Write>, cache: Cache, pending: map<nat, Pending>)

  datatype Action =
    | Save(user: UserId, row: Option<UserRow>)       // a database write
    | Invalidate(user: UserId)                        // an update or deactivation event arrives
    | Ask(req: nat, user: UserId)                     // a request begins
    | Read(req: nat)                                  // its database read
    | Finish(req: nat)                                // it fills the cache and answers

  datatype Step = Step(at: Millis, action: Action)

  datatype Answer = Answer(user: UserId, started: Millis, status: Status)

  function CurrentRow(log: seq<Write>, user: UserId): Option<UserRow> {
    if log == [] then None
    else if log[|log| - 1].user == user then log[|log| - 1].row
    else CurrentRow(log[..|log| - 1], user)
  }

  predicate CanStep(m: Machine, s: Step) {
    && m.now <= s.at
    && match s.action
       case Ask(req, _) => req !in m.pending
       case Read(req) => req in m.pending && m.pending[req].Waiting?
       case Finish(req) => req in m.pending && m.pending[req].Holding?
       case _ => true
  }

  function Next(m: Machine, s: Step, max: nat): Machine
    requires CanStep(m, s)
  {
    var m := m.(now := s.at);
    match s.action
    case Save(user, row) => m.(log := m.log + [Write(s.at, user, row)])
    case Invalidate(user) => m.(cache := m.cache - {user})
    case Ask(req, user) =>
      if Hit(m.cache, user, s.at).Some? then m else m.(pending := m.pending[req := Waiting(user, s.at)])
    case Read(req) =>
      var p := m.pending[req];
      m.(pending := m.pending[req := Holding(p.user, p.started, StatusOf(CurrentRow(m.log, p.user)))])
    case Finish(req) =>
      var p := m.pending[req];
      m.(pending := m.pending - {req},
         cache := Filled(m.cache, p.user, Entry(p.status, p.started + CACHE_TTL), s.at, max))
  }

  function AnswerOf(m: Machine, s: Step): Option<Answer>
    requires CanStep(m, s)
  {
    match s.action
    case Ask(_, user) =>
      var hit := Hit(m.cache, user, s.at);
      if hit.Some? then Some(Answer(user, s.at, hit.value)) else None
    case Finish(req) => Some(Answer(m.pending[req].user, m.pending[req].started, m.pending[req].status))
    case _ => None
  }

  predicate IsRun(m: Machine, steps: seq<Step>, max: nat)
    decreases |steps|
  {
    steps != [] ==> CanStep(m, steps[0]) && IsRun(Next(m, steps[0], max), steps[1..], max)
  }

  function Run(m: Machine, steps: seq<Step>, max: nat): Machine
    requires IsRun(m, steps, max)
    decreases |steps|
  {
    if steps == [] then m else Run(Next(m, steps[0], max), steps[1..], max)
  }

  const START := Machine(0, [], map[], map[])

  // ---------- Staleness ----------

  // After k writes and before the next, the database gave this status for the user at the instant.
  ghost predicate HeldBetween(log: seq<Write>, k: int, user: UserId, status: Status, instant: int) {
    && 0 <= k <= |log|
    && StatusOf(CurrentRow(log[..k], user)) == status
    && (0 < k ==> log[k - 1].at <= instant)
    && (k < |log| ==> instant <= log[k].at)
  }

  ghost predicate HeldAt(log: seq<Write>, user: UserId, status: Status, instant: int) {
    exists k :: HeldBetween(log, k, user, status, instant)
  }

  // The status was the database's at some instant after `since`, up to now.
  ghost predicate HeldAfter(log: seq<Write>, now: Millis, user: UserId, status: Status, since: int) {
    exists instant :: since < instant <= now && HeldAt(log, user, status, instant)
  }

  ghost predicate LogOk(log: seq<Write>, now: Millis) {
    && (forall i :: 0 <= i < |log| ==> log[i].at <= now)
    && (forall i, j :: 0 <= i < j < |log| ==> log[i].at <= log[j].at)
  }

  // An entry's status was read after the request began that set its expiry.
  ghost predicate EntryOk(log: seq<Write>, now: Millis, user: UserId, entry: Entry) {
    HeldAfter(log, now, user, entry.status, entry.exp - CACHE_TTL - 1)
  }

  ghost predicate PendingOk(log: seq<Write>, now: Millis, p: Pending) {
    p.started <= now && (p.Holding? ==> HeldAfter(log, now, p.user, p.status, p.started - 1))
  }

  ghost predicate Inv(m: Machine) {
    && LogOk(m.log, m.now)
    && (forall u :: u in m.cache ==> EntryOk(m.log, m.now, u, m.cache[u]))
    && (forall q :: q in m.pending ==> PendingOk(m.log, m.now, m.pending[q]))
  }

  // The log after a step.
  function LogAfter(log: seq<Write>, s: Step): seq<Write> {
    if s.action.Save? then log + [Write(s.at, s.action.user, s.action.row)] else log
  }

  // What was held stays held when time passes and a write is added.
  lemma HeldLater(log: seq<Write>, now: Millis, s: Step, user: UserId, status: Status, since: int)
    requires HeldAfter(log, now, user, status, since) && now <= s.at
    ensures HeldAfter(LogAfter(log, s), s.at, user, status, since)
  {
    var instant :| since < instant <= now && HeldAt(log, user, status, instant);
    var k :| HeldBetween(log, k, user, status, instant);
    assert LogAfter(log, s)[..k] == log[..k];
    assert HeldBetween(LogAfter(log, s), k, user, status, instant);
    assert HeldAt(LogAfter(log, s), user, status, instant);
  }

  lemma CurrentHeld(log: seq<Write>, now: Millis, user: UserId, since: int)
    requires since < now && LogOk(log, now)
    ensures HeldAfter(log, now, user, StatusOf(CurrentRow(log, user)), since)
  {
    assert log[..|log|] == log;
    assert HeldBetween(log, |log|, user, StatusOf(CurrentRow(log, user)), now);
    assert HeldAt(log, user, StatusOf(CurrentRow(log, user)), now);
  }

  lemma EntryLater(log: seq<Write>, now: Millis, s: Step, user: UserId, entry: Entry)
    requires EntryOk(log, now, user, entry) && now <= s.at
    ensures EntryOk(LogAfter(log, s), s.at, user, entry)
  {
    HeldLater(log, now, s, user, entry.status, entry.exp - CACHE_TTL - 1);
  }

  lemma PendingLater(log: seq<Write>, now: Millis, s: Step, p: Pending)
    requires PendingOk(log, now, p) && now <= s.at
    ensures PendingOk(LogAfter(log, s), s.at, p)
  {
    if p.Holding? { HeldLater(log, now, s, p.user, p.status, p.started - 1); }
  }

  // Entries and validations of the state before, seen after the step.
  lemma AllLater(m: Machine, s: Step)
    requires Inv(m) && m.now <= s.at
    ensures LogOk(LogAfter(m.log, s), s.at)
    ensures forall u :: u in m.cache ==> EntryOk(LogAfter(m.log, s), s.at, u, m.cache[u])
    ensures forall q :: q in m.pending ==> PendingOk(LogAfter(m.log, s), s.at, m.pending[q])
  {
    forall u | u in m.cache
      ensures EntryOk(LogAfter(m.log, s), s.at, u, m.cache[u])
    {
      EntryLater(m.log, m.now, s, u, m.cache[u]);
    }
    forall q | q in m.pending
      ensures PendingOk(LogAfter(m.log, s), s.at, m.pending[q])
    {
      PendingLater(m.log, m.now, s, m.pending[q]);
    }
  }

  // Filling adds the one entry; a sweep only takes entries away.
  lemma FilledEntries(cache: Cache, user: UserId, entry: Entry, now: Millis, max: nat)
    ensures forall u :: u in Filled(cache, user, entry, now, max) ==>
      Filled(cache, user, entry, now, max)[u] == (if u == user then entry else if u in cache then cache[u] else entry)
      && (u == user || u in cache)
  {
  }

  lemma FinishKeepsInv(m: Machine, s: Step, max: nat)
    requires Inv(m) && CanStep(m, s) && s.action.Finish?
    ensures Inv(Next(m, s, max))
  {
    AllLater(m, s);
    var p := m.pending[s.action.req];
    assert PendingOk(m.log, s.at, p);
    FilledEntries(m.cache, p.user, Entry(p.status, p.started + CACHE_TTL), s.at, max);
  }

  lemma ReadKeepsInv(m: Machine, s: Step, max: nat)
    requires Inv(m) && CanStep(m, s) && s.action.Read?
    ensures Inv(Next(m, s, max))
  {
    AllLater(m, s);
    var p := m.pending[s.action.req];
    assert PendingOk(m.log, s.at, p);
    CurrentHeld(m.log, s.at, p.user, p.started - 1);
  }

  lemma NextKeepsInv(m: Machine, s: Step, max: nat)
    requires Inv(m) && CanStep(m, s)
    ensures Inv(Next(m, s, max))
  {
    match s.action
    case Read(_) => ReadKeepsInv(m, s, max);
    case Finish(_) => FinishKeepsInv(m, s, max);
    case _ => AllLater(m, s);
  }

  lemma {:induction false} RunKeepsInv(m: Machine, steps: seq<Step>, max: nat)
    requires Inv(m) && IsRun(m, steps, max)
    ensures Inv(Run(m, steps, max))
    decreases |steps|
  {
    if steps != [] {
      NextKeepsInv(m, steps[0], max);
      RunKeepsInv(Next(m, steps[0], max), steps[1..], max);
    }
  }

  // Whatever interleaves: each answer was the database's at an instant later than 30 seconds
  // before the request began.
  lemma BoundedStaleness(steps: seq<Step>, s: Step, max: nat)
    requires IsRun(START, steps, max) && CanStep(Run(START, steps, max), s)
    ensures var m := Run(START, steps, max);
            AnswerOf(m, s).Some? ==>
              var a := AnswerOf(m, s).value;
              HeldAfter(LogAfter(m.log, s), s.at, a.user, a.status, a.started - CACHE_TTL)
  {
    var m := Run(START, steps, max);
    RunKeepsInv(START, steps, max);
    match s.action
    case Ask(_, user) =>
      if Hit(m.cache, user, s.at).Some? { EntryLater(m.log, m.now, s, user, m.cache[user]); }
    case Finish(req) => PendingLater(m.log, m.now, s, m.pending[req]);
    case _ =>
  }

  // ---------- What an answer goes back to ----------

  // The write that decides the status: the user's last one that no other of the user replaced by
  // `since`; or the user had no row by then. Only an active row lets its user in, with its roles.
  ghost predicate LogShows(log: seq<Write>, user: UserId, status: Status, since: int) {
    || (exists i :: DecidedBy(log, user, status, since, i))
    || (!status.ok && forall j :: 0 <= j < |log| && log[j].user == user ==> since < log[j].at)
  }

  ghost predicate DecidedBy(log: seq<Write>, user: UserId, status: Status, since: int, i: int) {
    && 0 <= i < |log| && log[i].user == user
    && (forall j :: i < j < |log| && log[j].user == user ==> since < log[j].at)
    && (status.ok <==> log[i].row.Some? && log[i].row.value.isActive)
    && (status.ok ==> status.roles == log[i].row.value.roles)
  }

  // The current row is that of the user's last write.
  lemma {:induction false} LastWrite(log: seq<Write>, k: nat, user: UserId) returns (i: int)
    requires k <= |log|
    ensures -1 <= i < k && (forall j :: i < j < k ==> log[j].user != user)
    ensures CurrentRow(log[..k], user) == (if i < 0 then None else log[i].row) && (0 <= i ==> log[i].user == user)
  {
    if k == 0 {
      i := -1;
    } else if log[k - 1].user == user {
      i := k - 1;
    } else {
      assert log[..k][..k - 1] == log[..k - 1];
      i := LastWrite(log, k - 1, user);
    }
  }

  lemma HeldIsLogged(log: seq<Write>, now: Millis, user: UserId, status: Status, since: int)
    requires LogOk(log, now) && HeldAfter(log, now, user, status, since)
    ensures LogShows(log, user, status, since)
  {
    var instant :| since < instant <= now && HeldAt(log, user, status, instant);
    var k :| HeldBetween(log, k, user, status, instant);
    var i := LastWrite(log, k, user);
    forall j | i < j < |log| && log[j].user == user
      ensures since < log[j].at
    {
      assert k <= j && instant <= log[k].at <= log[j].at;
    }
    if 0 <= i {
      assert DecidedBy(log, user, status, since, i);
    }
  }

  // Every answer goes back to a logged write not replaced by 30 seconds before the request began.
  lemma AnswersComeFromLog(steps: seq<Step>, s: Step, max: nat)
    requires IsRun(START, steps, max) && CanStep(Run(START, steps, max), s)
    ensures var m := Run(START, steps, max);
            AnswerOf(m, s).Some? ==>
              LogShows(m.log, AnswerOf(m, s).value.user, AnswerOf(m, s).value.status, AnswerOf(m, s).value.started - 30_000)
  {
    var m := Run(START, steps, max);
    BoundedStaleness(steps, s, max);
    RunKeepsInv(START, steps, max);
    if AnswerOf(m, s).Some? {
      var a := AnswerOf(m, s).value;
      HeldIsLogged(m.log, s.at, a.user, a.status, a.started - 30_000);
    }
  }

  // Each write that made the user active had been replaced by a later one of the user at t.
  ghost predicate InactiveAfter(log: seq<Write>, user: UserId, t: Millis) {
    forall i :: 0 <= i < |log| && log[i].user == user && log[i].row.Some? && log[i].row.value.isActive ==>
      exists j :: i < j < |log| && log[j].user == user && log[j].at <= t
  }

  // A user deactivated or deleted at t and not reactivated is refused by every request that
  // begins at t + 30 s or later.
  lemma DeactivatedIsRefused(steps: seq<Step>, s: Step, max: nat, user: UserId, t: Millis)
    requires IsRun(START, steps, max) && CanStep(Run(START, steps, max), s)
    requires InactiveAfter(Run(START, steps, max).log, user, t)
    ensures var answer := AnswerOf(Run(START, steps, max), s);
            answer.Some? && answer.value.user == user && t + 30_000 <= answer.value.started ==> !answer.value.status.ok
  {
    AnswersComeFromLog(steps, s, max);
  }

  // An answer that lets the user in carries the roles of an active row of the user, and nothing
  // had replaced that row 30 seconds before the request began.
  lemma AdmittedByActiveRow(steps: seq<Step>, s: Step, max: nat)
    requires IsRun(START, steps, max) && CanStep(Run(START, steps, max), s)
    requires AnswerOf(Run(START, steps, max), s).Some? && AnswerOf(Run(START, steps, max), s).value.status.ok
    ensures var log, a := Run(START, steps, max).log, AnswerOf(Run(START, steps, max), s).value;
            exists i :: && 0 <= i < |log| && log[i].user == a.user && log[i].row == Some(UserRow(true, a.status.roles))
                        && forall j :: i < j < |log| && log[j].user == a.user ==> a.started - 30_000 < log[j].at
  {
    AnswersComeFromLog(steps, s, max);
    var log, a := Run(START, steps, max).log, AnswerOf(Run(START, steps, max), s).value;
    var i :| DecidedBy(log, a.user, a.status, a.started - 30_000, i);
    assert log[i].row == Some(UserRow(true, a.status.roles));
  }

  // ---------- What an invalidation does ----------

  // What is cached or held for the user was read at t or later.
  ghost predicate FreshSince(m: Machine, user: UserId, t: Millis) {
    && (user in m.cache ==> HeldAfter(m.log, m.now, user, m.cache[user].status, t - 1))
    && (forall q :: q in m.pending && m.pending[q].user == user && m.pending[q].Holding? ==>
          HeldAfter(m.log, m.now, user, m.pending[q].status, t - 1))
  }

  lemma StaysFresh(m: Machine, s: Step, max: nat, user: UserId, t: Millis)
    requires Inv(m) && CanStep(m, s) && t <= m.now && FreshSince(m, user, t)
    ensures FreshSince(Next(m, s, max), user, t)
  {
    if user in m.cache { HeldLater(m.log, m.now, s, user, m.cache[user].status, t - 1); }
    forall q | q in m.pending && m.pending[q].user == user && m.pending[q].Holding?
      ensures HeldAfter(LogAfter(m.log, s), s.at, user, m.pending[q].status, t - 1)
    {
      HeldLater(m.log, m.now, s, user, m.pending[q].status, t - 1);
    }
    match s.action
    case Read(req) => CurrentHeld(m.log, s.at, m.pending[req].user, t - 1);
    case Finish(req) =>
      var p := m.pending[req];
      FilledEntries(m.cache, p.user, Entry(p.status, p.started + CACHE_TTL), s.at, max);
    case _ =>
  }

  lemma {:induction false} RunStaysFresh(m: Machine, steps: seq<Step>, max: nat, user: UserId, t: Millis)
    requires Inv(m) && IsRun(m, steps, max) && t <= m.now && FreshSince(m, user, t)
    ensures Inv(Run(m, steps, max)) && FreshSince(Run(m, steps, max), user, t)
    decreases |steps|
  {
    if steps != [] {
      NextKeepsInv(m, steps[0], max);
      StaysFresh(m, steps[0], max, user, t);
      RunStaysFresh(Next(m, steps[0], max), steps[1..], max, user, t);
    }
  }

  // Once an invalidation has arrived while no validation of the user held a read, no later answer
  // goes back to a write replaced before it.
  lemma FreshAfterInvalidation(before: seq<Step>, t: Millis, user: UserId, mid: seq<Step>, s: Step, max: nat)
    requires IsRun(START, before, max) && CanStep(Run(START, before, max), Step(t, Invalidate(user)))
    requires forall q :: q in Run(START, before, max).pending && Run(START, before, max).pending[q].user == user ==>
      Run(START, before, max).pending[q].Waiting?
    requires var m := Next(Run(START, before, max), Step(t, Invalidate(user)), max);
             IsRun(m, mid, max) && CanStep(Run(m, mid, max), s)
    ensures var m := Run(Next(Run(START, before, max), Step(t, Invalidate(user)), max), mid, max);
            AnswerOf(m, s).Some? && AnswerOf(m, s).value.user == user ==> LogShows(m.log, user, AnswerOf(m, s).value.status, t - 1)
  {
    var m0 := Run(START, before, max);
    var m1 := Next(m0, Step(t, Invalidate(user)), max);
    RunKeepsInv(START, before, max);
    NextKeepsInv(m0, Step(t, Invalidate(user)), max);
    RunStaysFresh(m1, mid, max, user, t);
    var m := Run(m1, mid, max);
    if AnswerOf(m, s).Some? && AnswerOf(m, s).value.user == user {
      HeldIsLogged(m.log, m.now, user, AnswerOf(m, s).value.status, t - 1);
    }
  }

  // ---------- A request on its own ----------

  // The log is the writes of the run, each with its time.
  function Saves(steps: seq<Step>): seq<Write> {
    if steps == [] then [] else SavedBy(steps[0]) + Saves(steps[1..])
  }

  function SavedBy(s: Step): seq<Write> {
    match s.action
    case Save(user, row) => [Write(s.at, user, row)]
    case _ => []
  }

  lemma StepLogs(m: Machine, s: Step, max: nat)
    requires CanStep(m, s)
    ensures Next(m, s, max).log == m.log + SavedBy(s)
  {
    assert m.log + [] == m.log;
  }

  lemma {:induction false} LogIsSaves(m: Machine, steps: seq<Step>, max: nat)
    requires IsRun(m, steps, max)
    ensures Run(m, steps, max).log == m.log + Saves(steps)
    decreases |steps|
  {
    if steps != [] {
      StepLogs(m, steps[0], max);
      LogIsSaves(Next(m, steps[0], max), steps[1..], max);
    }
  }

  // The user is let in exactly by an active row as the last write, with its roles.
  ghost predicate AdmitsLastWrite(log: seq<Write>, user: UserId, status: Status) {
    status.ok <==> exists i :: && 0 <= i < |log| && log[i].user == user
                               && (forall j :: i < j < |log| ==> log[j].user != user)
                               && log[i].row == Some(UserRow(true, status.roles))
  }

  // A request that misses and is left undisturbed is answered with the user's last write.
  lemma MissReadsLastWrite(m: Machine, at: Millis, req: nat, user: UserId, max: nat)
    requires m.now <= at && req !in m.pending && (user in m.cache ==> m.cache[user].exp <= at)
    ensures var ask, read, finish := Step(at, Ask(req, user)), Step(at, Read(req)), Step(at, Finish(req));
            && CanStep(m, ask) && AnswerOf(m, ask) == None
            && CanStep(Next(m, ask, max), read) && AnswerOf(Next(m, ask, max), read) == None
            && CanStep(Next(Next(m, ask, max), read, max), finish)
            && var answer := AnswerOf(Next(Next(m, ask, max), read, max), finish);
               answer.Some? && answer.value.user == user && answer.value.started == at && AdmitsLastWrite(m.log, user, answer.value.status)
  {
    var i := LastWrite(m.log, |m.log|, user);
    assert m.log[..|m.log|] == m.log;
    var status := StatusOf(CurrentRow(m.log, user));
    if status.ok {
      assert m.log[i].row == Some(UserRow(true, status.roles));
    }
  }

  // ---------- What the cache saves ----------

  // No invalidation of the user and no other fill for the user.
  ghost predicate LeftAlone(m: Machine, steps: seq<Step>, user: UserId, max: nat)
    requires IsRun(m, steps, max)
    decreases |steps|
  {
    steps != [] ==>
      && steps[0].action != Invalidate(user)
      && (steps[0].action.Finish? ==> m.pending[steps[0].action.req].user != user)
      && LeftAlone(Next(m, steps[0], max), steps[1..], user, max)
  }

  lemma {:induction false} EntryStays(m: Machine, steps: seq<Step>, user: UserId, entry: Entry, until: Millis, max: nat)
    requires IsRun(m, steps, max) && LeftAlone(m, steps, user, max) && Run(m, steps, max).now <= until < entry.exp
    requires user in m.cache && m.cache[user] == entry
    ensures user in Run(m, steps, max).cache && Run(m, steps, max).cache[user] == entry
    ensures m.now <= Run(m, steps, max).now
    decreases |steps|
  {
    if steps != [] {
      ClockAdvances(Next(m, steps[0], max), steps[1..], max);
      EntryStays(Next(m, steps[0], max), steps[1..], user, entry, until, max);
    }
  }

  lemma {:induction false} ClockAdvances(m: Machine, steps: seq<Step>, max: nat)
    requires IsRun(m, steps, max)
    ensures m.now <= Run(m, steps, max).now
    decreases |steps|
  {
    if steps != [] {
      ClockAdvances(Next(m, steps[0], max), steps[1..], max);
    }
  }

  // For 30 seconds from when a validation that missed began, later requests get its answer without
  // a database read, until an invalidation or another fill.
  lemma ServedFromCache(m: Machine, t: Millis, req: nat, mid: seq<Step>, at: Millis, next: nat, max: nat)
    requires CanStep(m, Step(t, Finish(req)))
    requires var m1 := Next(m, Step(t, Finish(req)), max);
             && IsRun(m1, mid, max) && LeftAlone(m1, mid, m.pending[req].user, max)
             && CanStep(Run(m1, mid, max), Step(at, Ask(next, m.pending[req].user)))
    requires at < m.pending[req].started + 30_000
    ensures var p := m.pending[req];
            var m2 := Run(Next(m, Step(t, Finish(req)), max), mid, max);
            && AnswerOf(m2, Step(at, Ask(next, p.user))) == Some(Answer(p.user, at, p.status))
            && Next(m2, Step(at, Ask(next, p.user)), max).pending == m2.pending
  {
    var p, m1 := m.pending[req], Next(m, Step(t, Finish(req)), max);
    ClockAdvances(m1, mid, max);
    EntryStays(m1, mid, p.user, Entry(p.status, p.started + 30_000), at, max);
  }

  // ---------- The sweep ----------

  ghost predicate SameHits(a: Cache, b: Cache, now: Millis) {
    forall u, t :: now <= t ==> Hit(a, u, t) == Hit(b, u, t)
  }

  // Only expired entries go, and no later look-up can tell.
  lemma SweepIsInvisible(cache: Cache, now: Millis)
    ensures forall u :: u in cache && u !in Swept(cache, now) ==> cache[u].exp <= now
    ensures SameHits(cache, Swept(cache, now), now)
  {
  }

  // Two machines that differ in their entry limits, and so in what their sweeps have removed.
  ghost predicate Alike(m: Machine, n: Machine) {
    m.now == n.now && m.log == n.log && m.pending == n.pending && SameHits(m.cache, n.cache, m.now)
  }

  // What a look-up at t finds once the entry has been stored, whatever the limit.
  lemma FilledHit(cache: Cache, user: UserId, entry: Entry, now: Millis, max: nat, u: UserId, t: Millis)
    requires now <= t
    ensures Hit(Filled(cache, user, entry, now, max), u, t) ==
      if u == user then if t < entry.exp then Some(entry.status) else None else Hit(cache, u, t)
  {
    SweepIsInvisible(cache[user := entry], now);
    assert Hit(Filled(cache, user, entry, now, max), u, t) == Hit(cache[user := entry], u, t);
  }

  // What a look-up after the step finds does not depend on the limit.
  lemma NextHit(m: Machine, s: Step, max: nat, u: UserId, t: Millis)
    requires CanStep(m, s) && s.at <= t
    ensures Hit(Next(m, s, max).cache, u, t) ==
      match s.action
      case Invalidate(user) => if u == user then None else Hit(m.cache, u, t)
      case Finish(req) =>
        var p := m.pending[req];
        if u == p.user then if t < p.started + CACHE_TTL then Some(p.status) else None else Hit(m.cache, u, t)
      case _ => Hit(m.cache, u, t)
  {
    if s.action.Finish? {
      var p := m.pending[s.action.req];
      FilledHit(m.cache, p.user, Entry(p.status, p.started + CACHE_TTL), s.at, max, u, t);
    }
  }

  lemma AnswersAlike(m: Machine, n: Machine, s: Step)
    requires Alike(m, n) && CanStep(m, s)
    ensures CanStep(n, s) && AnswerOf(m, s) == AnswerOf(n, s)
  {
  }

  lemma NextAlike(m: Machine, n: Machine, s: Step, max: nat, max': nat)
    requires Alike(m, n) && CanStep(m, s)
    ensures CanStep(n, s) && Alike(Next(m, s, max), Next(n, s, max'))
  {
    AnswersAlike(m, n, s);
    forall u, t | s.at <= t
      ensures Hit(Next(m, s, max).cache, u, t) == Hit(Next(n, s, max').cache, u, t)
    {
      NextHit(m, s, max, u, t);
      NextHit(n, s, max', u, t);
      assert Hit(m.cache, u, t) == Hit(n.cache, u, t);
    }
  }

  function Answers(m: Machine, steps: seq<Step>, max: nat): seq<Option<Answer>>
    requires IsRun(m, steps, max)
    decreases |steps|
  {
    if steps == [] then [] else [AnswerOf(m, steps[0])] + Answers(Next(m, steps[0], max), steps[1..], max)
  }

  // Over a whole run the sweep changes no answer: any two entry limits answer alike.
  lemma {:induction false} SweepChangesNoAnswer(m: Machine, n: Machine, steps: seq<Step>, max: nat, max': nat)
    requires Alike(m, n) && IsRun(m, steps, max)
    ensures IsRun(n, steps, max') && Answers(m, steps, max) == Answers(n, steps, max')
    decreases |steps|
  {
    if steps != [] {
      AnswersAlike(m, n, steps[0]);
      NextAlike(m, n, steps[0], max, max');
      SweepChangesNoAnswer(Next(m, steps[0], max), Next(n, steps[0], max'), steps[1..], max, max');
    }
  }

  // ---------- The strategy as it runs ----------

  // A cached role list is an array that requests share.
  datatype CacheEntry = CacheEntry(ok: bool, roles: array<Role>, exp: Millis)

  class JwtStrategy {
    var activeCache: map<UserId, CacheEntry>

    ghost function View(): Cache
      reads this, set u | u in activeCache :: activeCache[u].roles
    {
      map u | u in activeCache :: Entry(Status(activeCache[u].ok, activeCache[u].roles[..]), activeCache[u].exp)
    }

    // Allocating an array leaves the cache as it is.
    twostate lemma ViewUnchanged()
      requires unchanged(this) && forall u :: u in activeCache ==> allocated(activeCache[u].roles) && unchanged(activeCache[u].roles)
      ensures View() == old(View())
    {
    }

    constructor ()
      ensures View() == map[]
    {
      activeCache := map[];
    }

    method Copy(roles: array<Role>) returns (copy: array<Role>)
      ensures fresh(copy) && copy[..] == roles[..]
    {
      copy := new Role[roles.Length](i requires 0 <= i < roles.Length reads roles => roles[i]);
    }

    // The part before the database read: a hit is answered at once, with a copy of the roles.
    method BeginValidate(sub: UserId, now: Millis) returns (answered: bool, ok: bool, roles: array<Role>)
      ensures fresh(roles)
      ensures answered == Hit(View(), sub, now).Some?
      ensures answered ==> Status(ok, roles[..]) == Hit(View(), sub, now).value
      ensures answered <==> sub in activeCache && now < activeCache[sub].exp
      ensures answered ==> ok == activeCache[sub].ok && roles[..] == activeCache[sub].roles[..]
    {
      if sub in activeCache && now < activeCache[sub].exp {
        roles := Copy(activeCache[sub].roles);
        return true, activeCache[sub].ok, roles;
      }
      roles := new Role[0];
      return false, false, roles;
    }

    // The part after it: fill the cache, sweep if it has grown too large, and answer with a copy.
    // The array handed out is never one that the cache holds.
    method CompleteValidate(sub: UserId, started: Millis, row: Option<UserRow>, now: Millis) returns (ok: bool, roles: array<Role>)
      modifies this
      ensures ok <==> row.Some? && row.value.isActive
      ensures roles[..] == if row.Some? then row.value.roles else []
      ensures View() == Filled(old(View()), sub, Entry(StatusOf(row), started + CACHE_TTL), now, MAX_CACHE_SIZE)
      ensures fresh(roles) && forall u :: u in activeCache ==> activeCache[u].roles != roles
    {
      var entry := EntryFor(row, started);
      ViewUnchanged();
      SetCacheEntry(sub, entry, now);
      label filled:
      ok := entry.ok;
      roles := Copy(entry.roles);
      ViewUnchanged@filled();
    }

    // The entry for what the database read gave.
    method EntryFor(row: Option<UserRow>, started: Millis) returns (entry: CacheEntry)
      ensures fresh(entry.roles) && entry.exp == started + CACHE_TTL
      ensures Status(entry.ok, entry.roles[..]) == StatusOf(row)
    {
      var listed := if row.Some? then row.value.roles else [];
      var held := new Role[|listed|](i requires 0 <= i < |listed| => listed[i]);
      assert held[..] == listed;
      entry := CacheEntry(row.Some? && row.value.isActive, held, started + CACHE_TTL);
    }

    method SetCacheEntry(user: UserId, entry: CacheEntry, now: Millis)
      modifies this
      ensures View() == Filled(old(View()), user, Entry(Status(entry.ok, entry.roles[..]), entry.exp), now, MAX_CACHE_SIZE)
      ensures forall u :: u in activeCache ==> allocated(activeCache[u].roles)
      ensures |old(activeCache)[user := entry]| <= 10_000 ==> activeCache == old(activeCache)[user := entry]
      ensures |old(activeCache)[user := entry]| > 10_000 ==>
        forall u :: u in activeCache <==>
          (u == user && now < entry.exp) || (u != user && u in old(activeCache) && now < old(activeCache)[u].exp)
      ensures forall u :: u in activeCache ==> activeCache[u] == entry || (u in old(activeCache) && activeCache[u] == old(activeCache)[u])
    {
      Put(user, entry);
      assert activeCache.Keys == View().Keys;
      if |activeCache| > MAX_CACHE_SIZE {
        Sweep(now);
      }
    }

    method Put(user: UserId, entry: CacheEntry)
      modifies this
      ensures View() == old(View())[user := Entry(Status(entry.ok, entry.roles[..]), entry.exp)]
      ensures activeCache == old(activeCache)[user := entry]
    {
      activeCache := activeCache[user := entry];
    }

    method Sweep(now: Millis)
      modifies this
      ensures activeCache == map u | u in old(activeCache) && now < old(activeCache)[u].exp :: old(activeCache)[u]
      ensures View() == Swept(old(View()), now)
    {
      var keys := activeCache.Keys;
      while keys != {}
        invariant keys <= old(activeCache).Keys
        invariant forall u :: u in activeCache <==> u in old(activeCache) && (u in keys || now < old(activeCache)[u].exp)
        invariant forall u :: u in activeCache ==> activeCache[u] == old(activeCache)[u]
        decreases keys
      {
        var key :| key in keys;
        if activeCache[key].exp <= now {
          activeCache := activeCache - {key};
        }
        keys := keys - {key};
      }
    }

    // An update or deactivation of the user.
    method OnUserChanged(user: UserId)
      modifies this
      ensures View() == old(View()) - {user} && activeCache == old(activeCache) - {user}
    {
      activeCache := activeCache - {user};
    }
  }
}
