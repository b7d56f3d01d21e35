/**
 The refresh-token table and the atomic steps on it: issue, rotate, revoke, prune, clean up.
 One step is one request (or one background job) that runs to its end without interference;
 TokenInterleaving takes the rotation apart into its database statements.

 Clock readings and random identifiers come in with the step. A UUID is fresh with respect to
 every UUID drawn before. Signing is unforgeable: a presented token verifies only if it was issued.
 */
module TokenModel {
  import opened Wrappers
  import opened Collections

  type UserId = nat
  type Uuid = nat
  type Millis = nat

  // The `take` bound of the family lookup.
  const LOOKUP_LIMIT: nat := 50

  // A signed refresh token: the payload and its expiry in whole seconds.
  datatype RefreshJwt = RefreshJwt(sub: UserId, jti: Uuid, family: Uuid, exp: nat)

  // SHA-256 is taken to be injective.
  datatype Digest = Sha256(preimage: RefreshJwt)

  datatype Row = Row(
    userId: UserId,
    tokenHash: Digest,
    expiresAt: Millis,
    isRevoked: bool,
    jti: Uuid,
    family: Uuid,
    deviceId: Option<Uuid>,
    userAgent: Option<string>,
    lastUsedAt: Option<Millis>,
    createdAt: Millis)

  // The configured lifetimes: of the signed token in seconds, of its row in milliseconds.
  datatype Config = Config(jwtSeconds: nat, rowMillis: nat)

  datatype State = State(
    active: map<UserId, bool>,     // the users, with their isActive flag
    rows: map<Uuid, Row>,          // the refresh-token table by primary key
    issued: set<RefreshJwt>,       // every token ever signed
    drawn: set<Uuid>)              // every UUID ever drawn

  const EMPTY := State(map[], map[], {}, {})

  // The UUIDs a step draws.
  datatype Draw = Draw(rowId: Uuid, jti: Uuid, family: Uuid, device: Uuid)

  function DrawnBy(d: Draw): set<Uuid> {
    {d.rowId, d.jti, d.family, d.device}
  }

  predicate IsFresh(s: State, d: Draw) {
    DrawnBy(d) !! s.drawn
  }

  // ---------- Queries ----------

  function FamilyRows(rows: map<Uuid, Row>, user: UserId, family: Uuid): set<Uuid> {
    set id | id in rows && rows[id].userId == user && rows[id].family == family
  }

  function UserRows(rows: map<Uuid, Row>, user: UserId): set<Uuid> {
    set id | id in rows && rows[id].userId == user
  }

  function DeviceRows(rows: map<Uuid, Row>, user: UserId, device: Uuid): set<Uuid> {
    set id | id in rows && rows[id].userId == user && rows[id].deviceId == Some(device)
  }

  predicate IsStale(row: Row, now: Millis) {
    row.expiresAt < now || row.isRevoked
  }

  function StaleRows(rows: map<Uuid, Row>, now: Millis): set<Uuid> {
    set id | id in rows && IsStale(rows[id], now)
  }

  // What `findMany({ where: { userId, family }, take: 50 })` may return: some of the
  // matching rows in some order, as many of them as there are up to the bound.
  ghost predicate IsLookup(rows: map<Uuid, Row>, user: UserId, family: Uuid, found: seq<Uuid>) {
    var matching := FamilyRows(rows, user, family);
    && Distinct(found)
    && (forall id :: id in found ==> id in matching)
    && |found| == if |matching| <= LOOKUP_LIMIT then |matching| else LOOKUP_LIMIT
  }

  // The first found row that carries the hash.
  function FindByHash(rows: map<Uuid, Row>, found: seq<Uuid>, hash: Digest): (r: Option<Uuid>)
    ensures r.Some? ==> r.value in found && r.value in rows && rows[r.value].tokenHash == hash
    ensures r.None? ==> forall id :: id in found && id in rows ==> rows[id].tokenHash != hash
  {
    if found == [] then None
    else if found[0] in rows && rows[found[0]].tokenHash == hash then Some(found[0])
    else FindByHash(rows, found[1..], hash)
  }

  predicate Verifies(s: State, raw: RefreshJwt, now: Millis) {
    raw in s.issued && now / 1000 < raw.exp
  }

  predicate IsActive(s: State, user: UserId) {
    user in s.active && s.active[user]
  }

  // ---------- Rotation ----------

  // The branch a presented token takes.
  datatype Decision =
    | Invalid                   // signature or expiry check failed
    | Inactive                  // no such user, or deactivated
    | Unmatched                 // no row found carries the hash
    | Reused                    // the matched row is revoked
    | Rotate(rowId: Uuid)       // the matched row is live

  function Decide(s: State, raw: RefreshJwt, now: Millis, found: seq<Uuid>): (r: Decision)
    ensures r.Rotate? ==> r.rowId in found && r.rowId in s.rows && !s.rows[r.rowId].isRevoked
  {
    if !Verifies(s, raw, now) then Invalid
    else if !IsActive(s, raw.sub) then Inactive
    else match FindByHash(s.rows, found, Sha256(raw))
      case None => Unmatched
      case Some(id) => if s.rows[id].isRevoked then Reused else Rotate(id)
  }

  function NewJwt(cfg: Config, now: Millis, user: UserId, family: Uuid, jti: Uuid): RefreshJwt {
    RefreshJwt(user, jti, family, now / 1000 + cfg.jwtSeconds)
  }

  function NewRow(cfg: Config, now: Millis, jwt: RefreshJwt, device: Uuid, userAgent: Option<string>): Row {
    Row(jwt.sub, Sha256(jwt), now + cfg.rowMillis, false, jwt.jti, jwt.family, Some(device), userAgent, Some(now), now)
  }

  // Sign a token and store its row; a missing family or device is drawn.
  function Generate(cfg: Config, s: State, now: Millis, user: UserId,
                    family: Option<Uuid>, device: Option<Uuid>, userAgent: Option<string>, d: Draw): State
  {
    var jwt := NewJwt(cfg, now, user, GetOr(family, d.family), d.jti);
    var row := NewRow(cfg, now, jwt, GetOr(device, d.device), userAgent);
    s.(rows := s.rows[d.rowId := row], issued := s.issued + {jwt}, drawn := s.drawn + DrawnBy(d))
  }

  function DropFamily(s: State, user: UserId, family: Uuid): State {
    s.(rows := s.rows - FamilyRows(s.rows, user, family))
  }

  function MarkRevoked(s: State, id: Uuid): State
    requires id in s.rows
  {
    s.(rows := s.rows[id := s.rows[id].(isRevoked := true)])
  }

  function Refresh(cfg: Config, s: State, now: Millis, raw: RefreshJwt, found: seq<Uuid>, d: Draw): State {
    match Decide(s, raw, now, found)
    case Invalid => s
    case Inactive => s
    case Unmatched => if |found| > 0 then DropFamily(s, raw.sub, raw.family) else s
    case Reused => DropFamily(s, raw.sub, raw.family)
    case Rotate(id) =>
      Generate(cfg, MarkRevoked(s, id), now, raw.sub, Some(raw.family), s.rows[id].deviceId, s.rows[id].userAgent, d)
  }

  // ---------- Steps ----------

  datatype Op =
    | Register(user: UserId)                                          // a user row is created, active
    | Deactivate(user: UserId)
    | Login(user: UserId, userAgent: Option<string>, draw: Draw)      // a full session is issued
    | Present(raw: RefreshJwt, found: seq<Uuid>, draw: Draw)          // a refresh token is presented
    | RevokeAll(user: UserId)
    | RevokeDevice(user: UserId, device: Uuid)
    | Prune(user: UserId)                                             // the detached prune after an issue
    | Cleanup                                                         // the hourly job

  datatype Event = Event(now: Millis, op: Op)

  ghost predicate Enabled(s: State, e: Event) {
    match e.op
    case Register(user) => user !in s.active
    case Login(_, _, d) => IsFresh(s, d)
    case Present(raw, found, d) => IsFresh(s, d) && IsLookup(s.rows, raw.sub, raw.family, found)
    case _ => true
  }

  // Login issues a session to an active user only.
  function Step(cfg: Config, s: State, e: Event): State {
    match e.op
    case Register(user) => s.(active := s.active[user := true])
    case Deactivate(user) => if user in s.active then s.(active := s.active[user := false]) else s
    case Login(user, userAgent, d) =>
      if IsActive(s, user) then Generate(cfg, s, e.now, user, None, None, userAgent, d) else s
    case Present(raw, found, d) => Refresh(cfg, s, e.now, raw, found, d)
    case RevokeAll(user) => s.(rows := s.rows - UserRows(s.rows, user))
    case RevokeDevice(user, device) => s.(rows := s.rows - DeviceRows(s.rows, user, device))
    case Prune(user) => s.(rows := s.rows - (UserRows(s.rows, user) * StaleRows(s.rows, e.now)))
    case Cleanup => s.(rows := s.rows - StaleRows(s.rows, e.now))
  }

  // The token a step hands out, if it hands out one.
  function Handed(cfg: Config, s: State, e: Event): Option<RefreshJwt> {
    match e.op
    case Login(user, _, d) =>
      if IsActive(s, user) then Some(NewJwt(cfg, e.now, user, d.family, d.jti)) else None
    case Present(raw, found, d) =>
      if Decide(s, raw, e.now, found).Rotate? then Some(NewJwt(cfg, e.now, raw.sub, raw.family, d.jti)) else None
    case _ => None
  }

  // ---------- Runs ----------

  // The events follow one another from s, with clock readings that never go back before t.
  ghost predicate IsRun(cfg: Config, s: State, t: Millis, es: seq<Event>)
    decreases |es|
  {
    es == [] || (t <= es[0].now && Enabled(s, es[0]) && IsRun(cfg, Step(cfg, s, es[0]), es[0].now, es[1..]))
  }

  function Run(cfg: Config, s: State, es: seq<Event>): State
    decreases |es|
  {
    if es == [] then s else Run(cfg, Step(cfg, s, es[0]), es[1..])
  }

  function EndTime(t: Millis, es: seq<Event>): Millis {
    if es == [] then t else es[|es| - 1].now
  }

  lemma {:induction false} RunSplit(cfg: Config, s: State, t: Millis, a: seq<Event>, b: seq<Event>)
    ensures Run(cfg, s, a + b) == Run(cfg, Run(cfg, s, a), b)
    ensures IsRun(cfg, s, t, a + b) <==> IsRun(cfg, s, t, a) && IsRun(cfg, Run(cfg, s, a), EndTime(t, a), b)
    decreases |a|
  {
    if a == [] {
      assert a + b == b;
    } else {
      assert (a + b)[1..] == a[1..] + b;
      RunSplit(cfg, Step(cfg, s, a[0]), a[0].now, a[1..], b);
    }
  }

  lemma RunOne(cfg: Config, s: State, t: Millis, e: Event)
    ensures Run(cfg, s, [e]) == Step(cfg, s, e)
    ensures IsRun(cfg, s, t, [e]) <==> t <= e.now && Enabled(s, e)
  {
    assert [e][1..] == [];
  }

  // The last event of a run.
  lemma LastEvent(cfg: Config, es: seq<Event>, e: Event)
    requires IsRun(cfg, EMPTY, 0, es + [e])
    ensures IsRun(cfg, EMPTY, 0, es) && Enabled(Run(cfg, EMPTY, es), e)
    ensures Run(cfg, EMPTY, es + [e]) == Step(cfg, Run(cfg, EMPTY, es), e)
  {
    RunSplit(cfg, EMPTY, 0, es, [e]);
    RunOne(cfg, Run(cfg, EMPTY, es), EndTime(0, es), e);
  }
}
