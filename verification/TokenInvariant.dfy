/**
 What holds of the token table in every reachable state: the structure of a family, the
 uniqueness of identifiers; and, for sound lifetimes, that a row lives as long as its token.
 */
module TokenInvariant {
  import opened Wrappers
  import opened TokenModel

  // A row stores the hash of the token it was created for; its columns repeat the payload.
  ghost predicate RowOk(s: State, id: Uuid, row: Row) {
    && row.tokenHash.preimage in s.issued
    && row.userId == row.tokenHash.preimage.sub
    && row.jti == row.tokenHash.preimage.jti
    && row.family == row.tokenHash.preimage.family
    && row.deviceId.Some?
    && id in s.drawn && row.deviceId.value in s.drawn
  }

  ghost predicate RowsOk(s: State) {
    forall id :: id in s.rows ==> RowOk(s, id, s.rows[id])
  }

  ghost predicate IssuedOk(s: State) {
    forall tok :: tok in s.issued ==> tok.jti in s.drawn && tok.family in s.drawn && tok.sub in s.active
  }

  // A jti names one token; a family belongs to one user.
  ghost predicate TokensDistinct(s: State) {
    forall a, b :: a in s.issued && b in s.issued ==>
      (a.jti == b.jti ==> a == b) && (a.family == b.family ==> a.sub == b.sub)
  }

  ghost predicate JtisUnique(rows: map<Uuid, Row>) {
    forall i, j :: i in rows && j in rows && rows[i].jti == rows[j].jti ==> i == j
  }

  // The rows of one family share device and user agent; a device belongs to one family.
  ghost predicate FamilyIsDevice(rows: map<Uuid, Row>) {
    forall i, j :: i in rows && j in rows ==>
      && (rows[i].family == rows[j].family <==> rows[i].deviceId == rows[j].deviceId)
      && (rows[i].family == rows[j].family ==> rows[i].userAgent == rows[j].userAgent)
  }

  predicate IsLive(rows: map<Uuid, Row>, id: Uuid) {
    id in rows && !rows[id].isRevoked
  }

  ghost predicate OneLivePerFamily(rows: map<Uuid, Row>) {
    forall i, j :: IsLive(rows, i) && IsLive(rows, j) && rows[i].family == rows[j].family ==> i == j
  }

  ghost predicate Inv(s: State) {
    && RowsOk(s) && IssuedOk(s) && TokensDistinct(s)
    && JtisUnique(s.rows) && FamilyIsDevice(s.rows) && OneLivePerFamily(s.rows)
  }

  // What the six clauses say to a caller: rows of one family share user, device and agent,
  // different families use different devices, jtis are unique, one row at most is live.
  lemma FamilyStructure(s: State, i: Uuid, j: Uuid)
    requires Inv(s) && i in s.rows && j in s.rows
    ensures s.rows[i].family == s.rows[j].family ==>
      && s.rows[i].userId == s.rows[j].userId
      && s.rows[i].deviceId == s.rows[j].deviceId
      && s.rows[i].userAgent == s.rows[j].userAgent
    ensures s.rows[i].family != s.rows[j].family ==> s.rows[i].deviceId != s.rows[j].deviceId
    ensures i != j ==> s.rows[i].jti != s.rows[j].jti && s.rows[i].tokenHash != s.rows[j].tokenHash
    ensures i != j && s.rows[i].family == s.rows[j].family ==> s.rows[i].isRevoked || s.rows[j].isRevoked
  {
    assert RowOk(s, i, s.rows[i]) && RowOk(s, j, s.rows[j]);
    assert !s.rows[i].isRevoked && !s.rows[j].isRevoked ==> IsLive(s.rows, i) && IsLive(s.rows, j);
  }

  // Deleting rows keeps everything.
  lemma DropKeepsInv(s: State, dead: set<Uuid>)
    requires Inv(s)
    ensures Inv(s.(rows := s.rows - dead))
  {
    var s' := s.(rows := s.rows - dead);
    forall i, j | IsLive(s'.rows, i) && IsLive(s'.rows, j) && s'.rows[i].family == s'.rows[j].family
      ensures i == j
    {
      assert IsLive(s.rows, i) && IsLive(s.rows, j);
    }
  }

  lemma MarkKeepsInv(s: State, id: Uuid)
    requires Inv(s) && id in s.rows
    ensures Inv(MarkRevoked(s, id))
    ensures IsLive(s.rows, id) ==>
      forall i :: IsLive(MarkRevoked(s, id).rows, i) ==> MarkRevoked(s, id).rows[i].family != s.rows[id].family
  {
    var s' := MarkRevoked(s, id);
    forall i, j | IsLive(s'.rows, i) && IsLive(s'.rows, j) && s'.rows[i].family == s'.rows[j].family
      ensures i == j
    {
      assert IsLive(s.rows, i) && IsLive(s.rows, j);
    }
    forall i | IsLive(s'.rows, i) && IsLive(s.rows, id)
      ensures s'.rows[i].family != s.rows[id].family
    {
      assert IsLive(s.rows, i);
    }
  }

  // The row and device an issue continues, when it continues a family.
  ghost predicate Continues(s: State, user: UserId, family: Option<Uuid>, device: Option<Uuid>, userAgent: Option<string>) {
    && family.Some? == device.Some?
    && (family.Some? ==>
          && (exists id :: && id in s.rows && s.rows[id].userId == user && s.rows[id].family == family.value
                           && s.rows[id].deviceId == device && s.rows[id].userAgent == userAgent)
          && (forall i :: IsLive(s.rows, i) ==> s.rows[i].family != family.value))
  }

  lemma GenerateKeepsTokens(cfg: Config, s: State, now: Millis, user: UserId,
                            family: Option<Uuid>, device: Option<Uuid>, userAgent: Option<string>, d: Draw)
    requires Inv(s) && IsFresh(s, d) && user in s.active && Continues(s, user, family, device, userAgent)
    ensures var s' := Generate(cfg, s, now, user, family, device, userAgent, d);
            RowsOk(s') && IssuedOk(s') && TokensDistinct(s')
  {
    assert d.rowId in DrawnBy(d) && d.jti in DrawnBy(d) && d.family in DrawnBy(d) && d.device in DrawnBy(d);
    if family.Some? {
      var id :| && id in s.rows && s.rows[id].userId == user && s.rows[id].family == family.value
                && s.rows[id].deviceId == device && s.rows[id].userAgent == userAgent;
      assert RowOk(s, id, s.rows[id]) && s.rows[id].tokenHash.preimage in s.issued;
    }
    var jwt := NewJwt(cfg, now, user, GetOr(family, d.family), d.jti);
    forall i | i in s.rows
      ensures RowOk(s, i, s.rows[i])
    {
    }
  }

  // A new row fits in: a new jti, and either a new family on a new device or one without live rows.
  lemma RowFitsIn(rows: map<Uuid, Row>, id: Uuid, row: Row)
    requires JtisUnique(rows) && FamilyIsDevice(rows) && OneLivePerFamily(rows) && id !in rows
    requires forall i :: i in rows ==>
      && rows[i].jti != row.jti
      && (rows[i].family == row.family <==> rows[i].deviceId == row.deviceId)
      && (rows[i].family == row.family ==> rows[i].userAgent == row.userAgent && rows[i].isRevoked)
    ensures JtisUnique(rows[id := row]) && FamilyIsDevice(rows[id := row]) && OneLivePerFamily(rows[id := row])
  {
    var rows' := rows[id := row];
    forall i, j | IsLive(rows', i) && IsLive(rows', j) && rows'[i].family == rows'[j].family
      ensures i == j
    {
      assert i != id ==> IsLive(rows, i);
      assert j != id ==> IsLive(rows, j);
    }
  }

  // Issuing keeps the structure, for a new family and device or for an existing family whose
  // live row was just marked.
  lemma GenerateKeepsInv(cfg: Config, s: State, now: Millis, user: UserId,
                         family: Option<Uuid>, device: Option<Uuid>, userAgent: Option<string>, d: Draw)
    requires Inv(s) && IsFresh(s, d) && user in s.active && Continues(s, user, family, device, userAgent)
    ensures Inv(Generate(cfg, s, now, user, family, device, userAgent, d))
  {
    GenerateKeepsTokens(cfg, s, now, user, family, device, userAgent, d);
    assert d.rowId in DrawnBy(d) && d.jti in DrawnBy(d) && d.family in DrawnBy(d) && d.device in DrawnBy(d);
    var row := NewRow(cfg, now, NewJwt(cfg, now, user, GetOr(family, d.family), d.jti), GetOr(device, d.device), userAgent);
    forall i | i in s.rows
      ensures s.rows[i].jti != row.jti
      ensures s.rows[i].family == row.family <==> s.rows[i].deviceId == row.deviceId
      ensures s.rows[i].family == row.family ==> s.rows[i].userAgent == row.userAgent && s.rows[i].isRevoked
    {
      assert RowOk(s, i, s.rows[i]) && s.rows[i].tokenHash.preimage in s.issued;
      assert !s.rows[i].isRevoked ==> IsLive(s.rows, i);
    }
    RowFitsIn(s.rows, d.rowId, row);
  }

  lemma PresentKeepsInv(cfg: Config, s: State, now: Millis, raw: RefreshJwt, found: seq<Uuid>, d: Draw)
    requires Inv(s) && IsFresh(s, d)
    ensures Inv(Refresh(cfg, s, now, raw, found, d))
  {
    var decision := Decide(s, raw, now, found);
    if decision.Rotate? {
      var id := decision.rowId;
      assert RowOk(s, id, s.rows[id]) && IsLive(s.rows, id);
      MarkKeepsInv(s, id);
      var s1 := MarkRevoked(s, id);
      assert s1.rows[id].family == raw.family;
      GenerateKeepsInv(cfg, s1, now, raw.sub, Some(raw.family), s.rows[id].deviceId, s.rows[id].userAgent, d);
    } else {
      DropKeepsInv(s, FamilyRows(s.rows, raw.sub, raw.family));
    }
  }

  lemma StepKeepsInv(cfg: Config, s: State, e: Event)
    requires Inv(s) && Enabled(s, e)
    ensures Inv(Step(cfg, s, e))
  {
    match e.op
    case Register(_) =>
    case Deactivate(_) =>
    case Login(user, userAgent, d) =>
      if IsActive(s, user) {
        GenerateKeepsInv(cfg, s, e.now, user, None, None, userAgent, d);
      }
    case Present(raw, found, d) => PresentKeepsInv(cfg, s, e.now, raw, found, d);
    case RevokeAll(user) => DropKeepsInv(s, UserRows(s.rows, user));
    case RevokeDevice(user, device) => DropKeepsInv(s, DeviceRows(s.rows, user, device));
    case Prune(user) => DropKeepsInv(s, UserRows(s.rows, user) * StaleRows(s.rows, e.now));
    case Cleanup => DropKeepsInv(s, StaleRows(s.rows, e.now));
  }

  lemma {:induction false} RunKeepsInv(cfg: Config, s: State, t: Millis, es: seq<Event>)
    requires Inv(s) && IsRun(cfg, s, t, es)
    ensures Inv(Run(cfg, s, es))
    decreases |es|
  {
    if es != [] {
      StepKeepsInv(cfg, s, es[0]);
      RunKeepsInv(cfg, Step(cfg, s, es[0]), es[0].now, es[1..]);
    }
  }

  // Every reachable state: any run from the empty tables.
  lemma ReachableInv(cfg: Config, es: seq<Event>)
    requires IsRun(cfg, EMPTY, 0, es)
    ensures Inv(Run(cfg, EMPTY, es))
  {
    RunKeepsInv(cfg, EMPTY, 0, es);
  }

  // ---------- Sound lifetimes ----------

  // A row may be pruned only once its token has stopped verifying.
  predicate Sound(cfg: Config) {
    cfg.jwtSeconds * 1000 <= cfg.rowMillis + 1
  }

  ghost predicate ExpiriesOk(s: State) {
    forall id :: id in s.rows ==> s.rows[id].tokenHash.preimage.exp * 1000 <= s.rows[id].expiresAt + 1
  }

  lemma StepKeepsExpiries(cfg: Config, s: State, e: Event)
    requires Sound(cfg) && ExpiriesOk(s)
    ensures ExpiriesOk(Step(cfg, s, e))
  {
  }

  lemma {:induction false} RunKeepsExpiries(cfg: Config, s: State, es: seq<Event>)
    requires Sound(cfg) && ExpiriesOk(s)
    ensures ExpiriesOk(Run(cfg, s, es))
    decreases |es|
  {
    if es != [] {
      StepKeepsExpiries(cfg, s, es[0]);
      RunKeepsExpiries(cfg, Step(cfg, s, es[0]), es[1..]);
    }
  }
}
