/**
 Rotation taken apart into its database statements: read the user, look the family up, then
 either delete the family or mark the matched row and store a new one. Between two statements
 anything else may happen: logins, revocations, prunes, clean-ups, other rotations.
 */
module TokenInterleaving {
  import opened Wrappers
  import opened TokenModel
  import opened TokenInvariant

  // How far a rotation has come. `Looked` and later stages carry what the lookup returned.
  datatype Rotation =
    | Started(raw: RefreshJwt)                                                    // the JWT verified
    | UserRead(raw: RefreshJwt)                                                   // the user is active
    | Doomed(raw: RefreshJwt)                                                     // reuse seen, family not yet deleted
    | Looked(raw: RefreshJwt, rowId: Uuid, device: Option<Uuid>, agent: Option<string>)
    | Marked(raw: RefreshJwt, device: Option<Uuid>, agent: Option<string>)        // old row revoked, new row not stored

  // The tables, and the rotations in flight by request.
  datatype Conc = Conc(db: State, inflight: map<nat, Rotation>)

  datatype Move =
    | Other(op: Op)                               // one statement of another request or job
    | Start(req: nat, raw: RefreshJwt)
    | ReadUser(req: nat)
    | LookUp(req: nat, found: seq<Uuid>)
    | DeleteFamily(req: nat)
    | Mark(req: nat)
    | Store(req: nat, draw: Draw)

  datatype Tick = Tick(now: Millis, move: Move)

  ghost predicate CanMove(c: Conc, k: Tick) {
    match k.move
    case Other(op) => !op.Present? && Enabled(c.db, Event(k.now, op))
    case Start(req, raw) => req !in c.inflight
    case ReadUser(req) => req in c.inflight && c.inflight[req].Started?
    case LookUp(req, found) =>
      && req in c.inflight && c.inflight[req].UserRead?
      && IsLookup(c.db.rows, c.inflight[req].raw.sub, c.inflight[req].raw.family, found)
    case DeleteFamily(req) => req in c.inflight && c.inflight[req].Doomed?
    case Mark(req) => req in c.inflight && c.inflight[req].Looked?
    case Store(req, draw) => req in c.inflight && c.inflight[req].Marked? && IsFresh(c.db, draw)
  }

  function End(c: Conc, req: nat): Conc {
    c.(inflight := c.inflight - {req})
  }

  function Advance(c: Conc, req: nat, r: Rotation): Conc {
    c.(inflight := c.inflight[req := r])
  }

  // The statement after the lookup: pick the matched row, if the lookup returned it.
  function AfterLookup(db: State, raw: RefreshJwt, found: seq<Uuid>): Option<Rotation> {
    match FindByHash(db.rows, found, Sha256(raw))
    case None => if |found| > 0 then Some(Doomed(raw)) else None
    case Some(id) =>
      if db.rows[id].isRevoked then Some(Doomed(raw))
      else Some(Looked(raw, id, db.rows[id].deviceId, db.rows[id].userAgent))
  }

  function Next(cfg: Config, c: Conc, k: Tick): Conc {
    match k.move
    case Other(op) => c.(db := Step(cfg, c.db, Event(k.now, op)))
    case Start(req, raw) => if Verifies(c.db, raw, k.now) then Advance(c, req, Started(raw)) else c
    case ReadUser(req) =>
      if req !in c.inflight then c
      else if IsActive(c.db, c.inflight[req].raw.sub) then Advance(c, req, UserRead(c.inflight[req].raw)) else End(c, req)
    case LookUp(req, found) =>
      if req !in c.inflight then c
      else (match AfterLookup(c.db, c.inflight[req].raw, found)
            case Some(r) => Advance(c, req, r)
            case None => End(c, req))
    case DeleteFamily(req) =>
      if req !in c.inflight then c
      else End(c, req).(db := DropFamily(c.db, c.inflight[req].raw.sub, c.inflight[req].raw.family))
    case Mark(req) =>
      if req !in c.inflight || !c.inflight[req].Looked? then c
      else
        var r := c.inflight[req];
        // updating a row that is gone fails the request
        if r.rowId !in c.db.rows then End(c, req)
        else Advance(c, req, Marked(r.raw, r.device, r.agent)).(db := MarkRevoked(c.db, r.rowId))
    case Store(req, draw) =>
      if req !in c.inflight || !c.inflight[req].Marked? then c
      else
        var r := c.inflight[req];
        End(c, req).(db := Generate(cfg, c.db, k.now, r.raw.sub, Some(r.raw.family), r.device, r.agent, draw))
  }

  ghost predicate IsTrace(cfg: Config, c: Conc, ks: seq<Tick>)
    decreases |ks|
  {
    ks != [] ==> CanMove(c, ks[0]) && IsTrace(cfg, Next(cfg, c, ks[0]), ks[1..])
  }

  function After(cfg: Config, c: Conc, ks: seq<Tick>): Conc
    decreases |ks|
  {
    if ks == [] then c else After(cfg, Next(cfg, c, ks[0]), ks[1..])
  }

  const IDLE := Conc(EMPTY, map[])

  // ---------- One live row per family ----------

  // A rotation that may still store a row: past its mark, or with the row it looked up still there.
  predicate Viable(c: Conc, req: nat) {
    && req in c.inflight
    && (c.inflight[req].Marked? || (c.inflight[req].Looked? && c.inflight[req].rowId in c.db.rows))
  }

  // At most one rotation per family is viable; others may be before their look-up, or have lost
  // their row.
  ghost predicate SoleRotations(c: Conc) {
    forall p, q :: Viable(c, p) && Viable(c, q) && c.inflight[p].raw.family == c.inflight[q].raw.family ==> p == q
  }

  // Row ids and families come from the UUIDs drawn; tokens in flight were issued.
  ghost predicate Accounted(c: Conc) {
    && (forall tok :: tok in c.db.issued ==> tok.family in c.db.drawn)
    && (forall id :: id in c.db.rows ==> id in c.db.drawn && c.db.rows[id].family in c.db.drawn)
    && (forall q :: q in c.inflight ==> c.inflight[q].raw.family in c.db.drawn)
  }

  // What a rotation in flight knows: a looked-up row, if still there, is a row of its family.
  ghost predicate LookedOk(c: Conc) {
    forall q :: q in c.inflight && c.inflight[q].Looked? ==>
      && c.inflight[q].rowId in c.db.drawn
      && (c.inflight[q].rowId in c.db.rows ==>
            && c.db.rows[c.inflight[q].rowId].family == c.inflight[q].raw.family
            && c.db.rows[c.inflight[q].rowId].userId == c.inflight[q].raw.sub)
  }

  // The only live row a viable rotation leaves to its family is the one it will mark.
  ghost predicate OwnRowsOnly(c: Conc) {
    forall q, i :: Viable(c, q) && IsLive(c.db.rows, i) && c.db.rows[i].family == c.inflight[q].raw.family ==>
      c.inflight[q].Looked? && i == c.inflight[q].rowId
  }

  ghost predicate ForkSafe(c: Conc) {
    OneLivePerFamily(c.db.rows) && SoleRotations(c) && OwnRowsOnly(c)
  }

  lemma NextAccounted(cfg: Config, c: Conc, k: Tick)
    requires CanMove(c, k) && Accounted(c)
    ensures Accounted(Next(cfg, c, k))
  {
    if k.move.Other? && k.move.op.Login? {
      assert k.move.op.draw.rowId in DrawnBy(k.move.op.draw) && k.move.op.draw.family in DrawnBy(k.move.op.draw);
    }
    if k.move.Store? {
      assert k.move.draw.rowId in DrawnBy(k.move.draw);
    }
  }

  lemma LookedRow(c: Conc, raw: RefreshJwt, found: seq<Uuid>)
    requires IsLookup(c.db.rows, raw.sub, raw.family, found)
    ensures var r := AfterLookup(c.db, raw, found);
            r.Some? ==>
              && r.value.raw == raw && !r.value.Marked?
              && (r.value.Looked? ==> IsLive(c.db.rows, r.value.rowId) && r.value.rowId in FamilyRows(c.db.rows, raw.sub, raw.family))
  {
  }

  lemma NextLookedOk(cfg: Config, c: Conc, k: Tick)
    requires CanMove(c, k) && Accounted(c) && LookedOk(c)
    ensures LookedOk(Next(cfg, c, k))
  {
    match k.move {
      case Other(op) =>
        if op.Login? { assert op.draw.rowId in DrawnBy(op.draw); }
      case LookUp(req, found) => LookedRow(c, c.inflight[req].raw, found);
      case Store(req, draw) => assert draw.rowId in DrawnBy(draw);
      case _ =>
    }
  }

  // Deleting rows, and ending a rotation, keep the tables safe.
  lemma FewerSafe(c: Conc, c': Conc)
    requires ForkSafe(c)
    requires forall i :: IsLive(c'.db.rows, i) ==> IsLive(c.db.rows, i) && c'.db.rows[i] == c.db.rows[i]
    requires forall q :: Viable(c', q) ==> Viable(c, q) && c'.inflight[q] == c.inflight[q]
    ensures ForkSafe(c')
  {
  }

  lemma OtherSafe(cfg: Config, c: Conc, k: Tick)
    requires CanMove(c, k) && Accounted(c) && LookedOk(c) && ForkSafe(c) && k.move.Other?
    ensures ForkSafe(Next(cfg, c, k))
  {
    var c' := Next(cfg, c, k);
    var op := k.move.op;
    if op.Login? && IsActive(c.db, op.user) {
      assert op.draw.rowId in DrawnBy(op.draw) && op.draw.family in DrawnBy(op.draw);
      assert forall i :: IsLive(c'.db.rows, i) <==> i == op.draw.rowId || IsLive(c.db.rows, i);
      assert forall q :: Viable(c', q) <==> Viable(c, q);
    } else {
      FewerSafe(c, c');
    }
  }

  lemma MarkSafe(cfg: Config, c: Conc, k: Tick)
    requires CanMove(c, k) && LookedOk(c) && ForkSafe(c) && k.move.Mark?
    ensures ForkSafe(Next(cfg, c, k))
  {
    var c' := Next(cfg, c, k);
    var r := c.inflight[k.move.req];
    assert forall i :: IsLive(c'.db.rows, i) <==> IsLive(c.db.rows, i) && i != r.rowId;
    assert forall q :: Viable(c', q) <==> Viable(c, q);
  }

  lemma StoreSafe(cfg: Config, c: Conc, k: Tick)
    requires CanMove(c, k) && Accounted(c) && LookedOk(c) && ForkSafe(c) && k.move.Store?
    ensures ForkSafe(Next(cfg, c, k))
  {
    var c' := Next(cfg, c, k);
    var d := k.move.draw;
    assert d.rowId in DrawnBy(d) && Viable(c, k.move.req);
    assert forall i :: IsLive(c'.db.rows, i) <==> i == d.rowId || IsLive(c.db.rows, i);
    assert forall q :: Viable(c', q) <==> Viable(c, q) && q != k.move.req;
  }

  // Every statement but a look-up keeps the tables safe.
  lemma NextSafe(cfg: Config, c: Conc, k: Tick)
    requires CanMove(c, k) && Accounted(c) && LookedOk(c) && ForkSafe(c) && !k.move.LookUp?
    ensures ForkSafe(Next(cfg, c, k))
  {
    match k.move {
      case Other(_) => OtherSafe(cfg, c, k);
      case Mark(_) => MarkSafe(cfg, c, k);
      case Store(_, _) => StoreSafe(cfg, c, k);
      case _ => FewerSafe(c, Next(cfg, c, k));
    }
  }

  // A look-up keeps them safe exactly if it finds no live row of a family that already has a
  // viable rotation.
  lemma LookUpSafeIff(cfg: Config, c: Conc, k: Tick)
    requires CanMove(c, k) && LookedOk(c) && ForkSafe(c) && k.move.LookUp?
    ensures ForkSafe(Next(cfg, c, k)) <==>
      (Viable(Next(cfg, c, k), k.move.req) ==>
         forall p :: Viable(c, p) ==> c.inflight[p].raw.family != c.inflight[k.move.req].raw.family)
  {
    var req, c' := k.move.req, Next(cfg, c, k);
    LookedRow(c, c.inflight[req].raw, k.move.found);
    assert forall p :: p != req ==> (Viable(c', p) <==> Viable(c, p));
    assert !Viable(c, req);
    if Viable(c', req) {
      assert IsLive(c.db.rows, c'.inflight[req].rowId);
      if p :| Viable(c, p) && c.inflight[p].raw.family == c.inflight[req].raw.family {
        assert Viable(c', p) && p != req;
        assert !SoleRotations(c');
      }
    } else {
      FewerSafe(c, c');
    }
  }

  ghost predicate AlwaysSole(cfg: Config, c: Conc, ks: seq<Tick>)
    decreases |ks|
  {
    SoleRotations(c) && (ks != [] ==> AlwaysSole(cfg, Next(cfg, c, ks[0]), ks[1..]))
  }

  lemma {:induction false} TraceKeeps(cfg: Config, c: Conc, ks: seq<Tick>)
    requires IsTrace(cfg, c, ks) && Accounted(c) && LookedOk(c)
    ensures Accounted(After(cfg, c, ks)) && LookedOk(After(cfg, c, ks))
    ensures ForkSafe(c) && AlwaysSole(cfg, c, ks) ==> ForkSafe(After(cfg, c, ks))
    decreases |ks|
  {
    if ks != [] {
      NextAccounted(cfg, c, ks[0]);
      NextLookedOk(cfg, c, ks[0]);
      if ForkSafe(c) && AlwaysSole(cfg, c, ks) {
        assert AlwaysSole(cfg, Next(cfg, c, ks[0]), ks[1..]);
        SoleStepSafe(cfg, c, ks[0]);
      }
      TraceKeeps(cfg, Next(cfg, c, ks[0]), ks[1..]);
    }
  }

  lemma SoleStepSafe(cfg: Config, c: Conc, k: Tick)
    requires CanMove(c, k) && Accounted(c) && LookedOk(c) && ForkSafe(c) && SoleRotations(Next(cfg, c, k))
    ensures ForkSafe(Next(cfg, c, k))
  {
    if k.move.LookUp? {
      LookUpSafeIff(cfg, c, k);
      var c' := Next(cfg, c, k);
      forall p | Viable(c', k.move.req) && Viable(c, p)
        ensures c.inflight[p].raw.family != c.inflight[k.move.req].raw.family
      {
        LookedRow(c, c.inflight[k.move.req].raw, k.move.found);
        assert p != k.move.req && Viable(c', p);
      }
    } else {
      NextSafe(cfg, c, k);
    }
  }

  // However statements interleave: while no family has two viable rotations, no family has two
  // live rows.
  lemma OneLiveRowUnderInterleaving(cfg: Config, ks: seq<Tick>)
    requires IsTrace(cfg, IDLE, ks) && AlwaysSole(cfg, IDLE, ks)
    ensures OneLivePerFamily(After(cfg, IDLE, ks).db.rows)
  {
    TraceKeeps(cfg, IDLE, ks);
  }

  // ---------- When can a family fork? ----------

  predicate NoLookUp(ks: seq<Tick>) {
    forall k :: k in ks ==> !k.move.LookUp?
  }

  // Whatever the rotations in flight and everybody else do before the next look-up.
  ghost predicate NeverForks(cfg: Config, c: Conc) {
    forall ks :: IsTrace(cfg, c, ks) && NoLookUp(ks) ==> OneLivePerFamily(After(cfg, c, ks).db.rows)
  }

  lemma {:induction false} StaysSafe(cfg: Config, c: Conc, ks: seq<Tick>)
    requires IsTrace(cfg, c, ks) && NoLookUp(ks) && Accounted(c) && LookedOk(c) && ForkSafe(c)
    ensures ForkSafe(After(cfg, c, ks))
    decreases |ks|
  {
    if ks != [] {
      NextAccounted(cfg, c, ks[0]);
      NextLookedOk(cfg, c, ks[0]);
      NextSafe(cfg, c, ks[0]);
      StaysSafe(cfg, Next(cfg, c, ks[0]), ks[1..]);
    }
  }

  // Storing leaves the family a new live row and every other row as it was.
  lemma StoreAdds(cfg: Config, c: Conc, q: nat, d: Draw)
    requires q in c.inflight && c.inflight[q].Marked? && IsFresh(c.db, d) && Accounted(c)
    ensures var c' := Next(cfg, c, Tick(0, Store(q, d)));
            && CanMove(c, Tick(0, Store(q, d)))
            && c'.inflight == c.inflight - {q}
            && IsLive(c'.db.rows, d.rowId) && c'.db.rows[d.rowId].family == c.inflight[q].raw.family
            && (forall i :: i in c.db.rows ==> i != d.rowId && i in c'.db.rows && c'.db.rows[i] == c.db.rows[i])
  {
    assert d.rowId in DrawnBy(d);
  }

  // A viable rotation can run to its end: it revokes at most the row it looked up, and its family
  // gets a new live row.
  lemma RunsToEnd(cfg: Config, c: Conc, q: nat) returns (ks: seq<Tick>, id: Uuid)
    requires Accounted(c) && LookedOk(c) && Viable(c, q)
    ensures IsTrace(cfg, c, ks) && NoLookUp(ks) && id !in c.db.drawn
    ensures var c', r := After(cfg, c, ks), c.inflight[q];
            && c'.inflight == c.inflight - {q}
            && IsLive(c'.db.rows, id) && c'.db.rows[id].family == r.raw.family
            && (forall i :: i in c.db.rows ==> i in c'.db.rows && c'.db.rows[i].family == c.db.rows[i].family)
            && (forall i :: IsLive(c.db.rows, i) && (r.Looked? ==> i != r.rowId) ==> IsLive(c'.db.rows, i))
  {
    var c1 := c;
    ks := [];
    if c.inflight[q].Looked? {
      ks := Then(cfg, c, [], Tick(0, Mark(q)));
      c1 := Next(cfg, c, Tick(0, Mark(q)));
      assert c1.db.drawn == c.db.drawn;
    }
    var d := FreshDraw(c1.db.drawn);
    StoreAdds(cfg, c1, q, d);
    ks := Then(cfg, c, ks, Tick(0, Store(q, d)));
    id := d.rowId;
    assert id in DrawnBy(d);
    assert c1.inflight - {q} == c.inflight - {q};
  }

  lemma {:induction false} TracesJoin(cfg: Config, c: Conc, ks: seq<Tick>, ls: seq<Tick>)
    requires IsTrace(cfg, c, ks) && IsTrace(cfg, After(cfg, c, ks), ls)
    ensures IsTrace(cfg, c, ks + ls) && After(cfg, c, ks + ls) == After(cfg, After(cfg, c, ks), ls)
    decreases |ks|
  {
    if ks == [] {
      assert ks + ls == ls;
    } else {
      assert (ks + ls)[1..] == ks[1..] + ls;
      TracesJoin(cfg, Next(cfg, c, ks[0]), ks[1..], ls);
    }
  }

  // Two viable rotations of one family both run to their ends.
  lemma TwoViableFork(cfg: Config, c: Conc, p: nat, q: nat) returns (ks: seq<Tick>)
    requires Accounted(c) && LookedOk(c) && Viable(c, p) && Viable(c, q)
    requires p != q && c.inflight[p].raw.family == c.inflight[q].raw.family
    ensures IsTrace(cfg, c, ks) && NoLookUp(ks) && !OneLivePerFamily(After(cfg, c, ks).db.rows)
  {
    var first, i := RunsToEnd(cfg, c, p);
    var c1 := After(cfg, c, first);
    TraceKeeps(cfg, c, first);
    var second, j := RunsToEnd(cfg, c1, q);
    TracesJoin(cfg, c, first, second);
    ks := first + second;
    var rows := After(cfg, c1, second).db.rows;
    assert i in c1.db.drawn;
    assert IsLive(rows, i) && IsLive(rows, j) && rows[i].family == rows[j].family;
  }

  // A viable rotation runs to its end beside a live row that is not its own.
  lemma OtherRowForks(cfg: Config, c: Conc, q: nat, i: Uuid) returns (ks: seq<Tick>)
    requires Accounted(c) && LookedOk(c) && Viable(c, q) && IsLive(c.db.rows, i)
    requires c.db.rows[i].family == c.inflight[q].raw.family && (c.inflight[q].Looked? ==> i != c.inflight[q].rowId)
    ensures IsTrace(cfg, c, ks) && NoLookUp(ks) && !OneLivePerFamily(After(cfg, c, ks).db.rows)
  {
    var j;
    ks, j := RunsToEnd(cfg, c, q);
    var rows := After(cfg, c, ks).db.rows;
    assert IsLive(rows, i) && IsLive(rows, j) && rows[i].family == rows[j].family;
  }

  // Exactly when: up to the next look-up no interleaving gives a family two live rows if and only
  // if none has two now, no two viable rotations share a family, and a viable rotation's family
  // has no live row but the one that rotation will mark.
  lemma NeverForksIff(cfg: Config, c: Conc)
    requires Accounted(c) && LookedOk(c)
    ensures NeverForks(cfg, c) <==> ForkSafe(c)
  {
    if ForkSafe(c) {
      forall ks | IsTrace(cfg, c, ks) && NoLookUp(ks)
        ensures OneLivePerFamily(After(cfg, c, ks).db.rows)
      {
        StaysSafe(cfg, c, ks);
      }
    } else {
      var ks: seq<Tick> := [];
      if !SoleRotations(c) {
        var p, q :| Viable(c, p) && Viable(c, q) && c.inflight[p].raw.family == c.inflight[q].raw.family && p != q;
        ks := TwoViableFork(cfg, c, p, q);
      } else if !OwnRowsOnly(c) {
        var q, i :| Viable(c, q) && IsLive(c.db.rows, i) && c.db.rows[i].family == c.inflight[q].raw.family
                    && !(c.inflight[q].Looked? && i == c.inflight[q].rowId);
        ks := OtherRowForks(cfg, c, q, i);
      }
      assert IsTrace(cfg, c, ks) && NoLookUp(ks) && !OneLivePerFamily(After(cfg, c, ks).db.rows);
    }
  }

  // ---------- Revocation against a rotation in flight ----------

  // A looked-up row that has been deleted stays deleted, and the mark then ends the rotation
  // without storing anything.
  lemma {:induction false} DeletedStaysDeleted(cfg: Config, c: Conc, ks: seq<Tick>, id: Uuid)
    requires IsTrace(cfg, c, ks) && id in c.db.drawn && id !in c.db.rows
    ensures id in After(cfg, c, ks).db.drawn && id !in After(cfg, c, ks).db.rows
    decreases |ks|
  {
    if ks != [] {
      var k := ks[0];
      assert k.move.Store? ==> k.move.draw.rowId in DrawnBy(k.move.draw);
      assert k.move.Other? && k.move.op.Login? ==> k.move.op.draw.rowId in DrawnBy(k.move.op.draw);
      DeletedStaysDeleted(cfg, Next(cfg, c, k), ks[1..], id);
    }
  }

  lemma RevokedBeforeMark(cfg: Config, c: Conc, ks: seq<Tick>, mark: Tick, id: Uuid)
    requires IsTrace(cfg, c, ks) && id in c.db.drawn && id !in c.db.rows
    requires CanMove(After(cfg, c, ks), mark) && mark.move.Mark?
    requires After(cfg, c, ks).inflight[mark.move.req].rowId == id
    ensures Next(cfg, After(cfg, c, ks), mark) == End(After(cfg, c, ks), mark.move.req)
  {
    DeletedStaysDeleted(cfg, c, ks, id);
  }

  // A rotation of the family that is past its mark.
  ghost predicate HasMarked(c: Conc, user: UserId, family: Uuid) {
    exists q :: q in c.inflight && c.inflight[q].Marked? && c.inflight[q].raw.sub == user && c.inflight[q].raw.family == family
  }

  ghost predicate Gone(c: Conc, user: UserId, family: Uuid) {
    family in c.db.drawn && FamilyRows(c.db.rows, user, family) == {}
  }

  lemma GoneStep(cfg: Config, c: Conc, k: Tick, user: UserId, family: Uuid)
    requires CanMove(c, k) && LookedOk(c) && Gone(c, user, family) && !HasMarked(c, user, family)
    ensures Gone(Next(cfg, c, k), user, family) && !HasMarked(Next(cfg, c, k), user, family)
  {
    var c' := Next(cfg, c, k);
    assert k.move.Other? && k.move.op.Login? ==> k.move.op.draw.family in DrawnBy(k.move.op.draw);
    assert forall i :: i in c.db.rows ==> i !in FamilyRows(c.db.rows, user, family);
    if k.move.LookUp? { LookedRow(c, c.inflight[k.move.req].raw, k.move.found); }
    forall i | i in c'.db.rows
      ensures i !in FamilyRows(c'.db.rows, user, family)
    {
      assert i in c.db.rows ==> i !in FamilyRows(c.db.rows, user, family);
    }
    forall q | q in c'.inflight && c'.inflight[q].Marked?
      ensures !(c'.inflight[q].raw.sub == user && c'.inflight[q].raw.family == family)
    {
      if q in c.inflight && c.inflight[q].Looked? && c.inflight[q].rowId in c.db.rows {
        assert c.inflight[q].rowId !in FamilyRows(c.db.rows, user, family);
      }
    }
  }

  lemma {:induction false} GoneForGood(cfg: Config, c: Conc, ks: seq<Tick>, user: UserId, family: Uuid)
    requires IsTrace(cfg, c, ks) && Accounted(c) && LookedOk(c)
    requires Gone(c, user, family) && !HasMarked(c, user, family)
    ensures Gone(After(cfg, c, ks), user, family)
    decreases |ks|
  {
    if ks != [] {
      GoneStep(cfg, c, ks[0], user, family);
      NextAccounted(cfg, c, ks[0]);
      NextLookedOk(cfg, c, ks[0]);
      GoneForGood(cfg, Next(cfg, c, ks[0]), ks[1..], user, family);
    }
  }

  ghost predicate StaysGone(cfg: Config, c: Conc, user: UserId, family: Uuid) {
    forall ks :: IsTrace(cfg, c, ks) ==> Gone(After(cfg, c, ks), user, family)
  }

  ghost function FreshDraw(drawn: set<Uuid>): (d: Draw)
    ensures DrawnBy(d) !! drawn
  {
    var n := Above(drawn);
    Draw(n, n + 1, n + 2, n + 3)
  }

  ghost function Above(ids: set<Uuid>): (n: Uuid)
    ensures forall id :: id in ids ==> id < n
  {
    if ids == {} then 0 else
      var id :| id in ids;
      var n := Above(ids - {id});
      assert forall i :: i in ids ==> i == id || i in ids - {id};
      if n <= id then id + 1 else n
  }

  // A family emptied by a revocation stays empty under every continuation if and only if no
  // rotation of it was past its mark when the revocation landed.
  lemma RevocationIsFinalIff(cfg: Config, c: Conc, user: UserId, family: Uuid)
    requires Accounted(c) && LookedOk(c) && Gone(c, user, family)
    ensures StaysGone(cfg, c, user, family) <==> !HasMarked(c, user, family)
  {
    if HasMarked(c, user, family) {
      var q :| q in c.inflight && c.inflight[q].Marked? && c.inflight[q].raw.sub == user && c.inflight[q].raw.family == family;
      var d := FreshDraw(c.db.drawn);
      var store := Tick(0, Store(q, d));
      var c' := Next(cfg, c, store);
      assert [store][1..] == [];
      assert IsTrace(cfg, c', []);
      assert IsTrace(cfg, c, [store]) && After(cfg, c, [store]) == c';
      assert d.rowId in FamilyRows(c'.db.rows, user, family);
    } else {
      forall ks | IsTrace(cfg, c, ks)
        ensures Gone(After(cfg, c, ks), user, family)
      {
        GoneForGood(cfg, c, ks, user, family);
      }
    }
  }

  // One step more at the end of a trace.
  lemma {:induction false} Then(cfg: Config, c: Conc, ks: seq<Tick>, k: Tick) returns (longer: seq<Tick>)
    requires IsTrace(cfg, c, ks) && CanMove(After(cfg, c, ks), k)
    ensures longer == ks + [k] && IsTrace(cfg, c, longer) && After(cfg, c, longer) == Next(cfg, After(cfg, c, ks), k)
    decreases |ks|
  {
    longer := ks + [k];
    if ks == [] {
      assert longer[1..] == [];
    } else {
      var rest := Then(cfg, Next(cfg, c, ks[0]), ks[1..], k);
      assert longer[1..] == rest;
    }
  }

  // ---------- Undisturbed, the statements are the atomic step ----------

  // The statements one rotation goes through, by the branch it takes.
  function Moves(s: State, now: Millis, req: nat, raw: RefreshJwt, found: seq<Uuid>, d: Draw): seq<Tick> {
    [Tick(now, Start(req, raw))] +
    (if !Verifies(s, raw, now) then [] else
       [Tick(now, ReadUser(req))] +
       (if !IsActive(s, raw.sub) then [] else
          [Tick(now, LookUp(req, found))] +
          (match Decide(s, raw, now, found)
           case Rotate(_) => [Tick(now, Mark(req)), Tick(now, Store(req, d))]
           case Reused => [Tick(now, DeleteFamily(req))]
           case _ => if |found| > 0 then [Tick(now, DeleteFamily(req))] else [])))
  }

  lemma UpToLookup(cfg: Config, c: Conc, now: Millis, req: nat, raw: RefreshJwt) returns (ks: seq<Tick>)
    requires req !in c.inflight && Verifies(c.db, raw, now) && IsActive(c.db, raw.sub)
    ensures ks == [Tick(now, Start(req, raw)), Tick(now, ReadUser(req))]
    ensures IsTrace(cfg, c, ks) && After(cfg, c, ks) == Advance(c, req, UserRead(raw))
  {
    ks := Then(cfg, c, [], Tick(now, Start(req, raw)));
    ks := Then(cfg, c, ks, Tick(now, ReadUser(req)));
    assert After(cfg, c, ks).inflight == c.inflight[req := UserRead(raw)];
  }

  lemma RefusedEarly(cfg: Config, c: Conc, now: Millis, req: nat, raw: RefreshJwt) returns (ks: seq<Tick>)
    requires req !in c.inflight && !(Verifies(c.db, raw, now) && IsActive(c.db, raw.sub))
    ensures ks == [Tick(now, Start(req, raw))] + if Verifies(c.db, raw, now) then [Tick(now, ReadUser(req))] else []
    ensures IsTrace(cfg, c, ks) && After(cfg, c, ks) == c
  {
    ks := Then(cfg, c, [], Tick(now, Start(req, raw)));
    if Verifies(c.db, raw, now) {
      ks := Then(cfg, c, ks, Tick(now, ReadUser(req)));
    }
    assert After(cfg, c, ks).inflight == c.inflight;
  }

  lemma RotatesAlone(cfg: Config, c: Conc, now: Millis, req: nat, raw: RefreshJwt, found: seq<Uuid>, d: Draw, ks0: seq<Tick>) returns (ks: seq<Tick>)
    requires req !in c.inflight && IsTrace(cfg, c, ks0) && After(cfg, c, ks0) == Advance(c, req, UserRead(raw))
    requires IsFresh(c.db, d) && IsLookup(c.db.rows, raw.sub, raw.family, found) && Decide(c.db, raw, now, found).Rotate?
    ensures ks == ks0 + [Tick(now, LookUp(req, found))] + [Tick(now, Mark(req)), Tick(now, Store(req, d))]
    ensures IsTrace(cfg, c, ks) && After(cfg, c, ks) == c.(db := Refresh(cfg, c.db, now, raw, found, d))
  {
    ks := Then(cfg, c, ks0, Tick(now, LookUp(req, found)));
    ks := Then(cfg, c, ks, Tick(now, Mark(req)));
    ks := Then(cfg, c, ks, Tick(now, Store(req, d)));
    assert After(cfg, c, ks).inflight == c.inflight;
  }

  lemma RefusesAlone(cfg: Config, c: Conc, now: Millis, req: nat, raw: RefreshJwt, found: seq<Uuid>, d: Draw, ks0: seq<Tick>) returns (ks: seq<Tick>)
    requires req !in c.inflight && IsTrace(cfg, c, ks0) && After(cfg, c, ks0) == Advance(c, req, UserRead(raw))
    requires IsLookup(c.db.rows, raw.sub, raw.family, found)
    requires var decision := Decide(c.db, raw, now, found); decision.Reused? || decision.Unmatched?
    ensures ks == ks0 + [Tick(now, LookUp(req, found))] +
      if Decide(c.db, raw, now, found).Reused? || |found| > 0 then [Tick(now, DeleteFamily(req))] else []
    ensures IsTrace(cfg, c, ks) && After(cfg, c, ks) == c.(db := Refresh(cfg, c.db, now, raw, found, d))
  {
    ks := Then(cfg, c, ks0, Tick(now, LookUp(req, found)));
    if Decide(c.db, raw, now, found).Reused? || |found| > 0 {
      ks := Then(cfg, c, ks, Tick(now, DeleteFamily(req)));
    }
    assert After(cfg, c, ks).inflight == c.inflight;
  }

  // Run without anything in between, they have the effect of presenting the token atomically.
  lemma UndisturbedIsAtomic(cfg: Config, c: Conc, now: Millis, req: nat, raw: RefreshJwt, found: seq<Uuid>, d: Draw)
    requires req !in c.inflight && Enabled(c.db, Event(now, Present(raw, found, d)))
    ensures IsTrace(cfg, c, Moves(c.db, now, req, raw, found, d))
    ensures After(cfg, c, Moves(c.db, now, req, raw, found, d)) == c.(db := Step(cfg, c.db, Event(now, Present(raw, found, d))))
  {
    var ks;
    if Verifies(c.db, raw, now) && IsActive(c.db, raw.sub) {
      ks := UpToLookup(cfg, c, now, req, raw);
      if Decide(c.db, raw, now, found).Rotate? {
        ks := RotatesAlone(cfg, c, now, req, raw, found, d, ks);
      } else {
        ks := RefusesAlone(cfg, c, now, req, raw, found, d, ks);
      }
    } else {
      ks := RefusedEarly(cfg, c, now, req, raw);
    }
    assert ks == Moves(c.db, now, req, raw, found, d);
  }

  // ---------- Two rotations of one family ----------

  lemma TokenIssued(cfg: Config) returns (ks: seq<Tick>, row: Row)
    requires cfg.jwtSeconds > 0
    ensures IsTrace(cfg, IDLE, ks)
    ensures var tok := NewJwt(cfg, 0, 7, 2, 1);
            && row.userId == 7 && row.family == 2 && row.tokenHash == Sha256(tok) && !row.isRevoked && row.deviceId.Some?
            && After(cfg, IDLE, ks) == Conc(State(map[7 := true], map[0 := row], {tok}, {0, 1, 2, 3}), map[])
  {
    ks := Then(cfg, IDLE, [], Tick(0, Other(Register(7))));
    ks := Then(cfg, IDLE, ks, Tick(0, Other(Login(7, None, Draw(0, 1, 2, 3)))));
    row := After(cfg, IDLE, ks).db.rows[0];
    assert DrawnBy(Draw(0, 1, 2, 3)) == {0, 1, 2, 3};
  }

  lemma LookedUp(cfg: Config, ks0: seq<Tick>, row: Row, req: nat, others: map<nat, Rotation>) returns (ks: seq<Tick>)
    requires cfg.jwtSeconds > 0 && IsTrace(cfg, IDLE, ks0) && req !in others
    requires row.userId == 7 && row.family == 2 && row.tokenHash == Sha256(NewJwt(cfg, 0, 7, 2, 1)) && !row.isRevoked
    requires After(cfg, IDLE, ks0) == Conc(State(map[7 := true], map[0 := row], {NewJwt(cfg, 0, 7, 2, 1)}, {0, 1, 2, 3}), others)
    ensures IsTrace(cfg, IDLE, ks)
    ensures After(cfg, IDLE, ks) == After(cfg, IDLE, ks0).(
      inflight := others[req := Looked(NewJwt(cfg, 0, 7, 2, 1), 0, row.deviceId, row.userAgent)])
  {
    ks := Then(cfg, IDLE, ks0, Tick(0, Start(req, NewJwt(cfg, 0, 7, 2, 1))));
    ks := Then(cfg, IDLE, ks, Tick(0, ReadUser(req)));
    assert FamilyRows(map[0 := row], 7, 2) == {0};
    ks := Then(cfg, IDLE, ks, Tick(0, LookUp(req, [0])));
  }

  // A store leaves its family a live row, and every other row as it was.
  lemma Stored(cfg: Config, ks0: seq<Tick>, req: nat, d: Draw) returns (ks: seq<Tick>)
    requires IsTrace(cfg, IDLE, ks0) && CanMove(After(cfg, IDLE, ks0), Tick(0, Store(req, d)))
    ensures IsTrace(cfg, IDLE, ks)
    ensures var c, c' := After(cfg, IDLE, ks0), After(cfg, IDLE, ks);
            && c'.inflight == c.inflight - {req} && c'.db.drawn == c.db.drawn + DrawnBy(d)
            && IsLive(c'.db.rows, d.rowId) && c'.db.rows[d.rowId].family == c.inflight[req].raw.family
            && (forall i :: i in c.db.rows && i != d.rowId ==> i in c'.db.rows && c'.db.rows[i] == c.db.rows[i])
  {
    ks := Then(cfg, IDLE, ks0, Tick(0, Store(req, d)));
  }

  // Both rotations are past the look-up: mark, mark.
  lemma BothMark(cfg: Config, ks0: seq<Tick>, tok: RefreshJwt, row: Row) returns (ks: seq<Tick>)
    requires IsTrace(cfg, IDLE, ks0)
    requires var looked := Looked(tok, 0, row.deviceId, row.userAgent);
             After(cfg, IDLE, ks0) == Conc(State(map[7 := true], map[0 := row], {tok}, {0, 1, 2, 3}), map[0 := looked, 1 := looked])
    ensures IsTrace(cfg, IDLE, ks) && After(cfg, IDLE, ks).db.drawn == {0, 1, 2, 3}
    ensures After(cfg, IDLE, ks).inflight ==
      map[0 := Marked(tok, row.deviceId, row.userAgent), 1 := Marked(tok, row.deviceId, row.userAgent)]
  {
    ks := Then(cfg, IDLE, ks0, Tick(0, Mark(0)));
    ks := Then(cfg, IDLE, ks, Tick(0, Mark(1)));
  }

  // And store, store.
  lemma BothStore(cfg: Config, ks0: seq<Tick>, tok: RefreshJwt, row: Row) returns (ks: seq<Tick>)
    requires IsTrace(cfg, IDLE, ks0) && After(cfg, IDLE, ks0).db.drawn == {0, 1, 2, 3}
    requires After(cfg, IDLE, ks0).inflight ==
      map[0 := Marked(tok, row.deviceId, row.userAgent), 1 := Marked(tok, row.deviceId, row.userAgent)]
    ensures IsTrace(cfg, IDLE, ks) && !OneLivePerFamily(After(cfg, IDLE, ks).db.rows)
  {
    ks := Stored(cfg, ks0, 0, Draw(10, 11, 12, 13));
    ks := Stored(cfg, ks, 1, Draw(20, 21, 22, 23));
    var rows := After(cfg, IDLE, ks).db.rows;
    assert IsLive(rows, 10) && IsLive(rows, 20) && rows[10].family == rows[20].family;
  }

  // Why the condition: one token presented twice at once is rotated twice, and its family is
  // left with two live rows.
  lemma ConcurrentRotationsFork(cfg: Config) returns (ks: seq<Tick>)
    requires cfg.jwtSeconds > 0
    ensures IsTrace(cfg, IDLE, ks)
    ensures !OneLivePerFamily(After(cfg, IDLE, ks).db.rows)
  {
    var row;
    ks, row := TokenIssued(cfg);
    ks := LookedUp(cfg, ks, row, 0, map[]);
    ks := LookedUp(cfg, ks, row, 1, After(cfg, IDLE, ks).inflight);
    ks := BothMark(cfg, ks, NewJwt(cfg, 0, 7, 2, 1), row);
    ks := BothStore(cfg, ks, NewJwt(cfg, 0, 7, 2, 1), row);
  }
}
