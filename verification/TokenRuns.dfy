/**
 Properties of whole runs: exactly when a token is accepted, reuse ends the family whatever the
 lookup returns, and a family without rows never gets one again.
 */
module TokenRuns {
  import opened Wrappers
  import opened Collections
  import opened TokenModel
  import opened TokenInvariant
  import opened TokenAccounts

  // The row is live and stores the token.
  predicate IsLiveRow(rows: map<Uuid, Row>, id: Uuid, tok: RefreshJwt) {
    IsLive(rows, id) && rows[id].tokenHash == Sha256(tok)
  }

  ghost predicate HasLiveRow(rows: map<Uuid, Row>, tok: RefreshJwt) {
    exists id :: IsLiveRow(rows, id, tok)
  }

  // ---------- The truncated lookup ----------

  // A family within the bound is returned whole; a family with rows is never returned empty.
  lemma LookupComplete(rows: map<Uuid, Row>, user: UserId, family: Uuid, found: seq<Uuid>)
    requires IsLookup(rows, user, family, found)
    ensures |FamilyRows(rows, user, family)| <= LOOKUP_LIMIT ==>
      forall id :: id in found <==> id in FamilyRows(rows, user, family)
    ensures found == [] <==> FamilyRows(rows, user, family) == {}
  {
    DistinctSize(found);
    SubsetSize(Elements(found), FamilyRows(rows, user, family));
  }

  lemma AcceptedByLiveRow(s: State, raw: RefreshJwt, now: Millis, found: seq<Uuid>)
    requires Inv(s) && IsLookup(s.rows, raw.sub, raw.family, found)
    ensures Decide(s, raw, now, found).Rotate? <==>
      Verifies(s, raw, now) && IsActive(s, raw.sub) && exists id :: id in found && IsLiveRow(s.rows, id, raw)
  {
    var hit := FindByHash(s.rows, found, Sha256(raw));
    forall id | id in found && IsLiveRow(s.rows, id, raw)
      ensures hit == Some(id)
    {
      FamilyStructure(s, id, hit.value);
    }
    if Decide(s, raw, now, found).Rotate? {
      assert IsLiveRow(s.rows, hit.value, raw);
    }
  }

  // At one instant: accepted exactly when the token was issued and has not expired, its user is
  // active, and the lookup returned its live row.
  lemma AcceptedNow(s: State, raw: RefreshJwt, now: Millis, found: seq<Uuid>)
    requires Inv(s) && IsLookup(s.rows, raw.sub, raw.family, found)
    ensures Decide(s, raw, now, found).Rotate? <==>
      && raw in s.issued && now / 1000 < raw.exp
      && raw.sub in s.active && s.active[raw.sub]
      && exists id :: id in found && !s.rows[id].isRevoked && s.rows[id].tokenHash == Sha256(raw)
  {
    AcceptedByLiveRow(s, raw, now, found);
    assert forall id :: id in found ==> (IsLiveRow(s.rows, id, raw) <==> !s.rows[id].isRevoked && s.rows[id].tokenHash == Sha256(raw));
  }

  lemma LiveRowInFamily(s: State, id: Uuid, tok: RefreshJwt)
    requires Inv(s) && IsLiveRow(s.rows, id, tok)
    ensures tok in s.issued
    ensures id in FamilyRows(s.rows, tok.sub, tok.family)
  {
    assert RowOk(s, id, s.rows[id]);
  }

  // ---------- Death of a family ----------

  // A family that has been in use and has no rows.
  ghost predicate IsDead(s: State, user: UserId, family: Uuid) {
    family in s.drawn && FamilyRows(s.rows, user, family) == {}
  }

  lemma DeadStepsDead(cfg: Config, s: State, e: Event, user: UserId, family: Uuid)
    requires Enabled(s, e) && IsDead(s, user, family)
    ensures IsDead(Step(cfg, s, e), user, family)
    ensures e.op.Present? && e.op.raw.sub == user && e.op.raw.family == family ==> Handed(cfg, s, e) == None
  {
    var s' := Step(cfg, s, e);
    match e.op {
      case Login(_, _, d) => assert d.family in DrawnBy(d);
      case Present(raw, found, d) =>
        LookupComplete(s.rows, raw.sub, raw.family, found);
        assert raw.sub == user && raw.family == family ==> !Decide(s, raw, e.now, found).Rotate?;
      case _ =>
    }
    forall id | id in s'.rows
      ensures id !in FamilyRows(s'.rows, user, family)
    {
      assert id !in FamilyRows(s.rows, user, family);
    }
  }

  // A family with no rows never gets a row again, and every token of it is refused.
  lemma {:induction false} DeadStaysDead(cfg: Config, s: State, t: Millis, es: seq<Event>, user: UserId, family: Uuid)
    requires IsDead(s, user, family) && IsRun(cfg, s, t, es)
    ensures IsDead(Run(cfg, s, es), user, family)
    ensures forall k :: 0 <= k < |es| && es[k].op.Present? && es[k].op.raw.sub == user && es[k].op.raw.family == family ==>
      Handed(cfg, Run(cfg, s, es[..k]), es[k]) == None
    decreases |es|
  {
    if es != [] {
      var s1 := Step(cfg, s, es[0]);
      DeadStepsDead(cfg, s, es[0], user, family);
      DeadStaysDead(cfg, s1, es[0].now, es[1..], user, family);
      forall k | 0 <= k < |es| && es[k].op.Present? && es[k].op.raw.sub == user && es[k].op.raw.family == family
        ensures Handed(cfg, Run(cfg, s, es[..k]), es[k]) == None
      {
        if k > 0 {
          assert es[..k][1..] == es[1..][..k - 1];
          assert es[1..][k - 1] == es[k];
        }
      }
    }
  }

  // ---------- Spent tokens ----------

  // Issued, and not stored in any live row: rotated, revoked or pruned.
  ghost predicate IsSpent(s: State, tok: RefreshJwt) {
    tok in s.issued && !HasLiveRow(s.rows, tok)
  }

  lemma SpentStaysSpent(cfg: Config, s: State, e: Event, tok: RefreshJwt)
    requires Inv(s) && Enabled(s, e) && IsSpent(s, tok)
    ensures IsSpent(Step(cfg, s, e), tok)
  {
    var s' := Step(cfg, s, e);
    assert e.op.Login? || e.op.Present? ==> e.op.draw.jti in DrawnBy(e.op.draw);
    forall id
      ensures !IsLiveRow(s'.rows, id, tok)
    {
      assert !IsLiveRow(s.rows, id, tok);
    }
  }

  lemma {:induction false} SpentForever(cfg: Config, s: State, t: Millis, es: seq<Event>, tok: RefreshJwt)
    requires Inv(s) && IsRun(cfg, s, t, es) && IsSpent(s, tok)
    ensures IsSpent(Run(cfg, s, es), tok)
    decreases |es|
  {
    if es != [] {
      StepKeepsInv(cfg, s, es[0]);
      SpentStaysSpent(cfg, s, es[0], tok);
      SpentForever(cfg, Step(cfg, s, es[0]), es[0].now, es[1..], tok);
    }
  }

  // Accepting a token spends it.
  lemma RotationSpends(cfg: Config, s: State, e: Event)
    requires Inv(s) && Enabled(s, e) && e.op.Present? && Handed(cfg, s, e).Some?
    ensures IsSpent(Step(cfg, s, e), e.op.raw)
  {
    var raw, d := e.op.raw, e.op.draw;
    var hit := Decide(s, raw, e.now, e.op.found).rowId;
    assert d.jti in DrawnBy(d) && d.rowId in DrawnBy(d);
    var s' := Step(cfg, s, e);
    forall id
      ensures !IsLiveRow(s'.rows, id, raw)
    {
      if id in s.rows { FamilyStructure(s, id, hit); }
    }
  }

  // A spent token presented while it verifies is refused and leaves its family without rows.
  lemma SpentKillsFamily(cfg: Config, s: State, e: Event)
    requires Inv(s) && Enabled(s, e) && e.op.Present? && IsSpent(s, e.op.raw)
    requires e.now / 1000 < e.op.raw.exp && e.op.raw.sub in s.active && s.active[e.op.raw.sub]
    ensures Handed(cfg, s, e) == None
    ensures IsDead(Step(cfg, s, e), e.op.raw.sub, e.op.raw.family)
  {
    var raw, found := e.op.raw, e.op.found;
    AcceptedByLiveRow(s, raw, e.now, found);
    LookupComplete(s.rows, raw.sub, raw.family, found);
    forall id | id in found
      ensures !IsLiveRow(s.rows, id, raw)
    {
    }
  }

  // Reuse detection over whole runs: a token that was rotated once, presented again while its
  // JWT verifies and its user is active, is refused; the family is left without rows, for good.
  lemma ReuseKillsFamily(cfg: Config, before: seq<Event>, rotate: Event, mid: seq<Event>, again: Event, after: seq<Event>)
    requires IsRun(cfg, EMPTY, 0, before + [rotate] + mid + [again] + after)
    requires rotate.op.Present? && Handed(cfg, Run(cfg, EMPTY, before), rotate).Some?
    requires again.op.Present? && again.op.raw == rotate.op.raw
    requires var s := Run(cfg, EMPTY, before + [rotate] + mid);
             again.now / 1000 < again.op.raw.exp && again.op.raw.sub in s.active && s.active[again.op.raw.sub]
    ensures Handed(cfg, Run(cfg, EMPTY, before + [rotate] + mid), again) == None
    ensures IsDead(Run(cfg, EMPTY, before + [rotate] + mid + [again]), again.op.raw.sub, again.op.raw.family)
    ensures IsDead(Run(cfg, EMPTY, before + [rotate] + mid + [again] + after), again.op.raw.sub, again.op.raw.family)
  {
    var tok := again.op.raw;
    var s0 := Run(cfg, EMPTY, before);
    var s1 := Step(cfg, s0, rotate);
    var s2 := Run(cfg, s1, mid);
    RunThrough(cfg, before, rotate, mid, again, after);
    RunKeepsInv(cfg, EMPTY, 0, before);
    StepKeepsInv(cfg, s0, rotate);
    RotationSpends(cfg, s0, rotate);
    SpentForever(cfg, s1, rotate.now, mid, tok);
    RunKeepsInv(cfg, s1, rotate.now, mid);
    SpentKillsFamily(cfg, s2, again);
    DeadStaysDead(cfg, Step(cfg, s2, again), again.now, after, tok.sub, tok.family);
  }

  // A run cut at two events.
  lemma RunThrough(cfg: Config, before: seq<Event>, e: Event, mid: seq<Event>, f: Event, after: seq<Event>)
    requires IsRun(cfg, EMPTY, 0, before + [e] + mid + [f] + after)
    ensures IsRun(cfg, EMPTY, 0, before)
    ensures var s0 := Run(cfg, EMPTY, before);
            var s1 := Step(cfg, s0, e);
            var s2 := Run(cfg, s1, mid);
            var s3 := Step(cfg, s2, f);
            && Enabled(s0, e) && IsRun(cfg, s1, e.now, mid) && EndTime(e.now, mid) <= f.now
            && Enabled(s2, f) && IsRun(cfg, s3, f.now, after)
            && Run(cfg, EMPTY, before + [e]) == s1
            && Run(cfg, EMPTY, before + [e] + mid) == s2
            && Run(cfg, EMPTY, before + [e] + mid + [f]) == s3
            && Run(cfg, EMPTY, before + [e] + mid + [f] + after) == Run(cfg, s3, after)
            && IsRun(cfg, EMPTY, 0, before + [e] + mid)
  {
    RunSplit(cfg, EMPTY, 0, before + [e] + mid + [f], after);
    RunSplit(cfg, EMPTY, 0, before + [e] + mid, [f]);
    RunSplit(cfg, EMPTY, 0, before + [e], mid);
    RunSplit(cfg, EMPTY, 0, before, [e]);
    RunOne(cfg, Run(cfg, EMPTY, before), EndTime(0, before), e);
    RunOne(cfg, Run(cfg, EMPTY, before + [e] + mid), EndTime(0, before + [e] + mid), f);
    if mid != [] { assert EndTime(0, before + [e] + mid) == EndTime(e.now, mid); }
  }

  // ---------- When is a token accepted? ----------

  // The steps that end the life of a token and of its row: the revocations, presenting a token
  // of the family, and collecting the row once it has expired.
  predicate Ends(s: State, e: Event, tok: RefreshJwt, row: Row) {
    match e.op
    case RevokeAll(user) => user == tok.sub
    case RevokeDevice(user, device) => user == tok.sub && Some(device) == row.deviceId
    case Present(raw, _, _) => raw.family == tok.family && Verifies(s, raw, e.now) && IsActive(s, raw.sub)
    case Prune(user) => user == tok.sub && row.expiresAt < e.now
    case Cleanup => row.expiresAt < e.now
    case _ => false
  }

  ghost predicate Undisturbed(cfg: Config, s: State, es: seq<Event>, tok: RefreshJwt, row: Row)
    decreases |es|
  {
    es == [] || (!Ends(s, es[0], tok, row) && Undisturbed(cfg, Step(cfg, s, es[0]), es[1..], tok, row))
  }

  // The live row of a token.
  ghost predicate IsSession(s: State, id: Uuid, tok: RefreshJwt, row: Row) {
    IsLiveRow(s.rows, id, tok) && s.rows[id] == row
  }

  lemma SessionSurvives(cfg: Config, s: State, e: Event, id: Uuid, tok: RefreshJwt, row: Row)
    requires Inv(s) && Enabled(s, e) && IsSession(s, id, tok, row) && !Ends(s, e, tok, row)
    ensures IsSession(Step(cfg, s, e), id, tok, row)
  {
    LiveRowInFamily(s, id, tok);
    match e.op {
      case Login(_, _, d) =>
        assert d.rowId in DrawnBy(d);
        assert RowOk(s, id, s.rows[id]);
      case Present(raw, found, d) =>
        assert d.rowId in DrawnBy(d);
        assert RowOk(s, id, s.rows[id]);
        if Verifies(s, raw, e.now) && IsActive(s, raw.sub) {
          assert raw.family != tok.family;
        }
      case _ =>
    }
  }

  lemma SessionEnds(cfg: Config, s: State, e: Event, id: Uuid, tok: RefreshJwt, row: Row)
    requires Inv(s) && Enabled(s, e) && IsSession(s, id, tok, row) && Ends(s, e, tok, row)
    ensures IsSpent(Step(cfg, s, e), tok)
  {
    LiveRowInFamily(s, id, tok);
    var s' := Step(cfg, s, e);
    match e.op {
      case Present(raw, found, d) =>
        assert raw.sub == tok.sub;
        LookupComplete(s.rows, raw.sub, raw.family, found);
        var decision := Decide(s, raw, e.now, found);
        if decision.Rotate? {
          FamilyStructure(s, decision.rowId, id);
          RotationSpends(cfg, s, e);
        }
      case _ =>
    }
    forall i
      ensures !IsLiveRow(s'.rows, i, tok)
    {
      if i in s.rows { FamilyStructure(s, i, id); }
    }
  }

  // Along any run the live row is there at the end exactly when nothing ended it.
  lemma {:induction false} SessionIffUndisturbed(cfg: Config, s: State, t: Millis, es: seq<Event>, id: Uuid, tok: RefreshJwt, row: Row)
    requires Inv(s) && IsRun(cfg, s, t, es) && IsSession(s, id, tok, row)
    ensures Undisturbed(cfg, s, es, tok, row) ==> IsSession(Run(cfg, s, es), id, tok, row)
    ensures !Undisturbed(cfg, s, es, tok, row) ==> IsSpent(Run(cfg, s, es), tok)
    decreases |es|
  {
    if es != [] {
      var s1 := Step(cfg, s, es[0]);
      StepKeepsInv(cfg, s, es[0]);
      if Ends(s, es[0], tok, row) {
        SessionEnds(cfg, s, es[0], id, tok, row);
        SpentForever(cfg, s1, es[0].now, es[1..], tok);
      } else {
        SessionSurvives(cfg, s, es[0], id, tok, row);
        SessionIffUndisturbed(cfg, s1, es[0].now, es[1..], id, tok, row);
      }
    }
  }

  // Handing out a token opens a session on the row just stored.
  lemma HandedOpensSession(cfg: Config, s: State, e: Event)
    requires Inv(s) && Enabled(s, e) && Handed(cfg, s, e).Some?
    ensures var s' := Step(cfg, s, e);
            && e.op.draw.rowId in s'.rows
            && IsSession(s', e.op.draw.rowId, Handed(cfg, s, e).value, s'.rows[e.op.draw.rowId])
  {
  }

  // With sound lifetimes no prune or clean-up ends a session whose token still verifies.
  lemma CollectionsEndNothing(cfg: Config, s: State, issue: Event, tok: RefreshJwt, later: State, e: Event)
    requires Sound(cfg) && Handed(cfg, s, issue) == Some(tok)
    requires (e.op.Prune? || e.op.Cleanup?) && Verifies(later, tok, e.now)
    ensures issue.op.draw.rowId in Step(cfg, s, issue).rows
    ensures !Ends(later, e, tok, Step(cfg, s, issue).rows[issue.op.draw.rowId])
  {
  }

  // The same from a reachable state on: the run `mid` lies between handing out and presenting.
  lemma AcceptedIffFrom(cfg: Config, s0: State, issue: Event, mid: seq<Event>, present: Event, tok: RefreshJwt)
    requires Inv(s0) && Enabled(s0, issue) && Handed(cfg, s0, issue) == Some(tok)
    requires IsRun(cfg, Step(cfg, s0, issue), issue.now, mid)
    requires var s2 := Run(cfg, Step(cfg, s0, issue), mid);
             Enabled(s2, present) && |FamilyRows(s2.rows, tok.sub, tok.family)| <= LOOKUP_LIMIT
    requires present.op.Present? && present.op.raw == tok
    ensures var s1 := Step(cfg, s0, issue);
            var s2 := Run(cfg, s1, mid);
            && issue.op.draw.rowId in s1.rows
            && (Handed(cfg, s2, present).Some? <==>
                && Verifies(s2, tok, present.now) && IsActive(s2, tok.sub)
                && Undisturbed(cfg, s1, mid, tok, s1.rows[issue.op.draw.rowId]))
  {
    var s1 := Step(cfg, s0, issue);
    var s2 := Run(cfg, s1, mid);
    var id := issue.op.draw.rowId;
    StepKeepsInv(cfg, s0, issue);
    RunKeepsInv(cfg, s1, issue.now, mid);
    HandedOpensSession(cfg, s0, issue);
    AcceptedByLiveRow(s2, tok, present.now, present.op.found);
    SessionIffUndisturbed(cfg, s1, issue.now, mid, id, tok, s1.rows[id]);
    LookupComplete(s2.rows, tok.sub, tok.family, present.op.found);
    if Undisturbed(cfg, s1, mid, tok, s1.rows[id]) {
      LiveRowInFamily(s2, id, tok);
      assert id in present.op.found && IsLiveRow(s2.rows, id, tok);
    }
  }

  // A run cut at an event and before its last one.
  lemma RunCut(cfg: Config, before: seq<Event>, e: Event, mid: seq<Event>, last: Event)
    requires IsRun(cfg, EMPTY, 0, before + [e] + mid + [last])
    ensures var s0 := Run(cfg, EMPTY, before);
            var s1 := Step(cfg, s0, e);
            && IsRun(cfg, EMPTY, 0, before) && Enabled(s0, e) && IsRun(cfg, s1, e.now, mid)
            && Run(cfg, EMPTY, before + [e] + mid) == Run(cfg, s1, mid) && Enabled(Run(cfg, s1, mid), last)
            && IsRun(cfg, EMPTY, 0, before + [e] + mid)
  {
    assert before + [e] + mid + [last] + [] == before + [e] + mid + [last];
    RunThrough(cfg, before, e, mid, last, []);
  }

  lemma AcceptedIffState(cfg: Config, before: seq<Event>, issue: Event, mid: seq<Event>, present: Event, tok: RefreshJwt)
    requires IsRun(cfg, EMPTY, 0, before + [issue] + mid + [present])
    requires Handed(cfg, Run(cfg, EMPTY, before), issue) == Some(tok)
    requires present.op.Present? && present.op.raw == tok
    requires Backlog(cfg, EMPTY, before + [issue] + mid, tok.sub, tok.family, 0) < LOOKUP_LIMIT
    ensures var s1 := Step(cfg, Run(cfg, EMPTY, before), issue);
            var s2 := Run(cfg, s1, mid);
            && issue.op.draw.rowId in s1.rows && tok in s1.issued
            && s2 == Run(cfg, EMPTY, before + [issue] + mid) && IsRun(cfg, EMPTY, 0, before + [issue] + mid)
            && (Handed(cfg, s2, present).Some? <==>
                && Verifies(s2, tok, present.now) && IsActive(s2, tok.sub)
                && Undisturbed(cfg, s1, mid, tok, s1.rows[issue.op.draw.rowId]))
  {
    RunCut(cfg, before, issue, mid, present);
    ReachableInv(cfg, before);
    WithinLookup(cfg, before + [issue] + mid, tok.sub, tok.family);
    AcceptedIffFrom(cfg, Run(cfg, EMPTY, before), issue, mid, present, tok);
  }

  // A token handed out carries its time of issue and the configured lifetime.
  lemma HandedExpiry(cfg: Config, s: State, e: Event, tok: RefreshJwt)
    requires Handed(cfg, s, e) == Some(tok)
    ensures tok.exp == e.now / 1000 + cfg.jwtSeconds
  {
  }

  // The whole protocol in one statement, for every expiry setting. A token handed out at one
  // point of a run is accepted at a later point if and only if its lifetime is not over, its user
  // has not been deactivated, and in between nobody revoked the user's tokens or this device, nor
  // effectively presented a token of its family, nor was its row collected after expiring;
  // provided fewer than 50 rotations of the family went unpruned.
  lemma AcceptedIff(cfg: Config, before: seq<Event>, issue: Event, mid: seq<Event>, present: Event, tok: RefreshJwt)
    requires IsRun(cfg, EMPTY, 0, before + [issue] + mid + [present])
    requires Handed(cfg, Run(cfg, EMPTY, before), issue) == Some(tok)
    requires present.op.Present? && present.op.raw == tok
    requires Backlog(cfg, EMPTY, before + [issue] + mid, tok.sub, tok.family, 0) < 50
    ensures var s1 := Step(cfg, Run(cfg, EMPTY, before), issue);
            var s2 := Run(cfg, s1, mid);
            && issue.op.draw.rowId in s1.rows
            && (Handed(cfg, s2, present).Some? <==>
                && present.now / 1000 < issue.now / 1000 + cfg.jwtSeconds
                && ActiveAfter(before + [issue] + mid, tok.sub)
                && Undisturbed(cfg, s1, mid, tok, s1.rows[issue.op.draw.rowId]))
  {
    AcceptedIffState(cfg, before, issue, mid, present, tok);
    ActiveIff(cfg, before + [issue] + mid, tok.sub);
    HandedExpiry(cfg, Run(cfg, EMPTY, before), issue, tok);
    IssuedStays(cfg, Step(cfg, Run(cfg, EMPTY, before), issue), mid, tok);
  }

  // ---------- How many rows can a family have? ----------

  // Rotations of the family since the user's rows were last pruned.
  function Backlog(cfg: Config, s: State, es: seq<Event>, user: UserId, family: Uuid, n: nat): nat
    decreases |es|
  {
    if es == [] then n
    else Backlog(cfg, Step(cfg, s, es[0]), es[1..], user, family, BacklogAfter(cfg, s, es[0], user, family, n))
  }

  function BacklogAfter(cfg: Config, s: State, e: Event, user: UserId, family: Uuid, n: nat): nat {
    match e.op
    case Prune(u) => if u == user then 0 else n
    case Cleanup => 0
    case Present(raw, _, _) => if raw.family == family && Handed(cfg, s, e).Some? then n + 1 else n
    case _ => n
  }

  // A step brings a family at most the row it stores; without handing out a token, none.
  lemma StepAddsOne(cfg: Config, s: State, e: Event, user: UserId, family: Uuid)
    requires Enabled(s, e)
    ensures var grown := FamilyRows(Step(cfg, s, e).rows, user, family);
            if Handed(cfg, s, e).Some? && Handed(cfg, s, e).value.family == family
            then grown <= FamilyRows(s.rows, user, family) + {e.op.draw.rowId}
            else grown <= FamilyRows(s.rows, user, family)
  {
    if e.op.Login? || e.op.Present? {
      assert e.op.draw.rowId in DrawnBy(e.op.draw);
    }
  }

  lemma StepBounded(cfg: Config, s: State, e: Event, user: UserId, family: Uuid, n: nat)
    requires Inv(s) && Enabled(s, e) && |FamilyRows(s.rows, user, family)| <= 1 + n
    ensures |FamilyRows(Step(cfg, s, e).rows, user, family)| <= 1 + BacklogAfter(cfg, s, e, user, family, n)
  {
    if e.op.Cleanup? || e.op == Prune(user) {
      OnlyLiveLeft(s, e.now, FamilyRows(Step(cfg, s, e).rows, user, family), family);
    } else {
      StepAddsOne(cfg, s, e, user, family);
      GrownBy(FamilyRows(s.rows, user, family), FamilyRows(Step(cfg, s, e).rows, user, family), if Handed(cfg, s, e).Some? then e.op.draw.rowId else 0);
      if e.op.Login? { NewFamilyEmpty(s, e.op.draw, user); }
    }
  }

  lemma GrownBy(before: set<Uuid>, after: set<Uuid>, id: Uuid)
    ensures after <= before ==> |after| <= |before|
    ensures after <= before + {id} ==> |after| <= |before| + 1
  {
    if after <= before { SubsetSize(after, before); }
    if after <= before + {id} { SubsetSize(after, before + {id}); }
  }

  lemma NewFamilyEmpty(s: State, d: Draw, user: UserId)
    requires Inv(s) && IsFresh(s, d)
    ensures FamilyRows(s.rows, user, d.family) == {}
  {
    assert d.family in DrawnBy(d);
    forall id | id in s.rows ensures s.rows[id].family != d.family { assert RowOk(s, id, s.rows[id]); }
  }

  lemma OnlyLiveLeft(s: State, now: Millis, left: set<Uuid>, family: Uuid)
    requires Inv(s)
    requires forall id :: id in left ==> id in s.rows && s.rows[id].family == family && !IsStale(s.rows[id], now)
    ensures |left| <= 1
  {
    if left != {} {
      var id :| id in left;
      forall i | i in left ensures i == id { FamilyStructure(s, i, id); }
      SubsetSize(left, {id});
    }
  }

  // A family has at most one row more than the rotations since the last prune of its user.
  lemma {:induction false} FamilyBounded(cfg: Config, s: State, t: Millis, es: seq<Event>, user: UserId, family: Uuid, n: nat)
    requires Inv(s) && IsRun(cfg, s, t, es) && |FamilyRows(s.rows, user, family)| <= 1 + n
    ensures |FamilyRows(Run(cfg, s, es).rows, user, family)| <= 1 + Backlog(cfg, s, es, user, family, n)
    decreases |es|
  {
    if es != [] {
      StepKeepsInv(cfg, s, es[0]);
      StepBounded(cfg, s, es[0], user, family, n);
      FamilyBounded(cfg, Step(cfg, s, es[0]), es[0].now, es[1..], user, family, BacklogAfter(cfg, s, es[0], user, family, n));
    }
  }

  lemma WithinLookup(cfg: Config, es: seq<Event>, user: UserId, family: Uuid)
    requires IsRun(cfg, EMPTY, 0, es) && Backlog(cfg, EMPTY, es, user, family, 0) < LOOKUP_LIMIT
    ensures |FamilyRows(Run(cfg, EMPTY, es).rows, user, family)| <= LOOKUP_LIMIT
  {
    FamilyBounded(cfg, EMPTY, 0, es, user, family, 0);
  }

  // ---------- The bound of the lookup is exact ----------

  lemma {:induction false} Listing(ids: set<Uuid>, n: nat) returns (found: seq<Uuid>)
    requires n <= |ids|
    ensures |found| == n && Distinct(found)
    ensures forall id :: id in found ==> id in ids
    decreases n
  {
    if n == 0 {
      found := [];
    } else {
      var id :| id in ids;
      var rest := Listing(ids - {id}, n - 1);
      found := [id] + rest;
    }
  }

  // A live, verifying token of an active user is accepted whatever the lookup returns if and
  // only if its family has at most 50 rows. Past that, a lookup may miss the live row; the
  // token is then treated as reused.
  lemma AlwaysAcceptedIff(s: State, id: Uuid, tok: RefreshJwt, now: Millis)
    requires Inv(s) && IsLiveRow(s.rows, id, tok) && Verifies(s, tok, now) && IsActive(s, tok.sub)
    ensures (forall found :: IsLookup(s.rows, tok.sub, tok.family, found) ==> Decide(s, tok, now, found).Rotate?)
       <==> |FamilyRows(s.rows, tok.sub, tok.family)| <= 50
  {
    LiveRowInFamily(s, id, tok);
    var rows := FamilyRows(s.rows, tok.sub, tok.family);
    if |rows| <= LOOKUP_LIMIT {
      forall found | IsLookup(s.rows, tok.sub, tok.family, found)
        ensures Decide(s, tok, now, found).Rotate?
      {
        LookupComplete(s.rows, tok.sub, tok.family, found);
        AcceptedByLiveRow(s, tok, now, found);
      }
    } else {
      assert rows == (rows - {id}) + {id};
      var found := Listing(rows - {id}, LOOKUP_LIMIT);
      assert IsLookup(s.rows, tok.sub, tok.family, found);
      AcceptedByLiveRow(s, tok, now, found);
      forall i | i in found ensures !IsLiveRow(s.rows, i, tok) {
        FamilyStructure(s, i, id);
      }
    }
  }

  // ---------- Signing out one device ----------

  function RevokeDeviceOf(cfg: Config, s: State, now: Millis, row: Row): State
    requires row.deviceId.Some?
  {
    Step(cfg, s, Event(now, RevokeDevice(row.userId, row.deviceId.value)))
  }

  // Revoking the device of a row ends exactly the family of that row.
  lemma RevokeDeviceEndsOneFamily(cfg: Config, s: State, now: Millis, id: Uuid)
    requires Inv(s) && id in s.rows
    ensures s.rows[id].deviceId.Some?
    ensures IsDead(RevokeDeviceOf(cfg, s, now, s.rows[id]), s.rows[id].userId, s.rows[id].family)
    ensures RevokeDeviceOf(cfg, s, now, s.rows[id]).rows == map i | i in s.rows && s.rows[i].family != s.rows[id].family :: s.rows[i]
  {
    assert RowOk(s, id, s.rows[id]) && s.rows[id].tokenHash.preimage in s.issued;
    forall i | i in s.rows
      ensures i in DeviceRows(s.rows, s.rows[id].userId, s.rows[id].deviceId.value) <==> s.rows[i].family == s.rows[id].family
    {
      FamilyStructure(s, i, id);
    }
  }

  // No answer about a token of another family changes, under the same lookups.
  lemma RevokeDeviceKeepsAnswers(cfg: Config, s: State, now: Millis, id: Uuid, raw: RefreshJwt, at: Millis, found: seq<Uuid>)
    requires Inv(s) && id in s.rows && s.rows[id].deviceId.Some? && raw.family != s.rows[id].family
    ensures var s' := RevokeDeviceOf(cfg, s, now, s.rows[id]);
            && (IsLookup(s'.rows, raw.sub, raw.family, found) <==> IsLookup(s.rows, raw.sub, raw.family, found))
            && (IsLookup(s.rows, raw.sub, raw.family, found) ==> Decide(s', raw, at, found) == Decide(s, raw, at, found))
  {
    var s' := RevokeDeviceOf(cfg, s, now, s.rows[id]);
    RevokeDeviceEndsOneFamily(cfg, s, now, id);
    assert FamilyRows(s'.rows, raw.sub, raw.family) == FamilyRows(s.rows, raw.sub, raw.family);
    if IsLookup(s.rows, raw.sub, raw.family, found) {
      FindAgrees(s.rows, s'.rows, found, Sha256(raw));
    }
  }

  lemma {:induction false} FindAgrees(a: map<Uuid, Row>, b: map<Uuid, Row>, found: seq<Uuid>, hash: Digest)
    requires forall id :: id in found ==> id in a && id in b && a[id] == b[id]
    ensures FindByHash(a, found, hash) == FindByHash(b, found, hash)
  {
    if found != [] {
      FindAgrees(a, b, found[1..], hash);
    }
  }
}
