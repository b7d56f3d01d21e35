/**
 Garbage collection is invisible. Two runs that serve the same requests, with prunes and
 clean-ups wherever each of them has them, hand out the same tokens, refuse the same ones,
 and end with the same unexpired live rows.
 */
module TokenPruning {
  import opened Wrappers
  import opened TokenModel
  import opened TokenInvariant
  import opened TokenRuns

  predicate IsCollection(e: Event) {
    e.op.Prune? || e.op.Cleanup?
  }

  // The request in an event: what the lookup happened to return is not part of it.
  function Request(e: Event): Event {
    if e.op.Present? then e.(op := e.op.(found := [])) else e
  }

  function Requests(es: seq<Event>): seq<Event> {
    if es == [] then []
    else if IsCollection(es[0]) then Requests(es[1..])
    else [Request(es[0])] + Requests(es[1..])
  }

  // What the requests of a run are answered with.
  function Answers(cfg: Config, s: State, es: seq<Event>): seq<Option<RefreshJwt>>
    decreases |es|
  {
    if es == [] then []
    else if IsCollection(es[0]) then Answers(cfg, Step(cfg, s, es[0]), es[1..])
    else [Handed(cfg, s, es[0])] + Answers(cfg, Step(cfg, s, es[0]), es[1..])
  }

  // No presented token belongs to a family larger than a lookup returns.
  predicate WithinLimit(cfg: Config, s: State, es: seq<Event>)
    decreases |es|
  {
    es != [] ==>
      && (es[0].op.Present? ==> |FamilyRows(s.rows, es[0].op.raw.sub, es[0].op.raw.family)| <= LOOKUP_LIMIT)
      && WithinLimit(cfg, Step(cfg, s, es[0]), es[1..])
  }

  predicate LiveAt(rows: map<Uuid, Row>, id: Uuid, t: Millis) {
    id in rows && !IsStale(rows[id], t)
  }

  ghost predicate SameLiveRows(a: map<Uuid, Row>, b: map<Uuid, Row>, t: Millis) {
    forall id :: (LiveAt(a, id, t) <==> LiveAt(b, id, t)) && (LiveAt(a, id, t) ==> a[id] == b[id])
  }

  // The simulation relation.
  ghost predicate Alike(a: State, b: State, t: Millis) {
    a.active == b.active && a.issued == b.issued && a.drawn == b.drawn && SameLiveRows(a.rows, b.rows, t)
  }

  // A reachable state under sound lifetimes.
  ghost predicate Timed(s: State) {
    Inv(s) && ExpiriesOk(s)
  }

  lemma StepKeepsTimed(cfg: Config, s: State, e: Event)
    requires Sound(cfg) && Timed(s) && Enabled(s, e)
    ensures Timed(Step(cfg, s, e))
  {
    StepKeepsInv(cfg, s, e);
    StepKeepsExpiries(cfg, s, e);
  }

  lemma AlikeLater(a: State, b: State, t: Millis, t': Millis)
    requires Alike(a, b, t) && t <= t'
    ensures Alike(a, b, t') && Alike(b, a, t')
  {
    forall id
      ensures (LiveAt(a.rows, id, t') <==> LiveAt(b.rows, id, t')) && (LiveAt(a.rows, id, t') ==> a.rows[id] == b.rows[id])
    {
      assert LiveAt(a.rows, id, t') ==> LiveAt(a.rows, id, t);
      assert LiveAt(b.rows, id, t') ==> LiveAt(b.rows, id, t);
    }
  }

  lemma CollectionAlike(cfg: Config, a: State, b: State, t: Millis, e: Event)
    requires Alike(a, b, t) && IsCollection(e)
    ensures Alike(Step(cfg, a, e), b, if t <= e.now then e.now else t)
  {
    var t' := if t <= e.now then e.now else t;
    AlikeLater(a, b, t, t');
    var a' := Step(cfg, a, e);
    assert forall id :: LiveAt(a'.rows, id, t') <==> LiveAt(a.rows, id, t');
  }

  // Under complete lookups both sides take the same branch, up to the two kinds of refusal.
  lemma DecisionsAlike(a: State, b: State, raw: RefreshJwt, now: Millis, fa: seq<Uuid>, fb: seq<Uuid>)
    requires Timed(a) && Timed(b) && Alike(a, b, now)
    requires IsLookup(a.rows, raw.sub, raw.family, fa) && |FamilyRows(a.rows, raw.sub, raw.family)| <= LOOKUP_LIMIT
    requires IsLookup(b.rows, raw.sub, raw.family, fb) && |FamilyRows(b.rows, raw.sub, raw.family)| <= LOOKUP_LIMIT
    ensures Decide(a, raw, now, fa).Rotate? ==> Decide(b, raw, now, fb) == Decide(a, raw, now, fa)
  {
    var decision := Decide(a, raw, now, fa);
    if decision.Rotate? {
      var id := decision.rowId;
      assert IsLiveRow(a.rows, id, raw);
      LiveRowInFamily(a, id, raw);
      assert LiveAt(a.rows, id, now) && LiveAt(b.rows, id, now);
      assert IsLiveRow(b.rows, id, raw);
      LiveRowInFamily(b, id, raw);
      LookupComplete(b.rows, raw.sub, raw.family, fb);
      AcceptedByLiveRow(b, raw, now, fb);
      FamilyStructure(b, id, Decide(b, raw, now, fb).rowId);
    }
  }

  // A refusal of a verifying token of an active user leaves its family without rows.
  lemma RefusalEmpties(cfg: Config, s: State, e: Event)
    requires Enabled(s, e) && e.op.Present? && !Decide(s, e.op.raw, e.now, e.op.found).Rotate?
    requires Verifies(s, e.op.raw, e.now) && IsActive(s, e.op.raw.sub)
    ensures Step(cfg, s, e) == DropFamily(s, e.op.raw.sub, e.op.raw.family)
  {
    LookupComplete(s.rows, e.op.raw.sub, e.op.raw.family, e.op.found);
    var dropped := DropFamily(s, e.op.raw.sub, e.op.raw.family);
    if FamilyRows(s.rows, e.op.raw.sub, e.op.raw.family) == {} {
      assert dropped.rows == s.rows;
    }
  }

  // What an accepted token does to the live rows: its row goes, the new one comes.
  lemma RotatedLive(cfg: Config, s: State, e: Event)
    requires Timed(s) && Enabled(s, e) && e.op.Present? && Decide(s, e.op.raw, e.now, e.op.found).Rotate?
    ensures var id := Decide(s, e.op.raw, e.now, e.op.found).rowId;
            var s' := Step(cfg, s, e);
            && LiveAt(s.rows, id, e.now)
            && (forall i :: LiveAt(s'.rows, i, e.now) <==> i == e.op.draw.rowId || (i != id && LiveAt(s.rows, i, e.now)))
            && (forall i :: i != e.op.draw.rowId && LiveAt(s'.rows, i, e.now) ==> s'.rows[i] == s.rows[i])
            && s'.rows[e.op.draw.rowId] == NewRow(cfg, e.now, NewJwt(cfg, e.now, e.op.raw.sub, e.op.raw.family, e.op.draw.jti),
                                                  s.rows[id].deviceId.value, s.rows[id].userAgent)
  {
    var id := Decide(s, e.op.raw, e.now, e.op.found).rowId;
    assert IsLiveRow(s.rows, id, e.op.raw);
    LiveRowInFamily(s, id, e.op.raw);
    assert RowOk(s, id, s.rows[id]) && e.op.draw.rowId in DrawnBy(e.op.draw);
  }

  // An accepted token: the same row is marked and the same row is stored on both sides.
  lemma RotationAlike(cfg: Config, a: State, b: State, e: Event, f: Event)
    requires Timed(a) && Timed(b) && Alike(a, b, e.now) && Request(e) == Request(f) && e.op.Present?
    requires Enabled(a, e) && Enabled(b, f)
    requires Decide(a, e.op.raw, e.now, e.op.found).Rotate?
    requires Decide(b, e.op.raw, e.now, f.op.found) == Decide(a, e.op.raw, e.now, e.op.found)
    ensures Alike(Step(cfg, a, e), Step(cfg, b, f), e.now)
  {
    RotatedLive(cfg, a, e);
    RotatedLive(cfg, b, f);
  }

  lemma PresentAlike(cfg: Config, a: State, b: State, e: Event, f: Event)
    requires Timed(a) && Timed(b) && Alike(a, b, e.now) && Request(e) == Request(f) && e.op.Present?
    requires Enabled(a, e) && WithinLimit(cfg, a, [e])
    requires Enabled(b, f) && WithinLimit(cfg, b, [f])
    ensures Handed(cfg, a, e) == Handed(cfg, b, f)
    ensures Alike(Step(cfg, a, e), Step(cfg, b, f), e.now)
  {
    var raw, now := e.op.raw, e.now;
    AlikeLater(a, b, now, now);
    DecisionsAlike(a, b, raw, now, e.op.found, f.op.found);
    DecisionsAlike(b, a, raw, now, f.op.found, e.op.found);
    if Decide(a, raw, now, e.op.found).Rotate? {
      RotationAlike(cfg, a, b, e, f);
    } else if Verifies(a, raw, now) && IsActive(a, raw.sub) {
      RefusalEmpties(cfg, a, e);
      RefusalEmpties(cfg, b, f);
      DropAlike(a, b, now, FamilyRows(a.rows, raw.sub, raw.family), FamilyRows(b.rows, raw.sub, raw.family));
    }
  }

  // Dropping the same live rows on both sides.
  lemma DropAlike(a: State, b: State, t: Millis, da: set<Uuid>, db: set<Uuid>)
    requires Alike(a, b, t)
    requires forall id :: LiveAt(a.rows, id, t) ==> (id in da <==> id in db)
    ensures Alike(a.(rows := a.rows - da), b.(rows := b.rows - db), t)
  {
    var a', b' := a.rows - da, b.rows - db;
    assert forall id :: LiveAt(a', id, t) <==> LiveAt(a.rows, id, t) && id !in da;
    assert forall id :: LiveAt(b', id, t) <==> LiveAt(b.rows, id, t) && id !in db;
  }

  lemma LoginAlike(cfg: Config, a: State, b: State, e: Event)
    requires Alike(a, b, e.now) && e.op.Login?
    ensures Alike(Step(cfg, a, e), Step(cfg, b, e), e.now)
  {
    var a', b', id := Step(cfg, a, e), Step(cfg, b, e), e.op.draw.rowId;
    assert forall i :: i != id ==> (LiveAt(a'.rows, i, e.now) <==> LiveAt(a.rows, i, e.now));
    assert forall i :: i != id ==> (LiveAt(b'.rows, i, e.now) <==> LiveAt(b.rows, i, e.now));
  }

  lemma RequestAlike(cfg: Config, a: State, b: State, e: Event, f: Event)
    requires Timed(a) && Timed(b) && Alike(a, b, e.now) && Request(e) == Request(f) && !IsCollection(e)
    requires Enabled(a, e) && WithinLimit(cfg, a, [e])
    requires Enabled(b, f) && WithinLimit(cfg, b, [f])
    ensures Handed(cfg, a, e) == Handed(cfg, b, f)
    ensures Alike(Step(cfg, a, e), Step(cfg, b, f), e.now)
  {
    assert f == e || (e.op.Present? && f.op.Present?);
    match e.op {
      case Present(_, _, _) => PresentAlike(cfg, a, b, e, f);
      case Login(_, _, _) => LoginAlike(cfg, a, b, e);
      case RevokeAll(user) => DropAlike(a, b, e.now, UserRows(a.rows, user), UserRows(b.rows, user));
      case RevokeDevice(user, device) => DropAlike(a, b, e.now, DeviceRows(a.rows, user, device), DeviceRows(b.rows, user, device));
      case _ =>
    }
  }

  function Later(t: Millis, t': Millis): Millis {
    if t <= t' then t' else t
  }

  lemma HeadsMatch(es: seq<Event>, fs: seq<Event>)
    requires Requests(es) == Requests(fs)
    requires es == [] || !IsCollection(es[0])
    requires fs == [] || !IsCollection(fs[0])
    ensures es == [] <==> fs == []
    ensures es != [] ==> Request(es[0]) == Request(fs[0]) && Requests(es[1..]) == Requests(fs[1..])
  {
    assert es != [] ==> Requests(es)[0] == Request(es[0]) && Requests(es)[1..] == Requests(es[1..]);
    assert fs != [] ==> Requests(fs)[0] == Request(fs[0]) && Requests(fs)[1..] == Requests(fs[1..]);
  }

  // One collection more on one side.
  lemma CollectionStep(cfg: Config, a: State, ta: Millis, e: Event, b: State, tb: Millis)
    requires Sound(cfg) && Timed(a) && Alike(a, b, Later(ta, tb)) && Enabled(a, e) && IsCollection(e) && ta <= e.now
    ensures var a' := Step(cfg, a, e);
            Timed(a') && Alike(a', b, Later(e.now, tb)) && Alike(b, a', Later(tb, e.now))
  {
    StepKeepsTimed(cfg, a, e);
    CollectionAlike(cfg, a, b, Later(ta, tb), e);
    AlikeLater(Step(cfg, a, e), b, Later(e.now, tb), Later(e.now, tb));
  }

  // The same request on both sides.
  lemma RequestStep(cfg: Config, a: State, ta: Millis, e: Event, b: State, tb: Millis, f: Event)
    requires Sound(cfg) && Timed(a) && Timed(b) && Alike(a, b, Later(ta, tb)) && ta <= e.now && tb <= f.now
    requires Request(e) == Request(f) && !IsCollection(e)
    requires Enabled(a, e) && WithinLimit(cfg, a, [e])
    requires Enabled(b, f) && WithinLimit(cfg, b, [f])
    ensures Handed(cfg, a, e) == Handed(cfg, b, f)
    ensures var a', b' := Step(cfg, a, e), Step(cfg, b, f);
            Timed(a') && Timed(b') && Alike(a', b', Later(e.now, f.now))
  {
    AlikeLater(a, b, Later(ta, tb), e.now);
    StepKeepsTimed(cfg, a, e);
    StepKeepsTimed(cfg, b, f);
    RequestAlike(cfg, a, b, e, f);
  }

  lemma FirstStep(cfg: Config, s: State, t: Millis, es: seq<Event>)
    requires es != [] && IsRun(cfg, s, t, es) && WithinLimit(cfg, s, es)
    ensures t <= es[0].now && Enabled(s, es[0]) && WithinLimit(cfg, s, [es[0]])
    ensures IsRun(cfg, Step(cfg, s, es[0]), es[0].now, es[1..]) && WithinLimit(cfg, Step(cfg, s, es[0]), es[1..])
    ensures Run(cfg, s, es) == Run(cfg, Step(cfg, s, es[0]), es[1..])
    ensures EndTime(t, es) == EndTime(es[0].now, es[1..])
    ensures Answers(cfg, s, es) ==
      (if IsCollection(es[0]) then [] else [Handed(cfg, s, es[0])]) + Answers(cfg, Step(cfg, s, es[0]), es[1..])
  {
    assert [es[0]][1..] == [];
  }

  // The simulation, from related states.
  lemma {:induction false} Simulation(cfg: Config, a: State, ta: Millis, es: seq<Event>, b: State, tb: Millis, fs: seq<Event>)
    requires Sound(cfg) && Timed(a) && Timed(b) && Alike(a, b, Later(ta, tb))
    requires IsRun(cfg, a, ta, es) && WithinLimit(cfg, a, es)
    requires IsRun(cfg, b, tb, fs) && WithinLimit(cfg, b, fs)
    requires Requests(es) == Requests(fs)
    ensures Answers(cfg, a, es) == Answers(cfg, b, fs)
    ensures Alike(Run(cfg, a, es), Run(cfg, b, fs), Later(EndTime(ta, es), EndTime(tb, fs)))
    decreases |es| + |fs|
  {
    if es != [] && IsCollection(es[0]) {
      FirstStep(cfg, a, ta, es);
      CollectionStep(cfg, a, ta, es[0], b, tb);
      Simulation(cfg, Step(cfg, a, es[0]), es[0].now, es[1..], b, tb, fs);
    } else if fs != [] && IsCollection(fs[0]) {
      FirstStep(cfg, b, tb, fs);
      AlikeLater(a, b, Later(ta, tb), Later(tb, ta));
      CollectionStep(cfg, b, tb, fs[0], a, ta);
      Simulation(cfg, a, ta, es, Step(cfg, b, fs[0]), fs[0].now, fs[1..]);
    } else {
      HeadsMatch(es, fs);
      if es != [] {
        FirstStep(cfg, a, ta, es);
        FirstStep(cfg, b, tb, fs);
        RequestStep(cfg, a, ta, es[0], b, tb, fs[0]);
        Simulation(cfg, Step(cfg, a, es[0]), es[0].now, es[1..], Step(cfg, b, fs[0]), fs[0].now, fs[1..]);
      }
    }
  }

  // Two runs from the empty tables with the same requests.
  ghost predicate SameRequests(cfg: Config, es: seq<Event>, fs: seq<Event>) {
    && IsRun(cfg, EMPTY, 0, es) && WithinLimit(cfg, EMPTY, es)
    && IsRun(cfg, EMPTY, 0, fs) && WithinLimit(cfg, EMPTY, fs)
    && Requests(es) == Requests(fs)
  }

  // They give the same answers and end with the same unexpired live rows.
  ghost predicate SameOutcome(cfg: Config, es: seq<Event>, fs: seq<Event>) {
    && Answers(cfg, EMPTY, es) == Answers(cfg, EMPTY, fs)
    && SameLiveRows(Run(cfg, EMPTY, es).rows, Run(cfg, EMPTY, fs).rows, Later(EndTime(0, es), EndTime(0, fs)))
  }

  lemma CollectionIsInvisible(cfg: Config, es: seq<Event>, fs: seq<Event>)
    requires Sound(cfg) && SameRequests(cfg, es, fs)
    ensures SameOutcome(cfg, es, fs)
  {
    Simulation(cfg, EMPTY, 0, es, EMPTY, 0, fs);
  }

  // ---------- Sound lifetimes are needed ----------

  lemma Prepended(cfg: Config, s: State, t: Millis, e: Event, rest: seq<Event>)
    ensures IsRun(cfg, s, t, [e] + rest) <==> t <= e.now && Enabled(s, e) && IsRun(cfg, Step(cfg, s, e), e.now, rest)
    ensures WithinLimit(cfg, s, [e] + rest) <==>
      && (e.op.Present? ==> |FamilyRows(s.rows, e.op.raw.sub, e.op.raw.family)| <= LOOKUP_LIMIT)
      && WithinLimit(cfg, Step(cfg, s, e), rest)
    ensures Requests([e] + rest) == (if IsCollection(e) then [] else [Request(e)]) + Requests(rest)
    ensures Answers(cfg, s, [e] + rest) ==
      (if IsCollection(e) then [] else [Handed(cfg, s, e)]) + Answers(cfg, Step(cfg, s, e), rest)
  {
    assert ([e] + rest)[1..] == rest;
  }

  function Issued(cfg: Config): RefreshJwt {
    NewJwt(cfg, 0, 0, 2, 1)
  }

  // The tables after user 0 has registered and logged in at time 0.
  function LoggedIn(cfg: Config): State {
    State(map[0 := true], map[0 := NewRow(cfg, 0, Issued(cfg), 3, None)], {Issued(cfg)}, {0, 1, 2, 3})
  }

  // A run that goes on from there.
  lemma FromLogin(cfg: Config, rest: seq<Event>) returns (es: seq<Event>)
    requires IsRun(cfg, LoggedIn(cfg), 0, rest) && WithinLimit(cfg, LoggedIn(cfg), rest)
    ensures IsRun(cfg, EMPTY, 0, es) && WithinLimit(cfg, EMPTY, es)
    ensures Requests(es) == [Event(0, Register(0)), Event(0, Login(0, None, Draw(0, 1, 2, 3)))] + Requests(rest)
    ensures Answers(cfg, EMPTY, es) == [None, Some(Issued(cfg))] + Answers(cfg, LoggedIn(cfg), rest)
  {
    var register, login := Event(0, Register(0)), Event(0, Login(0, None, Draw(0, 1, 2, 3)));
    var registered := Step(cfg, EMPTY, register);
    assert DrawnBy(Draw(0, 1, 2, 3)) == {0, 1, 2, 3};
    assert Step(cfg, registered, login) == LoggedIn(cfg);
    Prepended(cfg, registered, 0, login, rest);
    Prepended(cfg, EMPTY, 0, register, [login] + rest);
    es := [register] + ([login] + rest);
  }

  // Presenting the token, with nothing after it.
  lemma PresentLast(cfg: Config, s: State, t: Millis, now: Millis, found: seq<Uuid>) returns (rest: seq<Event>)
    requires t <= now && IsLookup(s.rows, 0, 2, found) && {4, 5, 6, 7} !! s.drawn && |FamilyRows(s.rows, 0, 2)| <= LOOKUP_LIMIT
    ensures var e := Event(now, Present(Issued(cfg), found, Draw(4, 5, 6, 7)));
            && rest == [e] && IsRun(cfg, s, t, rest) && WithinLimit(cfg, s, rest)
            && Requests(rest) == [Event(now, Present(Issued(cfg), [], Draw(4, 5, 6, 7)))]
            && Answers(cfg, s, rest) == [Handed(cfg, s, e)]
  {
    var e := Event(now, Present(Issued(cfg), found, Draw(4, 5, 6, 7)));
    assert DrawnBy(Draw(4, 5, 6, 7)) == {4, 5, 6, 7};
    Prepended(cfg, s, t, e, []);
    rest := [e] + [];
    assert rest == [e];
  }

  // Just before the token stops verifying its row is stale.
  lemma CleanedUp(cfg: Config, now: Millis)
    requires !Sound(cfg) && now == cfg.jwtSeconds * 1000 - 1
    ensures Step(cfg, LoggedIn(cfg), Event(now, Cleanup)) == LoggedIn(cfg).(rows := map[])
    ensures FamilyRows(LoggedIn(cfg).rows, 0, 2) == {0} && FamilyRows(map[], 0, 2) == {}
  {
    assert IsStale(LoggedIn(cfg).rows[0], now);
  }

  lemma AcceptedOrRefused(cfg: Config, now: Millis, d: Draw)
    requires now == cfg.jwtSeconds * 1000 - 1
    ensures Handed(cfg, LoggedIn(cfg), Event(now, Present(Issued(cfg), [0], d))).Some?
    ensures Handed(cfg, LoggedIn(cfg).(rows := map[]), Event(now, Present(Issued(cfg), [], d))).None?
  {
  }

  // With unsound lifetimes a clean-up between the row's expiry and the token's makes a
  // difference: the token is accepted without it and refused after it.
  lemma CleanupShows(cfg: Config) returns (es: seq<Event>, fs: seq<Event>)
    requires !Sound(cfg)
    ensures SameRequests(cfg, es, fs) && Answers(cfg, EMPTY, es) != Answers(cfg, EMPTY, fs)
  {
    var now := cfg.jwtSeconds * 1000 - 1;
    var cleanup := Event(now, Cleanup);
    CleanedUp(cfg, now);
    var kept := PresentLast(cfg, LoggedIn(cfg), 0, now, [0]);
    var refused := PresentLast(cfg, LoggedIn(cfg).(rows := map[]), now, now, []);
    Prepended(cfg, LoggedIn(cfg), 0, cleanup, refused);
    es := FromLogin(cfg, kept);
    fs := FromLogin(cfg, [cleanup] + refused);
    AcceptedOrRefused(cfg, now, Draw(4, 5, 6, 7));
    assert Answers(cfg, EMPTY, es)[2] != Answers(cfg, EMPTY, fs)[2];
  }

  // Exactly when: collections are invisible in every pair of runs if and only if a row outlives
  // its token.
  lemma InvisibleIffSound(cfg: Config)
    ensures (forall es, fs :: SameRequests(cfg, es, fs) ==> SameOutcome(cfg, es, fs)) <==> cfg.jwtSeconds * 1000 <= cfg.rowMillis + 1
  {
    if Sound(cfg) {
      forall es, fs | SameRequests(cfg, es, fs)
        ensures SameOutcome(cfg, es, fs)
      {
        CollectionIsInvisible(cfg, es, fs);
      }
    } else {
      var es, fs := CleanupShows(cfg);
      assert SameRequests(cfg, es, fs) && !SameOutcome(cfg, es, fs);
    }
  }
}
