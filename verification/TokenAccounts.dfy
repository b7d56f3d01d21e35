/**
 What registration and deactivation decide about logins and refresh tokens, and which tokens are
 known at all; over whole runs, told by the events.
 */
module TokenAccounts {
  import opened Wrappers
  import opened TokenModel

  // ---------- Is the user active? ----------

  // The last that happened to the user's account was its registration.
  ghost predicate ActiveAfter(es: seq<Event>, user: UserId) {
    exists i :: IsLastChange(es, user, i)
  }

  ghost predicate IsLastChange(es: seq<Event>, user: UserId, i: int) {
    0 <= i < |es| && es[i].op == Register(user) && forall j :: i < j < |es| ==> es[j].op != Deactivate(user)
  }

  lemma {:induction false} ActiveIff(cfg: Config, es: seq<Event>, user: UserId)
    requires IsRun(cfg, EMPTY, 0, es)
    ensures IsActive(Run(cfg, EMPTY, es), user) <==> ActiveAfter(es, user)
    ensures user in Run(cfg, EMPTY, es).active <==> exists i :: 0 <= i < |es| && es[i].op == Register(user)
  {
    if es != [] {
      var n := |es| - 1;
      var before, e := es[..n], es[n];
      assert es == before + [e];
      RunSplit(cfg, EMPTY, 0, before, [e]);
      RunOne(cfg, Run(cfg, EMPTY, before), EndTime(0, before), e);
      ActiveIff(cfg, before, user);
      ActiveStep(before, e, user);
      assert forall i :: 0 <= i < n ==> es[i] == before[i];
      assert forall i :: 0 <= i < n ==> before[i] == es[i];
    }
  }

  lemma ActiveStep(before: seq<Event>, e: Event, user: UserId)
    ensures ActiveAfter(before + [e], user) <==> e.op == Register(user) || (e.op != Deactivate(user) && ActiveAfter(before, user))
  {
    var es, n := before + [e], |before|;
    if e.op == Register(user) {
      assert IsLastChange(es, user, n);
    }
    if i :| IsLastChange(before, user, i) {
      assert e.op != Deactivate(user) ==> IsLastChange(es, user, i);
    }
    if i :| IsLastChange(es, user, i) {
      assert forall j :: 0 <= j < n ==> before[j] == es[j];
      assert i < n ==> es[n].op != Deactivate(user) && IsLastChange(before, user, i);
    }
  }

  // ---------- What the account decides ----------

  // A user registered and not deactivated since gets a session at every login, on a row of its
  // own in a new family on a new device.
  lemma LoginOfActive(cfg: Config, es: seq<Event>, now: Millis, user: UserId, userAgent: Option<string>, d: Draw)
    requires IsRun(cfg, EMPTY, 0, es + [Event(now, Login(user, userAgent, d))]) && ActiveAfter(es, user)
    ensures var s, login := Run(cfg, EMPTY, es), Event(now, Login(user, userAgent, d));
            var tok := RefreshJwt(user, d.jti, d.family, now / 1000 + cfg.jwtSeconds);
            && Handed(cfg, s, login) == Some(tok)
            && Run(cfg, EMPTY, es + [login]).rows == s.rows[d.rowId :=
                 Row(user, Sha256(tok), now + cfg.rowMillis, false, d.jti, d.family, Some(d.device), userAgent, Some(now), now)]
            && Run(cfg, EMPTY, es + [login]).issued == s.issued + {tok}
  {
    LastEvent(cfg, es, Event(now, Login(user, userAgent, d)));
    ActiveIff(cfg, es, user);
  }

  // Once deactivated, a user gets nothing: no later login and no later refresh token hands out
  // anything or changes a table, and a token that still verifies is answered with "inactive".
  lemma DeactivatedGetsNothing(cfg: Config, before: seq<Event>, now: Millis, user: UserId, mid: seq<Event>, e: Event)
    requires IsRun(cfg, EMPTY, 0, before + [Event(now, Deactivate(user))] + mid + [e])
    requires exists i :: 0 <= i < |before| && before[i].op == Register(user)
    requires (e.op.Login? && e.op.user == user) || (e.op.Present? && e.op.raw.sub == user)
    ensures var es := before + [Event(now, Deactivate(user))] + mid;
            && Handed(cfg, Run(cfg, EMPTY, es), e) == None
            && Run(cfg, EMPTY, es + [e]) == Run(cfg, EMPTY, es)
            && (e.op.Present? && e.op.raw in Run(cfg, EMPTY, es).issued && e.now / 1000 < e.op.raw.exp ==>
                  Decide(Run(cfg, EMPTY, es), e.op.raw, e.now, e.op.found) == Inactive)
  {
    var es := before + [Event(now, Deactivate(user))] + mid;
    LastEvent(cfg, es, e);
    NeverActiveAgain(cfg, before, now, user, mid);
    ActiveIff(cfg, es, user);
  }

  // A user id is registered once.
  lemma {:induction false} NeverActiveAgain(cfg: Config, before: seq<Event>, now: Millis, user: UserId, mid: seq<Event>)
    requires IsRun(cfg, EMPTY, 0, before + [Event(now, Deactivate(user))] + mid)
    requires exists i :: 0 <= i < |before| && before[i].op == Register(user)
    ensures !ActiveAfter(before + [Event(now, Deactivate(user))] + mid, user)
    decreases |mid|
  {
    var gone := before + [Event(now, Deactivate(user))];
    if mid == [] {
      assert gone + mid == gone;
      ActiveStep(before, Event(now, Deactivate(user)), user);
    } else {
      var rest, last := mid[..|mid| - 1], mid[|mid| - 1];
      assert gone + mid == gone + rest + [last];
      LastEvent(cfg, gone + rest, last);
      NeverActiveAgain(cfg, before, now, user, rest);
      ActiveStep(gone + rest, last, user);
      ActiveIff(cfg, gone + rest, user);
      var i :| 0 <= i < |before| && before[i].op == Register(user);
      assert (gone + rest)[i] == before[i];
    }
  }

  // ---------- Which tokens are known? ----------

  lemma IssuedStep(cfg: Config, s: State, e: Event, tok: RefreshJwt)
    ensures tok in Step(cfg, s, e).issued <==> tok in s.issued || Handed(cfg, s, e) == Some(tok)
  {
  }

  // The tokens on record are those that were handed out.
  lemma {:induction false} IssuedWereHanded(cfg: Config, es: seq<Event>, tok: RefreshJwt)
    requires IsRun(cfg, EMPTY, 0, es)
    ensures tok in Run(cfg, EMPTY, es).issued <==> exists i :: 0 <= i < |es| && Handed(cfg, Run(cfg, EMPTY, es[..i]), es[i]) == Some(tok)
  {
    if es != [] {
      var n := |es| - 1;
      var before := es[..n];
      assert es == before + [es[n]];
      LastEvent(cfg, before, es[n]);
      IssuedWereHanded(cfg, before, tok);
      IssuedStep(cfg, Run(cfg, EMPTY, before), es[n], tok);
      assert forall i :: 0 <= i < n ==> before[..i] == es[..i] && before[i] == es[i];
      assert es[..n] == before;
    }
  }

  // Any other token, and one whose time is up, is refused and changes nothing.
  lemma ForgedOrExpired(cfg: Config, es: seq<Event>, e: Event)
    requires IsRun(cfg, EMPTY, 0, es + [e]) && e.op.Present?
    requires e.op.raw.exp <= e.now / 1000 ||
             forall i :: 0 <= i < |es| ==> Handed(cfg, Run(cfg, EMPTY, es[..i]), es[i]) != Some(e.op.raw)
    ensures Handed(cfg, Run(cfg, EMPTY, es), e) == None && Run(cfg, EMPTY, es + [e]) == Run(cfg, EMPTY, es)
    ensures Decide(Run(cfg, EMPTY, es), e.op.raw, e.now, e.op.found) == Invalid
  {
    LastEvent(cfg, es, e);
    IssuedWereHanded(cfg, es, e.op.raw);
  }

  // "Inactive" is the answer exactly to a known token in its lifetime whose user is not active.
  lemma InactiveIff(cfg: Config, es: seq<Event>, e: Event)
    requires IsRun(cfg, EMPTY, 0, es + [e]) && e.op.Present?
    ensures Decide(Run(cfg, EMPTY, es), e.op.raw, e.now, e.op.found) == Inactive <==>
      && e.now / 1000 < e.op.raw.exp && !ActiveAfter(es, e.op.raw.sub)
      && exists i :: 0 <= i < |es| && Handed(cfg, Run(cfg, EMPTY, es[..i]), es[i]) == Some(e.op.raw)
  {
    LastEvent(cfg, es, e);
    ActiveIff(cfg, es, e.op.raw.sub);
    IssuedWereHanded(cfg, es, e.op.raw);
  }

  lemma {:induction false} IssuedStays(cfg: Config, s: State, es: seq<Event>, tok: RefreshJwt)
    requires tok in s.issued
    ensures tok in Run(cfg, s, es).issued
    decreases |es|
  {
    if es != [] {
      IssuedStays(cfg, Step(cfg, s, es[0]), es[1..], tok);
    }
  }
}
