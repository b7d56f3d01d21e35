/**
 The token service as it runs: the rows it inserts, updates and deletes. Each method is tied to
 the step it performs on the tables.
 */
module TokenServices {
  import opened Wrappers
  import opened TokenModel
  import opened TokenInvariant
  import opened TokenRuns
  import opened SessionListing

  datatype Refusal = InvalidToken | UserInactive | AlreadyUsed | FamilyRevoked

  datatype Outcome = Rotated(refreshToken: RefreshJwt, userId: UserId) | Unauthorized(reason: Refusal)

  class TokenService {
    const cfg: Config
    var active: map<UserId, bool>
    var rows: map<Uuid, Row>
    var issued: set<RefreshJwt>
    var drawn: set<Uuid>

    function View(): State
      reads this
    {
      State(active, rows, issued, drawn)
    }

    constructor (cfg: Config)
      ensures View() == EMPTY && this.cfg == cfg
    {
      this.cfg := cfg;
      active, rows, issued, drawn := map[], map[], {}, {};
    }

    method GenerateRefreshToken(now: Millis, user: UserId, existingFamily: Option<Uuid>, deviceId: Option<Uuid>,
                                userAgent: Option<string>, draw: Draw)
      returns (rawToken: RefreshJwt)
      modifies this
      ensures View() == Generate(cfg, old(View()), now, user, existingFamily, deviceId, userAgent, draw)
      ensures rawToken == RefreshJwt(user, draw.jti, GetOr(existingFamily, draw.family), now / 1000 + cfg.jwtSeconds)
      ensures rows == old(rows)[draw.rowId := Row(user, Sha256(rawToken), now + cfg.rowMillis, false, draw.jti,
                GetOr(existingFamily, draw.family), Some(GetOr(deviceId, draw.device)), userAgent, Some(now), now)]
      ensures issued == old(issued) + {rawToken} && active == old(active)
    {
      drawn := drawn + DrawnBy(draw);
      var family := if existingFamily.Some? then existingFamily.value else draw.family;
      var device := if deviceId.Some? then deviceId.value else draw.device;
      rawToken := RefreshJwt(user, draw.jti, family, now / 1000 + cfg.jwtSeconds);
      issued := issued + {rawToken};
      rows := rows[draw.rowId := Row(user, Sha256(rawToken), now + cfg.rowMillis, false, draw.jti, family,
                                     Some(device), userAgent, Some(now), now)];
    }

    method RotateRefreshToken(now: Millis, raw: RefreshJwt, found: seq<Uuid>, draw: Draw) returns (outcome: Outcome)
      requires IsLookup(rows, raw.sub, raw.family, found)
      modifies this
      ensures View() == Refresh(cfg, old(View()), now, raw, found, draw)
      ensures outcome == Unauthorized(InvalidToken) <==> raw !in old(issued) || raw.exp <= now / 1000
      ensures outcome == Unauthorized(UserInactive) <==>
        raw in old(issued) && now / 1000 < raw.exp && !(raw.sub in old(active) && old(active)[raw.sub])
      ensures outcome == Unauthorized(AlreadyUsed) <==>
        && raw in old(issued) && now / 1000 < raw.exp && raw.sub in old(active) && old(active)[raw.sub]
        && forall id :: id in found ==> old(rows)[id].tokenHash != Sha256(raw)
      ensures outcome == Unauthorized(FamilyRevoked) ==>
        exists id :: id in found && old(rows)[id].tokenHash == Sha256(raw) && old(rows)[id].isRevoked
      ensures outcome.Rotated? ==>
        && outcome == Rotated(RefreshJwt(raw.sub, draw.jti, raw.family, now / 1000 + cfg.jwtSeconds), raw.sub)
        && exists id :: && id in found && old(rows)[id].tokenHash == Sha256(raw) && !old(rows)[id].isRevoked
                        && rows == old(rows)[id := old(rows)[id].(isRevoked := true)][draw.rowId :=
                             Row(raw.sub, Sha256(outcome.refreshToken), now + cfg.rowMillis, false, draw.jti, raw.family,
                                 Some(GetOr(old(rows)[id].deviceId, draw.device)), old(rows)[id].userAgent, Some(now), now)]
      ensures outcome == Unauthorized(InvalidToken) || outcome == Unauthorized(UserInactive) ==> rows == old(rows)
      ensures outcome == Unauthorized(AlreadyUsed) || outcome == Unauthorized(FamilyRevoked) ==>
        forall id :: id in rows <==> id in old(rows) && !(old(rows)[id].userId == raw.sub && old(rows)[id].family == raw.family)
    {
      if raw !in issued || raw.exp <= now / 1000 {
        return Unauthorized(InvalidToken);
      }
      if raw.sub !in active || !active[raw.sub] {
        return Unauthorized(UserInactive);
      }
      var matched := FindByHash(rows, found, Sha256(raw));
      if matched.None? {
        if |found| > 0 {
          RevokeTokenFamily(raw.sub, raw.family);
        } else {
          LookupComplete(rows, raw.sub, raw.family, found);
          assert forall id :: id in rows ==> id !in FamilyRows(rows, raw.sub, raw.family);
        }
        return Unauthorized(AlreadyUsed);
      }
      var row := rows[matched.value];
      if row.isRevoked {
        RevokeTokenFamily(raw.sub, raw.family);
        return Unauthorized(FamilyRevoked);
      }
      rows := rows[matched.value := row.(isRevoked := true)];
      var next := GenerateRefreshToken(now, raw.sub, Some(raw.family), row.deviceId, row.userAgent, draw);
      return Rotated(next, raw.sub);
    }

    method RevokeTokenFamily(user: UserId, family: Uuid)
      modifies this`rows
      ensures View() == DropFamily(old(View()), user, family)
      ensures rows == map id | id in old(rows) && !(old(rows)[id].userId == user && old(rows)[id].family == family) :: old(rows)[id]
    {
      rows := map id | id in rows && !(rows[id].userId == user && rows[id].family == family) :: rows[id];
    }

    method RevokeAllTokens(user: UserId, now: Millis)
      modifies this`rows
      ensures View() == Step(cfg, old(View()), Event(now, RevokeAll(user)))
      ensures rows == map id | id in old(rows) && old(rows)[id].userId != user :: old(rows)[id]
    {
      rows := map id | id in rows && rows[id].userId != user :: rows[id];
    }

    method RevokeDeviceSession(user: UserId, device: Uuid, now: Millis)
      modifies this`rows
      ensures View() == Step(cfg, old(View()), Event(now, RevokeDevice(user, device)))
      ensures rows == map id | id in old(rows) && !(old(rows)[id].userId == user && old(rows)[id].deviceId == Some(device)) :: old(rows)[id]
    {
      rows := map id | id in rows && !(rows[id].userId == user && rows[id].deviceId == Some(device)) :: rows[id];
    }

    method PruneExpiredTokens(user: UserId, now: Millis)
      modifies this`rows
      ensures View() == Step(cfg, old(View()), Event(now, Prune(user)))
      ensures rows == map id | id in old(rows) && !(old(rows)[id].userId == user && (old(rows)[id].expiresAt < now || old(rows)[id].isRevoked)) :: old(rows)[id]
    {
      rows := map id | id in rows && !(rows[id].userId == user && (rows[id].expiresAt < now || rows[id].isRevoked)) :: rows[id];
    }

    method PurgeExpiredTokens(now: Millis)
      modifies this`rows
      ensures View() == Step(cfg, old(View()), Event(now, Cleanup))
      ensures rows == map id | id in old(rows) && now <= old(rows)[id].expiresAt && !old(rows)[id].isRevoked :: old(rows)[id]
    {
      rows := map id | id in rows && !(rows[id].expiresAt < now || rows[id].isRevoked) :: rows[id];
    }

    // The device of the row that stores the presented token; `found` is what the query returned.
    method GetCurrentDeviceId(user: UserId, raw: Option<RefreshJwt>, found: Option<Uuid>) returns (device: Option<Uuid>)
      requires raw.Some? ==>
        if found.Some? then found.value in rows && rows[found.value].userId == user && rows[found.value].tokenHash == Sha256(raw.value)
        else forall id :: id in rows ==> !(rows[id].userId == user && rows[id].tokenHash == Sha256(raw.value))
      ensures raw.None? ==> device == None
      ensures raw.Some? && device.Some? ==>
        exists id :: id in rows && rows[id].userId == user && rows[id].tokenHash == Sha256(raw.value) && rows[id].deviceId == device
      ensures Inv(View()) && raw.Some? && device.None? ==>
        forall id :: id in rows ==> !(rows[id].userId == user && rows[id].tokenHash == Sha256(raw.value))
    {
      if raw.None? || found.None? {
        return None;
      }
      device := rows[found.value].deviceId;
      assert Inv(View()) ==> RowOk(View(), found.value, rows[found.value]);
    }

    // `found` is what the query returned.
    method ListDeviceSessions(user: UserId, now: Millis, found: seq<Uuid>, current: Option<Uuid>) returns (sessions: seq<DeviceSession>)
      requires IsListing(rows, user, now, found)
      ensures |sessions| == |FirstSeen(RowsOf(rows, found))|
      ensures forall i :: 0 <= i < |sessions| ==>
        IsSessionOn(RowsOf(rows, found), FirstSeen(RowsOf(rows, found))[i], current, sessions[i])
      ensures forall i :: 0 <= i < |sessions| ==> (sessions[i].isCurrent <==> current == Some(sessions[i].deviceId))
      ensures forall i, id :: 0 <= i < |sessions| && id in found && rows[id].deviceId == Some(sessions[i].deviceId) && rows[id].lastUsedAt.Some? ==>
        rows[id].lastUsedAt.value <= sessions[i].lastUsedAt
    {
      var newest, order := NewestPerDevice(RowsOf(rows, found));
      sessions := seq(|order|, i requires 0 <= i < |order| && order[i] in newest => SessionOf(order[i], newest[order[i]], current));
      forall i | 0 <= i < |sessions|
        ensures IsSessionOn(RowsOf(rows, found), order[i], current, sessions[i])
      {
        assert order[i] in newest && IsNewestOn(RowsOf(rows, found), order[i], newest[order[i]]);
      }
      forall i | 0 <= i < |sessions|
        ensures sessions[i].isCurrent <==> current == Some(sessions[i].deviceId)
        ensures forall id :: id in found && rows[id].deviceId == Some(sessions[i].deviceId) && rows[id].lastUsedAt.Some? ==>
          rows[id].lastUsedAt.value <= sessions[i].lastUsedAt
      {
        SessionShows(RowsOf(rows, found), order[i], current, sessions[i]);
        FoundRows(rows, found);
      }
    }
  }
}
