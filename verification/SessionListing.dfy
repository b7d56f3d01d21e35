/**
 The listing of a user's device sessions: the loop that keeps one row per device, and what it
 lists in a reachable state.
 */
module SessionListing {
  import opened Wrappers
  import opened Collections
  import opened TokenModel
  import opened TokenInvariant
  import opened TokenRuns

  const LISTING_LIMIT: nat := 100

  datatype DeviceSession = DeviceSession(
    deviceId: Uuid, userAgent: Option<string>, lastUsedAt: Millis, createdAt: Millis, isCurrent: bool)

  // ---------- What the listing computes ----------

  // a was used later than b; a row never used comes before every other.
  predicate UsedLater(a: Row, b: Row) {
    a.lastUsedAt.Some? && (b.lastUsedAt.None? || b.lastUsedAt.value < a.lastUsedAt.value)
  }

  predicate OnDevice(row: Row, device: Uuid) {
    row.deviceId == Some(device)
  }

  // The i-th row is the most recently used of those on the device, and the first such row.
  ghost predicate IsNewestAt(tokens: seq<Row>, device: Uuid, i: int) {
    && 0 <= i < |tokens| && OnDevice(tokens[i], device)
    && (forall j :: 0 <= j < i && OnDevice(tokens[j], device) ==> UsedLater(tokens[i], tokens[j]))
    && (forall j :: i < j < |tokens| && OnDevice(tokens[j], device) ==> !UsedLater(tokens[j], tokens[i]))
  }

  ghost predicate IsNewestOn(tokens: seq<Row>, device: Uuid, row: Row) {
    exists i :: IsNewestAt(tokens, device, i) && tokens[i] == row
  }

  // The devices in the order in which they first appear.
  function FirstSeen(tokens: seq<Row>): (devices: seq<Uuid>)
    ensures forall d :: d in devices <==> exists row :: row in tokens && OnDevice(row, d)
    ensures forall i, j :: 0 <= i < j < |devices| ==> devices[i] != devices[j]
  {
    if tokens == [] then []
    else
      var last := tokens[|tokens| - 1];
      var before := FirstSeen(tokens[..|tokens| - 1]);
      assert forall row :: row in tokens <==> row == last || row in tokens[..|tokens| - 1];
      assert last.deviceId.Some? ==> OnDevice(last, last.deviceId.value);
      if last.deviceId.None? || last.deviceId.value in before then before else before + [last.deviceId.value]
  }

  function SessionOf(device: Uuid, row: Row, current: Option<Uuid>): DeviceSession {
    DeviceSession(device, row.userAgent, GetOr(row.lastUsedAt, row.createdAt), row.createdAt, Some(device) == current)
  }

  // A session listed for the device: made from its most recently used row.
  ghost predicate IsSessionOn(tokens: seq<Row>, device: Uuid, current: Option<Uuid>, session: DeviceSession) {
    exists row :: IsNewestOn(tokens, device, row) && session == SessionOf(device, row, current)
  }

  // The rows the listing query matches.
  function ListedRows(rows: map<Uuid, Row>, user: UserId, now: Millis): set<Uuid> {
    set id | id in rows && rows[id].userId == user && !rows[id].isRevoked && now < rows[id].expiresAt && rows[id].deviceId.Some?
  }

  // What the listing query may return: matching rows, up to 100. Their order, by last use with
  // unused rows wherever the database puts them, is not relied on.
  ghost predicate IsListing(rows: map<Uuid, Row>, user: UserId, now: Millis, found: seq<Uuid>) {
    var matching := ListedRows(rows, user, now);
    && Distinct(found)
    && (forall i :: 0 <= i < |found| ==> found[i] in matching)
    && |found| == if |matching| <= LISTING_LIMIT then |matching| else LISTING_LIMIT
  }

  function RowsOf(rows: map<Uuid, Row>, found: seq<Uuid>): (tokens: seq<Row>)
    requires forall id :: id in found ==> id in rows
    ensures |tokens| == |found| && forall i :: 0 <= i < |found| ==> tokens[i] == rows[found[i]]
  {
    seq(|found|, i requires 0 <= i < |found| => rows[found[i]])
  }

  lemma FoundRows(rows: map<Uuid, Row>, found: seq<Uuid>)
    requires forall id :: id in found ==> id in rows
    ensures forall id :: id in found ==> rows[id] in RowsOf(rows, found)
  {
    forall id | id in found
      ensures rows[id] in RowsOf(rows, found)
    {
      var i :| 0 <= i < |found| && found[i] == id;
      assert RowsOf(rows, found)[i] == rows[id];
    }
  }

  ghost predicate IsNewest(tokens: seq<Row>, newest: map<Uuid, Row>) {
    && (forall d :: d in newest <==> d in FirstSeen(tokens))
    && (forall d :: d in newest ==> IsNewestOn(tokens, d, newest[d]))
  }

  // One row per device seen, its most recently used one, for rows in any order.
  method NewestPerDevice(tokens: seq<Row>) returns (newest: map<Uuid, Row>, order: seq<Uuid>)
    ensures order == FirstSeen(tokens)
    ensures forall d :: d in newest <==> d in order
    ensures forall d :: d in newest ==> IsNewestOn(tokens, d, newest[d])
    ensures forall d, row :: d in newest && row in tokens && row.deviceId == Some(d) ==>
      && newest[d] in tokens && newest[d].deviceId == Some(d)
      && (row.lastUsedAt.Some? ==> newest[d].lastUsedAt.Some? && row.lastUsedAt.value <= newest[d].lastUsedAt.value)
  {
    newest, order := map[], [];
    for n := 0 to |tokens|
      invariant order == FirstSeen(tokens[..n])
      invariant IsNewest(tokens[..n], newest)
    {
      var token := tokens[n];
      assert tokens[..n + 1] == tokens[..n] + [token];
      OneMore(tokens[..n], token, newest);
      if token.deviceId.None? {
        continue;
      }
      var device := token.deviceId.value;
      if device !in newest {
        order := order + [device];
        newest := newest[device := token];
      } else if UsedLater(token, newest[device]) {
        newest := newest[device := token];
      }
    }
    assert tokens[..|tokens|] == tokens;
    forall d, row | d in newest && row in tokens && row.deviceId == Some(d)
      ensures newest[d] in tokens && newest[d].deviceId == Some(d)
      ensures row.lastUsedAt.Some? ==> newest[d].lastUsedAt.Some? && row.lastUsedAt.value <= newest[d].lastUsedAt.value
    {
      NewestIsLatest(tokens, d, newest[d], row);
    }
  }

  // No row of the device was used later.
  lemma NewestIsLatest(tokens: seq<Row>, device: Uuid, kept: Row, row: Row)
    requires IsNewestOn(tokens, device, kept)
    ensures kept in tokens && kept.deviceId == Some(device)
    ensures row in tokens && row.deviceId == Some(device) && row.lastUsedAt.Some? ==>
      kept.lastUsedAt.Some? && row.lastUsedAt.value <= kept.lastUsedAt.value
  {
    var i :| IsNewestAt(tokens, device, i) && tokens[i] == kept;
    if row in tokens && row.deviceId == Some(device) {
      var j :| 0 <= j < |tokens| && tokens[j] == row;
      assert OnDevice(tokens[j], device);
    }
  }

  // What a listed session shows: a row found on its device, the latest used of them.
  lemma SessionShows(tokens: seq<Row>, device: Uuid, current: Option<Uuid>, session: DeviceSession)
    requires IsSessionOn(tokens, device, current, session)
    ensures session.deviceId == device && (session.isCurrent <==> current == Some(device))
    ensures exists row :: && row in tokens && row.deviceId == Some(device)
                          && session.userAgent == row.userAgent && session.createdAt == row.createdAt
                          && session.lastUsedAt == if row.lastUsedAt.Some? then row.lastUsedAt.value else row.createdAt
    ensures forall row :: row in tokens && row.deviceId == Some(device) && row.lastUsedAt.Some? ==> row.lastUsedAt.value <= session.lastUsedAt
  {
    var kept :| IsNewestOn(tokens, device, kept) && session == SessionOf(device, kept, current);
    NewestIsLatest(tokens, device, kept, kept);
    forall row | row in tokens && row.deviceId == Some(device) && row.lastUsedAt.Some?
      ensures row.lastUsedAt.value <= session.lastUsedAt
    {
      NewestIsLatest(tokens, device, kept, row);
    }
  }

  // The map after one row more.
  function Kept(newest: map<Uuid, Row>, token: Row): map<Uuid, Row> {
    if token.deviceId.None? then newest
    else
      var d := token.deviceId.value;
      if d in newest && !UsedLater(token, newest[d]) then newest else newest[d := token]
  }

  // One row more: where it goes in the order of devices, and in the map.
  lemma OneMore(before: seq<Row>, token: Row, newest: map<Uuid, Row>)
    requires IsNewest(before, newest)
    ensures FirstSeen(before + [token]) ==
      if token.deviceId.None? || token.deviceId.value in newest then FirstSeen(before) else FirstSeen(before) + [token.deviceId.value]
    ensures IsNewest(before + [token], Kept(newest, token))
  {
    FirstSeenMore(before, token);
    forall d | d in Kept(newest, token)
      ensures IsNewestOn(before + [token], d, Kept(newest, token)[d])
    {
      OneMoreOn(before, token, newest, d);
    }
  }

  lemma OneMoreOn(before: seq<Row>, token: Row, newest: map<Uuid, Row>, d: Uuid)
    requires IsNewest(before, newest) && d in Kept(newest, token)
    ensures IsNewestOn(before + [token], d, Kept(newest, token)[d])
  {
    if d in newest {
      Appended(before, token, d, newest[d]);
    } else {
      NewDevice(before, token);
    }
  }

  lemma FirstSeenMore(before: seq<Row>, token: Row)
    ensures FirstSeen(before + [token]) ==
      if token.deviceId.None? || token.deviceId.value in FirstSeen(before) then FirstSeen(before)
      else FirstSeen(before) + [token.deviceId.value]
  {
    assert (before + [token])[..|before|] == before;
  }

  lemma NewDevice(before: seq<Row>, token: Row)
    requires token.deviceId.Some? && token.deviceId.value !in FirstSeen(before)
    ensures IsNewestOn(before + [token], token.deviceId.value, token)
  {
    assert forall j :: 0 <= j < |before| ==> before[j] in before && !OnDevice(before[j], token.deviceId.value);
    assert IsNewestAt(before + [token], token.deviceId.value, |before|);
  }

  // One row more changes the newest row of its own device at most.
  lemma Appended(before: seq<Row>, token: Row, d: Uuid, row: Row)
    requires IsNewestOn(before, d, row)
    ensures IsNewestOn(before + [token], d, if OnDevice(token, d) && UsedLater(token, row) then token else row)
  {
    var i :| IsNewestAt(before, d, i) && before[i] == row;
    assert IsNewestAt(before + [token], d, if OnDevice(token, d) && UsedLater(token, row) then |before| else i);
  }

  // ---------- In every reachable state ----------

  lemma ListingComplete(rows: map<Uuid, Row>, user: UserId, now: Millis, found: seq<Uuid>)
    requires IsListing(rows, user, now, found)
    ensures (forall id :: id in ListedRows(rows, user, now) ==> id in found) <==> |ListedRows(rows, user, now)| <= LISTING_LIMIT
  {
    DistinctSize(found);
    SubsetSize(Elements(found), ListedRows(rows, user, now));
    if forall id :: id in ListedRows(rows, user, now) ==> id in found {
      SubsetSize(ListedRows(rows, user, now), Elements(found));
    }
  }

  // Every row found is on a device of its own, so it makes a session of its own.
  lemma FoundOnOwnDevices(s: State, user: UserId, now: Millis, found: seq<Uuid>)
    requires Inv(s) && IsListing(s.rows, user, now, found)
    ensures |FirstSeen(RowsOf(s.rows, found))| == |found|
    ensures forall id :: id in ListedRows(s.rows, user, now) ==>
      (id in found <==> s.rows[id].deviceId.value in FirstSeen(RowsOf(s.rows, found)))
    ensures forall id, row :: id in ListedRows(s.rows, user, now) && row in RowsOf(s.rows, found) && row.deviceId == s.rows[id].deviceId ==>
      row == s.rows[id]
  {
    var tokens := RowsOf(s.rows, found);
    forall i, j | 0 <= i < |found| && 0 <= j < |found| && tokens[i].deviceId == tokens[j].deviceId
      ensures i == j
    {
      FamilyStructure(s, found[i], found[j]);
    }
    AllSeen(tokens);
    forall id, i | id in ListedRows(s.rows, user, now) && 0 <= i < |found|
      ensures tokens[i].deviceId == s.rows[id].deviceId ==> found[i] == id
    {
      FamilyStructure(s, id, found[i]);
    }
    forall id | id in ListedRows(s.rows, user, now)
      ensures id in found <==> s.rows[id].deviceId.value in FirstSeen(tokens)
    {
      if i :| 0 <= i < |found| && found[i] == id { assert tokens[i] in tokens; }
    }
  }

  // In a reachable state there are as many sessions as rows found, each made from the one live
  // row of its family; and there is one for every live family exactly if those are at most 100.
  lemma OneSessionPerFamily(s: State, user: UserId, now: Millis, found: seq<Uuid>)
    requires Inv(s) && IsListing(s.rows, user, now, found)
    ensures var tokens := RowsOf(s.rows, found);
            && |FirstSeen(tokens)| == |found|
            && (forall id, row :: id in ListedRows(s.rows, user, now) && row in tokens && row.deviceId == s.rows[id].deviceId ==> row == s.rows[id])
            && ((forall id :: id in ListedRows(s.rows, user, now) ==> s.rows[id].deviceId.value in FirstSeen(tokens))
                <==> |ListedRows(s.rows, user, now)| <= 100)
    ensures ListedRows(s.rows, user, now) ==
      set id | id in s.rows && s.rows[id].userId == user && !s.rows[id].isRevoked && now < s.rows[id].expiresAt
  {
    FoundOnOwnDevices(s, user, now, found);
    ListingComplete(s.rows, user, now, found);
    assert forall id :: id in s.rows ==> RowOk(s, id, s.rows[id]);
  }

  // Rows on pairwise different devices are all first on theirs.
  lemma {:induction false} AllSeen(tokens: seq<Row>)
    requires forall i :: 0 <= i < |tokens| ==> tokens[i].deviceId.Some?
    requires forall i, j :: 0 <= i < |tokens| && 0 <= j < |tokens| && tokens[i].deviceId == tokens[j].deviceId ==> i == j
    ensures |FirstSeen(tokens)| == |tokens|
  {
    if tokens != [] {
      var n := |tokens| - 1;
      AllSeen(tokens[..n]);
      forall row | row in tokens[..n]
        ensures !OnDevice(row, tokens[n].deviceId.value)
      {
        var i :| 0 <= i < n && tokens[i] == row;
      }
    }
  }

  // The session flagged as current is the one of the presented live token, and no other.
  lemma CurrentSession(s: State, user: UserId, now: Millis, id: Uuid, raw: RefreshJwt, current: Option<Uuid>)
    requires Inv(s) && IsLiveRow(s.rows, id, raw) && id in ListedRows(s.rows, user, now)
    requires exists i :: i in s.rows && s.rows[i].userId == user && s.rows[i].tokenHash == Sha256(raw) && s.rows[i].deviceId == current
    ensures current == s.rows[id].deviceId
    ensures forall j :: j in ListedRows(s.rows, user, now) ==>
      ((SessionOf(s.rows[j].deviceId.value, s.rows[j], current).isCurrent) <==> s.rows[j].family == raw.family)
  {
    var i :| i in s.rows && s.rows[i].userId == user && s.rows[i].tokenHash == Sha256(raw) && s.rows[i].deviceId == current;
    FamilyStructure(s, i, id);
    LiveRowInFamily(s, id, raw);
    forall j | j in ListedRows(s.rows, user, now)
      ensures (SessionOf(s.rows[j].deviceId.value, s.rows[j], current).isCurrent) <==> s.rows[j].family == raw.family
    {
      FamilyStructure(s, j, id);
    }
  }
}
