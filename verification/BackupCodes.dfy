/**
 Two-factor backup codes: set up, enabled, used up one by one, disabled; how a printed code is
 normalised, and what is hashed.
 */
module BackupCodes {
  import opened Wrappers

  // ---------- Normalising a code ----------

  predicate IsHexDigit(c: char) {
    '0' <= c <= '9' || 'A' <= c <= 'F'
  }

  // The one ligature whose upper case is made of hex digits: two F's.
  const FF_LIGATURE: char := '\U{FB00}'

  // Upper-casing as far as hex digits go: a-f become A-F and the ligature becomes FF; no other
  // character has an upper case of hex digits only.
  function Upper(c: char): string {
    if 'a' <= c <= 'z' then [c - 'a' + 'A'] else if c == FF_LIGATURE then "FF" else [c]
  }

  function StripDashes(s: string): string {
    if s == [] then [] else (if s[0] == '-' then [] else [s[0]]) + StripDashes(s[1..])
  }

  function UpperAll(s: string): string {
    if s == [] then [] else Upper(s[0]) + UpperAll(s[1..])
  }

  function NormalizeBackupCode(code: string): string {
    UpperAll(StripDashes(code))
  }

  // Sixteen digits in four groups.
  function Print(hex: string): string
    requires |hex| == 16
  {
    hex[..4] + "-" + hex[4..8] + "-" + hex[8..12] + "-" + hex[12..]
  }

  // The code spells the digits, with dashes anywhere, letters in either case, and the ligature
  // for two F's.
  predicate Spells(code: string, hex: string) {
    if code == [] then hex == []
    else if code[0] == '-' then Spells(code[1..], hex)
    else if code[0] == FF_LIGATURE then |hex| >= 2 && hex[0] == 'F' && hex[1] == 'F' && Spells(code[1..], hex[2..])
    else hex != [] && (code[0] == hex[0] || Upper(code[0]) == [hex[0]]) && Spells(code[1..], hex[1..])
  }

  // A code normalises to the digits exactly if it spells them.
  lemma {:induction false} NormalizeIffSpells(code: string, hex: string)
    requires forall i :: 0 <= i < |hex| ==> IsHexDigit(hex[i])
    ensures NormalizeBackupCode(code) == hex <==> Spells(code, hex)
  {
    if code != [] {
      if code[0] == '-' {
        assert StripDashes(code) == StripDashes(code[1..]);
        NormalizeIffSpells(code[1..], hex);
      } else {
        var n := |Upper(code[0])|;
        assert StripDashes(code) == [code[0]] + StripDashes(code[1..]);
        assert NormalizeBackupCode(code) == Upper(code[0]) + NormalizeBackupCode(code[1..]);
        if |hex| >= n {
          NormalizeIffSpells(code[1..], hex[n..]);
          assert hex == hex[..n] + hex[n..];
          assert NormalizeBackupCode(code)[n..] == NormalizeBackupCode(code[1..]);
          assert NormalizeBackupCode(code)[..n] == Upper(code[0]);
        }
      }
    }
  }

  // So a code of eight ligatures, none of its characters a hex digit, is read as sixteen digits.
  lemma LigaturesRead()
    ensures var code := seq(8, i => FF_LIGATURE);
            NormalizeBackupCode(code) == seq(16, i => 'F') && forall c :: c in code ==> !IsHexDigit(c)
  {
    var code, hex := seq(8, i => FF_LIGATURE), seq(16, i => 'F');
    LigaturesSpell(8);
    NormalizeIffSpells(code, hex);
  }

  lemma {:induction false} LigaturesSpell(n: nat)
    ensures Spells(seq(n, i => FF_LIGATURE), seq(2 * n, i => 'F'))
  {
    if n > 0 {
      LigaturesSpell(n - 1);
      assert seq(n, i => FF_LIGATURE)[1..] == seq(n - 1, i => FF_LIGATURE);
      assert seq(2 * n, i => 'F')[2..] == seq(2 * (n - 1), i => 'F');
    }
  }

  lemma {:induction false} SpellsItself(hex: string, more: string, rest: string)
    requires Spells(more, rest) && forall i :: 0 <= i < |hex| ==> IsHexDigit(hex[i])
    ensures Spells(hex + more, hex + rest)
  {
    if hex == [] {
      assert hex + more == more && hex + rest == rest;
    } else {
      SpellsItself(hex[1..], more, rest);
      assert (hex + more)[1..] == hex[1..] + more && (hex + rest)[1..] == hex[1..] + rest;
    }
  }

  // A printed code, typed back in any case and with any dashes, gives its sixteen digits.
  lemma PrintedCodeNormalizes(hex: string)
    requires |hex| == 16 && forall i :: 0 <= i < |hex| ==> IsHexDigit(hex[i])
    ensures NormalizeBackupCode(Print(hex)) == hex
    ensures |Print(hex)| == 19 && forall i :: 0 <= i < 19 ==> (Print(hex)[i] == '-' <==> i == 4 || i == 9 || i == 14)
  {
    var a, b, c, d := hex[..4], hex[4..8], hex[8..12], hex[12..];
    SpellsItself(d, [], []);
    assert d + [] == d;
    Dashed(c, d, d);
    Dashed(b, c + "-" + d, c + d);
    Dashed(a, b + "-" + (c + "-" + d), b + (c + d));
    assert Print(hex) == a + "-" + (b + "-" + (c + "-" + d));
    assert hex == a + (b + (c + d));
    NormalizeIffSpells(Print(hex), hex);
  }

  lemma Dashed(group: string, more: string, rest: string)
    requires Spells(more, rest) && forall i :: 0 <= i < |group| ==> IsHexDigit(group[i])
    ensures Spells(group + "-" + more, group + rest)
  {
    assert ("-" + more)[1..] == more;
    SpellsItself(group, "-" + more, rest);
    assert group + "-" + more == group + ("-" + more);
  }

  // ---------- What is hashed ----------

  function HashInput(userId: string, code: string): string {
    userId + ":" + code
  }

  // Inputs coincide only for the same user and code, if user ids have no colon.
  lemma HashInputsDistinct(u: string, c: string, v: string, d: string)
    requires ':' !in u && ':' !in v && HashInput(u, c) == HashInput(v, d)
    ensures u == v && c == d
  {
    HashInputsMeet(u, c, v, d);
    ColonInside(u, v);
    ColonInside(v, u);
    assert c == HashInput(u, c)[|u| + 1..] && d == HashInput(v, d)[|v| + 1..];
  }

  lemma ColonInside(u: string, v: string)
    ensures u + ":" <= v ==> ':' in v
  {
    if u + ":" <= v {
      assert v[|u|] == ':';
    }
  }

  lemma HashInputsMeet(u: string, c: string, v: string, d: string)
    requires HashInput(u, c) == HashInput(v, d)
    ensures u == v || u + ":" <= v || v + ":" <= u
  {
    var s := HashInput(u, c);
    assert s[..|u|] == u && s[..|v|] == v;
    assert s[..|u| + 1] == u + ":" && s[..|v| + 1] == v + ":";
  }

  // Exactly when: some codes of two different users hash the same input if and only if one user's
  // id, followed by a colon, begins the other's.
  lemma HashInputsMeetIff(u: string, v: string)
    requires u != v
    ensures (exists c, d :: HashInput(u, c) == HashInput(v, d)) <==> u + ":" <= v || v + ":" <= u
  {
    if c, d :| HashInput(u, c) == HashInput(v, d) {
      HashInputsMeet(u, c, v, d);
    }
    if u + ":" <= v {
      assert HashInput(u, v[|u| + 1..] + ":") == HashInput(v, []);
    }
    if v + ":" <= u {
      assert HashInput(u, []) == HashInput(v, u[|v| + 1..] + ":");
    }
  }

  // ---------- The account ----------

  // A hash of user and code; SHA-256 is taken to be injective.
  datatype Digest = Sha256(input: string)

  datatype Account = Account(secret: Option<string>, enabled: bool, codes: seq<Digest>)

  const UNPROTECTED := Account(None, false, [])

  datatype Step =
    | Setup(secret: string)
    | Enable(totpValid: bool, printed: seq<string>)
    | Disable(code: string, totpValid: bool)
    | Verify(code: string, totpValid: bool)

  datatype Reply = SetUp | Enabled(printed: seq<string>) | Disabled | Verified(byCode: Option<Digest>) | Refused

  function HashCode(userId: string, code: string): Digest {
    Sha256(HashInput(userId, NormalizeBackupCode(code)))
  }

  function HashAll(userId: string, printed: seq<string>): seq<Digest> {
    seq(|printed|, i requires 0 <= i < |printed| => HashCode(userId, printed[i]))
  }

  function Without(codes: seq<Digest>, hash: Digest): (rest: seq<Digest>)
    ensures |rest| <= |codes| && hash !in rest
    ensures hash in codes ==> |rest| < |codes|
    ensures forall h :: h in rest <==> h in codes && h != hash
  {
    if codes == [] then []
    else if codes[0] == hash then Without(codes[1..], hash)
    else [codes[0]] + Without(codes[1..], hash)
  }

  // The time-based code is tried first; a backup code that matches is removed.
  function VerifyReply(a: Account, userId: string, code: string, totpValid: bool): Reply {
    if !a.enabled || a.secret.None? then Refused
    else if totpValid then Verified(None)
    else if HashCode(userId, code) in a.codes then Verified(Some(HashCode(userId, code)))
    else Refused
  }

  function VerifyAfter(a: Account, userId: string, code: string, totpValid: bool): Account {
    match VerifyReply(a, userId, code, totpValid)
    case Verified(Some(hash)) => a.(codes := Without(a.codes, hash))
    case _ => a
  }

  function ReplyTo(a: Account, userId: string, s: Step): Reply {
    match s
    case Setup(_) => SetUp
    case Enable(totpValid, printed) => if a.secret.None? || a.enabled || !totpValid then Refused else Enabled(printed)
    case Disable(code, totpValid) =>
      if !a.enabled then Refused
      else if VerifyReply(a, userId, code, totpValid).Refused? then Refused else Disabled
    case Verify(code, totpValid) => VerifyReply(a, userId, code, totpValid)
  }

  function After(a: Account, userId: string, s: Step): Account {
    match s
    case Setup(secret) => a.(secret := Some(secret))
    case Enable(_, printed) =>
      if ReplyTo(a, userId, s).Refused? then a else a.(enabled := true, codes := HashAll(userId, printed))
    case Disable(code, totpValid) =>
      if ReplyTo(a, userId, s).Refused? then VerifyAfter(a, userId, code, totpValid) else UNPROTECTED
    case Verify(code, totpValid) => VerifyAfter(a, userId, code, totpValid)
  }

  // Codes are hashed with their user and after normalising, and with nothing else.
  lemma HashCodesMeetIff(u: string, c: string, v: string, d: string)
    requires ':' !in u && ':' !in v
    ensures HashCode(u, c) == HashCode(v, d) <==> u == v && NormalizeBackupCode(c) == NormalizeBackupCode(d)
  {
    if HashCode(u, c) == HashCode(v, d) {
      HashInputsDistinct(u, NormalizeBackupCode(c), v, NormalizeBackupCode(d));
    }
  }

  class TwoFactorService {
    const userId: string
    var account: Account

    constructor (userId: string)
      ensures account == UNPROTECTED && this.userId == userId
    {
      this.userId := userId;
      account := UNPROTECTED;
    }

    method Setup(secret: string)
      modifies this
      ensures account == After(old(account), userId, Step.Setup(secret))
      ensures account == old(account).(secret := Some(secret))
    {
      account := account.(secret := Some(secret));
    }

    // `printed` are the ten codes just generated.
    method Enable(totpValid: bool, printed: seq<string>) returns (reply: Reply)
      modifies this
      ensures reply == ReplyTo(old(account), userId, Step.Enable(totpValid, printed))
      ensures account == After(old(account), userId, Step.Enable(totpValid, printed))
      ensures if old(account).secret.Some? && !old(account).enabled && totpValid
              then reply == Enabled(printed) && account.enabled && account.secret == old(account).secret && |account.codes| == |printed|
              else reply == Refused && account == old(account)
      ensures reply.Enabled? ==> forall i :: 0 <= i < |printed| ==>
        account.codes[i] == Sha256(userId + ":" + NormalizeBackupCode(printed[i]))
    {
      if account.secret.None? {
        return Refused;
      }
      if account.enabled {
        return Refused;
      }
      if !totpValid {
        return Refused;
      }
      account := account.(enabled := true, codes := HashAll(userId, printed));
      return Enabled(printed);
    }

    method Verify(code: string, totpValid: bool) returns (reply: Reply)
      modifies this
      ensures reply == VerifyReply(old(account), userId, code, totpValid)
      ensures account == VerifyAfter(old(account), userId, code, totpValid)
      ensures var hash := Sha256(userId + ":" + NormalizeBackupCode(code));
              var byCode := !totpValid && hash in old(account).codes;
              if old(account).enabled && old(account).secret.Some? && (totpValid || byCode)
              then reply == Verified(if byCode then Some(hash) else None)
              else reply == Refused
      ensures reply.Verified? && reply.byCode.Some? ==>
        && account.enabled && account.secret == old(account).secret
        && forall h :: h in account.codes <==> h in old(account).codes && h != reply.byCode.value
      ensures !(reply.Verified? && reply.byCode.Some?) ==> account == old(account)
    {
      if !account.enabled || account.secret.None? {
        return Refused;
      }
      if totpValid {
        return Verified(None);
      }
      var hash := HashCode(userId, code);
      if hash !in account.codes {
        return Refused;
      }
      account := account.(codes := Without(account.codes, hash));
      return Verified(Some(hash));
    }

    method Disable(code: string, totpValid: bool) returns (reply: Reply)
      modifies this
      ensures reply == ReplyTo(old(account), userId, Step.Disable(code, totpValid))
      ensures account == After(old(account), userId, Step.Disable(code, totpValid))
      ensures if old(account).enabled && old(account).secret.Some? &&
                 (totpValid || Sha256(userId + ":" + NormalizeBackupCode(code)) in old(account).codes)
              then reply == Disabled && account == Account(None, false, [])
              else reply == Refused && account == old(account)
    {
      if !account.enabled {
        return Refused;
      }
      var verified := Verify(code, totpValid);
      if verified.Refused? {
        return Refused;
      }
      account := Account(None, false, []);
      return Disabled;
    }
  }

  // ---------- Runs ----------

  // Ten codes are generated each time.
  predicate IsRun(steps: seq<Step>) {
    forall i :: 0 <= i < |steps| && steps[i].Enable? ==> |steps[i].printed| == 10
  }

  function Run(a: Account, userId: string, steps: seq<Step>): Account
    decreases |steps|
  {
    if steps == [] then a else Run(After(a, userId, steps[0]), userId, steps[1..])
  }

  // Enabled means a secret is stored; disabled means no codes are; never more than ten codes.
  predicate Inv(a: Account) {
    && (a.enabled ==> a.secret.Some?)
    && (!a.enabled ==> a.codes == [])
    && |a.codes| <= 10
  }

  lemma {:induction false} RunKeepsInv(a: Account, userId: string, steps: seq<Step>)
    requires Inv(a) && IsRun(steps)
    ensures Inv(Run(a, userId, steps))
    decreases |steps|
  {
    if steps != [] {
      RunKeepsInv(After(a, userId, steps[0]), userId, steps[1..]);
    }
  }

  // The hashes by which verifications succeeded.
  function Used(a: Account, userId: string, steps: seq<Step>): seq<Digest>
    decreases |steps|
  {
    if steps == [] then []
    else
      var reply := ReplyTo(a, userId, steps[0]);
      (if reply.Verified? && reply.byCode.Some? then [reply.byCode.value] else []) + Used(After(a, userId, steps[0]), userId, steps[1..])
  }

  predicate NeverDisabled(a: Account, userId: string, steps: seq<Step>)
    decreases |steps|
  {
    steps != [] ==> !ReplyTo(a, userId, steps[0]).Disabled? && NeverDisabled(After(a, userId, steps[0]), userId, steps[1..])
  }

  // One step by a backup code uses a stored hash up.
  lemma StepUses(a: Account, userId: string, s: Step)
    requires Inv(a) && a.enabled && IsRun([s]) && !ReplyTo(a, userId, s).Disabled?
    ensures var a' := After(a, userId, s);
            var reply := ReplyTo(a, userId, s);
            && Inv(a') && a'.enabled && |a'.codes| <= |a.codes|
            && (forall h :: h in a'.codes ==> h in a.codes)
            && (reply.Verified? && reply.byCode.Some? ==>
                  reply.byCode.value in a.codes && reply.byCode.value !in a'.codes && |a'.codes| < |a.codes|)
  {
    assert [s][0] == s;
  }

  // While 2FA stays enabled: no hash succeeds twice, all that succeed were stored, and no more
  // succeed than were stored, so at most ten.
  lemma {:induction false} CodesAreSingleUse(a: Account, userId: string, steps: seq<Step>)
    requires Inv(a) && a.enabled && IsRun(steps) && NeverDisabled(a, userId, steps)
    ensures var used := Used(a, userId, steps);
            && (forall i, j :: 0 <= i < j < |used| ==> used[i] != used[j])
            && (forall h :: h in used ==> h in a.codes)
            && |used| <= |a.codes| <= 10
    decreases |steps|
  {
    if steps != [] {
      var a' := After(a, userId, steps[0]);
      StepUses(a, userId, steps[0]);
      CodesAreSingleUse(a', userId, steps[1..]);
      var reply := ReplyTo(a, userId, steps[0]);
      var rest := Used(a', userId, steps[1..]);
      if reply.Verified? && reply.byCode.Some? {
        assert Used(a, userId, steps) == [reply.byCode.value] + rest;
        assert forall j :: 0 <= j < |rest| ==> rest[j] in rest;
      } else {
        assert Used(a, userId, steps) == rest;
      }
    }
  }

  // A code just printed works, typed in any way that spells it, until it is used.
  lemma PrintedCodeWorks(a: Account, userId: string, printed: seq<string>, i: nat, hex: string, typed: string)
    requires a.secret.Some? && !a.enabled && i < |printed|
    requires |hex| == 16 && (forall j :: 0 <= j < 16 ==> IsHexDigit(hex[j])) && printed[i] == Print(hex) && Spells(typed, hex)
    ensures var a1 := After(a, userId, Enable(true, printed));
            && VerifyReply(a1, userId, typed, false) == Verified(Some(HashCode(userId, typed)))
            && VerifyReply(VerifyAfter(a1, userId, typed, false), userId, printed[i], false) == Refused
  {
    PrintedCodeNormalizes(hex);
    NormalizeIffSpells(typed, hex);
    var a1 := After(a, userId, Enable(true, printed));
    assert a1.codes[i] == HashCode(userId, printed[i]) == HashCode(userId, typed);
  }

  // The step brings a valid time-based code, or a backup code that is stored.
  predicate Opens(a: Account, userId: string, s: Step) {
    !s.Setup? && (s.totpValid || (!s.Enable? && Sha256(userId + ":" + NormalizeBackupCode(s.code)) in a.codes))
  }

  // One step: protection begins exactly with a valid time-based code for a stored secret, and a
  // protected account is verified, or loses its protection, exactly by a step that opens it.
  lemma StepOpensIff(a: Account, userId: string, s: Step)
    requires Inv(a)
    ensures !a.enabled ==> (After(a, userId, s).enabled <==> s.Enable? && s.totpValid && a.secret.Some?)
    ensures a.enabled ==> (!After(a, userId, s).enabled <==> s.Disable? && Opens(a, userId, s))
    ensures s.Verify? ==> (ReplyTo(a, userId, s).Verified? <==> a.enabled && Opens(a, userId, s))
  {
  }

  // Over any run in which no step opens the account it stays protected and its codes stay.
  lemma {:induction false} OnlyCodesOpen(a: Account, userId: string, steps: seq<Step>)
    requires Inv(a) && a.enabled && forall s :: s in steps ==> !Opens(a, userId, s)
    ensures Run(a, userId, steps).enabled && Run(a, userId, steps).codes == a.codes && Used(a, userId, steps) == []
    decreases |steps|
  {
    if steps != [] {
      assert steps[0] in steps;
      var a' := After(a, userId, steps[0]);
      assert a'.enabled && a'.codes == a.codes;
      forall s | s in steps[1..]
        ensures !Opens(a', userId, s)
      {
        assert s in steps;
      }
      OnlyCodesOpen(a', userId, steps[1..]);
    }
  }
}
