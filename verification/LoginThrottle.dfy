/**
 The failed-login counter of one address and email: ten failures lock it, every failure renews
 its fifteen minutes, a success clears it. Attempts on one key are handled one at a time.
 */
module LoginThrottle {
  import opened Wrappers

  type Millis = nat
  type FailKey = (string, string)   // address and email

  const MAX_FAILURES: nat := 10
  const LOCKOUT_MS: nat := 15 * 60 * 1000

  // The cached counter; the cache forgets it once its time is up.
  datatype Counter = Counter(failures: nat, expiresAt: Millis)

  function FailCount(c: Option<Counter>, now: Millis): nat {
    if c.Some? && now < c.value.expiresAt then c.value.failures else 0
  }

  datatype Outcome = Locked | Failed | Accepted | Inactive

  // One attempt: the time, whether the password is right, whether the account is active.
  datatype Attempt = Attempt(now: Millis, valid: bool, active: bool)

  function OutcomeOf(c: Option<Counter>, a: Attempt): Outcome {
    if FailCount(c, a.now) >= MAX_FAILURES then Locked
    else if !a.valid then Failed
    else if !a.active then Inactive
    else Accepted
  }

  // A right password clears the counter even if the account turns out inactive.
  function After(c: Option<Counter>, a: Attempt): Option<Counter> {
    match OutcomeOf(c, a)
    case Locked => c
    case Failed => Some(Counter(FailCount(c, a.now) + 1, a.now + LOCKOUT_MS))
    case _ => None
  }

  class AuthService {
    var cache: map<FailKey, Counter>

    function CounterOf(key: FailKey): Option<Counter>
      reads this
    {
      if key in cache then Some(cache[key]) else None
    }

    constructor ()
      ensures cache == map[]
    {
      cache := map[];
    }

    method Login(key: FailKey, a: Attempt) returns (outcome: Outcome)
      modifies this
      ensures outcome == OutcomeOf(old(CounterOf(key)), a)
      ensures CounterOf(key) == After(old(CounterOf(key)), a)
      ensures var count := if key in old(cache) && a.now < old(cache)[key].expiresAt then old(cache)[key].failures else 0;
              if count >= 10 then outcome == Locked && cache == old(cache)
              else if !a.valid then outcome == Failed && cache == old(cache)[key := Counter(count + 1, a.now + 15 * 60 * 1000)]
              else outcome == (if a.active then Accepted else Inactive) && key !in cache
      ensures forall other :: other != key ==>
        (other in cache <==> other in old(cache)) && (other in cache ==> cache[other] == old(cache)[other])
    {
      var failCount := if key in cache && a.now < cache[key].expiresAt then cache[key].failures else 0;
      if failCount >= MAX_FAILURES {
        return Locked;
      }
      if !a.valid {
        cache := cache[key := Counter(failCount + 1, a.now + LOCKOUT_MS)];
        return Failed;
      }
      cache := map k | k in cache && k != key :: cache[k];
      return if a.active then Accepted else Inactive;
    }
  }

  // ---------- Runs ----------

  predicate InOrder(es: seq<Attempt>) {
    forall i, j :: 0 <= i < j < |es| ==> es[i].now <= es[j].now
  }

  function Run(c: Option<Counter>, es: seq<Attempt>): Option<Counter>
    decreases |es|
  {
    if es == [] then c else Run(After(c, es[0]), es[1..])
  }

  function Outcomes(c: Option<Counter>, es: seq<Attempt>): seq<Outcome>
    decreases |es|
  {
    if es == [] then [] else [OutcomeOf(c, es[0])] + Outcomes(After(c, es[0]), es[1..])
  }

  function Failures(c: Option<Counter>, es: seq<Attempt>): nat
    decreases |es|
  {
    if es == [] then 0
    else (if OutcomeOf(c, es[0]) == Failed then 1 else 0) + Failures(After(c, es[0]), es[1..])
  }

  predicate NoSuccess(c: Option<Counter>, es: seq<Attempt>)
    decreases |es|
  {
    es != [] ==> (OutcomeOf(c, es[0]) == Locked || OutcomeOf(c, es[0]) == Failed) && NoSuccess(After(c, es[0]), es[1..])
  }

  // Each failure comes less than the lockout time after the one before it.
  predicate NoPause(c: Option<Counter>, es: seq<Attempt>, last: Option<Millis>)
    decreases |es|
  {
    es != [] ==>
      if OutcomeOf(c, es[0]) == Failed
      then (last.Some? ==> es[0].now < last.value + LOCKOUT_MS) && NoPause(After(c, es[0]), es[1..], Some(es[0].now))
      else NoPause(After(c, es[0]), es[1..], last)
  }

  lemma {:induction false} FailuresLeft(c: Counter, es: seq<Attempt>, last: Millis)
    requires NoSuccess(Some(c), es) && NoPause(Some(c), es, Some(last))
    requires c.expiresAt == last + LOCKOUT_MS && c.failures <= MAX_FAILURES
    ensures c.failures + Failures(Some(c), es) <= MAX_FAILURES
    decreases |es|
  {
    if es != [] {
      if OutcomeOf(Some(c), es[0]) == Failed {
        FailuresLeft(After(Some(c), es[0]).value, es[1..], es[0].now);
      } else {
        FailuresLeft(c, es[1..], last);
      }
    }
  }

  // Among any eleven failures with no success between them, two neighbours are at least
  // fifteen minutes apart; this holds from every state of the counter.
  lemma {:induction false} ElevenFailuresPause(c: Option<Counter>, es: seq<Attempt>)
    requires NoSuccess(c, es) && Failures(c, es) > MAX_FAILURES
    ensures !NoPause(c, es, None)
    decreases |es|
  {
    if OutcomeOf(c, es[0]) == Failed {
      if NoPause(c, es, None) {
        FailuresLeft(After(c, es[0]).value, es[1..], es[0].now);
      }
    } else {
      ElevenFailuresPause(After(c, es[0]), es[1..]);
    }
  }

  lemma {:induction false} ShortSpanNoPause(c: Option<Counter>, es: seq<Attempt>, last: Option<Millis>, from: Millis)
    requires InOrder(es) && forall i :: 0 <= i < |es| ==> es[i].now < from + LOCKOUT_MS
    requires last.Some? ==> from <= last.value
    requires forall i :: 0 <= i < |es| ==> from <= es[i].now
    ensures NoPause(c, es, last)
    decreases |es|
  {
    if es != [] {
      ShortSpanNoPause(After(c, es[0]), es[1..], if OutcomeOf(c, es[0]) == Failed then Some(es[0].now) else last, from);
    }
  }

  // Hence they span at least fifteen minutes.
  lemma ElevenFailuresSpan(c: Option<Counter>, es: seq<Attempt>)
    requires InOrder(es) && NoSuccess(c, es) && Failures(c, es) > 10
    ensures |es| > 0 && es[0].now + 15 * 60 * 1000 <= es[|es| - 1].now
  {
    ElevenFailuresPause(c, es);
    if es[|es| - 1].now < es[0].now + LOCKOUT_MS {
      ShortSpanNoPause(c, es, None, es[0].now);
    }
  }

  // The counter never goes past ten, and a full counter locks until exactly its expiry.
  lemma {:induction false} CounterBounded(c: Option<Counter>, es: seq<Attempt>, a: Attempt)
    requires c.Some? ==> c.value.failures <= 10
    ensures Run(c, es).Some? ==>
      && Run(c, es).value.failures <= 10
      && (OutcomeOf(Run(c, es), a) == Locked <==>
            Run(c, es).value.failures == 10 && a.now < Run(c, es).value.expiresAt)
    decreases |es|
  {
    if es != [] {
      CounterBounded(After(c, es[0]), es[1..], a);
    }
  }

  // The attempts of a run that were not refused by the lock.
  function Unlocked(c: Option<Counter>, es: seq<Attempt>): seq<Attempt>
    decreases |es|
  {
    if es == [] then []
    else (if OutcomeOf(c, es[0]) == Locked then [] else [es[0]]) + Unlocked(After(c, es[0]), es[1..])
  }

  function WithoutLocked(os: seq<Outcome>): seq<Outcome> {
    if os == [] then []
    else (if os[0] == Locked then [] else [os[0]]) + WithoutLocked(os[1..])
  }

  // Attempts refused while locked leave no trace: without them the counter ends the same and
  // every other attempt has the same outcome.
  lemma {:induction false} LockedLeaveNoTrace(c: Option<Counter>, es: seq<Attempt>)
    ensures Run(c, Unlocked(c, es)) == Run(c, es)
    ensures Outcomes(c, Unlocked(c, es)) == WithoutLocked(Outcomes(c, es))
    decreases |es|
  {
    if es != [] {
      var c', rest := After(c, es[0]), es[1..];
      LockedLeaveNoTrace(c', rest);
      assert Outcomes(c, es)[1..] == Outcomes(c', rest);
      if OutcomeOf(c, es[0]) != Locked {
        assert Unlocked(c, es)[1..] == Unlocked(c', rest);
      } else {
        assert Unlocked(c, es) == Unlocked(c', rest);
      }
    }
  }

  // ---------- Which attempt gets which answer ----------

  // The last ten attempts heard were wrong passwords, each less than fifteen minutes before the
  // next, the last of them less than fifteen minutes ago.
  predicate LockedOut(heard: seq<Attempt>, now: Millis) {
    var n := |heard|;
    && n >= 10
    && (forall k :: n - 10 <= k < n ==> !heard[k].valid)
    && (forall k :: n - 10 <= k < n - 1 ==> heard[k + 1].now < heard[k].now + 15 * 60 * 1000)
    && now < heard[n - 1].now + 15 * 60 * 1000
  }

  // The attempts that were not refused by the lock.
  function Heard(es: seq<Attempt>): seq<Attempt> {
    if es == [] then []
    else
      var last, heard := es[|es| - 1], Heard(es[..|es| - 1]);
      if LockedOut(heard, last.now) then heard else heard + [last]
  }

  // The counter counts the wrong passwords at the end of the attempts heard, back to a right one
  // or a pause of fifteen minutes.
  ghost predicate Counts(heard: seq<Attempt>, c: Option<Counter>) {
    var n := |heard|;
    if c.None? then n > 0 ==> heard[n - 1].valid
    else
      var f := c.value.failures;
      && 1 <= f <= 10 && f <= n && c.value.expiresAt == heard[n - 1].now + LOCKOUT_MS
      && (forall k :: n - f <= k < n ==> !heard[k].valid)
      && (forall k :: n - f <= k < n - 1 ==> heard[k + 1].now < heard[k].now + LOCKOUT_MS)
      && (n > f ==> heard[n - f - 1].valid || heard[n - f - 1].now + LOCKOUT_MS <= heard[n - f].now)
  }

  lemma LockedIff(heard: seq<Attempt>, c: Option<Counter>, now: Millis)
    requires Counts(heard, c)
    ensures FailCount(c, now) >= MAX_FAILURES <==> LockedOut(heard, now)
  {
    var n := |heard|;
    if c.Some? && c.value.failures < 10 && n >= 10 {
      var p := n - c.value.failures - 1;
      assert heard[p].valid || heard[p].now + LOCKOUT_MS <= heard[p + 1].now;
    }
  }

  lemma CountsOn(heard: seq<Attempt>, c: Option<Counter>, a: Attempt)
    requires Counts(heard, c)
    ensures Counts(if LockedOut(heard, a.now) then heard else heard + [a], After(c, a))
  {
    LockedIff(heard, c, a.now);
  }

  lemma {:induction false} RunCounts(es: seq<Attempt>)
    ensures Counts(Heard(es), Run(None, es))
  {
    if es != [] {
      var n := |es| - 1;
      RunCounts(es[..n]);
      RunLast(None, es[..n], es[n]);
      assert es == es[..n] + [es[n]];
      CountsOn(Heard(es[..n]), Run(None, es[..n]), es[n]);
    }
  }

  lemma {:induction false} RunLast(c: Option<Counter>, es: seq<Attempt>, a: Attempt)
    ensures Run(c, es + [a]) == After(Run(c, es), a)
    ensures Outcomes(c, es + [a]) == Outcomes(c, es) + [OutcomeOf(Run(c, es), a)]
    decreases |es|
  {
    if es == [] {
      assert es + [a] == [a] && [a][1..] == [];
    } else {
      assert (es + [a])[1..] == es[1..] + [a];
      RunLast(After(c, es[0]), es[1..], a);
    }
  }

  // Over any run: an attempt is refused unheard exactly while locked out; otherwise it fails
  // exactly if its password is wrong, and is accepted exactly if the account is active too.
  lemma AnswerIff(es: seq<Attempt>, a: Attempt)
    ensures |Outcomes(None, es + [a])| == |es| + 1
    ensures Outcomes(None, es + [a])[|es|] ==
      if LockedOut(Heard(es), a.now) then Locked
      else if !a.valid then Failed
      else if a.active then Accepted
      else Inactive
  {
    RunLast(None, es, a);
    AllAnswered(None, es);
    RunCounts(es);
    LockedIff(Heard(es), Run(None, es), a.now);
  }

  lemma {:induction false} AllAnswered(c: Option<Counter>, es: seq<Attempt>)
    ensures |Outcomes(c, es)| == |es|
    decreases |es|
  {
    if es != [] {
      AllAnswered(After(c, es[0]), es[1..]);
    }
  }

  lemma {:induction false} HeardAfter(before: seq<Attempt>, more: seq<Attempt>) returns (heard: seq<Attempt>)
    ensures Heard(before + more) == Heard(before) + heard && |heard| <= |more|
    decreases |more|
  {
    heard := [];
    if more == [] {
      assert before + more == before;
    } else {
      var n := |more| - 1;
      assert (before + more)[..|before + more| - 1] == before + more[..n];
      heard := HeardAfter(before, more[..n]);
      if !LockedOut(Heard(before + more[..n]), more[n].now) {
        assert Heard(before) + heard + [more[n]] == Heard(before) + (heard + [more[n]]);
        heard := heard + [more[n]];
      }
    }
  }

  // After a right password outside the lock it takes ten more attempts to be locked out.
  lemma RightPasswordClears(before: seq<Attempt>, right: Attempt, more: seq<Attempt>, a: Attempt)
    requires right.valid && !LockedOut(Heard(before), right.now) && |more| < 10
    ensures |Outcomes(None, before + [right] + more + [a])| == |before| + |more| + 2
    ensures Outcomes(None, before + [right] + more + [a])[|before| + |more| + 1] != Locked
  {
    assert (before + [right])[..|before|] == before;
    var heard := HeardAfter(before + [right], more);
    var all := Heard(before + [right] + more);
    assert Heard(before + [right]) == Heard(before) + [right];
    assert all == Heard(before) + [right] + heard;
    assert all[|Heard(before)|] == right;
    AnswerIff(before + [right] + more, a);
  }
}
