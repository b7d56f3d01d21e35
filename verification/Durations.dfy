/**
 Durations such as "15m" or "7d", and the two expiry clocks they set: the token's, counted in
 whole seconds, and the row's, counted in milliseconds.
 */
module Durations {
  import opened Wrappers
  import opened TokenModel
  import opened TokenInvariant

  predicate IsDigit(c: char) {
    '0' <= c <= '9'
  }

  predicate AllDigits(s: string) {
    forall i :: 0 <= i < |s| ==> IsDigit(s[i])
  }

  function UnitMillis(unit: char): Option<nat> {
    if unit == 's' then Some(1000)
    else if unit == 'm' then Some(60_000)
    else if unit == 'h' then Some(3_600_000)
    else if unit == 'd' then Some(86_400_000)
    else None
  }

  function NumberOf(digits: string): nat
    requires AllDigits(digits)
  {
    if digits == [] then 0
    else NumberOf(digits[..|digits| - 1]) * 10 + ((digits[|digits| - 1] - '0') as int)
  }

  // One or more digits and a unit letter, and nothing else.
  predicate IsDuration(s: string) {
    |s| >= 2 && AllDigits(s[..|s| - 1]) && UnitMillis(s[|s| - 1]).Some?
  }

  function DurationMillis(s: string): nat
    requires IsDuration(s)
  {
    NumberOf(s[..|s| - 1]) * UnitMillis(s[|s| - 1]).value
  }

  function ParseExpiryDate(duration: string, fallbackMs: nat, now: Millis): Millis {
    now + if IsDuration(duration) then DurationMillis(duration) else fallbackMs
  }

  // ---------- Printing and reading back ----------

  function Numeral(n: nat): (s: string)
    ensures |s| >= 1 && AllDigits(s)
  {
    if n < 10 then ['0' + n as char] else Numeral(n / 10) + ['0' + (n % 10) as char]
  }

  lemma {:induction false} NumeralReadsBack(n: nat)
    ensures NumberOf(Numeral(n)) == n
  {
    if n < 10 {
      assert Numeral(n)[..0] == [];
    } else {
      NumeralReadsBack(n / 10);
      assert Numeral(n)[..|Numeral(n)| - 1] == Numeral(n / 10);
    }
  }

  // "<n><unit>" sets an expiry n units ahead, for every n and every unit letter.
  lemma DurationRoundTrip(n: nat, unit: char, fallbackMs: nat, now: Millis)
    requires unit in {'s', 'm', 'h', 'd'}
    ensures ParseExpiryDate(Numeral(n) + [unit], fallbackMs, now) ==
      now + (if unit == 's' then n * 1000 else if unit == 'm' then n * 60_000 else if unit == 'h' then n * 3_600_000 else n * 86_400_000)
  {
    var s := Numeral(n) + [unit];
    assert s[..|s| - 1] == Numeral(n);
    NumeralReadsBack(n);
  }

  // Anything but digits and one unit letter sets the fallback.
  lemma OtherwiseFallback(duration: string, fallbackMs: nat, now: Millis)
    requires var n := |duration| - 1;
             n < 1 || duration[n] !in {'s', 'm', 'h', 'd'} || exists i :: 0 <= i < n && !('0' <= duration[i] <= '9')
    ensures ParseExpiryDate(duration, fallbackMs, now) == now + fallbackMs
  {
    var n := |duration| - 1;
    if n >= 1 {
      assert forall i :: 0 <= i < n ==> duration[..n][i] == duration[i];
    }
  }

  // ---------- The two clocks ----------

  const WEEK: nat := 7 * 24 * 60 * 60 * 1000

  // The JWT library gets the same string. It signs whole seconds; for a string that the row
  // parser does not understand, the library's own reading is a parameter.
  function ConfigFor(duration: string, librarySeconds: nat): Config {
    if IsDuration(duration) then Config(DurationMillis(duration) / 1000, DurationMillis(duration))
    else Config(librarySeconds, WEEK)
  }

  // The row stored for a token may be pruned although the token still verifies.
  predicate PrunableTooSoon(cfg: Config, signedAt: Millis, storedAt: Millis, now: Millis) {
    signedAt <= storedAt && now / 1000 < signedAt / 1000 + cfg.jwtSeconds && storedAt + cfg.rowMillis < now
  }

  // A row is never prunable while its token verifies, whenever the two are signed and stored,
  // if and only if the row lifetime is at most one millisecond short of the token lifetime.
  lemma RowOutlivesTokenIff(cfg: Config)
    ensures (forall signedAt: Millis, storedAt: Millis, now: Millis :: !PrunableTooSoon(cfg, signedAt, storedAt, now))
       <==> cfg.jwtSeconds * 1000 <= cfg.rowMillis + 1
  {
    if !Sound(cfg) {
      assert PrunableTooSoon(cfg, 0, 0, cfg.jwtSeconds * 1000 - 1);
    }
  }

  // Every duration of digits and a unit letter gives sound lifetimes.
  lemma DurationIsSound(duration: string, librarySeconds: nat)
    requires IsDuration(duration)
    ensures Sound(ConfigFor(duration, librarySeconds))
  {
  }

  // Any other string gets a row of seven days; the lifetimes are then sound exactly when the
  // library reads the string as seven days at most.
  lemma FallbackIsSoundIff(duration: string, librarySeconds: nat)
    requires !IsDuration(duration)
    ensures Sound(ConfigFor(duration, librarySeconds)) <==> librarySeconds <= 7 * 24 * 60 * 60
  {
  }

  // "30 days" is one the row parser does not understand: its tokens verify for thirty days,
  // its rows may be pruned after seven.
  lemma ThirtyDaysUnsound()
    ensures !Sound(ConfigFor("30 days", 30 * 24 * 60 * 60))
  {
    assert UnitMillis("30 days"[6]).Some?;
    assert "30 days"[..6][2] == ' ';
    FallbackIsSoundIff("30 days", 30 * 24 * 60 * 60);
  }
}
