/** When the time that a check hands back is the time at which a request next fits. */
module RetryTimes {
  import opened Common
  import opened RateLimiter
  import Bucket = LeakyBucket

  function PrunedAll(entry: Option<Entry>, times: seq<real>): Option<Entry>
    decreases |times|
  {
    if times == [] then entry else PrunedAll(Pruned(entry, times[0]), times[1..])
  }

  predicate Between(times: seq<real>, from: real, to: real) {
    forall i :: 0 <= i < |times| ==> from <= times[i] <= to
  }

  /** Prunes on the way change no verdict. */
  lemma {:induction false} PrunesPermitAlike(entry: Option<Entry>, rate: real, burst: int, n: int, times: seq<real>, from: real, to: real)
    requires rate > 0.0 && AtRate(entry, rate) && Between(times, from, to)
    ensures Permits(PrunedAll(entry, times), rate, burst, n, to) == Permits(entry, rate, burst, n, to)
    decreases |times|
  {
    hide Ticks;
    if times != [] {
      var pruned := Pruned(entry, times[0]);
      PrunesPermitAlike(pruned, rate, burst, n, times[1..], from, to);
      HeldTok(entry, rate, times[0]);
      HeldTok(entry, rate, to);
      TicksOrder(times[0], to, rate);
    }
  }

  /** The time is when the request next fits: never before it, always from it on, whatever is pruned. */
  ghost predicate RetryExact(entry: Option<Entry>, rate: real, burst: int, n: int, now: real, retryAt: real) {
    forall t, prunes :: now <= t && Between(prunes, now, t) ==>
      (Permits(PrunedAll(entry, prunes), rate, burst, n, t) <==> retryAt <= t)
  }

  // ----- fitting times -----

  lemma QuotientOrder(x: real, rate: real, dt: real)
    requires rate > 0.0
    ensures x / rate <= dt <==> x <= Ticks(dt, rate)
  {
    TicksQuotient(x, rate);
    TicksOrder(x / rate, dt, rate);
  }

  /** A request fits from its fitting time on. */
  lemma FitsFrom(level: real, rate: real, burst: int, n: int, now: real, t: real)
    requires rate > 0.0 && now <= t
    ensures FitTime(level, rate, burst, n, now) <= t <==> level + (n - burst) as real <= Ticks(t - now, rate)
  {
    var x := level + (n - burst) as real;
    QuotientOrder(x, rate, t - now);
    TicksOrder(0.0, t - now, rate);
    QuotientOrder(x, rate, 0.0);
    assert Ticks(0.0, rate) == 0.0;
    hide Ticks;
    assert now + x / rate <= t <==> x / rate <= t - now;
  }

  /** Fitting times are equal exactly when what is too much is equal. */
  lemma SameFit(level: real, rate: real, burst: int, n: int, level': real, n': int, now: real)
    requires rate > 0.0
    ensures FitTime(level, rate, burst, n, now) == FitTime(level', rate, burst, n', now) <==>
            Bucket.Max(level + (n - burst) as real, 0.0) == Bucket.Max(level' + (n' - burst) as real, 0.0)
  {
    var x, y := level + (n - burst) as real, level' + (n' - burst) as real;
    TicksQuotient(x, rate);
    TicksQuotient(y, rate);
    assert Ticks(0.0, rate) == 0.0;
    QuotientOrder(x, rate, 0.0);
    QuotientOrder(y, rate, 0.0);
    hide Ticks;
  }

  /** If nothing but leaking happens, a request is permitted from its fitting time on, when the burst allows it at all. */
  lemma PermitsFrom(entry: Option<Entry>, rate: real, burst: int, n: int, now: real, t: real)
    requires rate > 0.0 && now <= t
    ensures Permits(entry, rate, burst, n, t) <==> n <= burst && FitTime(Level(entry, rate, now), rate, burst, n, now) <= t
  {
    FitsFrom(Level(entry, rate, now), rate, burst, n, now, t);
    HeldTok(entry, rate, now);
    HeldTok(entry, rate, t);
    TicksDiffer(t, now, rate);
    TicksOrder(now, t, rate);
    hide Ticks, FitTime;
  }

  /** The one exact time for a request is its fitting time, and there is none above the burst. */
  lemma ExactIsFit(entry: Option<Entry>, rate: real, burst: int, n: int, now: real, retryAt: real)
    requires rate > 0.0 && AtRate(entry, rate) && now <= retryAt
    ensures RetryExact(entry, rate, burst, n, now, retryAt) <==>
            n <= burst && retryAt == FitTime(Level(entry, rate, now), rate, burst, n, now)
  {
    hide Ticks, Permits, Level;
    var fit := FitTime(Level(entry, rate, now), rate, burst, n, now);
    if n <= burst && retryAt == fit {
      forall t, prunes | now <= t && Between(prunes, now, t)
        ensures Permits(PrunedAll(entry, prunes), rate, burst, n, t) <==> retryAt <= t
      {
        PrunesPermitAlike(entry, rate, burst, n, prunes, now, t);
        PermitsFrom(entry, rate, burst, n, now, t);
      }
    } else {
      var t := if n <= burst && fit < retryAt then fit else retryAt;
      PermitsFrom(entry, rate, burst, n, now, t);
      assert Between([], now, t) && PrunedAll(entry, []) == entry;
    }
  }

  // ----- what a check hands back -----

  lemma NotPast(level: real, rate: real, burst: int, n: int, now: real)
    requires rate > 0.0
    ensures now <= FitTime(level, rate, burst, n, now)
  {}

  /**
   * Exact retry time: for a denied request the time handed back is the least time at which it
   * would be permitted if nothing but prunes happens, exactly when the request asks for one action
   * and the burst allows one.
   */
  lemma RetryTimeExactly(entry: Option<Entry>, rate: real, burst: int, update: bool, n: int, now: real)
    requires rate > 0.0 && AtRate(entry, rate) && !Permits(entry, rate, burst, n, now)
    ensures var answer := Check(entry, rate, burst, update, n, now).0;
            answer.Answer? && !answer.allowed && (RetryExact(entry, rate, burst, n, now, answer.retryAt) <==> n == 1 <= burst)
  {
    hide Ticks, Check, RetryExact, FitTime, Held;
    var level := Level(entry, rate, now);
    AnswerOfLevel(entry, rate, burst, update, n, now);
    var retryAt := FitTime(level, rate, burst, 1, now);
    NotPast(level, rate, burst, 1, now);
    ExactIsFit(entry, rate, burst, n, now, retryAt);
    SameFit(level, rate, burst, 1, level, n, now);
  }

  /** With a burst of two and one action just done, two more are refused now and told to try again now. */
  lemma DenialMisleads(rate: real, update: bool, now: real)
    requires rate > 0.0
    ensures var entry := Some(Entry(1, now, rate));
            Check(entry, rate, 2, update, 2, now).0 == Answer(false, now) && !RetryExact(entry, rate, 2, 2, now, now)
  {
    var entry := Some(Entry(1, now, rate));
    assert Ticks(now - now, rate) == 0.0;
    assert Level(entry, rate, now) == 1.0;
    AnswerOfLevel(entry, rate, 2, update, 2, now);
    assert (1.0 + (1 - 2) as real) / rate == 0.0;
    RetryTimeExactly(entry, rate, 2, update, 2, now);
  }

  /**
   * A permitted look that records nothing hands back the time at which the same request is next
   * permitted, which is now, exactly when one action more than it asks for is permitted too.
   */
  lemma LookTimeExactly(entry: Option<Entry>, rate: real, burst: int, n: int, now: real)
    requires rate > 0.0 && AtRate(entry, rate) && Permits(entry, rate, burst, n, now)
    ensures var answer := Check(entry, rate, burst, false, n, now).0;
            answer.Answer? && (RetryExact(entry, rate, burst, n, now, answer.retryAt) <==> Permits(entry, rate, burst, n + 1, now))
  {
    hide Ticks, Check, RetryExact, FitTime, Held;
    var level := Level(entry, rate, now);
    AnswerOfLevel(entry, rate, burst, false, n, now);
    var retryAt := FitTime(level, rate, burst, n + 1, now);
    NotPast(level, rate, burst, n + 1, now);
    ExactIsFit(entry, rate, burst, n, now, retryAt);
    SameFit(level, rate, burst, n + 1, level, n, now);
  }

  /** A look at a fresh key with a burst of one: permitted now, nothing stored, and told to wait. */
  lemma LookMisleads(rate: real, now: real)
    requires rate > 0.0
    ensures Check(None, rate, 1, false, 1, now) == (Answer(true, now + 1.0 / rate), None)
    ensures !RetryExact(None, rate, 1, 1, now, now + 1.0 / rate)
  {
    QuotientOrder(1.0, rate, 0.0);
    LookTimeExactly(None, rate, 1, 1, now);
  }

  /** Pouring into a bucket adds to its level. */
  lemma LevelAfter(entry: Option<Entry>, rate: real, burst: int, n: int, now: real)
    requires rate > 0.0 && AtRate(entry, rate) && Permits(entry, rate, burst, n, now)
    ensures Level(Check(entry, rate, burst, true, n, now).1, rate, now) == Bucket.Max(Level(entry, rate, now) + n as real, 0.0)
  {
    hide Ticks, EmptyAt;
    CheckTok(entry, rate, burst, true, n, now);
    HeldTok(entry, rate, now);
    HeldTok(Check(entry, rate, burst, true, n, now).1, rate, now);
    hide Check;
  }

  /**
   * The time handed back by any check is the least time at which a single further action would be
   * permitted if nothing but prunes happens, exactly when the burst allows one; and, after a
   * permitted look that records nothing, it asked for nothing or both one action and one more than
   * asked for are permitted now.
   */
  lemma NextTimeExactly(entry: Option<Entry>, rate: real, burst: int, update: bool, n: int, now: real)
    requires rate > 0.0 && AtRate(entry, rate)
    ensures var (answer, after) := Check(entry, rate, burst, update, n, now);
            answer.Answer? &&
            (RetryExact(after, rate, burst, 1, now, answer.retryAt) <==>
             && 1 <= burst
             && (answer.allowed && !update ==>
                   n == 0 || (Permits(entry, rate, burst, 1, now) && Permits(entry, rate, burst, n + 1, now))))
  {
    var (answer, after) := Check(entry, rate, burst, update, n, now);
    var level := Level(entry, rate, now);
    CheckTok(entry, rate, burst, update, n, now);
    AnswerOfLevel(entry, rate, burst, update, n, now);
    var k := if answer.allowed then n + 1 else 1;
    if answer.allowed && update {
      LevelAfter(entry, rate, burst, n, now);
    } else {
      assert after == entry;
    }
    hide Ticks, Check, RetryExact, FitTime, Held;
    NotPast(level, rate, burst, k, now);
    ExactIsFit(after, rate, burst, 1, now, answer.retryAt);
    SameFit(level, rate, burst, k, Level(after, rate, now), 1, now);
  }
}
