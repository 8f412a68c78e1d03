/**
 * The rate limiter: a leaky bucket as a meter, kept lazily. An entry stores how many actions were
 * counted since the bucket was last empty, and that moment; nothing leaks until somebody looks.
 * Time, rates and levels are real numbers.
 */
module RateLimiter {
  import opened Common
  import Bucket = LeakyBucket

  datatype Entry = Entry(count: int, start: real, rate: real)

  /** A check answers, or raises where the source divides by a zero rate. */
  datatype Answer = Raised | Answer(allowed: bool, retryAt: real)

  /** The tokens leaking in `t` seconds. */
  function Ticks(t: real, rate: real): real { t * rate }

  /** When a bucket with this count and start has leaked dry. */
  function EmptyAt(count: int, start: real, rate: real): real
    requires rate != 0.0
  {
    start + count as real / rate
  }

  /** The actions still held against the key, before clipping at zero. */
  function Held(entry: Option<Entry>, rate: real, now: real): real {
    match entry
    case None => 0.0
    case Some(e) => e.count as real - Ticks(now - e.start, rate)
  }

  /** The level of the bucket: what is held, and nothing when that has run out. */
  function Level(entry: Option<Entry>, rate: real, now: real): real { Bucket.Max(Held(entry, rate, now), 0.0) }

  /** The count and start a check works with: an emptied bucket starts afresh. */
  function Current(entry: Option<Entry>, rate: real, now: real): (int, real) {
    if entry.None? || Held(entry, rate, now) < 0.0 then (0, now) else (entry.value.count, entry.value.start)
  }

  /** _record_action_inner on one key. */
  function Recorded(count: int, start: real, rate: real, now: real): Option<Entry>
    requires rate != 0.0
  {
    if EmptyAt(count, start, rate) <= now then None else Some(Entry(count, start, rate))
  }

  predicate Permits(entry: Option<Entry>, rate: real, burst: int, n: int, now: real) {
    Level(entry, rate, now) <= (burst - n) as real
  }

  /** can_do_action on one key: the answer and the entry it leaves. */
  function Check(entry: Option<Entry>, rate: real, burst: int, update: bool, n: int, now: real): (Answer, Option<Entry>) {
    var (count, start) := Current(entry, rate, now);
    var allowed := Permits(entry, rate, burst, n, now);
    var total := if allowed then count + n else count;
    if allowed && update && rate == 0.0 then (Raised, entry)
    else
      var after := if allowed && update then Recorded(total, start, rate, now) else entry;
      var retryAt := if rate > 0.0 then Bucket.Max(EmptyAt(total - burst + 1, start, rate), now) else -1.0;
      (Answer(allowed, retryAt), after)
  }

  /** _prune_message_counts on one key. */
  function Pruned(entry: Option<Entry>, now: real): Option<Entry> {
    if entry.Some? && Held(entry, entry.value.rate, now) <= 0.0 then None else entry
  }

  // ----- entries in token time -----

  /** The bucket an entry is, once times are measured in the tokens leaking at `rate`. */
  function Tok(entry: Option<Entry>, rate: real): Option<Bucket.Bucket> {
    match entry
    case None => None
    case Some(e) => Some(Bucket.Bucket(e.count, Ticks(e.start, rate)))
  }

  lemma TicksDiffer(x: real, y: real, rate: real)
    ensures Ticks(x - y, rate) == Ticks(x, rate) - Ticks(y, rate)
  {}

  lemma TicksOrder(x: real, y: real, rate: real)
    requires rate > 0.0
    ensures x <= y <==> Ticks(x, rate) <= Ticks(y, rate)
  {
    if x < y { assert x * rate < y * rate; }
    if y < x { assert y * rate < x * rate; }
  }

  lemma TicksQuotient(x: real, rate: real)
    requires rate > 0.0
    ensures Ticks(x / rate, rate) == x
  {}

  lemma EmptyTicks(count: int, start: real, rate: real, t: real)
    requires rate > 0.0
    ensures EmptyAt(count, start, rate) <= t <==> Ticks(start, rate) + count as real <= Ticks(t, rate)
  {
    var empty := EmptyAt(count, start, rate);
    TicksOrder(empty, t, rate);
    TicksDiffer(empty, start, rate);
    TicksQuotient(count as real, rate);
    assert empty - start == count as real / rate;
  }

  lemma HeldTok(entry: Option<Entry>, rate: real, now: real)
    ensures Held(entry, rate, now) == Bucket.Held(Tok(entry, rate), Ticks(now, rate))
  {
    hide Ticks;
    if entry.Some? {
      TicksDiffer(now, entry.value.start, rate);
    }
  }

  lemma RecordedTok(count: int, start: real, rate: real, now: real)
    requires rate > 0.0
    ensures Tok(Recorded(count, start, rate, now), rate) == Bucket.Recorded(count, Ticks(start, rate), Ticks(now, rate))
  {
    hide Ticks, EmptyAt;
    EmptyTicks(count, start, rate, now);
  }

  lemma PrunedTok(entry: Option<Entry>, rate: real, now: real)
    requires entry.Some? ==> entry.value.rate == rate
    ensures Tok(Pruned(entry, now), rate) == Bucket.Pruned(Tok(entry, rate), Ticks(now, rate))
  {
    hide Ticks, EmptyAt;
    HeldTok(entry, rate, now);
  }

  predicate AtRate(entry: Option<Entry>, rate: real) {
    entry.Some? ==> entry.value.rate == rate
  }

  /** A check is a step of the bucket: same verdict, same bucket afterwards. */
  lemma CheckTok(entry: Option<Entry>, rate: real, burst: int, update: bool, n: int, now: real)
    requires rate > 0.0 && AtRate(entry, rate)
    ensures var (answer, after) := Check(entry, rate, burst, update, n, now);
            && answer.Answer?
            && answer.allowed == Permits(entry, rate, burst, n, now) == Bucket.Permits(Tok(entry, rate), burst, n, Ticks(now, rate))
            && Tok(after, rate) == Bucket.Step(Tok(entry, rate), burst, Bucket.Ask(n, update, Ticks(now, rate)))
            && AtRate(after, rate)
  {
    hide Ticks, EmptyAt;
    HeldTok(entry, rate, now);
    var (count, start) := Current(entry, rate, now);
    RecordedTok(count + n, start, rate, now);
  }

  // ----- the answer as a function of the level -----

  /** When a request of `n` fits a bucket of this level at `now`, or `now` when it already does. */
  function FitTime(level: real, rate: real, burst: int, n: int, now: real): real
    requires rate > 0.0
  {
    Bucket.Max(now + (level + (n - burst) as real) / rate, now)
  }

  /** What a meter of this level answers: whether the request fits, and when one action more will. */
  function MeterAnswer(level: real, rate: real, burst: int, n: int, now: real): Answer
    requires rate > 0.0
  {
    var allowed := level + n as real <= burst as real;
    Answer(allowed, FitTime(level, rate, burst, if allowed then n + 1 else 1, now))
  }

  lemma EmptyFromNow(count: int, start: real, rate: real, now: real)
    requires rate > 0.0
    ensures EmptyAt(count, start, rate) == now + (count as real - Ticks(now - start, rate)) / rate
  {
    var x, dt := count as real, now - start;
    assert (x - dt * rate) / rate == x / rate - dt;
  }

  /** A check answers by the level of the bucket alone. */
  lemma AnswerOfLevel(entry: Option<Entry>, rate: real, burst: int, update: bool, n: int, now: real)
    requires rate > 0.0
    ensures Check(entry, rate, burst, update, n, now).0 == MeterAnswer(Level(entry, rate, now), rate, burst, n, now)
  {
    var (count, start) := Current(entry, rate, now);
    var total := if Permits(entry, rate, burst, n, now) then count + n else count;
    EmptyFromNow(total - burst + 1, start, rate, now);
    assert Ticks(now - now, rate) == 0.0;
    hide Ticks, EmptyAt;
    assert count as real - Ticks(now - start, rate) == Level(entry, rate, now);
  }

  // ----- runs over many keys -----

  datatype Op<Key> = Ask(key: Key, n: int, update: bool, at: real) | Sweep(keys: set<Key>, at: real)

  /** A rate and burst fixed per key. */
  datatype Limits<!Key> = Limits(rate: Key -> real, burst: Key -> int)

  function SetEntry<Key>(table: map<Key, Entry>, key: Key, entry: Option<Entry>): map<Key, Entry> {
    if entry.Some? then table[key := entry.value] else table - {key}
  }

  /** One check, or one sweep of the pruner over whatever keys the timer returns. */
  function Step<Key(==)>(limits: Limits<Key>, table: map<Key, Entry>, op: Op<Key>): map<Key, Entry> {
    match op
    case Ask(key, n, update, at) =>
      SetEntry(table, key, Check(Lookup(table, key), limits.rate(key), limits.burst(key), update, n, at).1)
    case Sweep(keys, at) =>
      map k | k in table && (k in keys ==> Pruned(Some(table[k]), at).Some?) :: table[k]
  }

  function After<Key(==)>(limits: Limits<Key>, ops: seq<Op<Key>>): map<Key, Entry> {
    if ops == [] then map[] else Step(limits, After(limits, ops[..|ops| - 1]), ops[|ops| - 1])
  }

  predicate Ordered<Key>(ops: seq<Op<Key>>, from: real) {
    forall i :: 0 <= i < |ops| ==> from <= ops[i].at && forall j :: 0 <= j < i ==> ops[j].at <= ops[i].at
  }

  function Last<Key>(ops: seq<Op<Key>>, from: real): real {
    if ops == [] then from else ops[|ops| - 1].at
  }

  /** What a run does to one key, in that key's token time. */
  function KeyOps<Key(==)>(limits: Limits<Key>, ops: seq<Op<Key>>, key: Key): seq<Bucket.Op> {
    if ops == [] then []
    else
      var front := KeyOps(limits, ops[..|ops| - 1], key);
      match ops[|ops| - 1]
      case Ask(k, n, update, at) => if k == key then front + [Bucket.Ask(n, update, Ticks(at, limits.rate(key)))] else front
      case Sweep(keys, at) => if key in keys then front + [Bucket.Prune(Ticks(at, limits.rate(key)))] else front
  }

  lemma {:induction false} KeyOpsOrdered<Key>(limits: Limits<Key>, ops: seq<Op<Key>>, key: Key, from: real, until: real)
    requires limits.rate(key) > 0.0 && Ordered(ops, from) && Last(ops, from) <= until
    ensures Bucket.Ordered(KeyOps(limits, ops, key), Ticks(from, limits.rate(key)))
    ensures forall o :: o in KeyOps(limits, ops, key) ==> o.at <= Ticks(until, limits.rate(key))
  {
    hide Ticks, EmptyAt;
    if ops != [] {
      var front, op := ops[..|ops| - 1], ops[|ops| - 1];
      assert Ordered(front, from);
      assert Last(front, from) <= op.at;
      KeyOpsOrdered(limits, front, key, from, op.at);
      TicksOrder(op.at, until, limits.rate(key));
      TicksOrder(from, op.at, limits.rate(key));
      var before := KeyOps(limits, front, key);
      assert forall i :: 0 <= i < |before| ==> before[i] in before;
    }
  }

  lemma StepOnKey<Key>(limits: Limits<Key>, table: map<Key, Entry>, op: Op<Key>, key: Key)
    ensures Lookup(Step(limits, table, op), key) ==
            match op
            case Ask(k, n, update, at) =>
              if k == key then Check(Lookup(table, key), limits.rate(key), limits.burst(key), update, n, at).1 else Lookup(table, key)
            case Sweep(keys, at) => if key in keys then Pruned(Lookup(table, key), at) else Lookup(table, key)
  {}

  lemma LastAppended<T>(s: seq<T>, x: T)
    ensures (s + [x])[..|s + [x]| - 1] == s
  {}

  /** Each key's entry evolves as its own bucket, whatever happens to the other keys. */
  lemma {:induction false} KeyEvolves<Key>(limits: Limits<Key>, ops: seq<Op<Key>>, key: Key)
    requires limits.rate(key) > 0.0
    ensures Tok(Lookup(After(limits, ops), key), limits.rate(key)) ==
            Bucket.After(None, limits.burst(key), KeyOps(limits, ops, key))
    ensures AtRate(Lookup(After(limits, ops), key), limits.rate(key))
  {
    hide Ticks, EmptyAt, Check;
    if ops != [] {
      var front, op := ops[..|ops| - 1], ops[|ops| - 1];
      KeyEvolves(limits, front, key);
      var entry := Lookup(After(limits, front), key);
      StepOnKey(limits, After(limits, front), op, key);
      match op {
        case Ask(k, n, update, at) =>
          CheckTok(entry, limits.rate(key), limits.burst(key), update, n, at);
          LastAppended(KeyOps(limits, front, key), Bucket.Ask(n, update, Ticks(at, limits.rate(key))));
        case Sweep(keys, at) =>
          PrunedTok(entry, limits.rate(key), at);
          LastAppended(KeyOps(limits, front, key), Bucket.Prune(Ticks(at, limits.rate(key))));
      }
    }
  }

  // ----- the ideal meter -----

  /** A bucket holding `level` tokens at time `at`, losing `rate` tokens a second down to none. */
  datatype Meter = Meter(level: real, at: real)

  function Tokens(m: Meter, rate: real, now: real): real { Bucket.Max(m.level - Ticks(now - m.at, rate), 0.0) }

  /** The ideal meter of one key: permitted updates pour in their cost; nothing else is an event. */
  function IdealStep<Key(==)>(limits: Limits<Key>, m: Meter, op: Op<Key>, key: Key): Meter {
    if op.Ask? && op.key == key && op.update &&
       Tokens(m, limits.rate(key), op.at) + op.n as real <= limits.burst(key) as real
    then Meter(Bucket.Max(Tokens(m, limits.rate(key), op.at) + op.n as real, 0.0), op.at)
    else m
  }

  function IdealAfter<Key(==)>(limits: Limits<Key>, ops: seq<Op<Key>>, key: Key, from: real): Meter {
    if ops == [] then Meter(0.0, from)
    else IdealStep(limits, IdealAfter(limits, ops[..|ops| - 1], key, from), ops[|ops| - 1], key)
  }

  function TokMeter(m: Meter, rate: real): Bucket.Meter { Bucket.Meter(m.level, Ticks(m.at, rate)) }

  lemma TokensTok(m: Meter, rate: real, now: real)
    ensures Tokens(m, rate, now) == Bucket.Tokens(TokMeter(m, rate), Ticks(now, rate))
  {
    hide Ticks;
    TicksDiffer(now, m.at, rate);
  }

  lemma {:induction false} IdealEvolves<Key>(limits: Limits<Key>, ops: seq<Op<Key>>, key: Key, from: real)
    ensures TokMeter(IdealAfter(limits, ops, key, from), limits.rate(key)) ==
            Bucket.IdealAfter(Bucket.Meter(0.0, Ticks(from, limits.rate(key))), limits.burst(key), KeyOps(limits, ops, key))
  {
    hide Ticks, EmptyAt, Tokens, Bucket.Tokens, Bucket.Max;
    if ops != [] {
      var front, op := ops[..|ops| - 1], ops[|ops| - 1];
      IdealEvolves(limits, front, key, from);
      TokensTok(IdealAfter(limits, front, key, from), limits.rate(key), op.at);
      match op {
        case Ask(k, n, update, at) => LastAppended(KeyOps(limits, front, key), Bucket.Ask(n, update, Ticks(at, limits.rate(key))));
        case Sweep(keys, at) => LastAppended(KeyOps(limits, front, key), Bucket.Prune(Ticks(at, limits.rate(key))));
      }
    }
  }

  lemma LastOfKey<Key>(limits: Limits<Key>, ops: seq<Op<Key>>, key: Key, from: real, now: real)
    requires limits.rate(key) > 0.0 && Ordered(ops, from) && Last(ops, from) <= now
    ensures Bucket.Last(KeyOps(limits, ops, key), Ticks(from, limits.rate(key))) <= Ticks(now, limits.rate(key))
  {
    hide Ticks, EmptyAt;
    KeyOpsOrdered(limits, ops, key, from, now);
    TicksOrder(from, now, limits.rate(key));
    var keyOps := KeyOps(limits, ops, key);
    assert keyOps != [] ==> keyOps[|keyOps| - 1] in keyOps;
  }

  /**
   * Refinement: after any interleaving of checks and sweeps over any keys, the limiter answers the
   * next check of a key as that key's ideal meter does, verdict and time, and holds between nothing
   * and the burst.
   */
  lemma RefinesIdeal<Key>(limits: Limits<Key>, ops: seq<Op<Key>>, from: real, key: Key, update: bool, n: int, now: real)
    requires limits.rate(key) > 0.0 && Ordered(ops, from) && Last(ops, from) <= now
    ensures var rate, burst := limits.rate(key), limits.burst(key);
            var answer := Check(Lookup(After(limits, ops), key), rate, burst, update, n, now).0;
            var tokens := Tokens(IdealAfter(limits, ops, key, from), rate, now);
            && answer == MeterAnswer(tokens, rate, burst, n, now)
            && Level(Lookup(After(limits, ops), key), rate, now) == tokens
            && (0 <= burst ==> 0.0 <= tokens <= burst as real)
  {
    hide Ticks, EmptyAt, Check;
    var rate, burst := limits.rate(key), limits.burst(key);
    var keyOps, start := KeyOps(limits, ops, key), Bucket.Meter(0.0, Ticks(from, rate));
    KeyEvolves(limits, ops, key);
    HeldTok(Lookup(After(limits, ops), key), rate, now);
    AnswerOfLevel(Lookup(After(limits, ops), key), rate, burst, update, n, now);
    IdealEvolves(limits, ops, key, from);
    TokensTok(IdealAfter(limits, ops, key, from), rate, now);
    KeyOpsOrdered(limits, ops, key, from, now);
    Bucket.RunStandsFor(None, start, burst, keyOps, Ticks(from, rate));
    LastOfKey(limits, ops, key, from, now);
    Bucket.StandsForLater(Bucket.After(None, burst, keyOps), Bucket.IdealAfter(start, burst, keyOps), Bucket.Last(keyOps, Ticks(from, rate)), Ticks(now, rate));
    if 0 <= burst {
      Bucket.CostHeldOrLeaked(None, burst, keyOps, Ticks(from, rate), Ticks(now, rate), Ticks(now, rate));
    }
  }

  function WithoutSweeps<Key>(ops: seq<Op<Key>>): seq<Op<Key>> {
    if ops == [] then []
    else
      var front := WithoutSweeps(ops[..|ops| - 1]);
      if ops[|ops| - 1].Ask? then front + [ops[|ops| - 1]] else front
  }

  /** The ideal meter does not notice sweeps. */
  lemma {:induction false} SweepsAreNoEvents<Key>(limits: Limits<Key>, ops: seq<Op<Key>>, key: Key, from: real)
    ensures IdealAfter(limits, WithoutSweeps(ops), key, from) == IdealAfter(limits, ops, key, from)
  {
    hide Ticks;
    if ops != [] {
      var front := ops[..|ops| - 1];
      SweepsAreNoEvents(limits, front, key, from);
      LastAppended(WithoutSweeps(front), ops[|ops| - 1]);
    }
  }

  lemma {:induction false} OrderedWithoutSweeps<Key>(ops: seq<Op<Key>>, from: real)
    requires Ordered(ops, from)
    ensures Ordered(WithoutSweeps(ops), from)
    ensures forall o :: o in WithoutSweeps(ops) ==> o in ops
    ensures Last(WithoutSweeps(ops), from) <= Last(ops, from)
  {
    if ops != [] {
      var front, op := ops[..|ops| - 1], ops[|ops| - 1];
      assert Ordered(front, from);
      OrderedWithoutSweeps(front, from);
      var kept := WithoutSweeps(front);
      forall i | 0 <= i < |kept| ensures kept[i].at <= op.at {
        assert kept[i] in kept;
        var j :| 0 <= j < |front| && front[j] == kept[i];
        assert ops[j].at <= ops[|ops| - 1].at;
      }
      assert Last(front, from) <= op.at;
    }
  }

  /** Pruning never changes a later answer, neither its verdict nor its time. */
  lemma PruningInvisible<Key>(limits: Limits<Key>, ops: seq<Op<Key>>, from: real, key: Key, update: bool, n: int, now: real)
    requires limits.rate(key) > 0.0 && Ordered(ops, from) && Last(ops, from) <= now
    ensures var rate, burst := limits.rate(key), limits.burst(key);
            Check(Lookup(After(limits, ops), key), rate, burst, update, n, now).0 ==
            Check(Lookup(After(limits, WithoutSweeps(ops)), key), rate, burst, update, n, now).0
  {
    SweepsAreNoEvents(limits, ops, key, from);
    OrderedWithoutSweeps(ops, from);
    RefinesIdeal(limits, ops, from, key, update, n, now);
    RefinesIdeal(limits, WithoutSweeps(ops), from, key, update, n, now);
  }

  // ----- the rate bound -----

  /** The cost of the permitted updating requests of `key` between the times `a` and `b`. */
  function PermittedCost<Key(==)>(limits: Limits<Key>, ops: seq<Op<Key>>, key: Key, a: real, b: real): int {
    if ops == [] then 0
    else
      var front, op := ops[..|ops| - 1], ops[|ops| - 1];
      PermittedCost(limits, front, key, a, b) +
      (if op.Ask? && op.key == key && op.update && a <= op.at <= b &&
          Permits(Lookup(After(limits, front), key), limits.rate(key), limits.burst(key), op.n, op.at)
       then op.n else 0)
  }

  lemma {:induction false} CostOfKey<Key>(limits: Limits<Key>, ops: seq<Op<Key>>, key: Key, a: real, b: real)
    requires limits.rate(key) > 0.0
    ensures PermittedCost(limits, ops, key, a, b) ==
            Bucket.PermittedCost(None, limits.burst(key), KeyOps(limits, ops, key), Ticks(a, limits.rate(key)), Ticks(b, limits.rate(key)))
  {
    hide Ticks, EmptyAt, Check, Permits, After, Tok, AtRate, Bucket.Permits, Bucket.After, Bucket.Step;
    if ops != [] {
      var front, op := ops[..|ops| - 1], ops[|ops| - 1];
      CostOfKey(limits, front, key, a, b);
      KeyEvolves(limits, front, key);
      TicksOrder(a, op.at, limits.rate(key));
      TicksOrder(op.at, b, limits.rate(key));
      match op {
        case Ask(k, n, update, at) =>
          CheckTok(Lookup(After(limits, front), key), limits.rate(key), limits.burst(key), update, n, at);
          LastAppended(KeyOps(limits, front, key), Bucket.Ask(n, update, Ticks(at, limits.rate(key))));
        case Sweep(keys, at) => LastAppended(KeyOps(limits, front, key), Bucket.Prune(Ticks(at, limits.rate(key))));
      }
    }
  }

  /**
   * Rate bound: over every run and every interval, the permitted cost for a key is at most its
   * burst and what leaks in the interval.
   */
  lemma RateBound<Key>(limits: Limits<Key>, ops: seq<Op<Key>>, from: real, key: Key, a: real, b: real)
    requires limits.rate(key) > 0.0 && limits.burst(key) >= 0 && Ordered(ops, from) && a <= b
    ensures PermittedCost(limits, ops, key, a, b) as real <= limits.burst(key) as real + Ticks(b - a, limits.rate(key))
  {
    hide Ticks, EmptyAt, Check;
    var rate := limits.rate(key);
    CostOfKey(limits, ops, key, a, b);
    KeyOpsOrdered(limits, ops, key, from, Last(ops, from));
    TicksOrder(a, b, rate);
    Bucket.CostBound(None, limits.burst(key), KeyOps(limits, ops, key), Ticks(from, rate), Ticks(a, rate), Ticks(b, rate));
    TicksDiffer(b, a, rate);
  }

  // ----- recording without asking -----

  /** record_action on one key: the stored rate, or the limiter's own for a fresh key. */
  function ActionRecorded(entry: Option<Entry>, rateHz: real, n: int, now: real): Option<Entry>
    requires (if entry.Some? then entry.value.rate else rateHz) != 0.0
  {
    match entry
    case None => Recorded(n, now, rateHz, now)
    case Some(e) => Recorded(e.count + n, e.start, e.rate, now)
  }

  /**
   * record_action does not restart a bucket that has run empty without being pruned: it pours `n`
   * into the bucket's level exactly when the held amount is not negative or nothing is added.
   */
  lemma RecordPoursExactly(entry: Option<Entry>, rate: real, n: int, now: real)
    requires rate > 0.0 && AtRate(entry, rate)
    ensures Level(ActionRecorded(entry, rate, n, now), rate, now) == Bucket.Max(Level(entry, rate, now) + n as real, 0.0)
            <==> Held(entry, rate, now) >= 0.0 || n <= 0
  {
    hide Ticks, EmptyAt;
    HeldTok(entry, rate, now);
    HeldTok(ActionRecorded(entry, rate, n, now), rate, now);
    if entry.Some? {
      RecordedTok(entry.value.count + n, entry.value.start, rate, now);
    } else {
      RecordedTok(n, now, rate, now);
    }
  }

  /** An action recorded on a bucket that ran dry a while ago leaves no trace. */
  lemma RecordMisses(rate: real, now: real)
    requires rate > 0.0
    ensures var entry := Some(Entry(1, now - 2.0 / rate, rate));
            Held(entry, rate, now) == -1.0 && ActionRecorded(entry, rate, 1, now) == None
  {
    TicksQuotient(2.0, rate);
    assert now - (now - 2.0 / rate) == 2.0 / rate;
  }

  /** A refund makes a bucket forget an action, which is then permitted again at the same moment. */
  lemma RefundForgets(rate: real, now: real)
    requires rate > 0.0
    ensures var (answer, after) := Check(None, rate, 1, true, 1, now);
            answer.Answer? && answer.allowed && after == Some(Entry(1, now, rate)) && ActionRecorded(after, rate, -1, now) == None
  {
    TicksQuotient(1.0, rate);
    EmptyTicks(1, now, rate, now);
  }

  // ----- the limiter -----

  lemma SameEntries<Key>(a: map<Key, Entry>, b: map<Key, Entry>)
    requires forall k :: Lookup(a, k) == Lookup(b, k)
    ensures a == b
  {
    assert forall k :: k in a ==> Lookup(a, k) == Some(a[k]) && Lookup(b, k) == Some(a[k]);
    assert forall k :: k in b ==> Lookup(b, k) == Some(b[k]) && Lookup(a, k) == Some(b[k]);
  }

  lemma OneKeyChanged<Key>(before: map<Key, Entry>, after: map<Key, Entry>, key: Key)
    requires after - {key} == before - {key}
    ensures after == SetEntry(before, key, Lookup(after, key))
  {
    var set' := SetEntry(before, key, Lookup(after, key));
    forall k ensures Lookup(after, k) == Lookup(set', k) {
      if k != key {
        assert Lookup(after, k) == Lookup(after - {key}, k) == Lookup(before - {key}, k) == Lookup(before, k);
      }
    }
    SameEntries(after, set');
  }

  lemma SweptEntries<Key>(limits: Limits<Key>, before: map<Key, Entry>, after: map<Key, Entry>, keys: set<Key>, now: real)
    requires forall k :: Lookup(after, k) == if k in keys then Pruned(Lookup(before, k), now) else Lookup(before, k)
    ensures after == Step(limits, before, Sweep(keys, now))
  {
    forall k ensures Lookup(after, k) == Lookup(Step(limits, before, Sweep(keys, now)), k) {
      StepOnKey(limits, before, Sweep(keys, now), k);
    }
    SameEntries(after, Step(limits, before, Sweep(keys, now)));
  }

  /** A permitted request that was recorded. */
  datatype Grant<Key> = Grant(key: Key, n: int, at: real)

  /** What was granted to `key` between the times `a` and `b`. */
  function GrantedCost<Key(==)>(granted: seq<Grant<Key>>, key: Key, a: real, b: real): int {
    if granted == [] then 0
    else
      var g := granted[|granted| - 1];
      GrantedCost(granted[..|granted| - 1], key, a, b) + if g.key == key && a <= g.at <= b then g.n else 0
  }

  /** At positive rates, what was granted is what the history at these limits permits. */
  ghost predicate Accounts<Key(!new)>(limits: Limits<Key>, history: seq<Op<Key>>, granted: seq<Grant<Key>>) {
    forall key, a, b :: limits.rate(key) > 0.0 ==> GrantedCost(granted, key, a, b) == PermittedCost(limits, history, key, a, b)
  }

  /** What one more operation adds to the permitted cost. */
  lemma AskCost<Key>(limits: Limits<Key>, history: seq<Op<Key>>, key: Key, op: Op<Key>, a: real, b: real)
    ensures PermittedCost(limits, history + [op], key, a, b) ==
            PermittedCost(limits, history, key, a, b) +
            (if op.Ask? && op.key == key && op.update && a <= op.at <= b &&
                Permits(Lookup(After(limits, history), key), limits.rate(key), limits.burst(key), op.n, op.at)
             then op.n else 0)
  {
    hide Permits, After;
    LastAppended(history, op);
  }

  /** A check at the key's own limits takes the table along with the history. */
  lemma AskTracks<Key>(limits: Limits<Key>, history: seq<Op<Key>>, before: map<Key, Entry>, after: map<Key, Entry>, key: Key, n: int, update: bool, now: real)
    requires before == After(limits, history) && after - {key} == before - {key}
    requires Lookup(after, key) == Check(Lookup(before, key), limits.rate(key), limits.burst(key), update, n, now).1
    ensures after == After(limits, history + [Ask(key, n, update, now)])
  {
    hide Check;
    OneKeyChanged(before, after, key);
    LastAppended(history, Ask(key, n, update, now));
  }

  lemma AnswerPermits(entry: Option<Entry>, rate: real, burst: int, update: bool, n: int, now: real)
    ensures var answer := Check(entry, rate, burst, update, n, now).0;
            && (answer.Answer? ==> answer.allowed == Permits(entry, rate, burst, n, now))
            && (rate > 0.0 ==> answer.Answer?)
  {}

  lemma AskAccounts<Key(!new)>(limits: Limits<Key>, history: seq<Op<Key>>, granted: seq<Grant<Key>>, key: Key, n: int, update: bool, now: real, allowed: bool)
    requires Accounts(limits, history, granted)
    requires limits.rate(key) > 0.0 ==>
               allowed == (update && Permits(Lookup(After(limits, history), key), limits.rate(key), limits.burst(key), n, now))
    ensures Accounts(limits, history + [Ask(key, n, update, now)], granted + if allowed then [Grant(key, n, now)] else [])
  {
    hide Permits, After;
    var more, given := history + [Ask(key, n, update, now)], granted + if allowed then [Grant(key, n, now)] else [];
    LastAppended(history, Ask(key, n, update, now));
    LastAppended(granted, Grant(key, n, now));
    forall k, a, b | limits.rate(k) > 0.0 ensures GrantedCost(given, k, a, b) == PermittedCost(limits, more, k, a, b) {
      assert GrantedCost(granted, k, a, b) == PermittedCost(limits, history, k, a, b);
      AskCost(limits, history, k, Ask(key, n, update, now), a, b);
      if allowed {
        assert given == granted + [Grant(key, n, now)];
      } else {
        assert given == granted;
      }
    }
  }

  lemma SweepAccounts<Key(!new)>(limits: Limits<Key>, history: seq<Op<Key>>, granted: seq<Grant<Key>>, keys: set<Key>, now: real)
    requires Accounts(limits, history, granted)
    ensures Accounts(limits, history + [Sweep(keys, now)], granted)
  {
    LastAppended(history, Sweep(keys, now));
    forall k, a, b | limits.rate(k) > 0.0
      ensures GrantedCost(granted, k, a, b) == PermittedCost(limits, history + [Sweep(keys, now)], k, a, b)
    {
      assert GrantedCost(granted, k, a, b) == PermittedCost(limits, history, k, a, b);
    }
  }

  class Ratelimiter<Key(==, !new)> {
    const rateHz: real
    const burstCount: int
    var actions: map<Key, Entry>
    /** The limits the callers mean each key to have, when the limiter was made, and what it was asked since. */
    ghost const limits: Limits<Key>
    ghost const from: real
    ghost var history: seq<Op<Key>>
    /** Every request this limiter really permitted and recorded, in order. */
    ghost var granted: seq<Grant<Key>>

    /** The table is what the history makes of an empty one. */
    ghost predicate Tracks()
      reads this
    {
      actions == After(limits, history)
    }

    /**
     * The limiter was only ever asked at the limits of its keys: the table, and what was granted, are
     * what the history makes of them. Asking at other limits or recording actions unasked loses this.
     */
    ghost predicate Accounted()
      reads this
    {
      Tracks() && Accounts(limits, history, granted)
    }

    constructor (rateHz: real, burstCount: int, ghost limits: Limits<Key>, ghost from: real)
      ensures this.rateHz == rateHz && this.burstCount == burstCount && actions == map[]
      ensures this.limits == limits && this.from == from && history == [] && granted == [] && Accounted()
    {
      this.rateHz, this.burstCount, actions := rateHz, burstCount, map[];
      this.limits, this.from, history, granted := limits, from, [], [];
    }

    /** _record_action_inner: a zero rate raises before anything is stored. */
    method RecordInner(key: Key, count: int, start: real, rate: real, now: real) returns (raised: bool)
      modifies this`actions
      ensures raised <==> rate == 0.0
      ensures if raised then actions == old(actions) else Lookup(actions, key) == Recorded(count, start, rate, now)
      ensures actions - {key} == old(actions) - {key}
    {
      if rate == 0.0 {
        return true;
      }
      if start + count as real / rate <= now {
        actions := actions - {key};
      } else {
        actions := actions[key := Entry(count, start, rate)];
      }
      return false;
    }

    method CheckKey(key: Key, rate: real, burst: int, update: bool, n: int, now: real) returns (answer: Answer)
      modifies this`actions
      ensures (answer, Lookup(actions, key)) == Check(old(Lookup(actions, key)), rate, burst, update, n, now)
      ensures actions - {key} == old(actions) - {key}
    {
      var count, start := 0, now;
      if key in actions {
        count, start := actions[key].count, actions[key].start;
      }
      var delta := now - start;
      var performed := count as real - delta * rate;
      ghost var entry := Lookup(actions, key);
      assert performed == Held(entry, rate, now);
      if performed < 0.0 {
        performed := 0.0;
        count, start := 0, now;
      }
      assert (count, start) == Current(entry, rate, now);
      var allowed := !(performed > (burst - n) as real);
      assert allowed == Permits(entry, rate, burst, n, now);
      if allowed {
        count := count + n;
      }
      if allowed && update {
        var raised := RecordInner(key, count, start, rate, now);
        if raised {
          return Raised;
        }
      }
      var retryAt := -1.0;
      if rate > 0.0 {
        retryAt := start + (count - burst + 1) as real / rate;
        if retryAt < now {
          retryAt := now;
        }
      }
      answer := Answer(allowed, retryAt);
    }

    /** The rate and burst given are the limits of the key. */
    ghost predicate AtLimits(key: Key, rate: real, burst: int) {
      rate == limits.rate(key) && burst == limits.burst(key)
    }

    /** One check at a given rate and burst, taken into the history. */
    method Ask(key: Key, rate: real, burst: int, update: bool, n: int, now: real) returns (answer: Answer)
      modifies this
      ensures (answer, Lookup(actions, key)) == Check(old(Lookup(actions, key)), rate, burst, update, n, now)
      ensures actions - {key} == old(actions) - {key}
      ensures history == old(history) + [Op.Ask(key, n, update, now)]
      ensures granted == old(granted) + if answer.Answer? && answer.allowed && update then [Grant(key, n, now)] else []
      ensures AtLimits(key, rate, burst) ==> (old(Tracks()) ==> Tracks()) && (old(Accounted()) ==> Accounted())
    {
      hide Check, After, Permits, Accounts;
      answer := CheckKey(key, rate, burst, update, n, now);
      history := history + [Op.Ask(key, n, update, now)];
      ghost var given := answer.Answer? && answer.allowed && update;
      granted := granted + if given then [Grant(key, n, now)] else [];
      if old(Tracks()) && AtLimits(key, rate, burst) {
        AnswerPermits(old(Lookup(actions, key)), rate, burst, update, n, now);
        AskTracks(limits, old(history), old(actions), actions, key, n, update, now);
        if old(Accounted()) {
          AskAccounts(limits, old(history), old(granted), key, n, update, now, given);
        }
      }
    }

    function RateFor(rateHz: Option<real>): real { if rateHz.Some? then rateHz.value else this.rateHz }

    function BurstFor(burstCount: Option<int>): int { if burstCount.Some? then burstCount.value else this.burstCount }

    /**
     * can_do_action after the requester's exemptions, with the rate and burst overrides. Asked at
     * the key's own limits it answers as the key's ideal meter does after the whole history, and the
     * permitted cost grows by exactly what it permits.
     */
    method CanDoAction(key: Key, rateHz: Option<real>, burstCount: Option<int>, update: bool, n: int, now: real)
      returns (answer: Answer)
      modifies this
      ensures (answer, Lookup(actions, key)) ==
              Check(old(Lookup(actions, key)), RateFor(rateHz), BurstFor(burstCount), update, n, now)
      ensures rateHz == None ==> RateFor(rateHz) == this.rateHz
      ensures burstCount == None ==> BurstFor(burstCount) == this.burstCount
      ensures forall rate, burst :: rateHz == Some(rate) && burstCount == Some(burst) ==>
                (answer, Lookup(actions, key)) == Check(old(Lookup(actions, key)), rate, burst, update, n, now)
      ensures actions - {key} == old(actions) - {key}
      ensures history == old(history) + [Op.Ask(key, n, update, now)]
      ensures granted == old(granted) + if answer.Answer? && answer.allowed && update then [Grant(key, n, now)] else []
      ensures AtLimits(key, RateFor(rateHz), BurstFor(burstCount)) ==>
                (old(Tracks()) ==> Tracks()) && (old(Accounted()) ==> Accounted())
      ensures AtLimits(key, RateFor(rateHz), BurstFor(burstCount)) && old(Tracks()) && limits.rate(key) > 0.0 &&
              Ordered(old(history), from) && Last(old(history), from) <= now ==>
                answer == MeterAnswer(Tokens(IdealAfter(limits, old(history), key, from), limits.rate(key), now),
                                      limits.rate(key), limits.burst(key), n, now)
      ensures AtLimits(key, RateFor(rateHz), BurstFor(burstCount)) && old(Tracks()) && answer.Answer? ==>
                forall a, b :: PermittedCost(limits, history, key, a, b) ==
                  PermittedCost(limits, old(history), key, a, b) + if update && answer.allowed && a <= now <= b then n else 0
    {
      hide Check, After, Permits, Accounts, PermittedCost, MeterAnswer, IdealAfter, Tokens, Ordered;
      answer := Ask(key, RateFor(rateHz), BurstFor(burstCount), update, n, now);
      if old(Tracks()) && AtLimits(key, RateFor(rateHz), BurstFor(burstCount)) {
        AnswerPermits(old(Lookup(actions, key)), limits.rate(key), limits.burst(key), update, n, now);
        if answer.Answer? {
          forall a, b
            ensures PermittedCost(limits, history, key, a, b) ==
                    PermittedCost(limits, old(history), key, a, b) + if update && answer.allowed && a <= now <= b then n else 0
          {
            AskCost(limits, old(history), key, Op.Ask(key, n, update, now), a, b);
          }
        }
        if limits.rate(key) > 0.0 && Ordered(old(history), from) && Last(old(history), from) <= now {
          RefinesIdeal(limits, old(history), from, key, update, n, now);
        }
      }
    }

    /** record_action: count actions that happened whatever the limit says. The history does not take it in. */
    method RecordAction(key: Key, n: int, now: real) returns (raised: bool)
      modifies this`actions
      ensures raised <==> (if key in old(actions) then old(actions)[key].rate else rateHz) == 0.0
      ensures if raised then actions == old(actions)
              else Lookup(actions, key) == ActionRecorded(old(Lookup(actions, key)), rateHz, n, now)
      ensures actions - {key} == old(actions) - {key}
    {
      var e := if key in actions then actions[key] else Entry(0, now, rateHz);
      raised := RecordInner(key, e.count + n, e.start, e.rate, now);
    }

    method PruneKeys(toPrune: seq<Key>, now: real)
      modifies this`actions
      ensures forall k :: Lookup(actions, k) == if k in toPrune then Pruned(old(Lookup(actions, k)), now) else old(Lookup(actions, k))
    {
      for i := 0 to |toPrune|
        invariant forall k :: Lookup(actions, k) == if k in toPrune[..i] then Pruned(old(Lookup(actions, k)), now) else old(Lookup(actions, k))
      {
        var key := toPrune[i];
        ghost var before := Lookup(actions, key);
        assert Pruned(Pruned(old(Lookup(actions, key)), now), now) == Pruned(old(Lookup(actions, key)), now);
        if key in actions {
          var e := actions[key];
          if !(e.count as real - (now - e.start) * e.rate > 0.0) {
            actions := actions - {key};
          }
        }
        assert Lookup(actions, key) == Pruned(before, now);
        assert toPrune[..i + 1] == toPrune[..i] + [key];
      }
      assert toPrune[..|toPrune|] == toPrune;
    }

    /** _prune_message_counts for whatever keys the timer hands back. */
    method PruneMessageCounts(toPrune: seq<Key>, now: real)
      modifies this
      ensures forall k :: Lookup(actions, k) == if k in toPrune then Pruned(old(Lookup(actions, k)), now) else old(Lookup(actions, k))
      ensures (old(Tracks()) ==> Tracks()) && (old(Accounted()) ==> Accounted()) && granted == old(granted)
      ensures history == old(history) + [Sweep((set k | k in toPrune), now)]
    {
      PruneKeys(toPrune, now);
      ghost var keys := set k | k in toPrune;
      SweptEntries(limits, old(actions), actions, keys, now);
      history := history + [Sweep(keys, now)];
      if old(Accounted()) {
        SweepAccounts(limits, old(history), granted, keys, now);
      }
      LastAppended(old(history), Sweep(keys, now));
    }

    /** A limiter only asked at the limits of its keys granted no more in any interval than the burst and what leaks in it. */
    lemma WithinRate(key: Key, a: real, b: real)
      requires Accounted() && limits.rate(key) > 0.0 && limits.burst(key) >= 0 && Ordered(history, from) && a <= b
      ensures GrantedCost(granted, key, a, b) as real <= limits.burst(key) as real + Ticks(b - a, limits.rate(key))
    {
      RateBound(limits, history, from, key, a, b);
    }
  }
}
