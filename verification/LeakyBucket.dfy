/**
 * A leaky bucket in token time, where the clock is measured in the tokens that leak: a bucket
 * loses one token per unit. The lazy bucket of the rate limiter and the ideal meter, compared.
 */
module LeakyBucket {
  import opened Common

  function Max(x: real, y: real): real { if x < y then y else x }

  // ----- the lazy bucket -----

  /** The tokens counted since the bucket was last empty, and that moment. */
  datatype Bucket = Bucket(count: int, start: real)

  function Held(b: Option<Bucket>, now: real): real {
    match b
    case None => 0.0
    case Some(bucket) => bucket.count as real - (now - bucket.start)
  }

  function Level(b: Option<Bucket>, now: real): real { Max(Held(b, now), 0.0) }

  predicate Permits(b: Option<Bucket>, burst: int, n: int, now: real) {
    Level(b, now) <= (burst - n) as real
  }

  function Recorded(count: int, start: real, now: real): Option<Bucket> {
    if start + count as real <= now then None else Some(Bucket(count, start))
  }

  function Poured(b: Option<Bucket>, n: int, now: real): Option<Bucket> {
    if b.None? || Held(b, now) < 0.0 then Recorded(n, now, now) else Recorded(b.value.count + n, b.value.start, now)
  }

  function Pruned(b: Option<Bucket>, now: real): Option<Bucket> {
    if Held(b, now) <= 0.0 then None else b
  }

  datatype Op = Ask(n: int, update: bool, at: real) | Prune(at: real)

  function Step(b: Option<Bucket>, burst: int, op: Op): Option<Bucket> {
    match op
    case Ask(n, update, at) => if update && Permits(b, burst, n, at) then Poured(b, n, at) else b
    case Prune(at) => Pruned(b, at)
  }

  function After(b: Option<Bucket>, burst: int, ops: seq<Op>): Option<Bucket> {
    if ops == [] then b else Step(After(b, burst, ops[..|ops| - 1]), burst, ops[|ops| - 1])
  }

  /** The operations happen at nondecreasing times from `from` on. */
  predicate Ordered(ops: seq<Op>, from: real) {
    forall i :: 0 <= i < |ops| ==> from <= ops[i].at && forall j :: 0 <= j < i ==> ops[j].at <= ops[i].at
  }

  function Last(ops: seq<Op>, from: real): real {
    if ops == [] then from else ops[|ops| - 1].at
  }

  // ----- the ideal meter -----

  datatype Meter = Meter(level: real, at: real)

  function Tokens(m: Meter, now: real): real { Max(m.level - (now - m.at), 0.0) }

  /** A request is permitted when its cost fits; a permitted update pours it in; pruning is no event. */
  function IdealStep(m: Meter, burst: int, op: Op): Meter {
    match op
    case Ask(n, update, at) =>
      var tokens := Tokens(m, at);
      if update && tokens + n as real <= burst as real then Meter(Max(tokens + n as real, 0.0), at) else m
    case Prune(_) => m
  }

  function IdealAfter(m: Meter, burst: int, ops: seq<Op>): Meter {
    if ops == [] then m else IdealStep(IdealAfter(m, burst, ops[..|ops| - 1]), burst, ops[|ops| - 1])
  }

  // ----- refinement -----

  /** The bucket stands for the meter from time `t` on. */
  predicate StandsFor(b: Option<Bucket>, m: Meter, t: real) {
    && m.at <= t
    && (b.Some? ==> b.value.start <= t)
    && Level(b, t) == Tokens(m, t)
  }

  lemma StandsForLater(b: Option<Bucket>, m: Meter, t: real, later: real)
    requires StandsFor(b, m, t) && t <= later
    ensures StandsFor(b, m, later)
  {}

  lemma StepStandsFor(b: Option<Bucket>, m: Meter, burst: int, op: Op)
    requires StandsFor(b, m, op.at)
    ensures StandsFor(Step(b, burst, op), IdealStep(m, burst, op), op.at)
  {}

  /** Over any run of checks and prunes the lazy bucket stands for the ideal meter. */
  lemma {:induction false} RunStandsFor(b: Option<Bucket>, m: Meter, burst: int, ops: seq<Op>, t: real)
    requires StandsFor(b, m, t) && Ordered(ops, t)
    ensures StandsFor(After(b, burst, ops), IdealAfter(m, burst, ops), Last(ops, t))
  {
    if ops != [] {
      var front, op := ops[..|ops| - 1], ops[|ops| - 1];
      assert Ordered(front, t);
      RunStandsFor(b, m, burst, front, t);
      assert Last(front, t) <= op.at;
      StandsForLater(After(b, burst, front), IdealAfter(m, burst, front), Last(front, t), op.at);
      StepStandsFor(After(b, burst, front), IdealAfter(m, burst, front), burst, op);
    }
  }

  // ----- the rate bound -----

  /** What a request adds to the bucket: its cost when it is a permitted update. */
  function CostOf(b: Option<Bucket>, burst: int, op: Op): int {
    if op.Ask? && op.update && Permits(b, burst, op.n, op.at) then op.n else 0
  }

  /** The cost of the permitted updates between times `x` and `y`. */
  function PermittedCost(b: Option<Bucket>, burst: int, ops: seq<Op>, x: real, y: real): int {
    if ops == [] then 0
    else
      var front, op := ops[..|ops| - 1], ops[|ops| - 1];
      PermittedCost(b, burst, front, x, y) + (if x <= op.at <= y then CostOf(After(b, burst, front), burst, op) else 0)
  }

  predicate Sound(b: Option<Bucket>, burst: int, t: real) {
    (b.Some? ==> b.value.start <= t) && Level(b, t) <= burst as real
  }

  lemma StepCharges(b: Option<Bucket>, burst: int, op: Op, t: real)
    requires Sound(b, burst, t) && t <= op.at
    ensures Sound(Step(b, burst, op), burst, op.at)
    ensures Level(b, op.at) + CostOf(b, burst, op) as real <= Level(Step(b, burst, op), op.at)
    ensures Level(b, t) - (op.at - t) <= Level(b, op.at) <= Level(b, t)
  {}

  /** What was permitted inside the window is still in the bucket, or has leaked since the window opened. */
  lemma {:induction false} CostHeldOrLeaked(b: Option<Bucket>, burst: int, ops: seq<Op>, t: real, x: real, y: real)
    requires Sound(b, burst, t) && Ordered(ops, t) && x <= y
    ensures Sound(After(b, burst, ops), burst, Last(ops, t))
    ensures var cost := PermittedCost(b, burst, ops, x, y) as real; var end := Last(ops, t);
            && (end < x ==> cost == 0.0)
            && (x <= end <= y ==> cost <= Level(After(b, burst, ops), end) + (end - x))
            && (y < end ==> cost <= burst as real + (y - x))
  {
    if ops != [] {
      var front, op := ops[..|ops| - 1], ops[|ops| - 1];
      assert Ordered(front, t);
      CostHeldOrLeaked(b, burst, front, t, x, y);
      assert Last(front, t) <= op.at;
      StepCharges(After(b, burst, front), burst, op, Last(front, t));
    }
  }

  /** In every interval the permitted cost is at most the burst and the length of the interval in tokens. */
  lemma CostBound(b: Option<Bucket>, burst: int, ops: seq<Op>, t: real, x: real, y: real)
    requires Sound(b, burst, t) && Ordered(ops, t) && x <= y
    ensures PermittedCost(b, burst, ops, x, y) as real <= burst as real + (y - x)
  {
    CostHeldOrLeaked(b, burst, ops, t, x, y);
  }
}
