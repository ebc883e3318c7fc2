/** The circuit breaker and retry loop (go/resilience.go, go/resilience_cmp.go, go/mutation_constants.go):
    one signal's breaker as a value, the cooldown in int64 nanoseconds, the package's maps as a class, and the
    retry loop as a method. Clock readings are parameters. */
module Resilience {

  type Signal = string

  const MIN64 := -0x8000_0000_0000_0000
  const MAX64 := 0x7fff_ffff_ffff_ffff
  const THRESHOLD := 3
  const BASE_COOLDOWN := 30_000_000_000
  const MAX_COOLDOWN := 1024_000_000_000
  const MAX_ATTEMPTS := 101
  const ZERO_TIME := -62135596800_000_000_000 // Go's zero time.Time, in nanoseconds of Unix time

  function Wrap64(x: int): int { (x + 0x8000_0000_0000_0000) % 0x1_0000_0000_0000_0000 - 0x8000_0000_0000_0000 }

  function Min(a: int, b: int): int { if a <= b then a else b }
  function Max(a: int, b: int): int { if a <= b then b else a }

  function Pow2(n: nat): (r: nat)
    ensures r >= 1
  {
    if n == 0 then 1 else 2 * Pow2(n - 1)
  }

  /** 1 << n on int64. */
  function ShiftOne(n: nat): int { if n < 64 then Wrap64(Pow2(n)) else 0 }

  /** The cooldown the code computes, and the one it is meant to compute. */
  function Cooldown(openCount: nat): int { Min(Wrap64(BASE_COOLDOWN * ShiftOne(openCount)), MAX_COOLDOWN) }
  function IntendedCooldown(openCount: nat): int { Min(BASE_COOLDOWN * Pow2(openCount), MAX_COOLDOWN) }

  /** time.Since: the difference saturates. */
  function Since(now: int, at: int): int { Max(MIN64, Min(now - at, MAX64)) }

  // ---- the cooldown -------------------------------------------------------------------------------

  lemma {:induction false} Pow2Grows(m: nat, n: nat)
    requires m <= n
    ensures Pow2(m) <= Pow2(n)
    decreases n
  {
    if m < n { Pow2Grows(m, n - 1); }
  }

  /** Which exponents leave a usable product: all up to 28, and the few larger ones whose wrapped product
      happens to land above the cap. */
  predicate ProductSurvives(n: nat) { n <= 28 || n in {31, 38, 39, 40, 41, 43, 44, 45, 49, 51} }

  lemma WrapShift(x: int, k: int)
    ensures Wrap64(x + k * 0x1_0000_0000_0000_0000) == Wrap64(x)
  {
    ModShift(x + 0x8000_0000_0000_0000, k, 0x1_0000_0000_0000_0000);
  }

  lemma ModShift(x: int, k: int, m: int)
    requires m > 0
    ensures (x + k * m) % m == x % m
  {
    var q, r := x / m, x % m;
    assert x + k * m == (q + k) * m + r;
    DivModUnique(x + k * m, q + k, r, m);
  }

  lemma DivModUnique(x: int, q: int, r: int, m: int)
    requires m > 0 && x == q * m + r && 0 <= r < m
    ensures x % m == r
  {
    var d := x / m - q;
    assert d * m == r - x % m;
    assert d >= 1 ==> d * m >= m;
    assert d <= -1 ==> d * m <= -m;
  }

  lemma WrapIsShift(x: int) returns (k: int)
    ensures Wrap64(x) == x + k * 0x1_0000_0000_0000_0000
  {
    k := -((x + 0x8000_0000_0000_0000) / 0x1_0000_0000_0000_0000);
  }

  lemma WrapCases(x: int)
    requires 2 * MIN64 <= x <= 2 * MAX64
    ensures Wrap64(x) ==
      if x > MAX64 then x - 0x1_0000_0000_0000_0000
      else if x < MIN64 then x + 0x1_0000_0000_0000_0000
      else x
  {}

  /** The wrapped product doubles with every opening. */
  function Product(n: nat): int { Wrap64(BASE_COOLDOWN * ShiftOne(n)) }

  lemma ProductIsWrapped(n: nat)
    requires n < 64
    ensures Product(n) == Wrap64(BASE_COOLDOWN * Pow2(n))
  {
    var k := WrapIsShift(Pow2(n));
    hide Wrap64;
    WrapShift(BASE_COOLDOWN * Pow2(n), BASE_COOLDOWN * k);
    assert BASE_COOLDOWN * ShiftOne(n) == BASE_COOLDOWN * Pow2(n) + BASE_COOLDOWN * k * 0x1_0000_0000_0000_0000;
  }

  lemma Doubled(n: nat)
    requires n + 1 < 64
    ensures MIN64 <= Product(n) <= MAX64
    ensures Product(n + 1) ==
      if 2 * Product(n) > MAX64 then 2 * Product(n) - 0x1_0000_0000_0000_0000
      else if 2 * Product(n) < MIN64 then 2 * Product(n) + 0x1_0000_0000_0000_0000
      else 2 * Product(n)
  {
    WrapCases(2 * Product(n));
    ProductIsWrapped(n);
    ProductIsWrapped(n + 1);
    var k := WrapIsShift(BASE_COOLDOWN * Pow2(n));
    hide Wrap64, Product;
    WrapShift(2 * (BASE_COOLDOWN * Pow2(n)), 2 * k);
    assert 2 * Product(n) == 2 * (BASE_COOLDOWN * Pow2(n)) + 2 * k * 0x1_0000_0000_0000_0000;
    assert BASE_COOLDOWN * Pow2(n + 1) == 2 * (BASE_COOLDOWN * Pow2(n));
  }

  lemma SmallProduct(n: nat)
    requires n <= 28
    ensures Product(n) == BASE_COOLDOWN * Pow2(n)
  {
    Pow28();
    Pow2Grows(n, 28);
    ProductIsWrapped(n);
    WrapCases(BASE_COOLDOWN * Pow2(n));
    hide Pow2, Product, Wrap64;
    assert 0 <= BASE_COOLDOWN * Pow2(n) <= MAX64;
  }

  lemma Pow28()
    ensures Pow2(28) == 0x1000_0000
  {
    assert Pow2(7) == 0x80;
    assert Pow2(14) == 0x4000;
    assert Pow2(21) == 0x20_0000;
  }

  lemma Products(n: nat)
    requires 29 <= n < 54
    ensures if ProductSurvives(n) then Product(n) >= MAX_COOLDOWN else Product(n) <= 0
    ensures Product(54) == 0
  {
    hide Product, Pow2, Wrap64;
    SmallProduct(28);
    Pow28();
    assert Product(28) == 8_053_063_680_000_000_000;
    Doubled(28);
    assert Product(29) == -2_340_616_713_709_551_616;
    Doubled(29);
    assert Product(30) == -4_681_233_427_419_103_232;
    Doubled(30);
    assert Product(31) == 9_084_277_218_871_345_152;
    Doubled(31);
    assert Product(32) == -278_189_635_966_861_312;
    Doubled(32);
    assert Product(33) == -556_379_271_933_722_624;
    Doubled(33);
    assert Product(34) == -1_112_758_543_867_445_248;
    Doubled(34);
    assert Product(35) == -2_225_517_087_734_890_496;
    Doubled(35);
    assert Product(36) == -4_451_034_175_469_780_992;
    Doubled(36);
    assert Product(37) == -8_902_068_350_939_561_984;
    Doubled(37);
    assert Product(38) == 642_607_371_830_427_648;
    Doubled(38);
    assert Product(39) == 1_285_214_743_660_855_296;
    Doubled(39);
    assert Product(40) == 2_570_429_487_321_710_592;
    Doubled(40);
    assert Product(41) == 5_140_858_974_643_421_184;
    Doubled(41);
    assert Product(42) == -8_165_026_124_422_709_248;
    Doubled(42);
    assert Product(43) == 2_116_691_824_864_133_120;
    Doubled(43);
    assert Product(44) == 4_233_383_649_728_266_240;
    Doubled(44);
    assert Product(45) == 8_466_767_299_456_532_480;
    Doubled(45);
    assert Product(46) == -1_513_209_474_796_486_656;
    Doubled(46);
    assert Product(47) == -3_026_418_949_592_973_312;
    Doubled(47);
    assert Product(48) == -6_052_837_899_185_946_624;
    Doubled(48);
    assert Product(49) == 6_341_068_275_337_658_368;
    Doubled(49);
    assert Product(50) == -5_764_607_523_034_234_880;
    Doubled(50);
    assert Product(51) == 6_917_529_027_641_081_856;
    Doubled(51);
    assert Product(52) == -4_611_686_018_427_387_904;
    Doubled(52);
    assert Product(53) == -9_223_372_036_854_775_808;
    Doubled(53);
    assert Product(54) == 0;
  }

  lemma {:induction false} VanishedProduct(n: nat)
    requires n >= 54
    ensures Product(n) == 0
  {
    if n == 54 {
      Products(53);
    } else if n < 64 {
      VanishedProduct(n - 1);
      Doubled(n - 1);
    }
  }

  lemma CooldownOfProduct(n: nat)
    ensures Cooldown(n) == Min(Product(n), MAX_COOLDOWN)
  {}

  /** The cooldown is min(30 * 2^n, 1024) seconds exactly on those open counts; on every other it is zero or
      negative, so an open circuit rejects nobody. */
  lemma CooldownExact(n: nat)
    ensures Cooldown(n) == IntendedCooldown(n) <==> ProductSurvives(n)
    ensures !ProductSurvives(n) ==> Cooldown(n) <= 0
    ensures ProductSurvives(n) && n >= 1 ==> 2 * BASE_COOLDOWN <= Cooldown(n) <= MAX_COOLDOWN
    ensures n >= 29 ==> IntendedCooldown(n) == MAX_COOLDOWN
  {
    hide Product, Wrap64;
    Pow28();
    CooldownOfProduct(n);
    if n <= 28 {
      SmallProduct(n);
      if n >= 1 { Pow2Grows(1, n); assert Pow2(1) == 2; }
    } else {
      Pow2Grows(28, n);
      if n < 54 { Products(n); } else { VanishedProduct(n); }
    }
    hide Pow2;
  }

  // ---- one signal's breaker -----------------------------------------------------------------------

  datatype Circuit = Circuit(timeouts: nat, trippedAt: int, openCount: nat, probing: bool)

  /** What the maps hold for a signal never recorded. */
  const Untouched := Circuit(0, ZERO_TIME, 0, false)

  datatype Verdict = Verdict(reject: bool, circuit: Circuit)

  function Check(c: Circuit, now: int): Verdict
  {
    if c.timeouts < THRESHOLD then Verdict(false, c)
    else if c.probing then Verdict(true, c)
    else if Since(now, c.trippedAt) < Cooldown(c.openCount) then Verdict(true, c)
    else Verdict(false, c.(probing := true))
  }

  function RecordSuccess(c: Circuit): Circuit {
    if c.probing then c.(probing := false, timeouts := 0, openCount := Max(0, c.openCount - 1)) else c.(timeouts := 0)
  }

  function Tripped(c: Circuit, now: int): Circuit { c.(openCount := c.openCount + 1, trippedAt := now) }

  function RecordFailure(c: Circuit, isTimeout: bool, now: int): Circuit {
    if c.probing then Tripped(c.(probing := false), now)
    else if isTimeout then
      var counted := c.(timeouts := c.timeouts + 1);
      if counted.timeouts >= THRESHOLD then Tripped(counted, now) else counted
    else c.(timeouts := 0)
  }

  datatype Status = Closed | Open | HalfOpen
  datatype CircuitState = CircuitState(state: Status, openCount: nat, cooldownRemainingMs: int)

  function GetCircuitState(c: Circuit, now: int): CircuitState
  {
    if c.probing then CircuitState(HalfOpen, c.openCount, 0)
    else if c.timeouts >= THRESHOLD then
      var remaining := Wrap64(Cooldown(c.openCount) - Since(now, c.trippedAt));
      if remaining > 0 then CircuitState(Open, c.openCount, remaining / 1_000_000)
        else CircuitState(HalfOpen, c.openCount, 0)
    else CircuitState(Closed, c.openCount, 0)
  }

  /** Probing implies three timeouts in a row, which implies that the circuit has opened. */
  predicate CircuitOk(c: Circuit) {
    (c.probing ==> c.timeouts >= THRESHOLD) && (c.timeouts >= THRESHOLD ==> c.openCount >= 1)
  }

  /** Every step of every caller keeps it; so the clamp at zero never acts. */
  lemma StepsKeepOk(c: Circuit, now: int, isTimeout: bool)
    requires CircuitOk(c)
    ensures CircuitOk(Check(c, now).circuit) && CircuitOk(RecordSuccess(c)) &&
      CircuitOk(RecordFailure(c, isTimeout, now))
    ensures c.probing ==> RecordSuccess(c).openCount == c.openCount - 1
  {
    hide Cooldown, Since;
  }

  /** What GetCircuitState reports matches what the next check at the same clock does. */
  predicate Agrees(c: Circuit, now: int)
  {
    var report, verdict := GetCircuitState(c, now), Check(c, now);
    match report.state
    case Closed => !verdict.reject && !verdict.circuit.probing
    case Open => verdict.reject && !c.probing
    case HalfOpen => if c.probing then verdict.reject else !verdict.reject && verdict.circuit.probing
  }

  lemma CooldownIsInt64(n: nat)
    ensures MIN64 <= Cooldown(n) <= MAX_COOLDOWN
  {}

  /** The report and the check agree exactly when the difference they compare fits int64. */
  lemma ReportAgreesIff(c: Circuit, now: int)
    requires CircuitOk(c)
    ensures Agrees(c, now) <==>
      (c.timeouts >= THRESHOLD && !c.probing ==> MIN64 <= Cooldown(c.openCount) - Since(now, c.trippedAt) <= MAX64)
  {
    CooldownIsInt64(c.openCount);
    hide Cooldown;
  }

  lemma CooldownAtZero()
    ensures Cooldown(0) == BASE_COOLDOWN
  {
    SmallProduct(0);
  }

  /** So they agree at every open count whose cooldown did not overflow, unless the clock ran backwards. */
  lemma ReportAgrees(c: Circuit, now: int)
    requires CircuitOk(c) && now >= c.trippedAt && ProductSurvives(c.openCount)
    ensures Agrees(c, now)
    ensures GetCircuitState(c, now).state == Open ==>
      GetCircuitState(c, now).cooldownRemainingMs ==
        (IntendedCooldown(c.openCount) - Since(now, c.trippedAt)) / 1_000_000
    ensures 0 <= GetCircuitState(c, now).cooldownRemainingMs <= MAX_COOLDOWN / 1_000_000
  {
    hide Cooldown, IntendedCooldown, ProductSurvives, Agrees, Pow2;
    CooldownExact(c.openCount);
    CooldownAtZero();
    ReportAgreesIff(c, now);
    WrapCases(Cooldown(c.openCount) - Since(now, c.trippedAt));
    hide Wrap64;
  }

  /** An open circuit rejects for exactly the intended cooldown when it did not overflow, and otherwise lets
      the very next call through. */
  lemma OpenRejectsUntilCooldown(c: Circuit, now: int)
    requires CircuitOk(c) && c.timeouts >= THRESHOLD && !c.probing && c.trippedAt <= now
    ensures ProductSurvives(c.openCount) ==>
      (Check(c, now).reject <==> now - c.trippedAt < IntendedCooldown(c.openCount))
    ensures ProductSurvives(c.openCount) && now < c.trippedAt + 2 * BASE_COOLDOWN ==> Check(c, now).reject
    ensures now >= c.trippedAt + MAX_COOLDOWN ==> !Check(c, now).reject
    ensures !ProductSurvives(c.openCount) ==> !Check(c, now).reject
  {
    CooldownExact(c.openCount);
    CooldownIsInt64(c.openCount);
    hide Cooldown, IntendedCooldown, ProductSurvives;
  }

  // ---- a long outage ------------------------------------------------------------------------------

  datatype Outcome = Succeeded | Failed(error: string, isTimeout: bool)

  function Record(c: Circuit, o: Outcome, now: int): Circuit {
    match o
    case Succeeded => RecordSuccess(c)
    case Failed(_, isTimeout) => RecordFailure(c, isTimeout, now)
  }

  /** The circuit after the attempts' outcomes, first one first. */
  function RecordAll(c: Circuit, outcomes: seq<Outcome>, clock: seq<int>): Circuit
    requires |clock| == |outcomes|
  {
    if outcomes == [] then c
    else Record(RecordAll(c, outcomes[..|outcomes| - 1], clock[..|clock| - 1]), outcomes[|outcomes| - 1],
      clock[|clock| - 1])
  }

  predicate AllTimeouts(outcomes: seq<Outcome>) {
    forall i :: 0 <= i < |outcomes| ==> outcomes[i].Failed? && outcomes[i].isTimeout
  }

  /** Timeouts in a row raise the open count from the third one on, one each: the breaker is consulted before
      a call's first attempt only. */
  lemma {:induction false} TimeoutsInARow(outcomes: seq<Outcome>, clock: seq<int>)
    requires |clock| == |outcomes| && AllTimeouts(outcomes)
    ensures var c := RecordAll(Untouched, outcomes, clock);
      c.timeouts == |outcomes| && !c.probing && c.openCount == Max(0, |outcomes| - 2) &&
      (|outcomes| >= 3 ==> c.trippedAt == clock[|clock| - 1])
  {
    if outcomes != [] {
      TimeoutsInARow(outcomes[..|outcomes| - 1], clock[..|clock| - 1]);
      assert outcomes[|outcomes| - 1].isTimeout;
    }
  }

  /** Thirty-one timeouts in a row, which one call with thirty retries is enough for, overflow the cooldown:
      the circuit has opened twenty-nine times and yet the next call is admitted at once. Thirty do not. */
  lemma LongOutageIsAdmitted(outcomes: seq<Outcome>, clock: seq<int>, now: int)
    requires |clock| == |outcomes| && AllTimeouts(outcomes) && |outcomes| >= 3 && clock[|clock| - 1] <= now
    ensures var c := RecordAll(Untouched, outcomes, clock);
      CircuitOk(c) && c.openCount == |outcomes| - 2 &&
      (|outcomes| <= 30 && now < clock[|clock| - 1] + 2 * BASE_COOLDOWN ==> Check(c, now).reject) &&
      (|outcomes| == 31 || |outcomes| >= 54 ==> !Check(c, now).reject)
  {
    TimeoutsInARow(outcomes, clock);
    var c := RecordAll(Untouched, outcomes, clock);
    OpenRejectsUntilCooldown(c, now);
    hide Cooldown, RecordAll, Check;
  }

  // ---- the retry loop -----------------------------------------------------------------------------

  /** timeoutEnabled stands for TimeoutSeconds > 0; backoff only sleeps. */
  datatype Policy = Policy(retries: int, timeoutEnabled: bool, failOpen: bool)

  const DefaultPolicy := Policy(0, true, true)

  /** Retries + 1 on int64, clamped to 1..101. */
  function Attempts(p: Policy): (n: nat)
    ensures 1 <= n <= MAX_ATTEMPTS
    ensures 0 <= p.retries < MAX_ATTEMPTS ==> n == p.retries + 1
    ensures MIN64 <= p.retries < 0 ==> n == 1
    ensures p.retries == MAX64 ==> n == 1
  {
    Min(Max(1, Wrap64(p.retries + 1)), MAX_ATTEMPTS)
  }

  /** How many attempts a call makes: up to and including the first that succeeds. */
  function Used(outcomes: seq<Outcome>): (n: nat)
    ensures n <= |outcomes|
    ensures forall i :: 0 <= i < n - 1 ==> outcomes[i].Failed?
    ensures n < |outcomes| ==> n >= 1 && outcomes[n - 1] == Succeeded
  {
    if outcomes == [] then 0 else if outcomes[0] == Succeeded then 1 else 1 + Used(outcomes[1..])
  }

  lemma {:induction false} UsedStopsAtSuccess(outcomes: seq<Outcome>, n: nat)
    requires n < |outcomes| && outcomes[n] == Succeeded && forall i :: 0 <= i < n ==> outcomes[i].Failed?
    ensures Used(outcomes) == n + 1
  {
    if n > 0 {
      assert outcomes[0].Failed?;
      UsedStopsAtSuccess(outcomes[1..], n - 1);
    }
  }

  lemma {:induction false} UsedAllWhenNoneSucceeds(outcomes: seq<Outcome>)
    requires forall i :: 0 <= i < |outcomes| ==> outcomes[i].Failed?
    ensures Used(outcomes) == |outcomes|
  {
    if outcomes != [] {
      assert outcomes[0].Failed?;
      UsedAllWhenNoneSucceeds(outcomes[1..]);
    }
  }

  datatype Reply = Ok | CircuitOpen | LastError(error: string)

  /** What a call returns, from the policy and the attempts' outcomes alone. */
  function ReplyOf(p: Policy, rejected: bool, outcomes: seq<Outcome>): Reply {
    if p.failOpen then Ok
    else if rejected then CircuitOpen
    else if outcomes == [] || outcomes[|outcomes| - 1] == Succeeded then Ok
    else LastError(outcomes[|outcomes| - 1].error)
  }

  function Failures(outcomes: seq<Outcome>): nat {
    if outcomes == [] then 0 else Failures(outcomes[..|outcomes| - 1]) + if outcomes[|outcomes| - 1].Failed? then 1
      else 0
  }

  /** The package's maps and counters. An absent key reads as the zero value. */
  class Breaker {
    var policies: map<Signal, Policy>
    var timeouts: map<Signal, nat>
    var trippedAt: map<Signal, int>
    var openCounts: map<Signal, nat>
    var probing: map<Signal, bool>
    var retries: map<Signal, int>
    var exportFailures: map<Signal, int>

    function At(signal: Signal): Circuit
      reads this`timeouts, this`trippedAt, this`openCounts, this`probing
    {
      Circuit(
        if signal in timeouts then timeouts[signal] else 0,
        if signal in trippedAt then trippedAt[signal] else ZERO_TIME,
        if signal in openCounts then openCounts[signal] else 0,
        signal in probing && probing[signal])
    }

    function PolicyOf(signal: Signal): Policy
      reads this`policies
    {
      if signal in policies then policies[signal] else DefaultPolicy
    }

    function RetriesOf(signal: Signal): int
      reads this`retries
    {
      if signal in retries then retries[signal] else 0
    }

    function FailuresOf(signal: Signal): int
      reads this`exportFailures
    {
      if signal in exportFailures then exportFailures[signal] else 0
    }

    ghost predicate Valid()
      reads this`timeouts, this`trippedAt, this`openCounts, this`probing
    {
      forall signal :: CircuitOk(At(signal))
    }

    constructor ()
      ensures Valid() && forall signal :: At(signal) == Untouched && PolicyOf(signal) == DefaultPolicy
    {
      policies, timeouts, trippedAt, openCounts, probing := map[], map[], map[], map[], map[];
      retries, exportFailures := map[], map[];
    }

    twostate lemma OnlyChanged(signal: Signal)
      requires old(Valid()) && CircuitOk(At(signal)) && forall x :: x != signal ==> At(x) == old(At(x))
      ensures Valid()
    {
      forall x ensures CircuitOk(At(x)) {
        assert old(CircuitOk(At(x)));
      }
    }

    method IncRetries(signal: Signal)
      modifies this`retries
      ensures forall x :: RetriesOf(x) == old(RetriesOf(x)) + if x == signal then 1 else 0
    {
      retries := retries[signal := RetriesOf(signal) + 1];
    }

    method IncExportFailures(signal: Signal)
      modifies this`exportFailures
      ensures forall x :: FailuresOf(x) == old(FailuresOf(x)) + if x == signal then 1 else 0
    {
      exportFailures := exportFailures[signal := FailuresOf(signal) + 1];
    }

    method SetExporterPolicy(signal: Signal, policy: Policy)
      modifies this`policies
      ensures forall x :: PolicyOf(x) == if x == signal then policy else old(PolicyOf(x))
    {
      policies := policies[signal := policy];
    }

    method CheckCircuitBreaker(signal: Signal, now: int) returns (reject: bool)
      requires Valid()
      modifies this`probing
      ensures Valid()
      ensures Verdict(reject, At(signal)) == old(Check(At(signal), now))
      ensures forall x :: x != signal ==> At(x) == old(At(x))
    {
      StepsKeepOk(At(signal), now, false);
      ghost var before := At(signal);
      assert CircuitOk(before);
      var count := if signal in timeouts then timeouts[signal] else 0;
      if count < THRESHOLD { return false; }
      if signal in probing && probing[signal] { return true; }
      var oc := if signal in openCounts then openCounts[signal] else 0;
      var tripped := if signal in trippedAt then trippedAt[signal] else ZERO_TIME;
      if Since(now, tripped) < Cooldown(oc) { return true; }
      probing := probing[signal := true];
      OnlyChanged(signal);
      return false;
    }

    method RecordAttemptSuccess(signal: Signal)
      requires Valid()
      modifies this`probing, this`timeouts, this`openCounts
      ensures Valid()
      ensures At(signal) == old(RecordSuccess(At(signal)))
      ensures forall x :: x != signal ==> At(x) == old(At(x))
    {
      ghost var before := At(signal);
      StepsKeepOk(before, 0, false);
      if signal in probing && probing[signal] {
        probing := probing[signal := false];
        timeouts := timeouts[signal := 0];
        var oc := if signal in openCounts then openCounts[signal] else 0;
        openCounts := openCounts[signal := Max(0, oc - 1)];
      } else {
        timeouts := timeouts[signal := 0];
      }
      OnlyChanged(signal);
    }

    method RecordAttemptFailure(signal: Signal, isTimeout: bool, now: int)
      requires Valid()
      modifies this`probing, this`timeouts, this`openCounts, this`trippedAt
      ensures Valid()
      ensures At(signal) == old(RecordFailure(At(signal), isTimeout, now))
      ensures forall x :: x != signal ==> At(x) == old(At(x))
    {
      ghost var before := At(signal);
      StepsKeepOk(before, now, isTimeout);
      var oc := if signal in openCounts then openCounts[signal] else 0;
      if signal in probing && probing[signal] {
        probing := probing[signal := false];
        openCounts := openCounts[signal := oc + 1];
        trippedAt := trippedAt[signal := now];
      } else if isTimeout {
        var count := if signal in timeouts then timeouts[signal] else 0;
        timeouts := timeouts[signal := count + 1];
        if count + 1 >= THRESHOLD {
          openCounts := openCounts[signal := oc + 1];
          trippedAt := trippedAt[signal := now];
        }
      } else {
        timeouts := timeouts[signal := 0];
      }
      OnlyChanged(signal);
    }

    /** RunWithResilience with no other caller in between: outcomes[i] is what the exporter would return on
        attempt i and clock[i] the time it is recorded. */
    method RunWithResilience(
      signal: Signal, outcomes: seq<Outcome>, clock: seq<int>, now: int)
      returns (reply: Reply, ghost used: nat)
      requires Valid() && |outcomes| == |clock| == Attempts(PolicyOf(signal))
      modifies this`probing, this`timeouts, this`openCounts, this`trippedAt, this`retries, this`exportFailures
      ensures Valid()
      ensures forall x :: x != signal ==>
        At(x) == old(At(x)) && RetriesOf(x) == old(RetriesOf(x)) && FailuresOf(x) == old(FailuresOf(x))
      ensures var rejected := PolicyOf(signal).timeoutEnabled && old(Check(At(signal), now)).reject;
        used == (if rejected then 0 else Used(outcomes)) &&
          reply == ReplyOf(PolicyOf(signal), rejected, outcomes[..used])
      ensures At(signal) ==
        RecordAll(if PolicyOf(signal).timeoutEnabled then old(Check(At(signal), now)).circuit
          else old(At(signal)), outcomes[..used], clock[..used])
      ensures RetriesOf(signal) == old(RetriesOf(signal)) + Max(0, used - 1)
      ensures FailuresOf(signal) == old(FailuresOf(signal)) + Failures(outcomes[..used])
    {
      hide Check, RecordSuccess, RecordFailure, CircuitOk, Used, Attempts, RecordAll, Failures, At, PolicyOf, RetriesOf,
        FailuresOf, Valid;
      RecordNone(outcomes, clock);
      used := 0;
      var policy := PolicyOf(signal);
      var attempts := Attempts(policy);
      if policy.timeoutEnabled {
        var rejected := CheckCircuitBreaker(signal, now);
        if rejected {
          return if policy.failOpen then Ok else CircuitOpen, 0;
        }
      }
      ghost var admitted := At(signal);
      var lastErr := "";
      var attempt := 0;
      while attempt < attempts
        invariant 0 <= attempt <= attempts && Valid() && PolicyOf(signal) == policy
        invariant forall i :: 0 <= i < attempt ==> outcomes[i].Failed?
        invariant attempt > 0 ==> lastErr == outcomes[attempt - 1].error
        invariant At(signal) == RecordAll(admitted, outcomes[..attempt], clock[..attempt])
        invariant RetriesOf(signal) == old(RetriesOf(signal)) + Max(0, attempt - 1)
        invariant FailuresOf(signal) == old(FailuresOf(signal)) + Failures(outcomes[..attempt])
        invariant forall x :: x != signal ==> At(x) == old(At(x))
        invariant forall x :: x != signal ==> RetriesOf(x) == old(RetriesOf(x)) && FailuresOf(x) == old(FailuresOf(x))
      {
        if attempt > 0 {
          IncRetries(signal);
        }
        RecordAllUnroll(admitted, outcomes, clock, attempt);
        if outcomes[attempt] == Succeeded {
          RecordAttemptSuccess(signal);
          UsedStopsAtSuccess(outcomes, attempt);
          return Ok, attempt + 1;
        }
        IncExportFailures(signal);
        RecordAttemptFailure(signal, outcomes[attempt].isTimeout, clock[attempt]);
        lastErr := outcomes[attempt].error;
        attempt := attempt + 1;
      }
      UsedAllWhenNoneSucceeds(outcomes);
      assert outcomes[..attempts] == outcomes;
      reply, used := if policy.failOpen then Ok else LastError(lastErr), attempts;
    }
  }

  lemma RecordNone(outcomes: seq<Outcome>, clock: seq<int>)
    ensures outcomes[..0] == [] && clock[..0] == [] && Failures([]) == 0 && forall c :: RecordAll(c, [], []) == c
  {}

  lemma RecordAllUnroll(c: Circuit, outcomes: seq<Outcome>, clock: seq<int>, n: nat)
    requires |clock| == |outcomes| && n < |outcomes|
    ensures RecordAll(c, outcomes[..n + 1], clock[..n + 1]) ==
      Record(RecordAll(c, outcomes[..n], clock[..n]), outcomes[n], clock[n])
    ensures Failures(outcomes[..n + 1]) == Failures(outcomes[..n]) + if outcomes[n].Failed? then 1 else 0
  {
    var o, k := outcomes[..n + 1], clock[..n + 1];
    assert o[..|o| - 1] == outcomes[..n] && k[..|k| - 1] == clock[..n];
  }
}
