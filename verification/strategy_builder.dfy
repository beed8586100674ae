/**
  The custom rule chains of psx_api/strategy_builder/parse.py: conditions, groups, the stripped exit
  group, the time stop, and the closure that remembers whether it is long and since which bar.
*/
module StrategyBuilder {
  import opened Wrappers
  import opened Engine
  import opened EngineLaws
  import opened RunLaws
  import opened Indicators
  import opened Strategies

  // ---- Rules -------------------------------------------------------------------------------------

  /** A constant that does not convert to a number, and an unknown operand kind, raise when evaluated. */
  datatype Operand =
    | Constant(value: Option<real>)
    | Price
    | Indicator(name: string, period: int)
    | UnknownOperand

  /** `value` is `None` when the JSON value does not convert to an integer. */
  datatype Condition =
    | Compare(left: Operand, op: string, right: Operand)
    | HoldingDaysGt(value: Option<int>)

  /** `Empty` is the empty object, which Python takes for false; `Malformed` is any other shapeless one. */
  datatype Group =
    | AllOf(conditions: seq<Condition>)
    | AnyOf(conditions: seq<Condition>)
    | Single(condition: Condition)
    | Empty
    | Malformed

  datatype Rules = Rules(entry: Group, exit: Option<Group>)

  // ---- Evaluation --------------------------------------------------------------------------------

  function RawCloses(bars: seq<Bar>): (r: seq<real>)
    ensures |r| == |bars|
  {
    seq(|bars|, k requires 0 <= k < |bars| => bars[k].close)
  }

  function Highs(bars: seq<Bar>): (r: seq<real>)
    ensures |r| == |bars|
  {
    seq(|bars|, k requires 0 <= k < |bars| => bars[k].high)
  }

  function Lows(bars: seq<Bar>): (r: seq<real>)
    ensures |r| == |bars|
  {
    seq(|bars|, k requires 0 <= k < |bars| => bars[k].low)
  }

  const PERIOD_INDICATORS := ["rsi", "sma", "ema", "stochastic_k"]

  /** Python's `lower` as far as it can reach one of the names: the Kelvin sign becomes an ordinary k. */
  function LowerChar(c: char): char {
    if 'A' <= c <= 'Z' then c - 'A' + 'a' else if c == '\U{212A}' then 'k' else c
  }

  function Lower(s: string): (r: string)
    ensures |r| == |s|
  {
    seq(|s|, k requires 0 <= k < |s| => LowerChar(s[k]))
  }

  /** An indicator at the last of `bars`.  A period below one raises, but for a negative one of the ATR. */
  function IndicatorValue(name: string, period: int, bars: seq<Bar>): Result<Option<real>, RunError> {
    if bars == [] then Failure(StrategyFailed)
    else
      var closes := RawCloses(bars);
      if name == "macd_histogram" then Success(Last(MacdSpec(closes, 12, 26, 9).histogram))
      else if name == "volume" then Success(Some(bars[|bars| - 1].volume))
      else if name == "atr" then
        if AtrDefined(|bars|, period) then Success(Last(AtrSpec(Highs(bars), Lows(bars), closes, period)))
        else Failure(StrategyFailed)
      else if name !in PERIOD_INDICATORS || period <= 0 then Failure(StrategyFailed)
      else if name == "rsi" then Success(Last(RsiSeries(closes, period)))
      else if name == "sma" then Success(Last(SmaSeries(closes, period)))
      else if name == "ema" then Success(Last(EmaSeries(closes, period)))
      else Success(Last(StochasticSpec(Highs(bars), Lows(bars), closes, period, 3).k))
  }

  function EvalOperand(o: Operand, bars: seq<Bar>, i: nat): Result<Option<real>, RunError> {
    var seen := Upto(bars, i);
    match o
    case Constant(v) => if v.Some? then Success(v) else Failure(StrategyFailed)
    case Price => Success(if seen == [] then None else Some(seen[|seen| - 1].close))
    case Indicator(name, period) => IndicatorValue(Lower(name), period, seen)
    case UnknownOperand => Failure(StrategyFailed)
  }

  const OPERATORS := ["<", "<=", ">", ">=", "=="]

  function Apply(op: string, a: real, b: real): bool {
    if op == "<" then a < b
    else if op == "<=" then a <= b
    else if op == ">" then a > b
    else if op == ">=" then a >= b
    else a == b
  }

  function EvalCondition(c: Condition, bars: seq<Bar>, i: nat): Result<bool, RunError> {
    match c
    case HoldingDaysGt(_) => Success(false)
    case Compare(left, op, right) =>
      if op !in OPERATORS then Failure(StrategyFailed)
      else
        var a :- EvalOperand(left, bars, i);
        var b :- EvalOperand(right, bars, i);
        Success(a.Some? && b.Some? && Apply(op, a.value, b.value))
  }

  /** Python's `all(...)`: stops at the first false one, so a later clause may never be looked at. */
  function EvalAll(cs: seq<Condition>, bars: seq<Bar>, i: nat): Result<bool, RunError> {
    if cs == [] then Success(true)
    else
      var first :- EvalCondition(cs[0], bars, i);
      if !first then Success(false) else EvalAll(cs[1..], bars, i)
  }

  /** Python's `any(...)`: stops at the first true one. */
  function EvalAny(cs: seq<Condition>, bars: seq<Bar>, i: nat): Result<bool, RunError> {
    if cs == [] then Success(false)
    else
      var first :- EvalCondition(cs[0], bars, i);
      if first then Success(true) else EvalAny(cs[1..], bars, i)
  }

  function EvalGroup(g: Group, bars: seq<Bar>, i: nat): Result<bool, RunError> {
    match g
    case AllOf(cs) => EvalAll(cs, bars, i)
    case AnyOf(cs) => EvalAny(cs, bars, i)
    case Single(c) => EvalCondition(c, bars, i)
    case Empty => Failure(StrategyFailed)
    case Malformed => Failure(StrategyFailed)
  }

  // ---- The time-stop clause ----------------------------------------------------------------------

  function DropTimeStops(cs: seq<Condition>): seq<Condition> {
    if cs == [] then []
    else if cs[0].HoldingDaysGt? then DropTimeStops(cs[1..])
    else [cs[0]] + DropTimeStops(cs[1..])
  }

  /** The group without its time stops; `None` also stands for the empty object, which tests false. */
  function StripMeta(g: Group): Option<Group> {
    match g
    case AllOf(cs) => if DropTimeStops(cs) == [] then None else Some(AllOf(DropTimeStops(cs)))
    case AnyOf(cs) => if DropTimeStops(cs) == [] then None else Some(AnyOf(DropTimeStops(cs)))
    case Single(c) => if c.HoldingDaysGt? then None else Some(g)
    case Empty => None
    case Malformed => Some(g)
  }

  /** `exit_clean and _eval_group(exit_clean, ...)` */
  function EvalStripped(g: Group, bars: seq<Bar>, i: nat): Result<bool, RunError> {
    match StripMeta(g)
    case None => Success(false)
    case Some(clean) => EvalGroup(clean, bars, i)
  }

  function FirstTimeStop(cs: seq<Condition>): Option<int> {
    if cs == [] then None
    else if cs[0].HoldingDaysGt? && cs[0].value.Some? then cs[0].value
    else FirstTimeStop(cs[1..])
  }

  function HoldingDaysMax(exit: Option<Group>): Option<int> {
    match exit
    case None => None
    case Some(AllOf(cs)) => FirstTimeStop(cs)
    case Some(AnyOf(cs)) => FirstTimeStop(cs)
    case Some(Single(c)) => if c.HoldingDaysGt? then c.value else None
    case Some(Empty) => None
    case Some(Malformed) => None
  }

  // ---- The closure -------------------------------------------------------------------------------

  const MAX_HOLDING := "Custom rules: max holding period reached"

  datatype Memory = Memory(long: bool, entryIndex: int)

  function ExitSignal(exit: Option<Group>, bars: seq<Bar>, i: nat): Result<bool, RunError> {
    if exit.Some? then EvalStripped(exit.value, bars, i) else Success(false)
  }

  function RulesStep(rules: Rules, m: Memory, bars: seq<Bar>, i: nat): Result<(Memory, Decision), RunError> {
    var limit := HoldingDaysMax(rules.exit);
    if !m.long then
      var enter :- EvalGroup(rules.entry, bars, i);
      Success(if enter then (Memory(true, i + 1), Decision(1, "Custom rules: entry conditions met"))
              else (m, FLAT))
    else
      var leave :- ExitSignal(rules.exit, bars, i);
      Success(
        if leave then (m.(long := false), Decision(0, "Custom rules: exit conditions met"))
        else if limit.Some? && m.entryIndex >= 0 && i - m.entryIndex >= limit.value
        then (m.(long := false), Decision(0, MAX_HOLDING))
        else (m, Decision(1, "")))
  }

  function RulesStrategy(rules: Rules): Strategy<Memory> {
    Strategy(Memory(false, -1), (m: Memory, bars: seq<Bar>, i: nat) => RulesStep(rules, m, bars, i))
  }

  /** Twenty bars of January 2024 at a price of 100, on which rules are tried out before they are accepted. */
  function SyntheticBars(): seq<Bar> {
    seq(20, k => Bar(738886 + k, 100.0, 101.0, 99.0, 100.0, 100.0, 1000.0))
  }

  function BuildStrategy(rules: Rules): Result<Strategy<Memory>, RunError> {
    var _ :- EvalGroup(rules.entry, SyntheticBars(), 19);
    var _ :- ExitSignal(rules.exit, SyntheticBars(), 19);
    Success(RulesStrategy(rules))
  }

  // ---- What can fail -----------------------------------------------------------------------------

  /** What evaluates on n bars: a negative ATR period needs more bars than it counts back. */
  predicate WellFormedOperand(o: Operand, n: nat) {
    match o
    case Constant(v) => v.Some?
    case Price => true
    case Indicator(raw, period) =>
      var name := Lower(raw);
      || name == "macd_histogram" || name == "volume"
      || (name in PERIOD_INDICATORS && period > 0)
      || (name == "atr" && (period > 0 || (period < 0 && -period < n)))
    case UnknownOperand => false
  }

  predicate WellFormed(c: Condition, n: nat) {
    match c
    case HoldingDaysGt(_) => true
    case Compare(left, op, right) => op in OPERATORS && WellFormedOperand(left, n) && WellFormedOperand(right, n)
  }

  lemma OperandFailsExactly(o: Operand, bars: seq<Bar>, i: nat)
    requires i < |bars|
    ensures EvalOperand(o, bars, i).Success? <==> WellFormedOperand(o, i + 1)
  {
    assert |Upto(bars, i)| == i + 1;
  }

  /** Whether a clause raises depends on the bars only through their number, and there exactly as stated. */
  lemma ClauseFailsExactly(c: Condition, bars: seq<Bar>, i: nat)
    requires i < |bars|
    ensures EvalCondition(c, bars, i).Success? <==> WellFormed(c, i + 1)
  {
    match c
    case HoldingDaysGt(_) =>
    case Compare(left, op, right) =>
      OperandFailsExactly(left, bars, i);
      OperandFailsExactly(right, bars, i);
  }

  /** A clause that raises comes up: all clauses before it evaluate to `truth`, the value that reads on. */
  ghost predicate ComesUp(cs: seq<Condition>, bars: seq<Bar>, i: nat, truth: bool) {
    exists k: nat :: k < |cs| && !WellFormed(cs[k], i + 1) && AllAre(cs[..k], bars, i, truth)
  }

  ghost predicate AllAre(cs: seq<Condition>, bars: seq<Bar>, i: nat, truth: bool) {
    forall j :: 0 <= j < |cs| ==> EvalCondition(cs[j], bars, i) == Success(truth)
  }

  lemma AllAreCons(c: Condition, rest: seq<Condition>, bars: seq<Bar>, i: nat, truth: bool)
    ensures AllAre([c] + rest, bars, i, truth)
       <==> EvalCondition(c, bars, i) == Success(truth) && AllAre(rest, bars, i, truth)
  {
    var cs := [c] + rest;
    if AllAre(cs, bars, i, truth) {
      forall j | 0 <= j < |rest|
        ensures EvalCondition(rest[j], bars, i) == Success(truth)
      {
        assert rest[j] == cs[j + 1];
      }
      assert cs[0] == c;
    }
  }

  lemma ReadOnDown(c: Condition, rest: seq<Condition>, bars: seq<Bar>, i: nat, truth: bool, k: nat)
    requires i < |bars| && EvalCondition(c, bars, i) == Success(truth)
    requires k < |rest| + 1 && !WellFormed(([c] + rest)[k], i + 1) && AllAre(([c] + rest)[..k], bars, i, truth)
    ensures ComesUp(rest, bars, i, truth)
  {
    ClauseFailsExactly(c, bars, i);
    assert ([c] + rest)[..k] == [c] + rest[..k - 1];
    AllAreCons(c, rest[..k - 1], bars, i, truth);
    assert !WellFormed(rest[k - 1], i + 1);
  }

  lemma ReadOnUp(c: Condition, rest: seq<Condition>, bars: seq<Bar>, i: nat, truth: bool, k: nat)
    requires EvalCondition(c, bars, i) == Success(truth)
    requires k < |rest| && !WellFormed(rest[k], i + 1) && AllAre(rest[..k], bars, i, truth)
    ensures ComesUp([c] + rest, bars, i, truth)
  {
    assert ([c] + rest)[..k + 1] == [c] + rest[..k];
    AllAreCons(c, rest[..k], bars, i, truth);
    assert !WellFormed(([c] + rest)[k + 1], i + 1);
  }

  lemma ComesUpLater(cs: seq<Condition>, bars: seq<Bar>, i: nat, truth: bool)
    requires cs != [] && i < |bars| && EvalCondition(cs[0], bars, i) == Success(truth)
    ensures ComesUp(cs, bars, i, truth) <==> ComesUp(cs[1..], bars, i, truth)
  {
    assert cs == [cs[0]] + cs[1..];
    if ComesUp(cs, bars, i, truth) {
      var k: nat :| k < |cs| && !WellFormed(cs[k], i + 1) && AllAre(cs[..k], bars, i, truth);
      ReadOnDown(cs[0], cs[1..], bars, i, truth, k);
    }
    if ComesUp(cs[1..], bars, i, truth) {
      var k: nat :| k < |cs[1..]| && !WellFormed(cs[1..][k], i + 1) && AllAre(cs[1..][..k], bars, i, truth);
      ReadOnUp(cs[0], cs[1..], bars, i, truth, k);
    }
  }

  lemma ComesUpNow(cs: seq<Condition>, bars: seq<Bar>, i: nat, truth: bool)
    requires cs != [] && i < |bars| && EvalCondition(cs[0], bars, i) != Success(truth)
    ensures ComesUp(cs, bars, i, truth) <==> !WellFormed(cs[0], i + 1)
  {
    if !WellFormed(cs[0], i + 1) {
      assert AllAre(cs[..0], bars, i, truth);
    }
    if ComesUp(cs, bars, i, truth) {
      var k: nat :| k < |cs| && !WellFormed(cs[k], i + 1) && AllAre(cs[..k], bars, i, truth);
      assert k > 0 ==> cs[..k][0] == cs[0];
    }
  }

  /** An all_of list raises exactly when a clause that raises comes up behind true ones. */
  lemma {:induction false} AllOfFailsExactly(cs: seq<Condition>, bars: seq<Bar>, i: nat)
    requires i < |bars|
    ensures EvalAll(cs, bars, i).Failure? <==> ComesUp(cs, bars, i, true)
  {
    if cs != [] {
      ClauseFailsExactly(cs[0], bars, i);
      if EvalCondition(cs[0], bars, i) == Success(true) {
        AllOfFailsExactly(cs[1..], bars, i);
        ComesUpLater(cs, bars, i, true);
      } else {
        ComesUpNow(cs, bars, i, true);
      }
    }
  }

  /** An any_of list raises exactly when one comes up behind false ones. */
  lemma {:induction false} AnyOfFailsExactly(cs: seq<Condition>, bars: seq<Bar>, i: nat)
    requires i < |bars|
    ensures EvalAny(cs, bars, i).Failure? <==> ComesUp(cs, bars, i, false)
  {
    if cs != [] {
      ClauseFailsExactly(cs[0], bars, i);
      if EvalCondition(cs[0], bars, i) == Success(false) {
        AnyOfFailsExactly(cs[1..], bars, i);
        ComesUpLater(cs, bars, i, false);
      } else {
        ComesUpNow(cs, bars, i, false);
      }
    }
  }

  ghost predicate GroupRaises(g: Group, bars: seq<Bar>, i: nat) {
    match g
    case AllOf(cs) => ComesUp(cs, bars, i, true)
    case AnyOf(cs) => ComesUp(cs, bars, i, false)
    case Single(c) => !WellFormed(c, i + 1)
    case Empty => true
    case Malformed => true
  }

  lemma GroupFailsExactly(g: Group, bars: seq<Bar>, i: nat)
    requires i < |bars|
    ensures EvalGroup(g, bars, i).Failure? <==> GroupRaises(g, bars, i)
  {
    match g
    case AllOf(cs) => AllOfFailsExactly(cs, bars, i);
    case AnyOf(cs) => AnyOfFailsExactly(cs, bars, i);
    case Single(c) => ClauseFailsExactly(c, bars, i);
    case Empty =>
    case Malformed =>
  }

  /** The exit group is read without its time stops; a group of nothing else is not read at all. */
  ghost predicate ExitRaises(exit: Option<Group>, bars: seq<Bar>, i: nat) {
    exit.Some? && StripMeta(exit.value).Some? && GroupRaises(StripMeta(exit.value).value, bars, i)
  }

  lemma ExitFailsExactly(exit: Option<Group>, bars: seq<Bar>, i: nat)
    requires i < |bars|
    ensures ExitSignal(exit, bars, i).Failure? <==> ExitRaises(exit, bars, i)
  {
    if exit.Some? && StripMeta(exit.value).Some? {
      GroupFailsExactly(StripMeta(exit.value).value, bars, i);
    }
  }

  /** A call of the closure raises exactly when the group it reads, entry or exit, brings up such a clause. */
  lemma StepFailsExactly(rules: Rules, m: Memory, bars: seq<Bar>, i: nat)
    requires i < |bars|
    ensures RulesStep(rules, m, bars, i).Failure?
       <==> if m.long then ExitRaises(rules.exit, bars, i) else GroupRaises(rules.entry, bars, i)
  {
    GroupFailsExactly(rules.entry, bars, i);
    ExitFailsExactly(rules.exit, bars, i);
  }

  /** Rules are refused exactly when one of their groups does on the trial bars. */
  lemma RefusedExactly(rules: Rules)
    ensures BuildStrategy(rules).Failure?
       <==> GroupRaises(rules.entry, SyntheticBars(), 19) || ExitRaises(rules.exit, SyntheticBars(), 19)
  {
    GroupFailsExactly(rules.entry, SyntheticBars(), 19);
    ExitFailsExactly(rules.exit, SyntheticBars(), 19);
  }

  /** A whole run of accepted rules fails exactly when some call brings up a clause that raises. */
  lemma {:induction false} RunFailsExactly(rules: Rules, bars: seq<Bar>, n: nat, cfg: Config)
    requires GoodConfig(cfg) && GoodPrices(bars) && n <= |bars|
    ensures RunTo(bars, n, cfg, RulesStrategy(rules)).Failure? <==> SomeCallRaises(rules, bars, n, cfg)
  {
    var strategy := RulesStrategy(rules);
    if n > 0 {
      RunFailsExactly(rules, bars, n - 1, cfg);
      if RunTo(bars, n - 1, cfg, strategy).Success? {
        CallFailsExactly(rules, bars, n - 1, cfg);
      } else {
        FailureSpreads(bars, n - 1, n, cfg, strategy);
      }
    }
  }

  /** The call at bar k, in the state that the run has reached, brings up a clause that raises. */
  ghost predicate CallRaises(rules: Rules, bars: seq<Bar>, k: nat, cfg: Config)
    requires k < |bars|
  {
    var st := RunTo(bars, k, cfg, RulesStrategy(rules));
    && st.Success? && cfg.warmup <= k && k + 1 < |bars|
    && if st.value.memory.long then ExitRaises(rules.exit, bars, k) else GroupRaises(rules.entry, bars, k)
  }

  ghost predicate SomeCallRaises(rules: Rules, bars: seq<Bar>, n: nat, cfg: Config)
    requires n <= |bars|
  {
    n > 0 && (SomeCallRaises(rules, bars, n - 1, cfg) || CallRaises(rules, bars, n - 1, cfg))
  }

  lemma CallFailsExactly(rules: Rules, bars: seq<Bar>, k: nat, cfg: Config)
    requires GoodConfig(cfg) && GoodPrices(bars) && k < |bars|
    requires RunTo(bars, k, cfg, RulesStrategy(rules)).Success?
    ensures RunTo(bars, k + 1, cfg, RulesStrategy(rules)).Failure? <==> CallRaises(rules, bars, k, cfg)
  {
    var strategy := RulesStrategy(rules);
    StepFailsExactly(rules, RunTo(bars, k, cfg, strategy).value.memory, bars, k);
    if RunTo(bars, k + 1, cfg, strategy).Failure? {
      OnlyTheStrategyFails(bars, k, cfg, strategy);
    }
  }

  /** Clauses that are well formed on a single bar are on any number of bars: rules made of them never fail. */
  lemma WellFormedRulesNeverFail(rules: Rules, m: Memory, bars: seq<Bar>, i: nat)
    requires i < |bars| && WellFormedGroup(rules.entry)
    requires rules.exit.Some? ==> WellFormedGroup(rules.exit.value)
    ensures BuildStrategy(rules).Success? && RulesStep(rules, m, bars, i).Success?
  {
    RefusedExactly(rules);
    StepFailsExactly(rules, m, bars, i);
    WellFormedNeverRaises(rules.entry, bars, i);
    WellFormedNeverRaises(rules.entry, SyntheticBars(), 19);
    if rules.exit.Some? {
      WellFormedNeverRaises(rules.exit.value, bars, i);
      WellFormedNeverRaises(rules.exit.value, SyntheticBars(), 19);
    }
  }

  predicate AllWellFormed(cs: seq<Condition>) { forall k :: 0 <= k < |cs| ==> WellFormed(cs[k], 1) }

  predicate WellFormedGroup(g: Group) {
    match g
    case AllOf(cs) => AllWellFormed(cs)
    case AnyOf(cs) => AllWellFormed(cs)
    case Single(c) => WellFormed(c, 1)
    case Empty => false
    case Malformed => false
  }

  lemma {:induction false} DroppingKeepsWellFormed(cs: seq<Condition>)
    requires AllWellFormed(cs)
    ensures AllWellFormed(DropTimeStops(cs))
  {
    if cs != [] {
      assert forall k :: 0 <= k < |cs| - 1 ==> cs[1..][k] == cs[k + 1];
      DroppingKeepsWellFormed(cs[1..]);
    }
  }

  lemma WellFormedNeverRaises(g: Group, bars: seq<Bar>, i: nat)
    requires i < |bars| && WellFormedGroup(g)
    ensures !GroupRaises(g, bars, i) && !ExitRaises(Some(g), bars, i)
  {
    if g.AllOf? || g.AnyOf? {
      DroppingKeepsWellFormed(g.conditions);
    }
  }

  predicate AcceptedButFails(rules: Rules, bars: seq<Bar>) {
    BuildStrategy(rules).Success? && |bars| == 1 && RulesStep(rules, Memory(false, -1), bars, 0).Failure?
  }

  /**
    Acceptance alone promises less: the trial run stops at the first false clause, so an unknown operator
    behind `price > 200` is accepted, and fails the first time the price is above 200.
  */
  lemma AcceptedRulesCanFail()
    ensures exists rules, bars :: AcceptedButFails(rules, bars)
  {
    var high := Compare(Price, ">", Constant(Some(200.0)));
    var unknown := Compare(Price, "?", Price);
    var rules := Rules(AllOf([high, unknown]), None);
    var bars := [Bar(0, 300.0, 300.0, 300.0, 300.0, 300.0, 1.0)];
    assert [high, unknown][1..] == [unknown];
    assert Upto(SyntheticBars(), 19)[19] == SyntheticBars()[19];
    assert EvalCondition(high, SyntheticBars(), 19) == Success(false);
    assert Upto(bars, 0) == bars;
    assert EvalCondition(high, bars, 0) == Success(true);
    assert EvalCondition(unknown, bars, 0).Failure?;
    assert EvalAll([unknown], bars, 0).Failure?;
    assert EvalAll([high, unknown], bars, 0).Failure?;
    assert AcceptedButFails(rules, bars);
  }

  // ---- Stripping and meaning ---------------------------------------------------------------------

  /** In an any_of group a time stop is a false alternative: dropping it changes nothing. */
  lemma {:induction false} DroppingFromAny(cs: seq<Condition>, bars: seq<Bar>, i: nat)
    ensures EvalAny(DropTimeStops(cs), bars, i) == EvalAny(cs, bars, i)
  {
    if cs != [] {
      DroppingFromAny(cs[1..], bars, i);
      if !cs[0].HoldingDaysGt? {
        assert ([cs[0]] + DropTimeStops(cs[1..]))[1..] == DropTimeStops(cs[1..]);
      }
    }
  }

  /** `_strip_meta` keeps the outcome of every any_of group and of every single clause, errors included. */
  lemma StripKeepsAnyOf(g: Group, bars: seq<Bar>, i: nat)
    requires g.AnyOf? || g.Single?
    ensures EvalStripped(g, bars, i) == EvalGroup(g, bars, i)
  {
    if g.AnyOf? {
      DroppingFromAny(g.conditions, bars, i);
    }
  }

  predicate HasTimeStop(cs: seq<Condition>) {
    cs != [] && (cs[0].HoldingDaysGt? || HasTimeStop(cs[1..]))
  }

  /** Every clause that is not a time stop holds. */
  predicate NoneFails(cs: seq<Condition>, bars: seq<Bar>, i: nat) {
    forall j :: 0 <= j < |cs| && !cs[j].HoldingDaysGt? ==> EvalCondition(cs[j], bars, i) == Success(true)
  }

  /** They do, and there is at least one. */
  predicate OthersAllHold(cs: seq<Condition>, bars: seq<Bar>, i: nat) {
    (exists k :: 0 <= k < |cs| && !cs[k].HoldingDaysGt?) && NoneFails(cs, bars, i)
  }

  lemma {:induction false} DroppedAll(cs: seq<Condition>, bars: seq<Bar>, i: nat)
    ensures EvalAll(DropTimeStops(cs), bars, i) == Success(true) <==> NoneFails(cs, bars, i)
    ensures DropTimeStops(cs) == [] <==> forall j :: 0 <= j < |cs| ==> cs[j].HoldingDaysGt?
  {
    if cs != [] {
      DroppedAll(cs[1..], bars, i);
      var rest := DropTimeStops(cs[1..]);
      assert ([cs[0]] + rest)[1..] == rest;
      assert forall j :: 0 < j < |cs| ==> cs[j] == cs[1..][j - 1];
      assert forall j :: 0 <= j < |cs| - 1 ==> cs[1..][j] == cs[j + 1];
    }
  }

  /** A time stop is false, so it ends the reading; a clause that raises before it raises without it as well. */
  lemma {:induction false} FullAll(cs: seq<Condition>, bars: seq<Bar>, i: nat)
    ensures HasTimeStop(cs) ==> EvalAll(cs, bars, i) != Success(true)
    ensures EvalAll(cs, bars, i).Failure? ==> EvalAll(DropTimeStops(cs), bars, i) == EvalAll(cs, bars, i)
    ensures !HasTimeStop(cs) ==> DropTimeStops(cs) == cs
  {
    if cs != [] {
      FullAll(cs[1..], bars, i);
      var rest := DropTimeStops(cs[1..]);
      assert ([cs[0]] + rest)[1..] == rest;
    }
  }

  lemma SomeOtherClause(cs: seq<Condition>, bars: seq<Bar>, i: nat)
    ensures OthersAllHold(cs, bars, i)
       <==> DropTimeStops(cs) != [] && EvalAll(DropTimeStops(cs), bars, i) == Success(true)
    ensures cs != [] && DropTimeStops(cs) == [] ==> HasTimeStop(cs)
  {
    DroppedAll(cs, bars, i);
    if cs != [] && DropTimeStops(cs) == [] {
      assert cs[0].HoldingDaysGt?;
    }
  }

  /** The two outcomes compared, given what the reading of a list and of its other clauses have in common. */
  lemma OutcomesAgreeExactly(
    full: Result<bool, RunError>, dropped: Result<bool, RunError>, empty: bool, left: bool, stop: bool)
    requires empty ==> full == Success(true) && !left && !stop
    requires !left ==> dropped == Success(true) && (empty || stop)
    requires stop ==> full != Success(true)
    requires full.Failure? || !stop ==> dropped == full
    ensures (if left then dropped else Success(false)) == full
       <==> !empty && (stop && !full.Failure? ==> !dropped.Failure? && !(left && dropped == Success(true)))
  {
    match full
    case Failure(_) =>
    case Success(f) =>
      match dropped
      case Failure(_) =>
      case Success(d) =>
        assert f == d <==> (f <==> d);
  }

  lemma StripDiffersOn(cs: seq<Condition>, bars: seq<Bar>, i: nat)
    ensures EvalStripped(AllOf(cs), bars, i) == EvalGroup(AllOf(cs), bars, i)
       <==> && cs != []
            && (HasTimeStop(cs) && !EvalAll(cs, bars, i).Failure? ==>
                  !EvalAll(DropTimeStops(cs), bars, i).Failure? && !OthersAllHold(cs, bars, i))
  {
    SomeOtherClause(cs, bars, i);
    FullAll(cs, bars, i);
    OutcomesAgreeExactly(
      EvalAll(cs, bars, i), EvalAll(DropTimeStops(cs), bars, i), cs == [], DropTimeStops(cs) != [], HasTimeStop(cs));
  }

  /**
    For an all_of group it does not: the full group with a time stop is never true, the stripped one fires
    when the other clauses hold, and raises when that brings up a clause the time stop kept from being
    read.  The outcomes differ exactly when the group is empty, or has a time stop and raises nothing as
    written while, without it, some clause raises or all the other clauses, at least one, hold.
  */
  lemma StripKeepsAllOfExactly(cs: seq<Condition>, bars: seq<Bar>, i: nat)
    requires i < |bars|
    ensures EvalStripped(AllOf(cs), bars, i) == EvalGroup(AllOf(cs), bars, i)
       <==> && cs != []
            && (HasTimeStop(cs) && !ComesUp(cs, bars, i, true) ==>
                  !ComesUp(DropTimeStops(cs), bars, i, true) && !OthersAllHold(cs, bars, i))
  {
    StripDiffersOn(cs, bars, i);
    AllOfFailsExactly(cs, bars, i);
    AllOfFailsExactly(DropTimeStops(cs), bars, i);
  }

  /** An all_of exit that the stripped evaluation fires and the group as written never does. */
  lemma StrippingFiresAnAllOf(bars: seq<Bar>, i: nat)
    requires i < |bars| && bars[i].close > 0.0
    ensures var exit := AllOf([HoldingDaysGt(Some(5)), Compare(Price, ">", Constant(Some(0.0)))]);
            EvalGroup(exit, bars, i) == Success(false) && EvalStripped(exit, bars, i) == Success(true)
  {
    var price := Compare(Price, ">", Constant(Some(0.0)));
    var cs := [HoldingDaysGt(Some(5)), price];
    assert cs[1..] == [price] && [price][1..] == [];
    assert DropTimeStops([]) == [] && DropTimeStops([price]) == [price];
    assert EvalCondition(price, bars, i) == Success(true);
    assert EvalAll([price], bars, i) == Success(true);
  }

  /** One that is false as written and raises when stripped: its unknown operator stands behind a time stop. */
  lemma StrippingUncoversAnError(bars: seq<Bar>, i: nat)
    ensures var exit := AllOf([HoldingDaysGt(Some(5)), Compare(Price, "?", Price)]);
            EvalGroup(exit, bars, i) == Success(false) && EvalStripped(exit, bars, i).Failure?
  {
    var unknown := Compare(Price, "?", Price);
    var cs := [HoldingDaysGt(Some(5)), unknown];
    assert cs[1..] == [unknown] && [unknown][1..] == [];
    assert DropTimeStops([]) == [] && DropTimeStops([unknown]) == [unknown];
    assert EvalCondition(unknown, bars, i).Failure?;
  }

  // ---- Causality and the flag --------------------------------------------------------------------

  lemma RulesAreCausal(rules: Rules)
    ensures Causal(RulesStrategy(rules))
  {
    forall m: Memory, bars: seq<Bar>, i: nat | i < |bars|
      ensures UsesPastOnly(RulesStrategy(rules), m, bars, i)
    {
      RulesUsePastOnly(rules, m, bars, i);
    }
  }

  lemma RulesUsePastOnly(rules: Rules, m: Memory, bars: seq<Bar>, i: nat)
    requires i < |bars|
    ensures RulesStep(rules, m, bars[..i + 1], i) == RulesStep(rules, m, bars, i)
  {
    GroupUsesPastOnly(rules.entry, bars, i);
    if rules.exit.Some? && StripMeta(rules.exit.value).Some? {
      GroupUsesPastOnly(StripMeta(rules.exit.value).value, bars, i);
    }
  }

  lemma ConditionUsesPastOnly(c: Condition, bars: seq<Bar>, i: nat)
    requires i < |bars|
    ensures EvalCondition(c, bars[..i + 1], i) == EvalCondition(c, bars, i)
  {
    UptoTwice(bars, i);
  }

  lemma {:induction false} ListUsesPastOnly(cs: seq<Condition>, bars: seq<Bar>, i: nat)
    requires i < |bars|
    ensures EvalAll(cs, bars[..i + 1], i) == EvalAll(cs, bars, i)
    ensures EvalAny(cs, bars[..i + 1], i) == EvalAny(cs, bars, i)
  {
    if cs != [] {
      ConditionUsesPastOnly(cs[0], bars, i);
      ListUsesPastOnly(cs[1..], bars, i);
    }
  }

  lemma GroupUsesPastOnly(g: Group, bars: seq<Bar>, i: nat)
    requires i < |bars|
    ensures EvalGroup(g, bars[..i + 1], i) == EvalGroup(g, bars, i)
  {
    match g
    case AllOf(cs) => ListUsesPastOnly(cs, bars, i);
    case AnyOf(cs) => ListUsesPastOnly(cs, bars, i);
    case Single(c) => ConditionUsesPastOnly(c, bars, i);
    case Empty =>
    case Malformed =>
  }

  lemma RulesTrack(rules: Rules)
    ensures Tracks(RulesStrategy(rules), (m: Memory) => m.long)
  {
  }

  /** At every call the custom closure's flag says whether the engine is in the market. */
  lemma RulesFlagAgrees(rules: Rules, bars: seq<Bar>, k: nat, cfg: Config)
    requires GoodConfig(cfg) && GoodPrices(bars) && k < |bars|
    requires RunTo(bars, k, cfg, RulesStrategy(rules)).Success?
    ensures var st := RunTo(bars, k, cfg, RulesStrategy(rules)).value;
      st.memory.long <==> st.book.quantity > 0.0
  {
    RulesTrack(rules);
    FlagAgreesWithPosition(bars, k, cfg, RulesStrategy(rules), (m: Memory) => m.long);
  }

  // ---- The time stop -----------------------------------------------------------------------------

  function Longest(limit: int): nat { if limit > 0 then limit else 0 }

  /** At most `limit + 1` bars, and no fewer when it was the time stop that closed the trade. */
  predicate InBounds(t: Trade, limit: int) {
    && t.exitBar <= t.entryBar + Longest(limit) + 1
    && (t.reasonClose == MAX_HOLDING ==> t.exitBar >= t.entryBar + limit + 1)
  }

  /** Every closed trade did. */
  predicate TradesWithin(trades: seq<Trade>, limit: int) {
    trades == [] || (TradesWithin(trades[..|trades| - 1], limit) && InBounds(trades[|trades| - 1], limit))
  }

  /** The closure's entry index is the bar of the engine's fill, no more than `limit` bars ago. */
  ghost predicate InTime(st: State<Memory>, k: nat, limit: int) {
    && TradesWithin(st.book.trades, limit)
    && (st.book.entry.Some? ==>
          st.memory.long && st.memory.entryIndex == st.book.entry.value.bar
          && st.book.entry.value.bar <= k <= st.book.entry.value.bar + Longest(limit))
    && (st.memory.long ==> st.book.entry.Some?)
  }

  lemma ClosingInTime(book: Book, exitBar: nat, date: int, price: real, rate: real, reason: string, limit: int)
    requires Holding(book) && TradesWithin(book.trades, limit)
    requires exitBar <= book.entry.value.bar + Longest(limit) + 1
    requires reason == MAX_HOLDING ==> exitBar >= book.entry.value.bar + limit + 1
    ensures TradesWithin(Close(book, exitBar, date, price, rate, reason).trades, limit)
  {
    var trades := Close(book, exitBar, date, price, rate, reason).trades;
    assert trades[..|trades| - 1] == book.trades;
  }

  lemma FillInTime(
    st: State<Memory>, answer: (Memory, Decision), next: Bar, k: nat, rules: Rules, bars: seq<Bar>, limit: int,
    cfg: Config)
    requires GoodConfig(cfg) && next.open > 0.0 && Sound(st.book, cfg)
    requires HoldingDaysMax(rules.exit) == Some(limit)
    requires InTime(st, k, limit) && RulesStep(rules, st.memory, bars, k) == Success(answer)
    ensures var r := Fill(st.book, next, k + 1, answer.1, cfg.rate);
      && r.Success?
      && TradesWithin(r.value.trades, limit)
      && (r.value.entry.Some? <==> answer.0.long)
      && (r.value.entry.Some? ==>
            answer.0.entryIndex == r.value.entry.value.bar
            && r.value.entry.value.bar <= k + 1 <= r.value.entry.value.bar + Longest(limit))
  {
    FillKeepsSound(st.book, next, k + 1, answer.1, cfg);
    if answer.1.target == 0 && Holding(st.book) {
      ClosingInTime(st.book, k + 1, next.date, next.open, cfg.rate,
                    ReasonOr(answer.1.reason, "Strategy signalled flat"), limit);
    }
  }

  /** The same step on states alone. */
  lemma NextInTime(
    before: State<Memory>, after: State<Memory>, answer: (Memory, Decision), next: Bar, k: nat, rules: Rules,
    bars: seq<Bar>, limit: int, cfg: Config)
    requires GoodConfig(cfg) && next.open > 0.0 && Sound(before.book, cfg)
    requires HoldingDaysMax(rules.exit) == Some(limit)
    requires InTime(before, k, limit) && RulesStep(rules, before.memory, bars, k) == Success(answer)
    requires Fill(before.book, next, k + 1, answer.1, cfg.rate) == Success(after.book) && after.memory == answer.0
    ensures InTime(after, k + 1, limit)
  {
    FillInTime(before, answer, next, k, rules, bars, limit, cfg);
  }

  lemma RulesTradingStep(rules: Rules, bars: seq<Bar>, k: nat, cfg: Config)
    requires cfg.warmup <= k < |bars| - 1 && RunTo(bars, k + 1, cfg, RulesStrategy(rules)).Success?
    ensures RunTo(bars, k, cfg, RulesStrategy(rules)).Success?
    ensures var before := RunTo(bars, k, cfg, RulesStrategy(rules)).value;
      var after := RunTo(bars, k + 1, cfg, RulesStrategy(rules)).value;
      var answer := RulesStep(rules, before.memory, bars, k);
      && answer.Success? && after.memory == answer.value.0
      && Fill(before.book, bars[k + 1], k + 1, answer.value.1, cfg.rate) == Success(after.book)
  {
    TradingStep(bars, k, cfg, RulesStrategy(rules));
  }

  /** The state before bar k, if the run gets there, is in time. */
  ghost predicate ReachedInTime(rules: Rules, limit: int, bars: seq<Bar>, k: nat, cfg: Config)
    requires k <= |bars|
  {
    var st := RunTo(bars, k, cfg, RulesStrategy(rules));
    st.Success? ==> InTime(st.value, k, limit)
  }

  lemma TradingKeepsInTime(rules: Rules, limit: int, bars: seq<Bar>, k: nat, cfg: Config)
    requires GoodConfig(cfg) && GoodPrices(bars) && cfg.warmup <= k < |bars| - 1
    requires HoldingDaysMax(rules.exit) == Some(limit)
    requires ReachedInTime(rules, limit, bars, k, cfg)
    ensures ReachedInTime(rules, limit, bars, k + 1, cfg)
  {
    var strategy := RulesStrategy(rules);
    if RunTo(bars, k + 1, cfg, strategy).Success? {
      RulesTradingStep(rules, bars, k, cfg);
      EveryStateIsSound(bars, k, cfg, strategy);
      var before, after := RunTo(bars, k, cfg, strategy).value, RunTo(bars, k + 1, cfg, strategy).value;
      var answer := RulesStep(rules, before.memory, bars, k).value;
      NextInTime(before, after, answer, bars[k + 1], k, rules, bars, limit, cfg);
    }
  }

  lemma WarmupInTime(rules: Rules, limit: int, bars: seq<Bar>, k: nat, cfg: Config)
    requires GoodConfig(cfg) && GoodPrices(bars) && k <= cfg.warmup && k < |bars|
    ensures ReachedInTime(rules, limit, bars, k, cfg)
  {
    if RunTo(bars, k, cfg, RulesStrategy(rules)).Success? {
      WarmupIsFlat(bars, k, cfg, RulesStrategy(rules));
    }
  }

  /** What holds up to a point and is passed on from there holds of every later point. */
  lemma {:induction false} PassedOn(p: nat -> bool, from: nat, k: nat)
    requires from <= k && p(from) && forall j :: from <= j < k && p(j) ==> p(j + 1)
    ensures p(k)
  {
    if from < k {
      PassedOn(p, from, k - 1);
    }
  }

  lemma AlwaysInTime(rules: Rules, limit: int, bars: seq<Bar>, k: nat, cfg: Config)
    requires GoodConfig(cfg) && GoodPrices(bars) && k < |bars|
    requires HoldingDaysMax(rules.exit) == Some(limit)
    ensures ReachedInTime(rules, limit, bars, k, cfg)
  {
    if k <= cfg.warmup {
      WarmupInTime(rules, limit, bars, k, cfg);
    } else {
      var inTime := (j: nat) => j < |bars| && ReachedInTime(rules, limit, bars, j, cfg);
      WarmupInTime(rules, limit, bars, cfg.warmup, cfg);
      forall j | cfg.warmup <= j < k && inTime(j)
        ensures inTime(j + 1)
      {
        TradingKeepsInTime(rules, limit, bars, j, cfg);
      }
      PassedOn(inTime, cfg.warmup, k);
    }
  }

  lemma {:induction false} TradeWithin(trades: seq<Trade>, limit: int, j: nat)
    requires TradesWithin(trades, limit) && j < |trades|
    ensures InBounds(trades[j], limit)
  {
    if j < |trades| - 1 {
      TradeWithin(trades[..|trades| - 1], limit, j);
    }
  }

  /** The limit in force is that of the first time stop with a usable number. */
  lemma {:induction false} FirstTimeStopIsFirst(cs: seq<Condition>)
    ensures FirstTimeStop(cs).None? ==> forall k :: 0 <= k < |cs| ==> !(cs[k].HoldingDaysGt? && cs[k].value.Some?)
    ensures FirstTimeStop(cs).Some? ==> exists k: nat :: k < |cs| && FirstAt(cs, k, FirstTimeStop(cs).value)
  {
    if cs != [] {
      var rest := cs[1..];
      FirstTimeStopIsFirst(rest);
      assert forall k :: 0 < k < |cs| ==> cs[k] == rest[k - 1];
      if cs[0].HoldingDaysGt? && cs[0].value.Some? {
        var limit := cs[0].value.value;
        assert cs[0].value == Some(limit) && FirstTimeStop(cs) == Some(limit);
        assert FirstAt(cs, 0, limit);
      } else if FirstTimeStop(rest).Some? {
        var limit := FirstTimeStop(rest).value;
        var k: nat :| k < |rest| && FirstAt(rest, k, limit);
        assert FirstAt(cs, k + 1, limit);
      }
    }
  }

  predicate FirstAt(cs: seq<Condition>, k: nat, limit: int)
    requires k < |cs|
  {
    cs[k] == HoldingDaysGt(Some(limit)) && forall j :: 0 <= j < k ==> !(cs[j].HoldingDaysGt? && cs[j].value.Some?)
  }

  lemma ForcedExitInTime(book: Book, last: Bar, index: nat, rate: real, limit: int)
    requires TradesWithin(book.trades, limit)
    requires book.entry.Some? ==> index <= book.entry.value.bar + Longest(limit) + 1
    ensures TradesWithin(ForcedExit(book, last, index, rate).trades, limit)
  {
    if Holding(book) {
      ClosingInTime(book, index, last.date, last.close, rate, "End of backtest period", limit);
    }
  }

  lemma TradesEndWithin(trades: seq<Trade>, limit: int)
    requires TradesWithin(trades, limit)
    ensures forall j :: 0 <= j < |trades| ==> InBounds(trades[j], limit)
  {
    forall j | 0 <= j < |trades|
      ensures InBounds(trades[j], limit)
    {
      TradeWithin(trades, limit, j);
    }
  }

  /** The trades a run reports, from the state before its last bar. */
  lemma ReportedInTime(
    st: State<Memory>, trades: seq<Trade>, last: Bar, index: nat, cfg: Config, limit: int)
    requires InTime(st, index, limit)
    requires trades == if index < cfg.warmup then st.book.trades else ForcedExit(st.book, last, index, cfg.rate).trades
    ensures forall j :: 0 <= j < |trades| ==> InBounds(trades[j], limit)
  {
    ForcedExitInTime(st.book, last, index, cfg.rate, limit);
    TradesEndWithin(trades, limit);
  }

  lemma StateInTime(rules: Rules, limit: int, bars: seq<Bar>, k: nat, cfg: Config)
    requires GoodConfig(cfg) && GoodPrices(bars) && k < |bars|
    requires HoldingDaysMax(rules.exit) == Some(limit)
    requires RunTo(bars, k, cfg, RulesStrategy(rules)).Success?
    ensures InTime(RunTo(bars, k, cfg, RulesStrategy(rules)).value, k, limit)
  {
    AlwaysInTime(rules, limit, bars, k, cfg);
  }

  /**
    With a time stop of H days every trade of the run is closed at most H + 1 bars after its fill (a
    negative H counts as 0; of several time stops the first valid one is H), and one that the time stop
    closes not before.
  */
  lemma TimeStopBoundsEveryTrade(rules: Rules, limit: int, bars: seq<Bar>, cfg: Config)
    requires GoodConfig(cfg) && GoodPrices(bars) && HoldingDaysMax(rules.exit) == Some(limit)
    requires RunOutcome(bars, cfg, RulesStrategy(rules)).Success?
    ensures var trades := RunOutcome(bars, cfg, RulesStrategy(rules)).value.trades;
      forall j :: 0 <= j < |trades| ==> InBounds(trades[j], limit)
  {
    var strategy, n := RulesStrategy(rules), |bars| - 1;
    LastBar(bars, cfg, strategy);
    StateInTime(rules, limit, bars, n, cfg);
    ReportedInTime(
      RunTo(bars, n, cfg, strategy).value, RunOutcome(bars, cfg, strategy).value.trades, bars[n], n, cfg, limit);
  }
}
