/**
 * The nanofactory of 14/src/lib.rs: a table of reactions keyed by the
 * chemical each one makes, the worklist that totals the ORE a request for
 * FUEL needs (spending leftovers first), and the search for the most FUEL
 * a stock of ORE buys.
 */
module Reactions {
  import opened Wrappers
  import opened Text

  const ORE: string := "ORE"
  const FUEL: string := "FUEL"

  /** An amount of a named chemical. */
  datatype Chem = Chem(amount: nat, name: string)

  /** A reaction: the chemicals it consumes and the one it produces. */
  datatype Equation = Equation(inputs: seq<Chem>, output: Chem)

  /** The reaction table, keyed by the name of each reaction's output. */
  type Equations = map<string, Equation>

  /** A line of the table the source cannot parse; it panics there. */
  datatype ParseError = MalformedLine(line: nat)

  /**
   * `Chem::try_from`: the first two words of the trimmed text are the amount
   * and the name. A missing second word and an amount that is not an
   * unsigned integer both panic in the source.
   */
  function ParseChem(input: string): Option<Chem>
  {
    var components := Split(Trim(input), " ");
    match ParseNat(components[0])
    case None => None
    case Some(amount) => if |components| < 2 then None else Some(Chem(amount, components[1]))
  }

  /** A name `Display`s as one word: not empty, and without whitespace. */
  predicate IsName(name: string) {
    name != [] && forall i :: 0 <= i < |name| ==> !IsSpace(name[i])
  }

  /** A chemical as the puzzle input writes it: "N NAME". */
  function ShowChem(c: Chem): string
  {
    NatString(c.amount) + " " + c.name
  }

  /** Parsing a written chemical gives it back. */
  lemma ParseShowChem(c: Chem)
    requires IsName(c.name)
    ensures ParseChem(ShowChem(c)) == Some(c)
  {
    var amount := NatString(c.amount);
    var s := ShowChem(c);
    assert !IsSpace(s[0]) by {
      assert s[0] == amount[0];
    }
    assert !IsSpace(s[|s| - 1]) by {
      assert s[|s| - 1] == c.name[|c.name| - 1];
    }
    TrimUnchanged(s);
    assert forall i :: 0 <= i < |amount| ==> amount[i] != ' ' by {
      assert AllDigits(amount);
    }
    assert forall i :: 0 <= i < |c.name| ==> c.name[i] != ' ' by {
      assert forall i :: 0 <= i < |c.name| ==> !IsSpace(c.name[i]);
    }
    SplitAtSeparator(amount, ' ', c.name);
    assert s == amount + [' '] + c.name;
    ParseNatString(c.amount);
  }

  /** Piece `index` of a reaction's left-hand side as a chemical, or the index of the piece that does not parse. */
  function ChemPiece(piece: string, index: nat): (r: Result<Chem, nat>)
    ensures r.Ok? <==> ParseChem(piece).Some?
    ensures r.Ok? ==> ParseChem(piece) == Some(r.value)
  {
    match ParseChem(piece)
    case Some(c) => Ok(c)
    case None => Err(index)
  }

  /**
   * One line of `parse_formulas`: the trimmed line split at "=>", the
   * inputs left of it separated by ',', the output right of it. A line
   * without "=>" indexes past the pieces and panics.
   */
  function ParseEquation(line: string): Option<Equation>
  {
    var eq := Split(Trim(line), "=>");
    if |eq| < 2 then None
    else
      match ParseEach(Split(Trim(eq[0]), ","), ChemPiece)
      case Err(_) => None
      case Ok(inputs) =>
        match ParseChem(Trim(eq[1]))
        case None => None
        case Some(output) => Some(Equation(inputs, output))
  }

  /** Line `index` of the table, or the error naming it. */
  function ParseLine(line: string, index: nat): (r: Result<Equation, ParseError>)
    ensures r.Ok? <==> ParseEquation(line).Some?
    ensures r.Ok? ==> ParseEquation(line) == Some(r.value)
    ensures r.Err? ==> r.error.line == index
  {
    match ParseEquation(line)
    case Some(eq) => Ok(eq)
    case None => Err(MalformedLine(index))
  }

  /** The map `parse_formulas` fills: each equation under its output's name, later lines winning. */
  function Table(eqs: seq<Equation>): (t: Equations)
    ensures forall k :: k in t ==> t[k].output.name == k
  {
    if eqs == [] then map[]
    else
      var last := eqs[|eqs| - 1];
      Table(eqs[..|eqs| - 1])[last.output.name := last]
  }

  /** The keys are exactly the output names of the equations. */
  lemma {:induction false} TableKeys(eqs: seq<Equation>)
    ensures Table(eqs).Keys == set i | 0 <= i < |eqs| :: eqs[i].output.name
  {
    if eqs != [] {
      var last := |eqs| - 1;
      var init := eqs[..last];
      TableKeys(init);
      var before := set i | 0 <= i < last :: init[i].output.name;
      assert before == set i | 0 <= i < last :: eqs[i].output.name;
      var all := set i | 0 <= i < |eqs| :: eqs[i].output.name;
      assert all == before + {eqs[last].output.name};
    }
  }

  /** `parse_formulas`: the table of the input's lines, or the first line that does not parse. */
  method ParseFormulas(input: string) returns (r: Result<Equations, ParseError>)
    ensures r.Ok? <==> ParseEach(Lines(input), ParseLine).Ok?
    ensures r.Ok? ==> r.value == Table(ParseEach(Lines(input), ParseLine).value)
    ensures r.Err? ==> r.error == ParseEach(Lines(input), ParseLine).error
  {
    var lines := Lines(input);
    var formula: Equations := map[];
    ghost var parsed: seq<Equation> := [];
    for k := 0 to |lines|
      invariant ParseEach(lines[..k], ParseLine) == Ok(parsed)
      invariant formula == Table(parsed)
    {
      ParseEachExtend(lines, ParseLine, k, parsed);
      match ParseLine(lines[k], k)
      case Err(e) =>
        return Err(e);
      case Ok(equation) =>
        formula := formula[equation.output.name := equation];
        assert (parsed + [equation])[..k] == parsed;
        parsed := parsed + [equation];
    }
    assert lines[..|lines|] == lines;
    return Ok(formula);
  }

  /**
   * The state of the loop in `ore_for_fuel`: the ORE counted so far, the
   * `to_make` stack (its top is the last element) and the `extra` map of
   * leftovers.
   */
  datatype Factory = Factory(ore: nat, toMake: seq<Chem>, extra: map<string, nat>)

  /**
   * Why `ore_for_fuel` stops without an answer: a chemical that is neither
   * ORE nor in the table (the source panics on the map lookup), a reaction
   * producing zero units (division by zero), or the step bound ran out.
   */
  datatype Fault = Unknown(name: string) | ZeroOutput(name: string) | OutOfSteps

  /** One FUEL request on the stack, and no leftovers of any chemical in the table. */
  function Start(eqs: Equations, fuel: nat): (s: Factory)
    ensures s.extra.Keys == eqs.Keys
  {
    Factory(0, [Chem(fuel, FUEL)], map k | k in eqs :: 0)
  }

  /**
   * `(needed + out - 1) / out`: how many times a reaction producing `out`
   * units must run to produce at least `needed` units, the fewest that do.
   */
  function Runs(needed: nat, out: nat): (runs: nat)
    requires out > 0
    ensures out * runs >= needed
    ensures runs == 0 || out * (runs - 1) < needed
  {
    var runs := (needed + out - 1) / out;
    assert needed + out - 1 == out * runs + (needed + out - 1) % out;
    assert out * (runs - 1) == out * runs - out;
    runs
  }

  /** The inputs of a reaction, each amount multiplied by the number of runs. */
  function Scaled(inputs: seq<Chem>, runs: nat): (r: seq<Chem>)
    ensures |r| == |inputs|
    ensures forall i :: 0 <= i < |inputs| ==> r[i] == Chem(inputs[i].amount * runs, inputs[i].name)
  {
    seq(|inputs|, i requires 0 <= i < |inputs| => Chem(inputs[i].amount * runs, inputs[i].name))
  }

  /**
   * One pass of `while let Some(chem_to_make) = to_make.pop()`. ORE is
   * counted. Otherwise the leftovers are spent if they suffice; if not,
   * the reaction for the chemical runs often enough to cover the shortfall,
   * its product goes to the leftovers, its inputs are queued, and the
   * request is pushed back on top.
   */
  function Step(eqs: Equations, s: Factory): (r: Result<Factory, Fault>)
    requires s.toMake != []
    ensures r.Ok? ==> r.value.extra.Keys == s.extra.Keys && r.value.ore >= s.ore
  {
    var c := s.toMake[|s.toMake| - 1];
    var rest := s.toMake[..|s.toMake| - 1];
    if c.name == ORE then Ok(Factory(s.ore + c.amount, rest, s.extra))
    else if c.name !in s.extra then Err(Unknown(c.name))
    else if c.amount <= s.extra[c.name] then
      Ok(Factory(s.ore, rest, s.extra[c.name := s.extra[c.name] - c.amount]))
    else if c.name !in eqs then Err(Unknown(c.name))
    else
      var eq := eqs[c.name];
      if eq.output.amount == 0 then Err(ZeroOutput(c.name))
      else if eq.output.name !in s.extra then Err(Unknown(eq.output.name))
      else
        var runs := Runs(c.amount - s.extra[c.name], eq.output.amount);
        var made := s.extra[eq.output.name] + eq.output.amount * runs;
        Ok(Factory(s.ore, rest + Scaled(eq.inputs, runs) + [c], s.extra[eq.output.name := made]))
  }

  /** The loop of `ore_for_fuel` until the stack is empty, within `steps` passes. */
  function Run(eqs: Equations, s: Factory, steps: nat): Result<nat, Fault>
    decreases steps
  {
    if s.toMake == [] then Ok(s.ore)
    else if steps == 0 then Err(OutOfSteps)
    else
      match Step(eqs, s)
      case Err(f) => Err(f)
      case Ok(next) => Run(eqs, next, steps - 1)
  }

  /** The ORE needed for `fuel` units of FUEL, within `steps` passes of the loop. */
  function OreFor(eqs: Equations, fuel: nat, steps: nat): Result<nat, Fault>
  {
    Run(eqs, Start(eqs, fuel), steps)
  }

  /** `ore_for_fuel`, bounded by `steps` passes of its loop. */
  method OreForFuel(eqs: Equations, fuel: nat, steps: nat) returns (r: Result<nat, Fault>)
    ensures r == OreFor(eqs, fuel, steps)
  {
    var ore: nat := 0;
    var toMake := [Chem(fuel, FUEL)];
    var extra: map<string, nat> := map k | k in eqs :: 0;
    var left := steps;
    while toMake != []
      invariant OreFor(eqs, fuel, steps) == Run(eqs, Factory(ore, toMake, extra), left)
      decreases left
    {
      if left == 0 {
        return Err(OutOfSteps);
      }
      ghost var before := Factory(ore, toMake, extra);
      var chem := toMake[|toMake| - 1];
      toMake := toMake[..|toMake| - 1];
      left := left - 1;
      if chem.name == ORE {
        ore := ore + chem.amount;
        continue;
      }
      if chem.name !in extra {
        return Err(Unknown(chem.name));
      }
      if chem.amount <= extra[chem.name] {
        extra := extra[chem.name := extra[chem.name] - chem.amount];
        continue;
      }
      var needed := chem.amount - extra[chem.name];
      if chem.name !in eqs {
        return Err(Unknown(chem.name));
      }
      var equation := eqs[chem.name];
      if equation.output.amount == 0 {
        return Err(ZeroOutput(chem.name));
      }
      var multiplier := (needed + equation.output.amount - 1) / equation.output.amount;
      if equation.output.name !in extra {
        return Err(Unknown(equation.output.name));
      }
      extra := extra[equation.output.name := extra[equation.output.name] + equation.output.amount * multiplier];
      toMake := PushInputs(toMake, equation.inputs, multiplier);
      toMake := toMake + [chem];
      assert Step(eqs, before) == Ok(Factory(ore, toMake, extra));
    }
    return Ok(ore);
  }

  /** The `for &input in equation.inputs.iter()` loop: each input, scaled, pushed in order. */
  method PushInputs(toMake: seq<Chem>, inputs: seq<Chem>, multiplier: nat) returns (r: seq<Chem>)
    ensures r == toMake + Scaled(inputs, multiplier)
  {
    r := toMake;
    for i := 0 to |inputs|
      invariant r == toMake + Scaled(inputs[..i], multiplier)
    {
      var input := inputs[i];
      assert Scaled(inputs[..i + 1], multiplier) == Scaled(inputs[..i], multiplier) + [Chem(input.amount * multiplier, input.name)];
      r := r + [Chem(input.amount * multiplier, input.name)];
    }
    assert inputs[..|inputs|] == inputs;
  }

  /** The top of the stack. */
  function Top(s: Factory): Chem
    requires s.toMake != []
  {
    s.toMake[|s.toMake| - 1]
  }

  /** The stack without its top. */
  function Popped(s: Factory): seq<Chem>
    requires s.toMake != []
  {
    s.toMake[..|s.toMake| - 1]
  }

  /** An ORE request is added to the total, whatever the table says: ORE is never looked up. */
  lemma OreCounted(eqs: Equations, other: Equations, s: Factory)
    requires s.toMake != [] && Top(s).name == ORE
    ensures Step(eqs, s) == Step(other, s)
    ensures Step(eqs, s) == Ok(Factory(s.ore + Top(s).amount, Popped(s), s.extra))
  {
  }

  /** A request the leftovers cover is taken from them, by exactly its amount, and queues nothing. */
  lemma LeftoversFirst(eqs: Equations, s: Factory)
    requires s.toMake != [] && Top(s).name != ORE
    requires Top(s).name in s.extra && Top(s).amount <= s.extra[Top(s).name]
    ensures Step(eqs, s).Ok?
    ensures Step(eqs, s).value.toMake == Popped(s) && Step(eqs, s).value.ore == s.ore
    ensures Step(eqs, s).value.extra[Top(s).name] == s.extra[Top(s).name] - Top(s).amount
    ensures forall k :: k in s.extra && k != Top(s).name ==> Step(eqs, s).value.extra[k] == s.extra[k]
  {
  }

  /**
   * A request the leftovers do not cover runs its reaction; the leftovers
   * then cover it, so the next pass spends them on it, leaving less than
   * one batch of the reaction's output.
   */
  lemma ReactionThenLeftovers(eqs: Equations, s: Factory)
    requires s.toMake != [] && Top(s).name != ORE
    requires Top(s).name in s.extra && Top(s).amount > s.extra[Top(s).name]
    requires Top(s).name in eqs && eqs[Top(s).name].output.name == Top(s).name
    requires eqs[Top(s).name].output.amount > 0
    ensures Step(eqs, s).Ok? && Top(Step(eqs, s).value) == Top(s)
    ensures Step(eqs, s).value.extra[Top(s).name] >= Top(s).amount
    ensures var next := Step(eqs, s).value;
      Step(eqs, next).Ok? && Step(eqs, next).value.toMake == Popped(next) && Step(eqs, next).value.ore == s.ore
    ensures Step(eqs, Step(eqs, s).value).value.extra[Top(s).name] < eqs[Top(s).name].output.amount
  {
    var c := Top(s);
    var out := eqs[c.name].output.amount;
    var runs := Runs(c.amount - s.extra[c.name], out);
    var next := Step(eqs, s).value;
    assert next.extra[c.name] == s.extra[c.name] + out * runs;
    assert Top(next) == c;
    assert runs >= 1;
    assert out * (runs - 1) == out * runs - out;
    assert out * runs < c.amount - s.extra[c.name] + out;
    LeftoversFirst(eqs, next);
    assert Step(eqs, next).value.extra[c.name] == s.extra[c.name] + out * runs - c.amount;
  }

  /** Zero FUEL needs no ORE when the table has a reaction for FUEL. */
  lemma NoFuelNoOre(eqs: Equations, steps: nat)
    requires FUEL in eqs && steps >= 1
    ensures OreFor(eqs, 0, steps) == Ok(0)
  {
    var s := Start(eqs, 0);
    assert Top(s) == Chem(0, FUEL) && Popped(s) == [];
    assert FUEL != ORE;
    assert FUEL in s.extra;
    var next := Factory(0, [], s.extra[FUEL := 0]);
    assert Step(eqs, s) == Ok(next);
    assert Run(eqs, s, steps) == Run(eqs, next, steps - 1);
  }

  /** The table of the single reaction "k ORE => 1 FUEL". */
  function DirectTable(k: nat): Equations
  {
    map[FUEL := Equation([Chem(k, ORE)], Chem(1, FUEL))]
  }

  /** A pass that succeeds leaves the rest of the run to the new state. */
  lemma RunStep(eqs: Equations, s: Factory, next: Factory, steps: nat)
    requires s.toMake != [] && Step(eqs, s) == Ok(next) && steps > 0
    ensures Run(eqs, s, steps) == Run(eqs, next, steps - 1)
  {
  }

  /** Under "k ORE => 1 FUEL", `fuel` units of FUEL cost `k * fuel` ORE, in three passes. */
  lemma DirectCost(k: nat, fuel: nat, steps: nat)
    requires steps >= 3
    ensures OreFor(DirectTable(k), fuel, steps) == Ok(k * fuel)
  {
    var eqs := DirectTable(k);
    var s0 := Start(eqs, fuel);
    assert s0.extra == map[FUEL := 0];
    assert FUEL != ORE;
    if fuel == 0 {
      NoFuelNoOre(eqs, steps);
    } else {
      assert Top(s0) == Chem(fuel, FUEL) && Popped(s0) == [];
      assert Runs(fuel, 1) == fuel;
      var s1 := Factory(0, [Chem(k * fuel, ORE), Chem(fuel, FUEL)], map[FUEL := fuel]);
      assert Scaled([Chem(k, ORE)], fuel) == [Chem(k * fuel, ORE)];
      assert eqs[FUEL].output == Chem(1, FUEL);
      assert s0.extra[FUEL := 0 + 1 * fuel] == map[FUEL := fuel];
      assert Step(eqs, s0).value.toMake == [] + [Chem(k * fuel, ORE)] + [Chem(fuel, FUEL)];
      assert [] + [Chem(k * fuel, ORE)] + [Chem(fuel, FUEL)] == s1.toMake;
      assert Step(eqs, s0) == Ok(s1);
      RunStep(eqs, s0, s1, steps);
      var s2 := Factory(0, [Chem(k * fuel, ORE)], map[FUEL := 0]);
      assert Top(s1) == Chem(fuel, FUEL) && Popped(s1) == [Chem(k * fuel, ORE)];
      assert s1.extra[FUEL := fuel - fuel] == map[FUEL := 0];
      assert Step(eqs, s1) == Ok(s2);
      RunStep(eqs, s1, s2, steps - 1);
      var s3 := Factory(k * fuel, [], map[FUEL := 0]);
      assert Top(s2) == Chem(k * fuel, ORE) && Popped(s2) == [];
      assert Step(eqs, s2) == Ok(s3);
      RunStep(eqs, s2, s3, steps - 2);
    }
  }

  /** More FUEL never costs less ORE. */
  ghost predicate Monotone(cost: nat -> nat) {
    forall a: nat, b: nat :: a <= b ==> cost(a) <= cost(b)
  }

  /**
   * The second loop of `find_fuel_for_ore` as written, with `cost` standing
   * for `ore_for_fuel` on the table: an exact match answers `upper`, and
   * otherwise the loop ends on `lower`, which `lower = mid + 1` may have
   * moved onto a value whose cost was never compared with the ORE.
   */
  function BisectAsWritten(cost: nat -> nat, ore: nat, lower: nat, upper: nat): nat
    requires cost(0) <= ore
    decreases if lower < upper then upper - lower else 0
  {
    if lower >= upper then lower
    else
      var mid := (lower + upper) / 2;
      if cost(mid) < ore then BisectAsWritten(cost, ore, mid + 1, upper)
      else if cost(mid) > ore then BisectAsWritten(cost, ore, lower, mid - 1)
      else upper
  }

  /** The upper bounds the loop visits from `upper` while every midpoint costs too much: halve, less one, down to 2. */
  predicate HalvesToTwo(upper: nat)
    decreases upper
  {
    upper == 2 || (upper > 2 && HalvesToTwo(upper / 2 - 1))
  }

  /** While every midpoint of at least 2 costs more than the ORE, the search from `0..upper` arrives at `0..2`. */
  lemma {:induction false} DescendToTwo(cost: nat -> nat, ore: nat, upper: nat)
    requires cost(0) <= ore && HalvesToTwo(upper)
    requires forall f: nat :: f >= 2 ==> cost(f) > ore
    ensures BisectAsWritten(cost, ore, 0, upper) == BisectAsWritten(cost, ore, 0, 2)
    decreases upper
  {
    if upper > 2 {
      assert cost(upper / 2) > ore;
      DescendToTwo(cost, ore, upper / 2 - 1);
    }
  }

  /** The first upper bound of `find_fuel_for_ore`, and the ORE it assumes that much FUEL costs. */
  const SEED_UPPER: nat := 8388608
  const SEED_ORE: nat := 694999561

  /** The source's first upper bound halves down to 2. */
  lemma SeedHalvesToTwo()
    ensures HalvesToTwo(SEED_UPPER)
  {
    assert HalvesToTwo(2);
    assert HalvesToTwo(6);
    assert HalvesToTwo(14);
    assert HalvesToTwo(30);
    assert HalvesToTwo(62);
    assert HalvesToTwo(126);
    assert HalvesToTwo(254);
    assert HalvesToTwo(510);
    assert HalvesToTwo(1022);
    assert HalvesToTwo(2046);
    assert HalvesToTwo(4094);
    assert HalvesToTwo(8190);
    assert HalvesToTwo(16382);
    assert HalvesToTwo(32766);
    assert HalvesToTwo(65534);
    assert HalvesToTwo(131070);
    assert HalvesToTwo(262142);
    assert HalvesToTwo(524286);
    assert HalvesToTwo(1048574);
    assert HalvesToTwo(2097150);
    assert HalvesToTwo(4194303);
  }

  /**
   * An exact match answers too much: under "1 ORE => 1 FUEL" with 1 ORE,
   * the loop from the source's bounds meets cost 1 at 1 FUEL and answers
   * 2, which costs 2 ORE.
   */
  lemma ExactMatchOvershoots(cost: nat -> nat, upper: nat)
    requires forall f: nat :: cost(f) == f
    requires upper == SEED_UPPER
    ensures BisectAsWritten(cost, 1, 0, upper) == 2 && cost(2) > 1
  {
    SeedHalvesToTwo();
    DescendToTwo(cost, 1, upper);
  }

  /**
   * The final `lower` answers too much: under "2 ORE => 1 FUEL" with 3 ORE,
   * the loop from the source's bounds comes down to `0..2`, where the
   * midpoint 1 costs 2 ORE, so `lower = mid + 1` moves to 2 without a
   * cost check and the loop ends there, on 2 FUEL, which costs 4 ORE.
   */
  lemma LowerOvershoots(cost: nat -> nat, upper: nat)
    requires forall f: nat :: cost(f) == 2 * f
    requires upper == SEED_UPPER
    ensures BisectAsWritten(cost, 3, 0, upper) == 2 && cost(2) > 3
  {
    SeedHalvesToTwo();
    DescendToTwo(cost, 3, upper);
  }

  /**
   * The search as intended: the most FUEL in `lower..upper` that the ORE
   * pays for. The midpoint rounds up, an affordable midpoint raises
   * `lower` to it, and an unaffordable one lowers `upper` below it.
   */
  method Bisect(cost: nat -> nat, ore: nat, lower: nat, upper: nat) returns (fuel: nat)
    requires Monotone(cost) && lower <= upper && cost(lower) <= ore
    ensures lower <= fuel <= upper && cost(fuel) <= ore
    ensures fuel < upper ==> cost(fuel + 1) > ore
  {
    var lo, hi := lower, upper;
    while lo < hi
      invariant lower <= lo <= hi <= upper && cost(lo) <= ore
      invariant hi < upper ==> cost(hi + 1) > ore
      decreases hi - lo
    {
      var mid := (lo + hi + 1) / 2;
      if cost(mid) <= ore {
        lo := mid;
      } else {
        hi := mid - 1;
      }
    }
    return lo;
  }

  /**
   * `find_fuel_for_ore` corrected in two places. The doubling loop runs
   * while `upper` costs at most the ORE, where the source's `current_ore <
   * ore` stops on an exact match; so the range searched always ends at an
   * amount the ORE does not pay for. The search below it is `Bisect` in
   * place of the source's, which can overshoot. The answer is affordable
   * and one more FUEL is not. The seed pair stands for the puzzle's own
   * table, so the model requires `cost` to agree with it; `rounds` bounds
   * the doubling.
   */
  method FindFuelForOre(cost: nat -> nat, ore: nat, rounds: nat) returns (r: Option<nat>)
    requires Monotone(cost) && cost(0) == 0 && cost(SEED_UPPER) == SEED_ORE
    ensures r.Some? ==> cost(r.value) <= ore < cost(r.value + 1)
  {
    var lower: nat := 0;
    var upper: nat := SEED_UPPER;
    var currentOre := SEED_ORE;
    var left := rounds;
    while currentOre <= ore
      invariant lower <= upper && cost(lower) <= ore && cost(upper) == currentOre
      decreases left
    {
      if left == 0 {
        return None;
      }
      lower := upper;
      upper := upper * 2;
      currentOre := cost(upper);
      left := left - 1;
    }
    var fuel := Bisect(cost, ore, lower, upper);
    return Some(fuel);
  }
}
