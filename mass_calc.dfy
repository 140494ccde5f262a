/**
 * Module fuel of 1/masscalc/src/main.rs: the fuel a mass needs, and the
 * fuel that fuel needs in turn, until the requirement is not positive.
 */
module MassCalc {
  import opened RustInt

  /** `fuel_needed`: a third of the mass, truncated toward zero, minus two. */
  function FuelNeeded(mass: int): (fuel: int)
    ensures mass >= 0 ==> 3 * (fuel + 2) <= mass < 3 * (fuel + 3)
    ensures mass < 0 ==> 3 * (fuel + 1) < mass <= 3 * (fuel + 2)
    ensures mass > 0 ==> fuel < mass
  {
    TruncDiv(mass, 3) - 2
  }

  /** The fuel the inner loop adds for a requirement `fuel`: it and every positive requirement after it. */
  function FuelChain(fuel: int): int
    decreases if fuel > 0 then fuel else 0
  {
    if fuel <= 0 then 0 else fuel + FuelChain(FuelNeeded(fuel))
  }

  /** Only positive requirements are added: the chain is at least its first requirement and never negative. */
  lemma {:induction false} FuelChainBounds(fuel: int)
    ensures FuelChain(fuel) >= 0
    ensures FuelChain(fuel) == 0 <==> fuel <= 0
    ensures fuel > 0 ==> FuelChain(fuel) >= fuel
    decreases if fuel > 0 then fuel else 0
  {
    if fuel > 0 {
      FuelChainBounds(FuelNeeded(fuel));
    }
  }

  /** The inner loop of `main` for one mass. */
  method ModuleFuel(mass: int) returns (total: int)
    ensures total == FuelChain(FuelNeeded(mass))
  {
    total := 0;
    var fuel := FuelNeeded(mass);
    while fuel > 0
      invariant total + FuelChain(fuel) == FuelChain(FuelNeeded(mass))
      decreases fuel
    {
      total := total + fuel;
      fuel := FuelNeeded(fuel);
    }
  }

  function SumFuel(masses: seq<int>): int {
    if masses == [] then 0 else SumFuel(masses[..|masses| - 1]) + FuelChain(FuelNeeded(masses[|masses| - 1]))
  }

  /** The outer loop of `main`, over masses already read from the input. */
  method TotalFuel(masses: seq<int>) returns (total: int)
    ensures total == SumFuel(masses)
    ensures total >= 0
  {
    total := 0;
    for k := 0 to |masses|
      invariant total == SumFuel(masses[..k])
      invariant total >= 0
    {
      var fuel := ModuleFuel(masses[k]);
      FuelChainBounds(FuelNeeded(masses[k]));
      assert masses[..k + 1][..k] == masses[..k];
      total := total + fuel;
    }
    assert masses[..|masses|] == masses;
  }
}
