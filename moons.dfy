/**
 * Moon motion of 12/src/lib.rs: gravity changes the velocities of every
 * pair of moons, velocity moves the positions, and the energy of a moon
 * is the product-free sum of absolute coordinates its source computes.
 */
module Moons {
  import opened RustInt

  const DIMENSION: nat := 3

  /** `type Space = [Int; DIMMENSION]`. */
  type Space = s: seq<int> | |s| == DIMENSION witness [0, 0, 0]

  datatype Moon = Moon(pos: Space, vel: Space)

  /** Sum of the absolute values of the three coordinates. */
  function AbsSum(s: Space): (r: nat)
    ensures r == 0 <==> s == [0, 0, 0]
  {
    Abs(s[0]) + Abs(s[1]) + Abs(s[2])
  }

  function PotentialEnergy(moon: Moon): nat
  {
    AbsSum(moon.pos)
  }

  function KineticEnergy(moon: Moon): nat
  {
    AbsSum(moon.vel)
  }

  /** `total_energy`: never negative, and zero exactly for a moon at rest at the origin. */
  function TotalEnergy(moon: Moon): (r: int)
    ensures r >= 0
    ensures r == 0 <==> moon.pos == [0, 0, 0] && moon.vel == [0, 0, 0]
  {
    PotentialEnergy(moon) + KineticEnergy(moon)
  }

  /** `Moon::new`: a moon at rest, so all its energy is potential. */
  function NewMoon(initialPos: Space): (m: Moon)
    ensures m.pos == initialPos && KineticEnergy(m) == 0
    ensures TotalEnergy(m) == AbsSum(initialPos)
  {
    Moon(initialPos, [0, 0, 0])
  }

  /** `velocity`: every position moves by its velocity; velocities stay. */
  method Velocity(moons: array<Moon>)
    modifies moons
    ensures forall k :: 0 <= k < moons.Length ==> moons[k].vel == old(moons[k].vel)
    ensures forall k, d :: 0 <= k < moons.Length && 0 <= d < DIMENSION ==>
      moons[k].pos[d] == old(moons[k].pos[d]) + old(moons[k].vel[d])
  {
    for k := 0 to moons.Length
      invariant forall k' :: k <= k' < moons.Length ==> moons[k'] == old(moons[k'])
      invariant forall k' :: 0 <= k' < k ==> moons[k'].vel == old(moons[k'].vel)
      invariant forall k', d :: 0 <= k' < k && 0 <= d < DIMENSION ==>
        moons[k'].pos[d] == old(moons[k'].pos[d]) + old(moons[k'].vel[d])
    {
      ghost var before := moons[..];
      for dim := 0 to DIMENSION
        invariant forall k' :: 0 <= k' < moons.Length && k' != k ==> moons[k'] == before[k']
        invariant moons[k].vel == old(moons[k].vel)
        invariant forall d :: 0 <= d < DIMENSION ==>
          moons[k].pos[d] == old(moons[k].pos[d]) + (if d < dim then old(moons[k].vel[d]) else 0)
      {
        var moon := moons[k];
        moons[k] := moon.(pos := moon.pos[dim := moon.pos[dim] + moon.vel[dim]]);
      }
    }
  }

  function Sign(x: int): (s: int)
    ensures s == -1 || s == 0 || s == 1
    ensures s < 0 <==> x < 0
    ensures s > 0 <==> x > 0
  {
    if x < 0 then -1 else if x > 0 then 1 else 0
  }

  /**
   * The pull on moon `k` along `d` from the moons before `m`: one unit away
   * from each moon on the other side of it, nothing from a moon level with it.
   */
  function Pull(moons: seq<Moon>, k: nat, m: nat, d: nat): int
    requires k < |moons| && m <= |moons| && d < DIMENSION
  {
    if m == 0 then 0 else Pull(moons, k, m - 1, d) + Sign(moons[k].pos[d] - moons[m - 1].pos[d])
  }

  /** Sum of the velocities of all moons along `d`. */
  function VelocitySum(moons: seq<Moon>, d: nat): int
    requires d < DIMENSION
  {
    if moons == [] then 0 else VelocitySum(moons[..|moons| - 1], d) + moons[|moons| - 1].vel[d]
  }

  lemma {:induction false} VelocitySumUpdate(moons: seq<Moon>, k: nat, moon: Moon, d: nat)
    requires k < |moons| && d < DIMENSION
    ensures VelocitySum(moons[k := moon], d) == VelocitySum(moons, d) - moons[k].vel[d] + moon.vel[d]
    decreases |moons|
  {
    var last := |moons| - 1;
    assert moons[k := moon][..last] == if k < last then moons[..last][k := moon] else moons[..last];
    if k < last {
      VelocitySumUpdate(moons[..last], k, moon, d);
    }
  }

  /**
   * The body of the pair loop in `gravity`: along each dimension the moon
   * with the smaller position slows by one and the other speeds up by one.
   * A moon paired with itself is never on either side, so nothing changes.
   */
  method Attract(moons: array<Moon>, i: nat, j: nat)
    requires i < moons.Length && j < moons.Length
    modifies moons
    ensures forall k :: 0 <= k < moons.Length ==> moons[k].pos == old(moons[k].pos)
    ensures forall k :: 0 <= k < moons.Length && k != i && k != j ==> moons[k] == old(moons[k])
    ensures i != j ==> forall d :: 0 <= d < DIMENSION ==>
      moons[i].vel[d] == old(moons[i].vel[d]) + Sign(old(moons[i].pos[d]) - old(moons[j].pos[d]))
    ensures i != j ==> forall d :: 0 <= d < DIMENSION ==>
      moons[j].vel[d] == old(moons[j].vel[d]) + Sign(old(moons[j].pos[d]) - old(moons[i].pos[d]))
    ensures i == j ==> moons[i] == old(moons[i])
    ensures forall d :: 0 <= d < DIMENSION ==> VelocitySum(moons[..], d) == VelocitySum(old(moons[..]), d)
  {
    for dim := 0 to DIMENSION
      invariant forall k :: 0 <= k < moons.Length ==> moons[k].pos == old(moons[k].pos)
      invariant forall k :: 0 <= k < moons.Length && k != i && k != j ==> moons[k] == old(moons[k])
      invariant i != j ==> forall d :: 0 <= d < DIMENSION ==>
        moons[i].vel[d] == old(moons[i].vel[d]) + (if d < dim then Sign(old(moons[i].pos[d]) - old(moons[j].pos[d])) else 0)
      invariant i != j ==> forall d :: 0 <= d < DIMENSION ==>
        moons[j].vel[d] == old(moons[j].vel[d]) + (if d < dim then Sign(old(moons[j].pos[d]) - old(moons[i].pos[d])) else 0)
      invariant i == j ==> moons[i] == old(moons[i])
      invariant forall d :: 0 <= d < DIMENSION ==> VelocitySum(moons[..], d) == VelocitySum(old(moons[..]), d)
    {
      var first, second := moons[i], moons[j];
      if first.pos[dim] < second.pos[dim] {
        ghost var s0 := moons[..];
        moons[i] := first.(vel := first.vel[dim := first.vel[dim] - 1]);
        ghost var s1 := moons[..];
        moons[j] := second.(vel := second.vel[dim := second.vel[dim] + 1]);
        forall d | 0 <= d < DIMENSION ensures VelocitySum(moons[..], d) == VelocitySum(s0, d) {
          VelocitySumUpdate(s0, i, moons[i], d);
          VelocitySumUpdate(s1, j, moons[j], d);
          assert s1 == s0[i := s1[i]];
          assert moons[..] == s1[j := moons[j]];
        }
      } else if second.pos[dim] < first.pos[dim] {
        ghost var s0 := moons[..];
        moons[i] := first.(vel := first.vel[dim := first.vel[dim] + 1]);
        ghost var s1 := moons[..];
        moons[j] := second.(vel := second.vel[dim := second.vel[dim] - 1]);
        forall d | 0 <= d < DIMENSION ensures VelocitySum(moons[..], d) == VelocitySum(s0, d) {
          VelocitySumUpdate(s0, i, moons[i], d);
          VelocitySumUpdate(s1, j, moons[j], d);
          assert s1 == s0[i := s1[i]];
          assert moons[..] == s1[j := moons[j]];
        }
      }
    }
  }

  /**
   * How many moons' pulls moon `k` has received once the pairs (i', j) with
   * i' < i, and (i, j') with j' < j, have been processed.
   */
  function Received(k: nat, i: nat, j: nat, n: nat): (r: nat)
    requires i <= n && j <= n
    ensures r <= n
  {
    if k < i then n else if k == i then j else if k < j then i + 1 else i
  }

  /** The pull on moon `k` along `d` from the pairs processed so far. */
  function PullSoFar(orig: seq<Moon>, k: nat, i: nat, j: nat, d: nat): int
    requires k < |orig| && i <= |orig| && j <= |orig| && d < DIMENSION
  {
    Pull(orig, k, Received(k, i, j, |orig|), d)
  }

  /** Velocities of `moons` are those of `orig` plus the pulls received so far. */
  ghost predicate PulledSoFar(orig: seq<Moon>, moons: seq<Moon>, i: nat, j: nat)
    requires |moons| == |orig| && i <= |orig| && j <= |orig|
  {
    forall k: nat, d: nat :: k < |orig| && d < DIMENSION ==>
      moons[k].vel[d] == orig[k].vel[d] + PullSoFar(orig, k, i, j, d)
  }

  /**
   * `gravity`: every unordered pair, and every moon with itself, is visited
   * once; each moon's velocity changes by its total pull, positions stay,
   * and the velocities along each dimension keep their sum.
   */
  method Gravity(moons: array<Moon>)
    modifies moons
    ensures forall k :: 0 <= k < moons.Length ==> moons[k].pos == old(moons[k].pos)
    ensures forall k, d :: 0 <= k < moons.Length && 0 <= d < DIMENSION ==>
      moons[k].vel[d] == old(moons[k].vel[d]) + Pull(old(moons[..]), k, moons.Length, d)
    ensures forall d :: 0 <= d < DIMENSION ==> VelocitySum(moons[..], d) == VelocitySum(old(moons[..]), d)
  {
    ghost var orig := moons[..];
    var count := moons.Length;
    for i := 0 to count
      invariant forall k :: 0 <= k < count ==> moons[k].pos == orig[k].pos
      invariant PulledSoFar(orig, moons[..], i, i)
      invariant forall d :: 0 <= d < DIMENSION ==> VelocitySum(moons[..], d) == VelocitySum(orig, d)
    {
      for j := i to count
        invariant forall k :: 0 <= k < count ==> moons[k].pos == orig[k].pos
        invariant PulledSoFar(orig, moons[..], i, j)
        invariant forall d :: 0 <= d < DIMENSION ==> VelocitySum(moons[..], d) == VelocitySum(orig, d)
      {
        ghost var before := moons[..];
        Attract(moons, i, j);
        PairPulled(orig, before, moons[..], i, j);
      }
    }
    assert forall k :: 0 <= k < count ==> Received(k, count, count, count) == count;
  }

  /** Processing the pair (i, j) moves both moons one pull further. */
  lemma PairPulled(orig: seq<Moon>, before: seq<Moon>, after: seq<Moon>, i: nat, j: nat)
    requires |before| == |orig| == |after| && i <= j < |orig|
    requires forall k :: 0 <= k < |orig| ==> before[k].pos == orig[k].pos
    requires PulledSoFar(orig, before, i, j)
    requires forall k :: 0 <= k < |orig| && k != i && k != j ==> after[k] == before[k]
    requires i != j ==> forall d :: 0 <= d < DIMENSION ==>
      after[i].vel[d] == before[i].vel[d] + Sign(before[i].pos[d] - before[j].pos[d])
    requires i != j ==> forall d :: 0 <= d < DIMENSION ==>
      after[j].vel[d] == before[j].vel[d] + Sign(before[j].pos[d] - before[i].pos[d])
    requires i == j ==> after[i] == before[i]
    ensures PulledSoFar(orig, after, i, j + 1)
  {
    var n := |orig|;
    forall k: nat, d: nat | k < n && d < DIMENSION
      ensures after[k].vel[d] == orig[k].vel[d] + PullSoFar(orig, k, i, j + 1, d)
    {
      assert before[k].vel[d] == orig[k].vel[d] + PullSoFar(orig, k, i, j, d);
      if k == i {
        assert Received(k, i, j + 1, n) == j + 1;
      } else if k == j {
        assert Received(k, i, j, n) == i;
        assert Received(k, i, j + 1, n) == i + 1;
      } else {
        assert Received(k, i, j + 1, n) == Received(k, i, j, n);
      }
    }
  }
}
