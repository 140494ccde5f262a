/**
 * The orbit map of 6/orbit/src/lib.rs: each object names the object it
 * orbits; distances count parent links up to a target or to COM.
 */
module Orbits {
  import opened Wrappers
  import opened Text

  type OrbitMap = map<string, string>

  const COM: string := "COM"
  const SAN: string := "SAN"
  const YOU: string := "YOU"

  /** A line of the input without a ')' has no second object, and the source panics. */
  datatype ParseError = MissingParen(line: nat)

  /** `line.trim().split(')')`. */
  function Objects(line: string): (objects: seq<string>)
    ensures |objects| >= 1
  {
    Split(Trim(line), ")")
  }

  /** `objects[0]` and `objects[1]` of `line.trim().split(')')`: orbited object, then orbiter. */
  function ParseLine(line: string, index: nat): (r: Result<(string, string), ParseError>)
    ensures r.Err? ==> r.error.line == index
  {
    var objects := Objects(line);
    if |objects| < 2 then Err(MissingParen(index)) else Ok((objects[0], objects[1]))
  }

  /**
   * The lines as (orbited, orbiter) pairs, or the first line that has no
   * ')'; the lines are read in order, as the iterator in `parse_input` does.
   */
  function ParsePairs(lines: seq<string>): (r: Result<seq<(string, string)>, ParseError>)
    ensures r.Ok? ==> |r.value| == |lines|
    ensures r.Ok? ==> forall i :: 0 <= i < |lines| ==> ParseLine(lines[i], i) == Ok(r.value[i])
    ensures r.Err? ==> r.error.line < |lines| && ParseLine(lines[r.error.line], r.error.line).Err?
    ensures r.Err? ==> forall i :: 0 <= i < r.error.line ==> ParseLine(lines[i], i).Ok?
  {
    ParseEach(lines, ParseLine)
  }

  /** Pair `i` is the last one naming its orbiter. */
  predicate LastFor(pairs: seq<(string, string)>, i: nat)
    requires i < |pairs|
  {
    forall j :: i < j < |pairs| ==> pairs[j].1 != pairs[i].1
  }

  /** The `HashMap` collected from the pairs: orbiter to orbited object, later pairs winning. */
  function ToMap(pairs: seq<(string, string)>): OrbitMap
  {
    if pairs == [] then map[]
    else
      var last := pairs[|pairs| - 1];
      ToMap(pairs[..|pairs| - 1])[last.1 := last.0]
  }

  /** The keys are exactly the orbiters named by the lines. */
  lemma {:induction false} ToMapKeys(pairs: seq<(string, string)>)
    ensures ToMap(pairs).Keys == set i | 0 <= i < |pairs| :: pairs[i].1
  {
    if pairs != [] {
      var last := |pairs| - 1;
      var init := pairs[..last];
      ToMapKeys(init);
      var before := set i | 0 <= i < last :: init[i].1;
      assert before == set i | 0 <= i < last :: pairs[i].1;
      var all := set i | 0 <= i < |pairs| :: pairs[i].1;
      assert all == before + {pairs[last].1};
    }
  }

  /** The last line naming an orbiter decides what it orbits. */
  lemma {:induction false} ToMapLastWins(pairs: seq<(string, string)>, i: nat)
    requires i < |pairs| && LastFor(pairs, i)
    ensures pairs[i].1 in ToMap(pairs)
    ensures ToMap(pairs)[pairs[i].1] == pairs[i].0
  {
    var last := |pairs| - 1;
    if i < last {
      var init := pairs[..last];
      assert init[i] == pairs[i];
      ToMapLastWins(init, i);
    }
  }

  /** `parse_input`: the map of the (orbited, orbiter) pairs of the input lines. */
  function ParseInput(input: string): (r: Result<OrbitMap, ParseError>)
    ensures r.Err? <==> ParsePairs(Lines(input)).Err?
    ensures r.Ok? ==> r.value == ToMap(ParsePairs(Lines(input)).value)
  {
    var pairs :- ParsePairs(Lines(input));
    Ok(ToMap(pairs))
  }

  /** The object `k` parent links above `x`, if every link on the way is in the map. */
  function Ancestor(m: OrbitMap, x: string, k: nat): Option<string>
    decreases k
  {
    if k == 0 then Some(x) else if x in m then Ancestor(m, m[x], k - 1) else None
  }

  lemma {:induction false} AncestorAdd(m: OrbitMap, x: string, i: nat, j: nat)
    requires Ancestor(m, x, i).Some?
    ensures Ancestor(m, x, i + j) == Ancestor(m, Ancestor(m, x, i).value, j)
    decreases i
  {
    if i > 0 {
      AncestorAdd(m, m[x], i - 1, j);
    }
  }

  /** Walking up from `x` meets `end` or COM within `n` links, without leaving the map. */
  predicate StopsWithin(m: OrbitMap, x: string, end: string, n: nat)
    decreases n
  {
    x == end || x == COM || (n > 0 && x in m && StopsWithin(m, m[x], end, n - 1))
  }

  /** `x` is neither the target nor COM: the walk goes on. */
  predicate Passes(x: string, end: string)
  {
    x != end && x != COM
  }

  /**
   * The number of links from `x` up to the first object that is `end` or
   * COM: the walk reaches one of them after exactly `d` links and passes
   * neither before.
   */
  function Distance(m: OrbitMap, x: string, end: string, ghost n: nat): (d: nat)
    requires StopsWithin(m, x, end, n)
    ensures d <= n
    ensures Ancestor(m, x, d).Some? && !Passes(Ancestor(m, x, d).value, end)
    ensures forall k :: 0 <= k < d ==> Ancestor(m, x, k).Some? && Passes(Ancestor(m, x, k).value, end)
    decreases n
  {
    if !Passes(x, end) then 0
    else
      var d := 1 + Distance(m, m[x], end, n - 1);
      assert forall k :: 0 < k < d ==> Ancestor(m, x, k) == Ancestor(m, m[x], k - 1);
      d
  }

  /** The first stop is unique, so the bound `n` does not matter. */
  lemma DistanceUnique(m: OrbitMap, x: string, end: string, n: nat, d: nat)
    requires StopsWithin(m, x, end, n)
    requires Ancestor(m, x, d).Some? && !Passes(Ancestor(m, x, d).value, end)
    requires forall k :: 0 <= k < d ==> Ancestor(m, x, k).Some? && Passes(Ancestor(m, x, k).value, end)
    ensures Distance(m, x, end, n) == d
  {
  }

  /**
   * `count_distance`: follow parent links from `start` until `end` or COM.
   * The walk panics on an object missing from the map and never ends on a
   * cycle; the ghost bound `n` states that neither happens.
   */
  method CountDistance(m: OrbitMap, start: string, end: string, ghost n: nat) returns (count: nat)
    requires StopsWithin(m, start, end, n)
    ensures count == Distance(m, start, end, n)
  {
    count := 0;
    var current := start;
    while current != end && current != COM
      invariant count <= n && StopsWithin(m, current, end, n - count)
      invariant Ancestor(m, start, count) == Some(current)
      invariant forall k :: 0 <= k < count ==> Ancestor(m, start, k).Some? && Passes(Ancestor(m, start, k).value, end)
      decreases n - count
    {
      AncestorAdd(m, start, count, 1);
      current := m[current];
      count := count + 1;
    }
    DistanceUnique(m, start, end, n, count);
  }

  /** Every object in `objects` reaches COM within `n` links. */
  ghost predicate AllStop(m: OrbitMap, objects: set<string>, n: nat) {
    forall x :: x in objects ==> StopsWithin(m, x, COM, n)
  }

  /**
   * The sum, over `objects`, of the links up to COM. Each object other
   * than COM that is in the map orbits at least one object.
   */
  ghost function SumDistances(m: OrbitMap, objects: set<string>, n: nat): (r: nat)
    requires AllStop(m, objects, n)
    ensures COM !in objects && objects <= m.Keys ==> r >= |objects|
    decreases objects
  {
    if objects == {} then 0
    else
      var x :| x in objects;
      var d := Distance(m, x, COM, n);
      assert x != COM && x in m ==> d >= 1;
      d + SumDistances(m, objects - {x}, n)
  }

  /** The sum does not depend on the order in which the objects are taken. */
  lemma {:induction false} SumDistancesRemove(m: OrbitMap, objects: set<string>, n: nat, y: string)
    requires AllStop(m, objects, n) && y in objects
    ensures SumDistances(m, objects, n) == Distance(m, y, COM, n) + SumDistances(m, objects - {y}, n)
    decreases objects
  {
    var x :| x in objects && SumDistances(m, objects, n) == Distance(m, x, COM, n) + SumDistances(m, objects - {x}, n);
    if x != y {
      SumDistancesRemove(m, objects - {x}, n, y);
      SumDistancesRemove(m, objects - {y}, n, x);
      assert objects - {x} - {y} == objects - {y} - {x};
    }
  }

  /** `count_all_orbits`: the direct and indirect orbits of every object in the map. */
  ghost function CountAllOrbits(m: OrbitMap, n: nat): (r: nat)
    requires AllStop(m, m.Keys, n)
    ensures COM !in m ==> r >= |m|
  {
    SumDistances(m, m.Keys, n)
  }

  /** A walk that meets `end` or COM after `d` links stops within any bound `n >= d`. */
  lemma {:induction false} StopsFromWalk(m: OrbitMap, y: string, end: string, d: nat, n: nat)
    requires d <= n && Ancestor(m, y, d).Some? && !Passes(Ancestor(m, y, d).value, end)
    ensures StopsWithin(m, y, end, n)
    decreases d
  {
    if Passes(y, end) {
      StopsFromWalk(m, m[y], end, d - 1, n - 1);
    }
  }

  /** A walk that reaches COM stops for any target. */
  lemma {:induction false} StopsForAnyEnd(m: OrbitMap, y: string, end: string, n: nat)
    requires StopsWithin(m, y, COM, n)
    ensures StopsWithin(m, y, end, n)
    decreases n
  {
    if y != end && y != COM {
      StopsForAnyEnd(m, m[y], end, n - 1);
    }
  }

  /** Number of links from `x` up to COM. */
  function Depth(m: OrbitMap, x: string, ghost n: nat): nat
    requires StopsWithin(m, x, COM, n)
  {
    Distance(m, x, COM, n)
  }

  /** The object `i` links above `x` is `i` links nearer to COM. */
  lemma DepthOfAncestor(m: OrbitMap, x: string, n: nat, i: nat)
    requires StopsWithin(m, x, COM, n) && i <= Depth(m, x, n)
    ensures Ancestor(m, x, i).Some?
    ensures StopsWithin(m, Ancestor(m, x, i).value, COM, n)
    ensures Depth(m, Ancestor(m, x, i).value, n) == Depth(m, x, n) - i
  {
    var dx := Depth(m, x, n);
    var y := Ancestor(m, x, i).value;
    forall k | 0 <= k <= dx - i ensures Ancestor(m, y, k) == Ancestor(m, x, i + k) {
      AncestorAdd(m, x, i, k);
    }
    StopsFromWalk(m, y, COM, dx - i, n);
    DistanceUnique(m, y, COM, n, dx - i);
  }

  /** COM is at depth zero, so an object at positive depth is not COM. */
  lemma DepthPositive(m: OrbitMap, y: string, n: nat)
    requires StopsWithin(m, y, COM, n) && Depth(m, y, n) > 0
    ensures y != COM
  {
  }

  /** Counting from `x` to its `i`-th ancestor, below COM, takes exactly `i` links. */
  lemma DistanceToAncestor(m: OrbitMap, x: string, n: nat, i: nat)
    requires StopsWithin(m, x, COM, n) && i <= Depth(m, x, n)
    ensures Ancestor(m, x, i).Some?
    ensures StopsWithin(m, x, Ancestor(m, x, i).value, n)
    ensures Distance(m, x, Ancestor(m, x, i).value, n) == i
  {
    DepthOfAncestor(m, x, n, i);
    var target := Ancestor(m, x, i).value;
    forall k | 0 <= k < i
      ensures Ancestor(m, x, k).Some? && Passes(Ancestor(m, x, k).value, target)
    {
      DepthOfAncestor(m, x, n, k);
      DepthPositive(m, Ancestor(m, x, k).value, n);
    }
    StopsForAnyEnd(m, x, target, n);
    DistanceUnique(m, x, target, n, i);
  }

  /** Walking `i` links up from YOU and `j` up from SAN, without passing COM, meets one object. */
  ghost predicate CommonAt(m: OrbitMap, n: nat, i: nat, j: nat)
    requires StopsWithin(m, YOU, COM, n) && StopsWithin(m, SAN, COM, n)
  {
    i <= Depth(m, YOU, n) && j <= Depth(m, SAN, n) &&
    Ancestor(m, YOU, i).Some? && Ancestor(m, YOU, i) == Ancestor(m, SAN, j)
  }

  /** The lowest common object: no other common object is nearer to either YOU or SAN. */
  ghost predicate LowestCommonAt(m: OrbitMap, n: nat, i: nat, j: nat)
    requires StopsWithin(m, YOU, COM, n) && StopsWithin(m, SAN, COM, n)
  {
    CommonAt(m, n, i, j) &&
    forall i': nat, j': nat :: CommonAt(m, n, i', j') ==> i <= i' && j <= j'
  }

  /** `r` orbital transfers separate the object YOU orbits from the one SAN orbits. */
  ghost predicate TransfersAre(m: OrbitMap, n: nat, r: int)
    requires StopsWithin(m, YOU, COM, n) && StopsWithin(m, SAN, COM, n)
  {
    exists i: nat, j: nat :: LowestCommonAt(m, n, i, j) && r == i + j - 2
  }

  /** The walks from YOU and SAN, `a` and `b` links ahead, differ after `t` further links. */
  predicate Apart(m: OrbitMap, a: nat, b: nat, t: nat) {
    Ancestor(m, YOU, a + t) != Ancestor(m, SAN, b + t)
  }

  /**
   * Two walks at equal depth that first meet after `t` further links meet
   * at the lowest common object of YOU and SAN.
   */
  lemma FirstMeeting(m: OrbitMap, n: nat, a: nat, b: nat, t: nat)
    requires StopsWithin(m, YOU, COM, n) && StopsWithin(m, SAN, COM, n)
    requires Climbing(m, n, a, b, t) && !Apart(m, a, b, t)
    ensures LowestCommonAt(m, n, a + t, b + t)
  {
    forall i': nat, j': nat | CommonAt(m, n, i', j') ensures a + t <= i' && b + t <= j' {
      DepthOfAncestor(m, YOU, n, i');
      DepthOfAncestor(m, SAN, n, j');
      assert Depth(m, YOU, n) - i' == Depth(m, SAN, n) - j';
      assert a <= i';
      var t' := i' - a;
      assert j' == b + t';
      assert !Apart(m, a, b, t');
    }
  }

  /** The `for _ in 0..diff` loop: climb `steps` links from `x`, below COM. */
  method Climb(m: OrbitMap, x: string, steps: nat, ghost n: nat) returns (y: string)
    requires StopsWithin(m, x, COM, n) && steps <= Depth(m, x, n)
    ensures Ancestor(m, x, steps) == Some(y)
  {
    y := x;
    for step := 0 to steps
      invariant Ancestor(m, x, step) == Some(y)
    {
      DepthOfAncestor(m, x, n, step);
      DepthPositive(m, y, n);
      AncestorAdd(m, x, step, 1);
      y := m[y];
    }
  }

  /** An object at depth zero is COM. */
  lemma DepthZero(m: OrbitMap, y: string, n: nat)
    requires StopsWithin(m, y, COM, n) && Depth(m, y, n) == 0
    ensures y == COM
  {
    assert Ancestor(m, y, 0) == Some(y);
  }

  /**
   * After `t` joint links from the objects `a` links above YOU and `b`
   * links above SAN, at equal depth, the two walks have not yet met.
   */
  ghost predicate Climbing(m: OrbitMap, n: nat, a: nat, b: nat, t: nat)
    requires StopsWithin(m, YOU, COM, n) && StopsWithin(m, SAN, COM, n)
  {
    a + t <= Depth(m, YOU, n) && b + t <= Depth(m, SAN, n) &&
    Depth(m, YOU, n) - a == Depth(m, SAN, n) - b && (a == 0 || b == 0) &&
    Ancestor(m, YOU, a + t).Some? && Ancestor(m, SAN, b + t).Some? &&
    forall t' :: 0 <= t' < t ==> Apart(m, a, b, t')
  }

  /** Two distinct objects at equal depth are both below COM, so both climb one more link. */
  lemma ClimbStep(m: OrbitMap, n: nat, a: nat, b: nat, t: nat)
    requires StopsWithin(m, YOU, COM, n) && StopsWithin(m, SAN, COM, n)
    requires Climbing(m, n, a, b, t) && Apart(m, a, b, t)
    ensures Ancestor(m, YOU, a + t).value in m && Ancestor(m, SAN, b + t).value in m
    ensures Ancestor(m, YOU, a + t + 1) == Some(m[Ancestor(m, YOU, a + t).value])
    ensures Ancestor(m, SAN, b + t + 1) == Some(m[Ancestor(m, SAN, b + t).value])
    ensures Climbing(m, n, a, b, t + 1)
  {
    DepthOfAncestor(m, YOU, n, a + t);
    DepthOfAncestor(m, SAN, n, b + t);
    var y := Ancestor(m, YOU, a + t).value;
    var s := Ancestor(m, SAN, b + t).value;
    if Depth(m, y, n) == 0 {
      DepthZero(m, y, n);
      DepthZero(m, s, n);
    }
    DepthPositive(m, y, n);
    DepthPositive(m, s, n);
    AncestorAdd(m, YOU, a + t, 1);
    AncestorAdd(m, SAN, b + t, 1);
  }

  /**
   * The `while you_pos != san_pos` loop: from two objects at equal depth,
   * `a` links above YOU and `b` links above SAN, climb in step until they
   * meet; the meeting object is the lowest common one.
   */
  method Meet(m: OrbitMap, youStart: string, sanStart: string, ghost a: nat, ghost b: nat, ghost n: nat)
    returns (common: string, ghost t: nat)
    requires StopsWithin(m, YOU, COM, n) && StopsWithin(m, SAN, COM, n)
    requires Climbing(m, n, a, b, 0)
    requires Ancestor(m, YOU, a) == Some(youStart) && Ancestor(m, SAN, b) == Some(sanStart)
    ensures Ancestor(m, YOU, a + t) == Some(common)
    ensures LowestCommonAt(m, n, a + t, b + t)
  {
    var youPos, sanPos := youStart, sanStart;
    t := 0;
    while youPos != sanPos
      invariant Climbing(m, n, a, b, t)
      invariant Ancestor(m, YOU, a + t) == Some(youPos) && Ancestor(m, SAN, b + t) == Some(sanPos)
      decreases Depth(m, YOU, n) - a - t
    {
      ClimbStep(m, n, a, b, t);
      youPos := m[youPos];
      sanPos := m[sanPos];
      t := t + 1;
    }
    FirstMeeting(m, n, a, b, t);
    common := youPos;
  }

  /**
   * `distance_to_santa`: bring the farther of YOU and SAN level with the
   * other, climb both until they meet, and count the links from each to
   * the meeting object, less the two objects themselves.
   */
  method DistanceToSanta(m: OrbitMap, ghost n: nat) returns (r: int)
    requires StopsWithin(m, YOU, COM, n) && StopsWithin(m, SAN, COM, n)
    ensures TransfersAre(m, n, r)
  {
    var youComDist := CountDistance(m, YOU, COM, n);
    var sanComDist := CountDistance(m, SAN, COM, n);
    var diff := if youComDist < sanComDist then sanComDist - youComDist else youComDist - sanComDist;
    var a, b := 0, 0;
    if youComDist < sanComDist {
      b := diff;
    } else {
      a := diff;
    }
    var youPos := Climb(m, YOU, a, n);
    var sanPos := Climb(m, SAN, b, n);
    var commonParent, t := Meet(m, youPos, sanPos, a, b, n);
    DistanceToAncestor(m, YOU, n, a + t);
    DistanceToAncestor(m, SAN, n, b + t);
    var youParentDist := CountDistance(m, YOU, commonParent, n);
    var sanParentDist := CountDistance(m, SAN, commonParent, n);
    r := (youParentDist + sanParentDist) as int - 2;
  }

  /** The links up to COM, summed over a list of objects. */
  ghost function DistanceSum(m: OrbitMap, xs: seq<string>, n: nat): nat
    requires forall i :: 0 <= i < |xs| ==> StopsWithin(m, xs[i], COM, n)
  {
    if xs == [] then 0 else Distance(m, xs[0], COM, n) + DistanceSum(m, xs[1..], n)
  }

  /** No object occurs twice in `xs`. */
  predicate NoRepeats(xs: seq<string>) {
    forall i, j :: 0 <= i < j < |xs| ==> xs[i] != xs[j]
  }

  /** Summing over a set is summing over any list of its elements without repeats. */
  lemma {:induction false} SumOverList(m: OrbitMap, xs: seq<string>, n: nat)
    requires forall i :: 0 <= i < |xs| ==> StopsWithin(m, xs[i], COM, n)
    requires NoRepeats(xs)
    ensures AllStop(m, (set x | x in xs), n)
    ensures SumDistances(m, (set x | x in xs), n) == DistanceSum(m, xs, n)
  {
    if xs != [] {
      SumOverList(m, xs[1..], n);
      var all := set x | x in xs;
      assert (set x | x in xs[1..]) == all - {xs[0]};
      SumDistancesRemove(m, all, n, xs[0]);
    }
  }

  /** The orbit map of the first example. */
  const ORBIT_EXAMPLE: OrbitMap := map[
    "B" := "COM", "C" := "B", "D" := "C", "E" := "D", "F" := "E", "G" := "B",
    "H" := "G", "I" := "D", "J" := "E", "K" := "J", "L" := "K"]

  /** An object in the map, other than COM, is one link deeper than the object it orbits. */
  lemma DepthParent(m: OrbitMap, x: string, n: nat)
    requires x != COM && x in m && StopsWithin(m, m[x], COM, n) && Depth(m, m[x], n) < n
    ensures StopsWithin(m, x, COM, n)
    ensures Depth(m, x, n) == Depth(m, m[x], n) + 1
  {
    var d := Depth(m, m[x], n);
    forall k | 0 <= k <= d ensures Ancestor(m, x, k + 1) == Ancestor(m, m[x], k) {
      AncestorAdd(m, x, 1, k);
    }
    assert Ancestor(m, x, d + 1) == Ancestor(m, m[x], d);
    StopsFromWalk(m, x, COM, d + 1, n);
    forall k | 0 <= k < d + 1 ensures Ancestor(m, x, k).Some? && Passes(Ancestor(m, x, k).value, COM) {
      if k > 0 {
        assert Ancestor(m, x, k) == Ancestor(m, m[x], k - 1);
      }
    }
    DistanceUnique(m, x, COM, n, d + 1);
  }

  /** COM is where every walk to COM stops, at depth 0. */
  lemma ComDepth(m: OrbitMap, n: nat)
    ensures StopsWithin(m, COM, COM, n) && Depth(m, COM, n) == 0
  {
  }

  lemma {:induction false} ExampleNearDepths(m: OrbitMap, n: nat)
    requires m == ORBIT_EXAMPLE && n == 7
    ensures StopsWithin(m, "B", COM, n) && Depth(m, "B", n) == 1
    ensures StopsWithin(m, "C", COM, n) && Depth(m, "C", n) == 2
    ensures StopsWithin(m, "D", COM, n) && Depth(m, "D", n) == 3
    ensures StopsWithin(m, "E", COM, n) && Depth(m, "E", n) == 4
    ensures StopsWithin(m, "G", COM, n) && Depth(m, "G", n) == 2
    ensures StopsWithin(m, "H", COM, n) && Depth(m, "H", n) == 3
  {
    ComDepth(m, n);
    DepthParent(m, "B", n);
    DepthParent(m, "C", n);
    DepthParent(m, "D", n);
    DepthParent(m, "E", n);
    DepthParent(m, "G", n);
    DepthParent(m, "H", n);
  }

  lemma {:induction false} ExampleFarDepths(m: OrbitMap, n: nat)
    requires m == ORBIT_EXAMPLE && n == 7
    ensures StopsWithin(m, "F", COM, n) && Depth(m, "F", n) == 5
    ensures StopsWithin(m, "I", COM, n) && Depth(m, "I", n) == 4
    ensures StopsWithin(m, "J", COM, n) && Depth(m, "J", n) == 5
    ensures StopsWithin(m, "K", COM, n) && Depth(m, "K", n) == 6
    ensures StopsWithin(m, "L", COM, n) && Depth(m, "L", n) == 7
  {
    ExampleNearDepths(m, n);
    DepthParent(m, "F", n);
    DepthParent(m, "I", n);
    DepthParent(m, "J", n);
    DepthParent(m, "K", n);
    DepthParent(m, "L", n);
  }

  /** The objects of the example map, once each. */
  const EXAMPLE_OBJECTS: seq<string> := ["B", "C", "D", "E", "F", "G", "H", "I", "J", "K", "L"]

  lemma ExampleObjects(m: OrbitMap, xs: seq<string>)
    requires m == ORBIT_EXAMPLE && xs == EXAMPLE_OBJECTS
    ensures m.Keys == set x | x in xs
    ensures NoRepeats(xs)
  {
    forall i, j | 0 <= i < j < |xs| ensures xs[i] != xs[j] {
      assert xs[i][0] != xs[j][0];
    }
  }

  /** A list of numbers added up. */
  function Total(ds: seq<nat>): nat {
    if ds == [] then 0 else ds[0] + Total(ds[1..])
  }

  /** Each object of `xs` reaches COM, at the depth listed in `ds`. */
  predicate DepthsAre(m: OrbitMap, xs: seq<string>, ds: seq<nat>, n: nat) {
    |ds| == |xs| &&
    forall i :: 0 <= i < |xs| ==> StopsWithin(m, xs[i], COM, n) && Depth(m, xs[i], n) == ds[i]
  }

  lemma {:induction false} DistanceSumOf(m: OrbitMap, xs: seq<string>, ds: seq<nat>, n: nat)
    requires DepthsAre(m, xs, ds, n)
    ensures forall i :: 0 <= i < |xs| ==> StopsWithin(m, xs[i], COM, n)
    ensures DistanceSum(m, xs, n) == Total(ds)
  {
    if xs != [] {
      DistanceSumOf(m, xs[1..], ds[1..], n);
    }
  }

  /** The depth of each object of the example, in the order of `EXAMPLE_OBJECTS`. */
  const EXAMPLE_DEPTHS: seq<nat> := [1, 2, 3, 4, 5, 2, 3, 4, 5, 6, 7]

  lemma {:induction false} ExampleDepthTable(m: OrbitMap, xs: seq<string>, ds: seq<nat>, n: nat)
    requires m == ORBIT_EXAMPLE && xs == EXAMPLE_OBJECTS && ds == EXAMPLE_DEPTHS && n == 7
    ensures DepthsAre(m, xs, ds, n)
  {
    ExampleNearDepths(m, n);
    ExampleFarDepths(m, n);
    TableOfDepths(m, xs, ds, n);
  }

  /** Depth facts for the eleven objects, listed in the order of `EXAMPLE_OBJECTS`. */
  lemma TableOfDepths(m: OrbitMap, xs: seq<string>, ds: seq<nat>, n: nat)
    requires xs == EXAMPLE_OBJECTS && ds == EXAMPLE_DEPTHS
    requires StopsWithin(m, "B", COM, n) && Depth(m, "B", n) == 1
    requires StopsWithin(m, "C", COM, n) && Depth(m, "C", n) == 2
    requires StopsWithin(m, "D", COM, n) && Depth(m, "D", n) == 3
    requires StopsWithin(m, "E", COM, n) && Depth(m, "E", n) == 4
    requires StopsWithin(m, "F", COM, n) && Depth(m, "F", n) == 5
    requires StopsWithin(m, "G", COM, n) && Depth(m, "G", n) == 2
    requires StopsWithin(m, "H", COM, n) && Depth(m, "H", n) == 3
    requires StopsWithin(m, "I", COM, n) && Depth(m, "I", n) == 4
    requires StopsWithin(m, "J", COM, n) && Depth(m, "J", n) == 5
    requires StopsWithin(m, "K", COM, n) && Depth(m, "K", n) == 6
    requires StopsWithin(m, "L", COM, n) && Depth(m, "L", n) == 7
    ensures DepthsAre(m, xs, ds, n)
  {
  }

  /** The orbit count of a map whose objects are listed once each, with their depths. */
  lemma CountFromList(m: OrbitMap, xs: seq<string>, ds: seq<nat>, n: nat)
    requires m.Keys == set x | x in xs
    requires NoRepeats(xs) && DepthsAre(m, xs, ds, n)
    ensures AllStop(m, m.Keys, n)
    ensures CountAllOrbits(m, n) == Total(ds)
  {
    DistanceSumOf(m, xs, ds, n);
    SumOverList(m, xs, n);
  }

  /** The example map has 42 direct and indirect orbits. */
  lemma {:induction false} OrbitExample(m: OrbitMap, n: nat)
    requires m == ORBIT_EXAMPLE && n == 7
    ensures AllStop(m, m.Keys, n)
    ensures CountAllOrbits(m, n) == 42
  {
    ExampleObjects(m, EXAMPLE_OBJECTS);
    ExampleDepthTable(m, EXAMPLE_OBJECTS, EXAMPLE_DEPTHS, n);
    CountFromList(m, EXAMPLE_OBJECTS, EXAMPLE_DEPTHS, n);
  }

  /** The transfer count is determined by the map: there is one lowest common object. */
  lemma TransfersUnique(m: OrbitMap, n: nat, r1: int, r2: int)
    requires StopsWithin(m, YOU, COM, n) && StopsWithin(m, SAN, COM, n)
    requires TransfersAre(m, n, r1) && TransfersAre(m, n, r2)
    ensures r1 == r2
  {
    var i1: nat, j1: nat :| LowestCommonAt(m, n, i1, j1) && r1 == i1 + j1 - 2;
    var i2: nat, j2: nat :| LowestCommonAt(m, n, i2, j2) && r2 == i2 + j2 - 2;
    assert i1 <= i2 && j1 <= j2;
    assert i2 <= i1 && j2 <= j1;
  }

  /** A common object is at one depth, so both walks to it end at that depth. */
  lemma CommonDepth(m: OrbitMap, n: nat, i: nat, j: nat)
    requires StopsWithin(m, YOU, COM, n) && StopsWithin(m, SAN, COM, n)
    requires CommonAt(m, n, i, j)
    ensures Depth(m, YOU, n) - i == Depth(m, SAN, n) - j
  {
    DepthOfAncestor(m, YOU, n, i);
    DepthOfAncestor(m, SAN, n, j);
  }

  /** The second example: the first example with YOU orbiting K and SAN orbiting I. */
  const SANTA_EXAMPLE: OrbitMap := ORBIT_EXAMPLE["YOU" := "K"]["SAN" := "I"]

  lemma SantaTrunkDepths(m: OrbitMap, n: nat)
    requires m == SANTA_EXAMPLE && n == 7
    ensures StopsWithin(m, "D", COM, n) && Depth(m, "D", n) == 3
    ensures StopsWithin(m, "E", COM, n) && Depth(m, "E", n) == 4
  {
    SantaRootDepths(m, n);
    DepthParent(m, "D", n);
    DepthParent(m, "E", n);
  }

  lemma SantaRootDepths(m: OrbitMap, n: nat)
    requires m == SANTA_EXAMPLE && n == 7
    ensures StopsWithin(m, "C", COM, n) && Depth(m, "C", n) == 2
  {
    ComDepth(m, n);
    DepthParent(m, "B", n);
    DepthParent(m, "C", n);
  }

  lemma SantaDepths(m: OrbitMap, n: nat)
    requires m == SANTA_EXAMPLE && n == 7
    ensures StopsWithin(m, YOU, COM, n) && Depth(m, YOU, n) == 7
    ensures StopsWithin(m, SAN, COM, n) && Depth(m, SAN, n) == 5
  {
    SantaTrunkDepths(m, n);
    DepthParent(m, "J", n);
    DepthParent(m, "K", n);
    DepthParent(m, YOU, n);
    DepthParent(m, "I", n);
    DepthParent(m, SAN, n);
  }

  lemma SantaWalks(m: OrbitMap)
    requires m == SANTA_EXAMPLE
    ensures Ancestor(m, YOU, 2) == Some("J") && Ancestor(m, YOU, 3) == Some("E")
    ensures Ancestor(m, YOU, 4) == Some("D")
    ensures Ancestor(m, SAN, 1) == Some("I") && Ancestor(m, SAN, 2) == Some("D")
  {
    assert Ancestor(m, "E", 1) == Some("D");
    assert Ancestor(m, "J", 2) == Some("D");
    assert Ancestor(m, "K", 3) == Some("D");
    assert Ancestor(m, "I", 1) == Some("D");
  }

  /** In the second example YOU and SAN are four orbital transfers apart. */
  lemma SantaExample(m: OrbitMap, n: nat)
    requires m == SANTA_EXAMPLE && n == 7
    ensures StopsWithin(m, YOU, COM, n) && StopsWithin(m, SAN, COM, n)
    ensures TransfersAre(m, n, 4)
  {
    SantaDepths(m, n);
    SantaWalks(m);
    assert CommonAt(m, n, 4, 2);
    forall i': nat, j': nat | CommonAt(m, n, i', j') ensures 4 <= i' && 2 <= j' {
      CommonDepth(m, n, i', j');
      assert i' == j' + 2;
    }
    assert LowestCommonAt(m, n, 4, 2);
  }
}
