/**
 * The oxygen-system search of 15/src/lib.rs. A repair droid, driven by an
 * Intcode program, takes one movement command at a time and answers
 * whether it hit a wall, moved, or moved onto the oxygen system.
 * `find_oxygen` explores the area breadth-first. For every position it
 * probes it records the position it probed from (its parent), and between
 * two queued positions it walks the droid up the parent links to the start
 * and down again.
 */
module Maze {
  import opened Wrappers

  type Pos = (int, int)

  /** Movement commands. */
  const NORTH := 1
  const SOUTH := 2
  const WEST := 3
  const EAST := 4

  /** Status codes the droid answers with. */
  const HIT_WALL := 0
  const MOVED := 1
  const FOUND_O2 := 2

  /** Where the droid starts, and the root of every parent chain. */
  const START: Pos := (0, 0)

  predicate IsDir(d: int) {
    d == NORTH || d == SOUTH || d == WEST || d == EAST
  }

  /** Two positions one unit apart, horizontally or vertically. */
  predicate Adjacent(a: Pos, b: Pos) {
    || (a.0 == b.0 && (b.1 - a.1 == 1 || b.1 - a.1 == -1))
    || (a.1 == b.1 && (b.0 - a.0 == 1 || b.0 - a.0 == -1))
  }

  /** `offset_pos`: north is `+y`, east `+x`; any other code panics in the source. */
  function OffsetPos(pos: Pos, dir: int): (r: Pos)
    requires IsDir(dir)
    ensures Adjacent(pos, r)
  {
    if dir == NORTH then (pos.0, pos.1 + 1)
    else if dir == EAST then (pos.0 + 1, pos.1)
    else if dir == SOUTH then (pos.0, pos.1 - 1)
    else (pos.0 - 1, pos.1)
  }

  /** `opposite_dir`: north and south swap, east and west swap; any other code panics in the source. */
  function OppositeDir(dir: int): (r: int)
    requires IsDir(dir)
    ensures IsDir(r) && r != dir
  {
    if dir == NORTH then SOUTH
    else if dir == EAST then WEST
    else if dir == SOUTH then NORTH
    else EAST
  }

  /** Taking the opposite twice gives the direction back, and a step the opposite way undoes a step. */
  lemma OppositeUndoes(pos: Pos, dir: int)
    requires IsDir(dir)
    ensures OppositeDir(OppositeDir(dir)) == dir
    ensures OffsetPos(OffsetPos(pos, dir), OppositeDir(dir)) == pos
  {
  }

  /** Adjacency does not depend on the order of the two positions. */
  lemma AdjacentSymmetric(a: Pos, b: Pos)
    ensures Adjacent(a, b) <==> Adjacent(b, a)
  {
  }

  /**
   * `dir_from_pos_to_pos`: the command that moves the droid from `start`
   * to `end`, or None for positions that are not adjacent (where the
   * source panics).
   */
  function DirBetween(start: Pos, end: Pos): (r: Option<int>)
    ensures r.Some? <==> Adjacent(start, end)
    ensures r.Some? ==> IsDir(r.value) && OffsetPos(start, r.value) == end
  {
    if start.0 == end.0 then
      if end.1 - start.1 == 1 then Some(NORTH)
      else if end.1 - start.1 == -1 then Some(SOUTH)
      else None
    else if start.1 == end.1 then
      if end.0 - start.0 == 1 then Some(EAST)
      else if end.0 - start.0 == -1 then Some(WEST)
      else None
    else None
  }

  /** The command found between a position and its neighbour is the command that led there. */
  lemma DirBetweenOffset(pos: Pos, dir: int)
    requires IsDir(dir)
    ensures DirBetween(pos, OffsetPos(pos, dir)) == Some(dir)
  {
  }

  /** Parent links: each probed position maps to the position it was probed from. */
  type Parents = map<Pos, Pos>

  function Next(parents: Parents, q: Pos): Pos {
    if q in parents then parents[q] else q
  }

  /** The position reached from `p` by following `n` parent links; a position without a parent stays put. */
  function Climb(parents: Parents, p: Pos, n: nat): Pos
    decreases n
  {
    if n == 0 then p else Next(parents, Climb(parents, p, n - 1))
  }

  /**
   * `depth` numbers the positions so that a child is one deeper than its
   * parent and a position without a parent has depth 0: the parent links
   * have no cycle.
   */
  ghost predicate Tree(parents: Parents, depth: map<Pos, nat>) {
    && (forall p :: p in parents ==> p in depth && parents[p] in depth && depth[p] == depth[parents[p]] + 1)
    && (forall p :: p in depth && p !in parents ==> depth[p] == 0)
  }

  /** The depth of a position, 0 for one without a number (and so without a parent). */
  ghost function Dist(depth: map<Pos, nat>, p: Pos): nat {
    if p in depth then depth[p] else 0
  }

  /** Each parent link climbed lowers the depth by one. */
  lemma {:induction false} ClimbDepth(parents: Parents, depth: map<Pos, nat>, p: Pos, k: nat)
    requires Tree(parents, depth) && p in depth && k <= depth[p]
    ensures Climb(parents, p, k) in depth && depth[Climb(parents, p, k)] == depth[p] - k
    ensures k < depth[p] ==> Climb(parents, p, k) in parents
    decreases k
  {
    if k > 0 {
      ClimbDepth(parents, depth, p, k - 1);
    }
  }

  /** The chain from `p` leaves the parent links after exactly `n` links. */
  ghost predicate Rooted(parents: Parents, p: Pos, n: nat) {
    && Climb(parents, p, n) !in parents
    && forall k :: 0 <= k < n ==> Climb(parents, p, k) in parents
  }

  /** The chain from `p` leaves the parent links after exactly `Dist(depth, p)` links. */
  lemma RootReached(parents: Parents, depth: map<Pos, nat>, p: Pos)
    requires Tree(parents, depth)
    ensures Rooted(parents, p, Dist(depth, p))
  {
    if p in depth {
      ClimbDepth(parents, depth, p, depth[p]);
      forall k | 0 <= k < depth[p]
        ensures Climb(parents, p, k) in parents
      {
        ClimbDepth(parents, depth, p, k);
      }
    }
  }

  /**
   * `find_distance_to_root`: the number of parent links followed from
   * `pos` until a position without a parent. `depth` witnesses that the
   * links have no cycle, without which the source loops forever.
   */
  method FindDistanceToRoot(parents: Parents, ghost depth: map<Pos, nat>, pos: Pos) returns (distance: nat)
    requires Tree(parents, depth)
    ensures Climb(parents, pos, distance) !in parents
    ensures forall k :: 0 <= k < distance ==> Climb(parents, pos, k) in parents
    ensures distance == Dist(depth, pos)
  {
    RootReached(parents, depth, pos);
    distance := 0;
    var p := pos;
    while p in parents
      invariant distance <= Dist(depth, pos)
      invariant p == Climb(parents, pos, distance)
      invariant forall k :: 0 <= k < distance ==> Climb(parents, pos, k) in parents
      decreases Dist(depth, pos) - distance
    {
      distance := distance + 1;
      p := parents[p];
    }
  }

  predicate AllDirs(dirs: seq<int>) {
    forall i :: 0 <= i < |dirs| ==> IsDir(dirs[i])
  }

  /** The position before `steps[i]` on a walk from `start`. */
  function From(start: Pos, steps: seq<Pos>, i: nat): Pos
    requires i < |steps|
  {
    if i == 0 then start else steps[i - 1]
  }

  /** Each step of the walk is adjacent to the position before it. */
  ghost predicate Connected(start: Pos, steps: seq<Pos>) {
    forall i :: 0 <= i < |steps| ==> Adjacent(From(start, steps, i), steps[i])
  }

  /**
   * The commands that walk the droid from `start` through `steps` in
   * turn, one command per step, or None when some step is not adjacent to
   * the position before it (where `dir_from_pos_to_pos` panics).
   */
  function Walk(start: Pos, steps: seq<Pos>): (r: Option<seq<int>>)
    ensures r.Some? ==> |r.value| == |steps| && AllDirs(r.value)
    decreases |steps|
  {
    if steps == [] then Some([])
    else
      var n := |steps| - 1;
      match Walk(start, steps[..n])
      case None => None
      case Some(before) =>
        match DirBetween(From(start, steps, n), steps[n])
        case None => None
        case Some(d) => Some(before + [d])
  }

  /** A walk has its commands exactly when every step is adjacent to the position before it. */
  lemma {:induction false} WalkConnected(start: Pos, steps: seq<Pos>)
    ensures Walk(start, steps).Some? <==> Connected(start, steps)
    decreases |steps|
  {
    if steps != [] {
      var n := |steps| - 1;
      WalkConnected(start, steps[..n]);
      ConnectedSnoc(start, steps);
    }
  }

  /** A walk is connected exactly when all but its last step are and the last step is adjacent to the one before. */
  lemma ConnectedSnoc(start: Pos, steps: seq<Pos>)
    requires steps != []
    ensures Connected(start, steps) <==>
      Connected(start, steps[..|steps| - 1]) && Adjacent(From(start, steps, |steps| - 1), steps[|steps| - 1])
  {
    var n := |steps| - 1;
    var init := steps[..n];
    forall i | 0 <= i < n
      ensures From(start, init, i) == From(start, steps, i) && init[i] == steps[i]
    {
    }
  }

  /** A walk that fails on a prefix fails as a whole. */
  lemma {:induction false} WalkPrefixFails(start: Pos, steps: seq<Pos>, i: nat)
    requires i <= |steps| && Walk(start, steps[..i]).None?
    ensures Walk(start, steps).None?
    decreases |steps|
  {
    if i < |steps| {
      var n := |steps| - 1;
      assert steps[..n][..i] == steps[..i];
      WalkPrefixFails(start, steps[..n], i);
    } else {
      assert steps[..i] == steps;
    }
  }

  /**
   * The area the droid explores: the status a move onto each position
   * answers. Positions outside the map are walls.
   */
  type Area = map<Pos, int>

  function Status(area: Area, p: Pos): int {
    if p in area then area[p] else HIT_WALL
  }

  /** A status that means the droid moved: onto open floor or onto the oxygen system. */
  predicate Open(status: int) {
    status == MOVED || status == FOUND_O2
  }

  /** Where a droid at `at` stands after command `dir`. */
  function Moved(area: Area, at: Pos, dir: int): Pos
    requires IsDir(dir)
  {
    var target := OffsetPos(at, dir);
    if Open(Status(area, target)) then target else at
  }

  /** Where a droid at `at` stands after the commands `dirs`. */
  function Drive(area: Area, at: Pos, dirs: seq<int>): Pos
    requires AllDirs(dirs)
    decreases |dirs|
  {
    if dirs == [] then at
    else Moved(area, Drive(area, at, dirs[..|dirs| - 1]), dirs[|dirs| - 1])
  }

  /** One more command moves the droid on from where the earlier ones left it. */
  lemma DriveSnoc(area: Area, at: Pos, dirs: seq<int>, d: int)
    requires AllDirs(dirs) && IsDir(d)
    ensures AllDirs(dirs + [d]) && Drive(area, at, dirs + [d]) == Moved(area, Drive(area, at, dirs), d)
  {
    assert (dirs + [d])[..|dirs|] == dirs;
  }

  /** Commands given one after another drive the droid on from where the first ones left it. */
  lemma {:induction false} DriveAppend(area: Area, at: Pos, a: seq<int>, b: seq<int>)
    requires AllDirs(a) && AllDirs(b)
    ensures AllDirs(a + b) && Drive(area, at, a + b) == Drive(area, Drive(area, at, a), b)
    decreases |b|
  {
    if b == [] {
      assert a + b == a;
    } else {
      var n := |b| - 1;
      DriveAppend(area, at, a, b[..n]);
      assert a + b == (a + b[..n]) + [b[n]];
      assert b == b[..n] + [b[n]];
      DriveSnoc(area, at, a + b[..n], b[n]);
      DriveSnoc(area, Drive(area, at, a), b[..n], b[n]);
    }
  }

  /** Walking through open positions only, the droid ends on the last step. */
  lemma {:induction false} DriveAlong(area: Area, start: Pos, steps: seq<Pos>)
    requires Walk(start, steps).Some?
    requires forall i :: 0 <= i < |steps| ==> Open(Status(area, steps[i]))
    ensures Drive(area, start, Walk(start, steps).value) == if steps == [] then start else steps[|steps| - 1]
    decreases |steps|
  {
    if steps != [] {
      var n := |steps| - 1;
      var before := Walk(start, steps[..n]).value;
      DriveAlong(area, start, steps[..n]);
      var d := DirBetween(From(start, steps, n), steps[n]).value;
      DriveSnoc(area, start, before, d);
    }
  }

  /**
   * The droid: the machine running the droid program, seen through the
   * commands it is sent and the status codes it answers. A move onto
   * position `p` answers `Status(area, p)`; the droid moves unless that says it
   * hit a wall.
   */
  class Droid {
    var at: Pos
    var sent: seq<int>
    const area: Area

    constructor (area: Area)
      ensures this.area == area && at == START && sent == []
    {
      this.area := area;
      at := START;
      sent := [];
    }

    /** `computer.input(dir)` then `computer.compute_output()`: the droid answers for the position `dir` leads to, and goes there unless it is a wall. */
    method Command(dir: int) returns (status: int)
      requires IsDir(dir)
      modifies this
      ensures status == Status(area, OffsetPos(old(at), dir))
      ensures at == Moved(area, old(at), dir) && (Open(status) <==> at != old(at))
      ensures sent == old(sent) + [dir]
    {
      status := Status(area, OffsetPos(at, dir));
      at := Moved(area, at, dir);
      sent := sent + [dir];
    }
  }

  /** The positions climbed from `p`: its parent, grandparent and so on, `n` of them. */
  function UpSteps(parents: Parents, p: Pos, n: nat): (s: seq<Pos>)
    ensures |s| == n
  {
    if n == 0 then [] else UpSteps(parents, p, n - 1) + [Climb(parents, p, n)]
  }

  /** The `k`-th position climbed is the `k + 1`-th ancestor. */
  lemma {:induction false} UpStepsAt(parents: Parents, p: Pos, n: nat, k: nat)
    requires k < n
    ensures UpSteps(parents, p, n)[k] == Climb(parents, p, k + 1)
  {
    if k < n - 1 {
      UpStepsAt(parents, p, n - 1, k);
    }
  }

  /** Climbing fewer links climbs a prefix of the same positions. */
  lemma {:induction false} UpStepsPrefix(parents: Parents, p: Pos, n: nat, k: nat)
    requires k <= n
    ensures UpSteps(parents, p, n)[..k] == UpSteps(parents, p, k)
  {
    if k < n {
      UpStepsPrefix(parents, p, n - 1, k);
      assert UpSteps(parents, p, n)[..n - 1] == UpSteps(parents, p, n - 1);
    }
  }

  /** The first `j` positions descended to reach `p` from its `d`-th ancestor. */
  function DownPrefix(parents: Parents, p: Pos, d: nat, j: nat): (s: seq<Pos>)
    requires j <= d
    ensures |s| == j
  {
    if j == 0 then [] else DownPrefix(parents, p, d, j - 1) + [Climb(parents, p, d - j)]
  }

  /** The positions descended to reach `p` from its `n`-th ancestor: the reverse of the chain, ending with `p`. */
  function DownSteps(parents: Parents, p: Pos, n: nat): (s: seq<Pos>)
    ensures |s| == n
  {
    DownPrefix(parents, p, n, n)
  }

  /** The `k`-th position descended is the `d - 1 - k`-th ancestor. */
  lemma {:induction false} DownPrefixAt(parents: Parents, p: Pos, d: nat, j: nat, k: nat)
    requires k < j <= d
    ensures DownPrefix(parents, p, d, j)[k] == Climb(parents, p, d - 1 - k)
  {
    if k < j - 1 {
      DownPrefixAt(parents, p, d, j - 1, k);
    }
  }

  /** Descending fewer positions descends a prefix of the same ones. */
  lemma {:induction false} DownPrefixPrefix(parents: Parents, p: Pos, d: nat, n: nat, j: nat)
    requires j <= n <= d
    ensures DownPrefix(parents, p, d, n)[..j] == DownPrefix(parents, p, d, j)
  {
    if j < n {
      DownPrefixPrefix(parents, p, d, n - 1, j);
      assert DownPrefix(parents, p, d, n)[..n - 1] == DownPrefix(parents, p, d, n - 1);
    }
  }

  /**
   * The commands `move_to_pos` sends: up the parent links from `current`
   * to its root, which must be the start, then down the chain of `pos`.
   * None where the source panics: a link between positions that are not
   * adjacent, or a root other than the start.
   */
  ghost function MovePlan(parents: Parents, current: Pos, u: nat, pos: Pos, d: nat): (r: Option<seq<int>>)
    ensures r.Some? ==> AllDirs(r.value)
  {
    match Walk(current, UpSteps(parents, current, u))
    case None => None
    case Some(up) =>
      if Climb(parents, current, u) != START then None
      else
        match Walk(START, DownSteps(parents, pos, d))
        case None => None
        case Some(down) => Some(up + down)
  }

  /**
   * `move_to_pos`: the droid is sent up the parent links from `current`,
   * then down those of `pos`. `ok` is false where the source panics.
   */
  method MoveToPos(droid: Droid, parents: Parents, ghost depth: map<Pos, nat>, current: Pos, pos: Pos) returns (ok: bool)
    requires Tree(parents, depth)
    modifies droid
    ensures ok <==> MovePlan(parents, current, Dist(depth, current), pos, Dist(depth, pos)).Some?
    ensures ok ==> droid.sent == old(droid.sent) + MovePlan(parents, current, Dist(depth, current), pos, Dist(depth, pos)).value
    ensures ok ==> droid.at == Drive(droid.area, old(droid.at), MovePlan(parents, current, Dist(depth, current), pos, Dist(depth, pos)).value)
  {
    RootReached(parents, depth, current);
    RootReached(parents, depth, pos);
    ok := FollowPlan(droid, parents, current, Dist(depth, current), pos, Dist(depth, pos));
  }

  /** `move_to_pos` once the chains of `current` and `pos` are known to leave the parent links after `u` and `d` links. */
  method FollowPlan(droid: Droid, parents: Parents, current: Pos, ghost u: nat, pos: Pos, ghost d: nat) returns (ok: bool)
    requires Rooted(parents, current, u) && Rooted(parents, pos, d)
    modifies droid
    ensures ok <==> MovePlan(parents, current, u, pos, d).Some?
    ensures ok ==> droid.sent == old(droid.sent) + MovePlan(parents, current, u, pos, d).value
    ensures ok ==> droid.at == Drive(droid.area, old(droid.at), MovePlan(parents, current, u, pos, d).value)
  {
    ghost var sent0 := droid.sent;
    ghost var at0 := droid.at;
    var cur;
    ghost var up;
    ok, cur, up := ClimbToRoot(droid, parents, current, u);
    if !ok {
      return;
    }
    if cur != START {
      return false;
    }
    ghost var down;
    ok, down := Descend(droid, parents, pos, d);
    if ok {
      assert MovePlan(parents, current, u, pos, d) == Some(up + down);
      DriveAppend(droid.area, at0, up, down);
      assert droid.sent == sent0 + (up + down);
    }
  }

  /** The first loop of `move_to_pos`: the droid is sent up the parent links from `current`, ending at the root `cur`. */
  method ClimbToRoot(droid: Droid, parents: Parents, current: Pos, ghost u: nat)
      returns (ok: bool, cur: Pos, ghost up: seq<int>)
    requires Rooted(parents, current, u)
    modifies droid
    ensures ok <==> Walk(current, UpSteps(parents, current, u)).Some?
    ensures ok ==> Walk(current, UpSteps(parents, current, u)) == Some(up)
    ensures ok ==> cur == Climb(parents, current, u)
    ensures ok ==> droid.sent == old(droid.sent) + up && droid.at == Drive(droid.area, old(droid.at), up)
  {
    ghost var sent0 := droid.sent;
    ghost var at0 := droid.at;
    ghost var k := 0;
    up := [];
    cur := current;
    while cur in parents
      invariant k <= u && |up| == k
      invariant cur == Climb(parents, current, k)
      invariant Walk(current, UpSteps(parents, current, k)) == Some(up)
      invariant droid.sent == sent0 + up
      invariant droid.at == Drive(droid.area, at0, up)
      decreases u - k
    {
      ClimbBound(parents, current, u, k);
      var parent := parents[cur];
      ClimbStep(parents, current, k, up, DirBetween(cur, parent));
      var moved, up' := StepTo(droid, cur, parent, sent0, at0, up);
      if !moved {
        WalkPrefixFails(current, UpSteps(parents, current, u), k + 1);
        return false, cur, up;
      }
      up := up';
      k := k + 1;
      cur := parent;
    }
    ClimbBound(parents, current, u, k);
    ok := true;
  }

  /** A chain still inside the parent links has not yet climbed `Dist` links; one that has left them has climbed exactly that many. */
  lemma ClimbBound(parents: Parents, p: Pos, u: nat, k: nat)
    requires Rooted(parents, p, u) && k <= u
    ensures Climb(parents, p, k) in parents ==> k < u
    ensures Climb(parents, p, k) !in parents ==> k == u
    ensures k < u ==> UpSteps(parents, p, u)[..k + 1] == UpSteps(parents, p, k + 1)
  {
    if k < u {
      UpStepsPrefix(parents, p, u, k + 1);
    }
  }

  /** The first `n` positions of the chain of `pos`: `pos`, its parent and so on. */
  function Chain(parents: Parents, pos: Pos, n: nat): (s: seq<Pos>)
    ensures |s| == n
  {
    if n == 0 then [] else Chain(parents, pos, n - 1) + [Climb(parents, pos, n - 1)]
  }

  /** Taking the last position off a chain leaves the chain one shorter. */
  lemma ChainPop(parents: Parents, pos: Pos, n: nat, rest: nat)
    requires n == rest + 1
    ensures Chain(parents, pos, n)[..rest] == Chain(parents, pos, rest)
    ensures Chain(parents, pos, n)[rest] == Climb(parents, pos, rest)
  {
  }

  /** The chain of `pos` up to its root, `pos` first and the root left out: the `path_to_pos` of `move_to_pos`. */
  method ChainOf(parents: Parents, pos: Pos, ghost d: nat) returns (pathToPos: seq<Pos>)
    requires Rooted(parents, pos, d)
    ensures pathToPos == Chain(parents, pos, d)
  {
    ghost var k := 0;
    var p := pos;
    pathToPos := [];
    while p in parents
      invariant k <= d && p == Climb(parents, pos, k)
      invariant pathToPos == Chain(parents, pos, k)
      decreases d - k
    {
      ghost var next := k + 1;
      ChainPop(parents, pos, next, k);
      pathToPos := pathToPos + [p];
      p := parents[p];
      k := next;
    }
  }

  /**
   * The last two loops of `move_to_pos`: the chain of `pos` is collected
   * in `path_to_pos`, which is then popped.
   */
  method Descend(droid: Droid, parents: Parents, pos: Pos, ghost d: nat)
      returns (ok: bool, ghost down: seq<int>)
    requires Rooted(parents, pos, d)
    modifies droid
    ensures ok <==> Walk(START, DownSteps(parents, pos, d)).Some?
    ensures ok ==> Walk(START, DownSteps(parents, pos, d)) == Some(down)
    ensures ok ==> droid.sent == old(droid.sent) + down && droid.at == Drive(droid.area, old(droid.at), down)
  {
    var path := ChainOf(parents, pos, d);
    ok, down := PopDown(droid, parents, pos, d, path);
  }

  /** The last loop of `move_to_pos`: `path`, the chain of `pos` climbing `d` links, is popped, sending the droid from the start down to `pos`. */
  method PopDown(droid: Droid, parents: Parents, pos: Pos, ghost d: nat, path: seq<Pos>) returns (ok: bool, ghost down: seq<int>)
    requires path == Chain(parents, pos, d)
    modifies droid
    ensures ok <==> Walk(START, DownSteps(parents, pos, d)).Some?
    ensures ok ==> Walk(START, DownSteps(parents, pos, d)) == Some(down)
    ensures ok ==> droid.sent == old(droid.sent) + down && droid.at == Drive(droid.area, old(droid.at), down)
  {
    ghost var sent0 := droid.sent;
    ghost var at0 := droid.at;
    ghost var j := 0;
    var path := path;
    var cur := START;
    down := [];
    while |path| > 0
      invariant j <= d && |down| == j
      invariant path == Chain(parents, pos, d - j)
      invariant cur == if j == 0 then START else Climb(parents, pos, d - j)
      invariant Walk(START, DownPrefix(parents, pos, d, j)) == Some(down)
      invariant droid.sent == sent0 + down
      invariant droid.at == Drive(droid.area, at0, down)
      decreases d - j
    {
      var moved, step, down' := PopStep(droid, parents, pos, d, j, path, cur, down, sent0, at0);
      if !moved {
        return false, down;
      }
      path := path[..|path| - 1];
      down := down';
      j := j + 1;
      cur := step;
    }
    ok := true;
  }

  /** One pass of the last loop of `move_to_pos`: the last position of `path` is popped and the droid sent there. */
  method PopStep(droid: Droid, parents: Parents, pos: Pos, ghost d: nat, ghost j: nat, path: seq<Pos>, cur: Pos,
                 ghost down: seq<int>, ghost sent0: seq<int>, ghost at0: Pos)
      returns (moved: bool, step: Pos, ghost down': seq<int>)
    requires j < d && path == Chain(parents, pos, d - j)
    requires cur == if j == 0 then START else Climb(parents, pos, d - j)
    requires Walk(START, DownPrefix(parents, pos, d, j)) == Some(down)
    requires droid.sent == sent0 + down && droid.at == Drive(droid.area, at0, down)
    modifies droid
    ensures step == path[|path| - 1] && step == Climb(parents, pos, d - 1 - j)
    ensures path[..|path| - 1] == Chain(parents, pos, d - 1 - j)
    ensures !moved ==> Walk(START, DownSteps(parents, pos, d)).None?
    ensures moved ==> Walk(START, DownPrefix(parents, pos, d, j + 1)) == Some(down')
    ensures moved ==> droid.sent == sent0 + down' && droid.at == Drive(droid.area, at0, down')
  {
    ghost var rest := d - 1 - j;
    ChainPop(parents, pos, |path|, rest);
    step := path[|path| - 1];
    DescentStep(parents, pos, d, j, down, DirBetween(cur, step), cur, step);
    moved, down' := StepTo(droid, cur, step, sent0, at0, down);
    if !moved {
      DownPrefixPrefix(parents, pos, d, d, j + 1);
      WalkPrefixFails(START, DownSteps(parents, pos, d), j + 1);
    }
  }

  /**
   * One step of either loop of `move_to_pos`: the command from `cur` to
   * `step` is sent and its answer ignored; false where
   * `dir_from_pos_to_pos` panics.
   */
  method StepTo(droid: Droid, cur: Pos, step: Pos, ghost sent0: seq<int>, ghost at0: Pos, ghost dirs: seq<int>)
      returns (moved: bool, ghost dirs': seq<int>)
    requires AllDirs(dirs) && droid.sent == sent0 + dirs && droid.at == Drive(droid.area, at0, dirs)
    modifies droid
    ensures moved <==> DirBetween(cur, step).Some?
    ensures moved ==> dirs' == dirs + [DirBetween(cur, step).value]
    ensures moved ==> AllDirs(dirs') && droid.sent == sent0 + dirs' && droid.at == Drive(droid.area, at0, dirs')
  {
    var dir := DirBetween(cur, step);
    if dir.None? {
      return false, dirs;
    }
    var _ := droid.Command(dir.value);
    DriveSnoc(droid.area, at0, dirs, dir.value);
    assert sent0 + dirs + [dir.value] == sent0 + (dirs + [dir.value]);
    return true, dirs + [dir.value];
  }

  /** One more link climbed extends the walk up by one command, or makes it fail. */
  lemma ClimbStep(parents: Parents, current: Pos, k: nat, up: seq<int>, dir: Option<int>)
    requires Walk(current, UpSteps(parents, current, k)) == Some(up)
    requires Climb(parents, current, k) in parents
    requires dir == DirBetween(Climb(parents, current, k), parents[Climb(parents, current, k)])
    ensures Climb(parents, current, k + 1) == parents[Climb(parents, current, k)]
    ensures Walk(current, UpSteps(parents, current, k + 1)) == if dir.None? then None else Some(up + [dir.value])
  {
    var steps := UpSteps(parents, current, k + 1);
    assert steps[..k] == UpSteps(parents, current, k);
    if 0 < k {
      UpStepsAt(parents, current, k + 1, k - 1);
    }
    assert From(current, steps, k) == Climb(parents, current, k);
  }

  /** One more position descended extends the walk down by one command, or makes it fail. */
  lemma DescentStep(parents: Parents, pos: Pos, d: nat, j: nat, down: seq<int>, dir: Option<int>, cur: Pos, step: Pos)
    requires j < d
    requires Walk(START, DownPrefix(parents, pos, d, j)) == Some(down)
    requires cur == if j == 0 then START else Climb(parents, pos, d - j)
    requires step == Climb(parents, pos, d - 1 - j)
    requires dir == DirBetween(cur, step)
    ensures Walk(START, DownPrefix(parents, pos, d, j + 1)) == if dir.None? then None else Some(down + [dir.value])
  {
    var steps := DownPrefix(parents, pos, d, j + 1);
    assert steps[..j] == DownPrefix(parents, pos, d, j);
    if 0 < j {
      DownPrefixAt(parents, pos, d, j + 1, j - 1);
    }
    assert From(START, steps, j) == cur;
  }

  /** Every parent link joins adjacent positions, and leads to the start or to open floor. */
  ghost predicate Linked(area: Area, parents: Parents) {
    forall p :: p in parents ==> Adjacent(p, parents[p]) && (parents[p] == START || Status(area, parents[p]) == MOVED)
  }

  /**
   * The bookkeeping of `find_oxygen`: the discovered positions are the
   * start and exactly the positions with a parent; `depth` numbers them.
   */
  ghost predicate Explored(area: Area, discovered: set<Pos>, parents: Parents, depth: map<Pos, nat>) {
    && START in discovered && START !in parents
    && parents.Keys == discovered - {START}
    && depth.Keys == discovered
    && Tree(parents, depth)
    && Linked(area, parents)
  }

  /** A position the search stands on: the start, or open floor it has a parent for. */
  ghost predicate Visitable(area: Area, parents: Parents, p: Pos) {
    p == START || (p in parents && Status(area, p) == MOVED)
  }

  /** In explored bookkeeping every chain climbs to the start; only the start has depth 0. */
  lemma ChainToStart(area: Area, discovered: set<Pos>, parents: Parents, depth: map<Pos, nat>, p: Pos, k: nat)
    requires Explored(area, discovered, parents, depth) && p in discovered && k <= depth[p]
    ensures Climb(parents, p, k) in discovered
    ensures k == depth[p] <==> Climb(parents, p, k) == START
    ensures k < depth[p] ==> Climb(parents, p, k) in parents && Climb(parents, p, k + 1) == parents[Climb(parents, p, k)]
  {
    ClimbDepth(parents, depth, p, k);
    var q := Climb(parents, p, k);
    assert q in parents <==> q != START;
    assert q in parents ==> depth[q] > 0;
  }

  /**
   * Discovering `newPos` from `current` (the bookkeeping of
   * `find_oxygen`'s probe): the new position gets its parent at that
   * moment, one deeper than `current`, and nothing else changes.
   */
  lemma Discover(area: Area, discovered: set<Pos>, parents: Parents, depth: map<Pos, nat>, current: Pos, newPos: Pos)
    requires Explored(area, discovered, parents, depth)
    requires Visitable(area, parents, current) && Adjacent(current, newPos) && newPos !in discovered
    ensures Explored(area, discovered + {newPos}, parents[newPos := current], depth[newPos := depth[current] + 1])
    ensures forall q :: Visitable(area, parents, q) ==> Visitable(area, parents[newPos := current], q)
    ensures forall q :: q in parents ==> parents[newPos := current][q] == parents[q]
  {
    AdjacentSymmetric(current, newPos);
  }

  /** From a position the search stands on, the climb up the parent links reaches the start without a panic, moving the droid only onto open floor. */
  lemma UpWalk(area: Area, discovered: set<Pos>, parents: Parents, depth: map<Pos, nat>, current: Pos)
    requires Explored(area, discovered, parents, depth) && Visitable(area, parents, current)
    ensures current in discovered && Climb(parents, current, depth[current]) == START
    ensures Walk(current, UpSteps(parents, current, depth[current])).Some?
    ensures Open(Status(area, START)) ==> Drive(area, current, Walk(current, UpSteps(parents, current, depth[current])).value) == START
  {
    var u := depth[current];
    var ups := UpSteps(parents, current, u);
    forall i | 0 <= i < u
      ensures Adjacent(From(current, ups, i), ups[i])
      ensures ups[i] == START || Status(area, ups[i]) == MOVED
    {
      UpStepsAt(parents, current, u, i);
      if 0 < i {
        UpStepsAt(parents, current, u, i - 1);
      }
      ChainLink(area, discovered, parents, depth, current, i);
      if i + 1 < u {
        ChainLink(area, discovered, parents, depth, current, i + 1);
      } else {
        ChainToStart(area, discovered, parents, depth, current, u);
      }
    }
    WalkConnected(current, ups);
    ChainToStart(area, discovered, parents, depth, current, u);
    if Open(Status(area, START)) {
      DriveAlong(area, current, ups);
    }
  }

  /** The `i`-th position descended to a position the search stands on is adjacent to the one before it, and is open floor unless it is that position. */
  lemma DownLink(area: Area, discovered: set<Pos>, parents: Parents, depth: map<Pos, nat>, pos: Pos, i: nat)
    requires Explored(area, discovered, parents, depth) && pos in discovered && i < depth[pos]
    ensures Adjacent(From(START, DownSteps(parents, pos, depth[pos]), i), DownSteps(parents, pos, depth[pos])[i])
    ensures DownSteps(parents, pos, depth[pos])[i] == pos || Status(area, DownSteps(parents, pos, depth[pos])[i]) == MOVED
  {
    var d := depth[pos];
    var downs := DownSteps(parents, pos, d);
    var k := d - 1 - i;
    DownPrefixAt(parents, pos, d, d, i);
    if 0 < i {
      DownPrefixAt(parents, pos, d, d, i - 1);
    } else {
      ChainToStart(area, discovered, parents, depth, pos, d);
    }
    ChainLink(area, discovered, parents, depth, pos, k);
    AdjacentSymmetric(downs[i], From(START, downs, i));
  }

  /** The descent from the start to a position the search stands on never panics and, when the start is open floor, ends on that position. */
  lemma DownWalk(area: Area, discovered: set<Pos>, parents: Parents, depth: map<Pos, nat>, pos: Pos)
    requires Explored(area, discovered, parents, depth) && Visitable(area, parents, pos)
    ensures pos in discovered
    ensures Walk(START, DownSteps(parents, pos, depth[pos])).Some?
    ensures Open(Status(area, START)) ==> Drive(area, START, Walk(START, DownSteps(parents, pos, depth[pos])).value) == pos
  {
    var d := depth[pos];
    var downs := DownSteps(parents, pos, d);
    forall i | 0 <= i < d
      ensures Adjacent(From(START, downs, i), downs[i])
      ensures downs[i] == pos || Status(area, downs[i]) == MOVED
    {
      DownLink(area, discovered, parents, depth, pos, i);
    }
    WalkConnected(START, downs);
    if Open(Status(area, START)) {
      DriveAlong(area, START, downs);
      if 0 < d {
        DownPrefixAt(parents, pos, d, d, d - 1);
      }
    }
  }

  /**
   * Between positions the search stands on `move_to_pos` never panics,
   * and when the start is open floor it leaves the droid on `pos`.
   */
  lemma PlanArrives(area: Area, discovered: set<Pos>, parents: Parents, depth: map<Pos, nat>, current: Pos, pos: Pos)
    requires Explored(area, discovered, parents, depth)
    requires Visitable(area, parents, current) && Visitable(area, parents, pos)
    ensures MovePlan(parents, current, Dist(depth, current), pos, Dist(depth, pos)).Some?
    ensures Open(Status(area, START)) ==> Drive(area, current, MovePlan(parents, current, Dist(depth, current), pos, Dist(depth, pos)).value) == pos
  {
    UpWalk(area, discovered, parents, depth, current);
    DownWalk(area, discovered, parents, depth, pos);
    var up := Walk(current, UpSteps(parents, current, depth[current])).value;
    var down := Walk(START, DownSteps(parents, pos, depth[pos])).value;
    assert MovePlan(parents, current, depth[current], pos, depth[pos]) == Some(up + down);
    if Open(Status(area, START)) {
      DriveAppend(area, current, up, down);
    }
  }

  /** A route from the start: each position adjacent to the one before, every position between the ends open floor. */
  ghost predicate Route(area: Area, path: seq<Pos>) {
    && |path| >= 1 && path[0] == START
    && (forall i :: 0 < i < |path| ==> Adjacent(path[i - 1], path[i]))
    && (forall i :: 0 < i < |path| - 1 ==> Status(area, path[i]) == MOVED)
  }

  /** The parent chain of an explored position, read from the start, is a route of `depth` moves. */
  lemma RouteToRoot(area: Area, discovered: set<Pos>, parents: Parents, depth: map<Pos, nat>, p: Pos)
    requires Explored(area, discovered, parents, depth) && p in discovered
    ensures var path := [START] + DownSteps(parents, p, depth[p]);
      Route(area, path) && |path| == depth[p] + 1 && path[depth[p]] == p
  {
    var d := depth[p];
    var path := [START] + DownSteps(parents, p, d);
    forall i | 0 <= i < |path|
      ensures path[i] == Climb(parents, p, d - i)
    {
      if i == 0 {
        ChainToStart(area, discovered, parents, depth, p, d);
      } else {
        DownPrefixAt(parents, p, d, d, i - 1);
      }
    }
    forall i | 0 < i < |path|
      ensures Adjacent(path[i - 1], path[i])
      ensures i < |path| - 1 ==> Status(area, path[i]) == MOVED
    {
      ChainLink(area, discovered, parents, depth, p, d - i);
      assert d - i + 1 == d - (i - 1);
      AdjacentSymmetric(path[i], path[i - 1]);
    }
  }

  /** The `k`-th position of an explored chain short of its root is linked to the next, and is open floor unless it is the first. */
  lemma ChainLink(area: Area, discovered: set<Pos>, parents: Parents, depth: map<Pos, nat>, p: Pos, k: nat)
    requires Explored(area, discovered, parents, depth) && p in discovered && k < depth[p]
    ensures Climb(parents, p, k) in parents && Climb(parents, p, k + 1) == parents[Climb(parents, p, k)]
    ensures Adjacent(Climb(parents, p, k), Climb(parents, p, k + 1))
    ensures 0 < k ==> Status(area, Climb(parents, p, k)) == MOVED
  {
    ChainToStart(area, discovered, parents, depth, p, k);
    if 0 < k {
      ChainToStart(area, discovered, parents, depth, p, k - 1);
    }
  }

  /** How `find_oxygen` ends: the distance to the oxygen system, or one of its panics, or the bound running out. */
  datatype Search = Found(distance: nat) | NotFound | UnexpectedStatus(status: int) | OutOfRounds

  /** Every queued position is one the search can stand on. */
  ghost predicate Queued(area: Area, parents: Parents, queue: seq<Pos>) {
    forall i :: 0 <= i < |queue| ==> Visitable(area, parents, queue[i])
  }

  /** Queued positions stay ones the search can stand on as links are added, and so does a position queued after them. */
  lemma QueueGrows(area: Area, parents: Parents, parents': Parents, queue: seq<Pos>, p: Pos)
    requires Queued(area, parents, queue)
    requires forall q :: Visitable(area, parents, q) ==> Visitable(area, parents', q)
    ensures Queued(area, parents', queue)
    ensures Visitable(area, parents', p) ==> Queued(area, parents', queue + [p])
  {
    forall i | 0 <= i < |queue|
      ensures Visitable(area, parents', queue[i])
    {
    }
  }

  /**
   * What an ending of `find_oxygen` promises: a distance is the length of
   * a route from the start to a position that answers FOUND_O2, on which
   * the droid stands; an unexpected status is none of the three the droid
   * may answer.
   */
  ghost predicate Reports(area: Area, at: Pos, r: Search) {
    && (r.Found? ==> exists path :: (Route(area, path) && |path| == r.distance + 1 &&
          Status(area, path[r.distance]) == FOUND_O2 && at == path[r.distance]))
    && (r.UnexpectedStatus? ==> !Open(r.status) && r.status != HIT_WALL)
  }

  /**
   * One probe of `find_oxygen`: a position next to `current` not yet
   * discovered gets its parent and the droid is sent there; the droid
   * comes back from open floor, whose position is queued, and the search
   * ends on the oxygen system or on an unexpected status.
   */
  method Probe(droid: Droid, discovered: set<Pos>, parents: Parents, ghost depth: map<Pos, nat>, current: Pos, dir: int, queue: seq<Pos>)
      returns (done: Option<Search>, discovered': set<Pos>, parents': Parents, ghost depth': map<Pos, nat>, queue': seq<Pos>)
    requires IsDir(dir)
    requires Explored(droid.area, discovered, parents, depth) && Visitable(droid.area, parents, current)
    requires Queued(droid.area, parents, queue)
    requires Open(Status(droid.area, START)) && droid.at == current
    modifies droid
    ensures done.None? ==> Explored(droid.area, discovered', parents', depth') && Visitable(droid.area, parents', current)
    ensures done.None? ==> Queued(droid.area, parents', queue') && droid.at == current
    ensures done.Some? ==> Reports(droid.area, droid.at, done.value)
  {
    done, discovered', parents', depth', queue' := None, discovered, parents, depth, queue;
    var newPos := OffsetPos(current, dir);
    if newPos in discovered {
      return;
    }
    Discover(droid.area, discovered, parents, depth, current, newPos);
    discovered' := discovered + {newPos};
    parents' := parents[newPos := current];
    depth' := depth[newPos := depth[current] + 1];
    var status := droid.Command(dir);
    QueueGrows(droid.area, parents, parents', queue, newPos);
    if status == HIT_WALL {
    } else if status == MOVED {
      OppositeUndoes(current, dir);
      var _ := droid.Command(OppositeDir(dir));
      queue' := queue + [newPos];
    } else if status == FOUND_O2 {
      var distance := FindDistanceToRoot(parents', depth', newPos);
      RouteToRoot(droid.area, discovered', parents', depth', newPos);
      ghost var path := [START] + DownSteps(parents', newPos, depth'[newPos]);
      assert Route(droid.area, path) && |path| == distance + 1 && path[distance] == newPos;
      assert Status(droid.area, path[distance]) == FOUND_O2 && droid.at == path[distance];
      done := Some(Found(distance));
    } else {
      done := Some(UnexpectedStatus(status));
    }
  }

  /**
   * `find_oxygen`: a breadth-first search from the start for at most
   * `rounds` queued positions, with the droid standing on the open start.
   * The distance it returns is the length of a route from the start to a
   * position that answers FOUND_O2, and the droid ends on that position.
   */
  method FindOxygen(droid: Droid, rounds: nat) returns (r: Search)
    requires droid.at == START && Open(Status(droid.area, START))
    modifies droid
    ensures Reports(droid.area, droid.at, r)
  {
    var queue: seq<Pos> := [START];
    var discovered: set<Pos> := {START};
    var parents: Parents := map[];
    ghost var depth: map<Pos, nat> := map[START := 0];
    var current := START;
    var left := rounds;
    while queue != []
      invariant Explored(droid.area, discovered, parents, depth)
      invariant Visitable(droid.area, parents, current) && Queued(droid.area, parents, queue)
      invariant droid.at == current
      decreases left
    {
      if left == 0 {
        return OutOfRounds;
      }
      left := left - 1;
      var pos := queue[0];
      queue := queue[1..];
      if current != pos && pos in parents {
        PlanArrives(droid.area, discovered, parents, depth, current, pos);
        var _ := MoveToPos(droid, parents, depth, current, pos);
        current := pos;
      }
      var dirs := [NORTH, EAST, SOUTH, WEST];
      for i := 0 to 4
        invariant Explored(droid.area, discovered, parents, depth)
        invariant Visitable(droid.area, parents, current) && Queued(droid.area, parents, queue)
        invariant droid.at == current
      {
        var done;
        done, discovered, parents, depth, queue := Probe(droid, discovered, parents, depth, current, dirs[i], queue);
        if done.Some? {
          return done.value;
        }
      }
    }
    return NotFound;
  }
}
