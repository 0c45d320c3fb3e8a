/** Grid A* (backend/rust/pathfinding/src/astar.rs).

    The grid type lives in a file that is not part of this model: a grid is
    its width, its height and a passability predicate, and `neighbors` is
    taken to return the in-bounds passable cells one step away in the four
    axis directions. The binary heap is a sequence from which the node the
    heap's `Ord` ranks highest is removed. */
module AStar {

  datatype Pos = Pos(x: nat, y: nat)

  datatype Grid = Grid(width: nat, height: nat, passable: Pos -> bool)

  /** A heap entry: a cell, its f = g + heuristic, and its g. */
  datatype Node = Node(pos: Pos, f: nat, g: nat)

  datatype Ordering = Less | Equal | Greater

  function CmpNat(a: nat, b: nat): Ordering
  {
    if a < b then Less else if a == b then Equal else Greater
  }

  /** `Ord for Node`: `other.f.cmp(&self.f).then_with(|| other.g.cmp(&self.g))`.
      The max-heap therefore pops the smallest f first and, among equal f,
      the smallest g. The cell does not take part. */
  function Cmp(a: Node, b: Node): (o: Ordering)
    ensures o == Greater <==> a.f < b.f || (a.f == b.f && a.g < b.g)
    ensures o == Less <==> b.f < a.f || (a.f == b.f && b.g < a.g)
  {
    var byF := CmpNat(b.f, a.f);
    if byF != Equal then byF else CmpNat(b.g, a.g)
  }

  /** The order is a total preorder: antisymmetric and transitive. */
  lemma CmpTotalPreorder(a: Node, b: Node, c: Node)
    ensures Cmp(a, b) == Greater <==> Cmp(b, a) == Less
    ensures Cmp(a, b) != Less && Cmp(b, c) != Less ==> Cmp(a, c) != Less
  {
  }

  /** `heuristic`: the Manhattan distance, each coordinate difference taken
      larger minus smaller so that the unsigned subtraction cannot wrap. */
  function Heuristic(a: Pos, b: Pos): (d: nat)
    ensures d == 0 <==> a == b
    ensures d as int == Abs(a.x - b.x) + Abs(a.y - b.y)
  {
    var dx := if a.x > b.x then a.x - b.x else b.x - a.x;
    var dy := if a.y > b.y then a.y - b.y else b.y - a.y;
    dx + dy
  }

  function Abs(n: int): nat
  {
    if n < 0 then -n else n
  }

  lemma HeuristicSymmetric(a: Pos, b: Pos)
    ensures Heuristic(a, b) == Heuristic(b, a)
  {
  }

  lemma HeuristicTriangle(a: Pos, b: Pos, c: Pos)
    ensures Heuristic(a, c) <= Heuristic(a, b) + Heuristic(b, c)
  {
  }

  predicate InBounds(grid: Grid, p: Pos)
  {
    p.x < grid.width && p.y < grid.height
  }

  /** In bounds and passable: what the two guards at the top of `astar` ask
      of the start and the goal (the bounds are checked first). */
  predicate Open(grid: Grid, p: Pos)
  {
    InBounds(grid, p) && grid.passable(p)
  }

  predicate Adjacent(a: Pos, b: Pos)
  {
    Heuristic(a, b) == 1
  }

  function KeepOpen(grid: Grid, s: seq<Pos>): (r: seq<Pos>)
    ensures forall q :: q in r <==> q in s && Open(grid, q)
  {
    if s == [] then []
    else (if Open(grid, s[0]) then [s[0]] else []) + KeepOpen(grid, s[1..])
  }

  /** `neighbors`: the open cells one step away along an axis. */
  function Neighbors(grid: Grid, p: Pos): (ns: seq<Pos>)
    ensures forall q :: q in ns <==> Open(grid, q) && Adjacent(p, q)
  {
    var left := if p.x > 0 then [Pos(p.x - 1, p.y)] else [];
    var up := if p.y > 0 then [Pos(p.x, p.y - 1)] else [];
    var ns := KeepOpen(grid, [Pos(p.x + 1, p.y)] + left + [Pos(p.x, p.y + 1)] + up);
    assert forall q :: Adjacent(p, q) ==>
      q == Pos(p.x + 1, p.y) || q in left || q == Pos(p.x, p.y + 1) || q in up;
    ns
  }

  /** A walk through open cells, each step to an adjacent cell. */
  predicate IsPath(grid: Grid, p: seq<Pos>)
  {
    |p| > 0
    && (forall i :: 0 <= i < |p| ==> Open(grid, p[i]))
    && (forall i :: 0 <= i < |p| - 1 ==> Adjacent(p[i], p[i + 1]))
  }

  ghost predicate Reachable(grid: Grid, a: Pos, b: Pos)
  {
    exists p :: IsPath(grid, p) && p[0] == a && p[|p| - 1] == b
  }

  /** No path is shorter than the heuristic allows: a walk from a to b has
      at least Heuristic(a, b) + 1 cells. */
  lemma {:induction false} PathLowerBound(grid: Grid, p: seq<Pos>)
    requires IsPath(grid, p)
    ensures |p| >= Heuristic(p[0], p[|p| - 1]) + 1
  {
    if |p| > 1 {
      var q := p[1..];
      assert IsPath(grid, q) by {
        forall i | 0 <= i < |q| - 1 ensures Adjacent(q[i], q[i + 1]) {
          assert q[i] == p[i + 1] && q[i + 1] == p[i + 2];
        }
      }
      PathLowerBound(grid, q);
      HeuristicTriangle(p[0], p[1], p[|p| - 1]);
    }
  }

  // ---- Termination measure ------------------------------------------------

  /** Unscored cells of row y left of column w. */
  function RowUnscored(gs: map<Pos, nat>, y: nat, w: nat): nat
  {
    if w == 0 then 0 else RowUnscored(gs, y, w - 1) + (if Pos(w - 1, y) in gs then 0 else 1)
  }

  /** The sum of the scores in row y left of column w. */
  function RowScore(gs: map<Pos, nat>, y: nat, w: nat): nat
  {
    if w == 0 then 0 else RowScore(gs, y, w - 1) + (if Pos(w - 1, y) in gs then gs[Pos(w - 1, y)] else 0)
  }

  function Unscored(gs: map<Pos, nat>, w: nat, h: nat): nat
  {
    if h == 0 then 0 else Unscored(gs, w, h - 1) + RowUnscored(gs, h - 1, w)
  }

  function Score(gs: map<Pos, nat>, w: nat, h: nat): nat
  {
    if h == 0 then 0 else Score(gs, w, h - 1) + RowScore(gs, h - 1, w)
  }

  /** The main loop's measure goes down, lexicographically, with every
      improved score: (unscored cells in the grid, sum of the scores). */
  predicate Improves(grid: Grid, gs: map<Pos, nat>, gs0: map<Pos, nat>)
  {
    var (w, h) := (grid.width, grid.height);
    Unscored(gs, w, h) < Unscored(gs0, w, h)
    || (Unscored(gs, w, h) == Unscored(gs0, w, h) && Score(gs, w, h) < Score(gs0, w, h))
  }

  /** A row that does not hold k is unaffected by scoring k. */
  lemma {:induction false} RowFrame(gs: map<Pos, nat>, y: nat, w: nat, k: Pos, v: nat)
    requires k.y != y || k.x >= w
    ensures RowUnscored(gs[k := v], y, w) == RowUnscored(gs, y, w)
    ensures RowScore(gs[k := v], y, w) == RowScore(gs, y, w)
  {
    if w > 0 {
      RowFrame(gs, y, w - 1, k, v);
    }
  }

  /** In the row that holds k, scoring k for the first time removes one
      unscored cell, and lowering k's score lowers the row's sum. */
  lemma {:induction false} RowDrops(gs: map<Pos, nat>, y: nat, w: nat, k: Pos, v: nat)
    requires k.y == y && k.x < w
    requires k !in gs || v < gs[k]
    ensures k !in gs ==> RowUnscored(gs[k := v], y, w) < RowUnscored(gs, y, w)
    ensures k in gs ==>
      RowUnscored(gs[k := v], y, w) == RowUnscored(gs, y, w) && RowScore(gs[k := v], y, w) < RowScore(gs, y, w)
  {
    if k.x == w - 1 {
      RowFrame(gs, y, w - 1, k, v);
    } else {
      RowDrops(gs, y, w - 1, k, v);
    }
  }

  lemma {:induction false} GridFrame(gs: map<Pos, nat>, w: nat, h: nat, k: Pos, v: nat)
    requires k.y >= h
    ensures Unscored(gs[k := v], w, h) == Unscored(gs, w, h)
    ensures Score(gs[k := v], w, h) == Score(gs, w, h)
  {
    if h > 0 {
      GridFrame(gs, w, h - 1, k, v);
      RowFrame(gs, h - 1, w, k, v);
    }
  }

  lemma {:induction false} GridDrops(gs: map<Pos, nat>, w: nat, h: nat, k: Pos, v: nat)
    requires k.x < w && k.y < h
    requires k !in gs || v < gs[k]
    ensures k !in gs ==> Unscored(gs[k := v], w, h) < Unscored(gs, w, h)
    ensures k in gs ==>
      Unscored(gs[k := v], w, h) == Unscored(gs, w, h) && Score(gs[k := v], w, h) < Score(gs, w, h)
  {
    if k.y == h - 1 {
      GridFrame(gs, w, h - 1, k, v);
      RowDrops(gs, h - 1, w, k, v);
    } else {
      GridDrops(gs, w, h - 1, k, v);
      RowFrame(gs, h - 1, w, k, v);
    }
  }

  /** Scoring an in-bounds cell for the first time, or lowering its score,
      improves the measure. */
  lemma ScoreImproves(grid: Grid, gs: map<Pos, nat>, k: Pos, v: nat)
    requires InBounds(grid, k)
    requires k !in gs || v < gs[k]
    ensures Improves(grid, gs[k := v], gs)
  {
    GridDrops(gs, grid.width, grid.height, k, v);
  }

  // ---- The search -----------------------------------------------------------

  /** The node the heap pops: one that no other node outranks. */
  function Best(heap: seq<Node>): (i: nat)
    requires |heap| > 0
    ensures i < |heap|
    ensures forall j :: 0 <= j < |heap| ==> Cmp(heap[j], heap[i]) != Greater
  {
    if |heap| == 1 then 0
    else
      var k := Best(heap[..|heap| - 1]);
      assert forall j :: 0 <= j < |heap| - 1 ==> heap[..|heap| - 1][j] == heap[j];
      if Cmp(heap[|heap| - 1], heap[k]) == Greater then |heap| - 1 else k
  }

  /** The scores and predecessors the main loop keeps: every scored cell is
      open; the start scores 0; every scored cell but the start has a
      predecessor that is adjacent and scored strictly lower. */
  ghost predicate ChainInv(grid: Grid, start: Pos, gs: map<Pos, nat>, cameFrom: map<Pos, Pos>)
  {
    && start in gs && gs[start] == 0
    && (forall v :: v in gs ==> Open(grid, v))
    && (forall v :: v in gs ==> v == start || v in cameFrom)
    && (forall v :: v in cameFrom ==>
          v in gs && cameFrom[v] in gs && gs[cameFrom[v]] < gs[v] && Adjacent(cameFrom[v], v))
  }

  /** ChainInv, and every heap node's g is at least its cell's score. */
  ghost predicate SearchInv(grid: Grid, start: Pos, gs: map<Pos, nat>, cameFrom: map<Pos, Pos>, heap: seq<Node>)
  {
    && ChainInv(grid, start, gs, cameFrom)
    && (forall n :: n in heap ==> n.pos in gs && gs[n.pos] <= n.g)
  }

  /** Removing the popped node keeps the invariant. */
  lemma PopKeeps(grid: Grid, start: Pos, gs: map<Pos, nat>, cameFrom: map<Pos, Pos>, heap: seq<Node>, i: nat)
    requires SearchInv(grid, start, gs, cameFrom, heap) && i < |heap|
    ensures SearchInv(grid, start, gs, cameFrom, heap[..i] + heap[i + 1..])
    ensures heap[i].pos in gs && gs[heap[i].pos] <= heap[i].g
  {
    forall n | n in heap[..i] + heap[i + 1..] ensures n in heap {
      assert n in heap[..i] || n in heap[i + 1..];
    }
  }

  /** Relaxing an edge from `current` (popped with g equal to its score) to
      a neighbour whose score it improves keeps the scores and predecessors
      consistent. */
  lemma RelaxChain(grid: Grid, start: Pos, gs: map<Pos, nat>, cameFrom: map<Pos, Pos>,
                   current: Pos, cg: nat, nb: Pos)
    requires ChainInv(grid, start, gs, cameFrom)
    requires current in gs && gs[current] == cg
    requires Open(grid, nb) && Adjacent(current, nb)
    requires nb !in gs || cg + 1 < gs[nb]
    ensures ChainInv(grid, start, gs[nb := cg + 1], cameFrom[nb := current])
  {
    var gs', cf' := gs[nb := cg + 1], cameFrom[nb := current];
    forall v | v in cf'
      ensures v in gs' && cf'[v] in gs' && gs'[cf'[v]] < gs'[v] && Adjacent(cf'[v], v)
    {
      if v != nb {
        assert cf'[v] == cameFrom[v];
      }
    }
  }

  /** The same step keeps every heap node's g at or above its cell's score. */
  lemma RelaxHeap(gs: map<Pos, nat>, heap: seq<Node>, nb: Pos, node: Node)
    requires forall n :: n in heap ==> n.pos in gs && gs[n.pos] <= n.g
    requires nb !in gs || node.g < gs[nb]
    requires node.pos == nb
    ensures forall n :: n in heap + [node] ==> n.pos in gs[nb := node.g] && gs[nb := node.g][n.pos] <= n.g
  {
  }

  /** The three facts together, for one relaxation step. */
  lemma Relax(grid: Grid, start: Pos, gs: map<Pos, nat>, cameFrom: map<Pos, Pos>, heap: seq<Node>,
              current: Pos, cg: nat, nb: Pos, node: Node)
    requires SearchInv(grid, start, gs, cameFrom, heap)
    requires current in gs && gs[current] == cg
    requires nb in Neighbors(grid, current)
    requires nb !in gs || cg + 1 < gs[nb]
    requires node.pos == nb && node.g == cg + 1
    ensures SearchInv(grid, start, gs[nb := cg + 1], cameFrom[nb := current], heap + [node])
    ensures current in gs[nb := cg + 1] && gs[nb := cg + 1][current] == cg
    ensures Improves(grid, gs[nb := cg + 1], gs)
  {
    RelaxChain(grid, start, gs, cameFrom, current, cg, nb);
    ScoreImproves(grid, gs, nb, cg + 1);
    RelaxHeap(gs, heap, nb, node);
  }

  /** One pass of the `for neighbor in self.neighbors(current)` loop. It
      either changes nothing or improves some score. */
  method Expand(grid: Grid, start: Pos, goal: Pos, gs0: map<Pos, nat>, cameFrom0: map<Pos, Pos>,
                heap0: seq<Node>, current: Pos, cg: nat)
    returns (gs: map<Pos, nat>, cameFrom: map<Pos, Pos>, heap: seq<Node>)
    requires SearchInv(grid, start, gs0, cameFrom0, heap0)
    requires current in gs0 && gs0[current] == cg
    ensures SearchInv(grid, start, gs, cameFrom, heap)
    ensures (gs == gs0 && heap == heap0) || Improves(grid, gs, gs0)
  {
    gs, cameFrom, heap := gs0, cameFrom0, heap0;
    var ns := Neighbors(grid, current);
    for k := 0 to |ns|
      invariant SearchInv(grid, start, gs, cameFrom, heap)
      invariant current in gs && gs[current] == cg
      invariant (gs == gs0 && heap == heap0) || Improves(grid, gs, gs0)
    {
      var nb := ns[k];
      var tentative := cg + 1;
      if nb !in gs || tentative < gs[nb] {
        var node := Node(nb, tentative + Heuristic(nb, goal), tentative);
        Relax(grid, start, gs, cameFrom, heap, current, cg, nb, node);
        cameFrom := cameFrom[nb := current];
        gs := gs[nb := tentative];
        heap := heap + [node];
      }
    }
  }

  /** One turn of the `while let Some(..) = open_set.pop()` loop: pop the
      best node; at the goal, rebuild the path; skip a node whose g is worse
      than its cell's score; otherwise relax its neighbours. A turn that does
      not finish improves some score or, failing that, shrinks the heap. */
  method Step(grid: Grid, start: Pos, goal: Pos, gs0: map<Pos, nat>, cameFrom0: map<Pos, Pos>,
              heap0: seq<Node>)
    returns (found: bool, path: seq<Pos>, gs: map<Pos, nat>, cameFrom: map<Pos, Pos>, heap: seq<Node>)
    requires SearchInv(grid, start, gs0, cameFrom0, heap0) && |heap0| > 0
    ensures found ==> IsPath(grid, path) && path[0] == start && path[|path| - 1] == goal
    ensures heap0 == [Node(start, 0, 0)] && cameFrom0 == map[] && start == goal ==> found && path == [start]
    ensures !found ==> SearchInv(grid, start, gs, cameFrom, heap)
    ensures !found ==> Improves(grid, gs, gs0) || (gs == gs0 && |heap| < |heap0|)
  {
    var i := Best(heap0);
    var node := heap0[i];
    PopKeeps(grid, start, gs0, cameFrom0, heap0, i);
    gs, cameFrom, heap := gs0, cameFrom0, heap0[..i] + heap0[i + 1..];
    var current, cg := node.pos, node.g;
    if current == goal {
      path := Reconstruct(grid, start, gs, cameFrom, current);
      return true, path, gs, cameFrom, heap;
    }
    found, path := false, [];
    if current in gs && cg > gs[current] {
      return;
    }
    gs, cameFrom, heap := Expand(grid, start, goal, gs, cameFrom, heap, current, cg);
  }

  /** `astar`. The result, when not empty, is a walk through open cells from
      the start to the goal; out-of-bounds or impassable endpoints give the
      empty path, and a passable start equal to the goal gives `[start]`. */
  method Search(grid: Grid, start: Pos, goal: Pos) returns (path: seq<Pos>)
    ensures !Open(grid, start) || !Open(grid, goal) ==> path == []
    ensures Open(grid, start) && start == goal ==> path == [start]
    ensures path != [] ==> IsPath(grid, path) && path[0] == start && path[|path| - 1] == goal
    ensures path != [] ==> |path| >= Heuristic(start, goal) + 1
  {
    if !InBounds(grid, start) || !InBounds(grid, goal) {
      return [];
    }
    if !grid.passable(start) || !grid.passable(goal) {
      return [];
    }
    path := Explore(grid, start, goal);
    if path != [] {
      PathLowerBound(grid, path);
    }
  }

  /** The search proper, once both endpoints are open. */
  method Explore(grid: Grid, start: Pos, goal: Pos) returns (path: seq<Pos>)
    requires Open(grid, start)
    ensures start == goal ==> path == [start]
    ensures path != [] ==> IsPath(grid, path) && path[0] == start && path[|path| - 1] == goal
  {
    var cameFrom: map<Pos, Pos> := map[];
    var gs: map<Pos, nat> := map[start := 0];
    var heap := [Node(start, Heuristic(start, goal), 0)];

    while |heap| > 0
      invariant SearchInv(grid, start, gs, cameFrom, heap)
      invariant start == goal ==> heap == [Node(start, 0, 0)] && cameFrom == map[]
      decreases Unscored(gs, grid.width, grid.height), Score(gs, grid.width, grid.height), |heap|
    {
      var found;
      found, path, gs, cameFrom, heap := Step(grid, start, goal, gs, cameFrom, heap);
      if found {
        return;
      }
    }
    path := [];
  }

  /** The reconstruction loop: follow `came_from` back from the goal. The
      source pushes onto a vector and reverses it; prepending here builds
      the same sequence. The chain ends at the start, the one scored cell
      without a predecessor. */
  method Reconstruct(grid: Grid, start: Pos, gs: map<Pos, nat>, cameFrom: map<Pos, Pos>, goal: Pos)
    returns (path: seq<Pos>)
    requires ChainInv(grid, start, gs, cameFrom) && goal in gs
    ensures IsPath(grid, path) && path[0] == start && path[|path| - 1] == goal
    ensures cameFrom == map[] ==> path == [goal]
  {
    path := [goal];
    var curr := goal;
    while curr in cameFrom
      invariant curr in gs && IsPath(grid, path)
      invariant path[0] == curr && path[|path| - 1] == goal
      invariant cameFrom == map[] ==> path == [goal]
      decreases gs[curr]
    {
      var prev := cameFrom[curr];
      path := [prev] + path;
      curr := prev;
    }
  }

  /** An unreachable goal gives the empty path. */
  lemma UnreachableIsEmpty(grid: Grid, start: Pos, goal: Pos, path: seq<Pos>)
    requires path != [] ==> IsPath(grid, path) && path[0] == start && path[|path| - 1] == goal
    requires !Reachable(grid, start, goal)
    ensures path == []
  {
  }
}
