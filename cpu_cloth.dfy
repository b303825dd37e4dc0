/**
 * The CPU variant of the cloth (js/index.js): the same edge extraction, run
 * over particles, and a solver that visits the constraints back and forth. The
 * float work (forces, integration, `satisfyConstraints`) is not modelled; the
 * solver is recorded as the sequence of operations it performs.
 */
module CpuCloth {
  import opened Wrappers
  import opened Topology
  import opened Picking

  /** Solver iterations per frame, `steps = 8` (js/index.js:1). */
  const Steps: nat := 8

  /**
   * `createParticles` (js/index.js:132-166): one particle per vertex, then the
   * guarded insertions `[a, b]`, `[a, c]`, `[b, c]` per face into the particles'
   * `adj` lists and the `constraints` list. The rest length `dist * dist` is
   * float and not kept. It yields the constraint list of the GPU variant's
   * `populateConstraints`, in the same order.
   */
  method CreateParticles(n: nat, faces: seq<Triangle>) returns (adj: seq<seq<nat>>, constraints: seq<Pair>)
    requires TrianglesIn(faces, n)
    ensures constraints == ConstraintList(faces)
    ensures AdjacencyIs(adj, n, MeshEdges(faces))
    ensures forall u, v :: 0 <= u < n && 0 <= v < n ==> (v in adj[u] <==> u in adj[v])
  {
    adj := seq(n, _ => []);
    constraints := [];
    for i := 0 to |faces|
      invariant constraints == ConstraintList(faces[..i])
      invariant AdjacencyIs(adj, n, ConstraintEdges(constraints))
      invariant Distinct(constraints) && PairsIn(constraints, n)
    {
      assert faces[..i + 1][..i] == faces[..i];
      adj, constraints := AddTriangleEdges(adj, constraints, faces[i], n);
    }
    assert faces[..|faces|] == faces;
    ConstraintListEdges(faces, n);
    AdjacencySymmetric(adj, n, ConstraintEdges(constraints));
  }

  /** One operation of `simulate`, by what it acts on. */
  datatype Op =
    | Advance(particle: nat)   // pull towards the rest pose and integrate
    | Drag(psel: nat)          // move the particles near `psel` with the pointer
    | Relax(constraint: nat)   // `satisfyConstraints` on one constraint

  /** `Advance(0..count-1)`: the first loop of `simulate`. */
  function Advances(count: nat): (r: seq<Op>)
  {
    seq(count, i requires 0 <= i < count => Advance(i))
  }

  /** The backward sweep `len - 1` down to `0`. */
  function Descending(len: nat): (r: seq<Op>)
  {
    seq(len, k requires 0 <= k < len => Relax(len - 1 - k))
  }

  /** The forward sweep `0` up to `len - 1`. */
  function Ascending(len: nat): (r: seq<Op>)
  {
    seq(len, k requires 0 <= k < len => Relax(k))
  }

  /** One iteration: a drag while `interacting && psel`, then both sweeps. */
  function Iteration(len: nat, interacting: bool, psel: Option<nat>): (r: seq<Op>)
  {
    (if Dragging(interacting, psel) then [Drag(psel.value)] else []) + Descending(len) + Ascending(len)
  }

  function Repeat(count: nat, body: seq<Op>): (r: seq<Op>)
  {
    if count == 0 then [] else Repeat(count - 1, body) + body
  }

  /** What `simulate` does with `particles` particles and `len` constraints. */
  function SimulateTrace(particles: nat, len: nat, interacting: bool, psel: Option<nat>): (r: seq<Op>)
  {
    Advances(particles) + Repeat(Steps, Iteration(len, interacting, psel))
  }

  /** `simulate` (js/index.js:230-271), as the operations it performs in order. */
  method Simulate(particles: nat, len: nat, interacting: bool, psel: Option<nat>) returns (trace: seq<Op>)
    ensures trace == SimulateTrace(particles, len, interacting, psel)
  {
    trace := [];
    for i := 0 to particles
      invariant trace == Advances(i)
    {
      trace := trace + [Advance(i)];
    }
    ghost var body := Iteration(len, interacting, psel);
    for j := 0 to Steps
      invariant trace == Advances(particles) + Repeat(j, body)
    {
      var step: seq<Op> := [];
      if interacting && psel.Some? && psel.value != 0 {
        step := [Drag(psel.value)];
      }
      ghost var dragged := step;
      var i := len;
      while i > 0
        invariant 0 <= i <= len
        invariant step == dragged + Descending(len)[..len - i]
      {
        i := i - 1;
        assert Descending(len)[..len - i] == Descending(len)[..len - i - 1] + [Relax(i)];
        OpsAssoc(dragged, Descending(len)[..len - i - 1], [Relax(i)]);
        step := step + [Relax(i)];
      }
      assert Descending(len)[..len] == Descending(len);
      ghost var descended := step;
      for i := 0 to len
        invariant step == descended + Ascending(len)[..i]
      {
        assert Ascending(len)[..i + 1] == Ascending(len)[..i] + [Relax(i)];
        OpsAssoc(descended, Ascending(len)[..i], [Relax(i)]);
        step := step + [Relax(i)];
      }
      assert Ascending(len)[..len] == Ascending(len);
      assert step == body;
      OpsAssoc(Advances(particles), Repeat(j, body), body);
      trace := trace + step;
    }
  }

  lemma OpsAssoc(a: seq<Op>, b: seq<Op>, c: seq<Op>)
    ensures a + b + c == a + (b + c)
  {
  }

  /**
   * In each iteration constraint `c` is relaxed exactly twice: at position
   * `len - 1 - c` of the backward sweep and at position `c` of the forward one.
   */
  lemma RelaxedTwice(len: nat, c: nat, k: nat)
    requires k < 2 * len
    ensures (Descending(len) + Ascending(len))[k] == Relax(c) <==> (c < len && (k == len - 1 - c || k == len + c))
  {
    if k < len {
      assert (Descending(len) + Ascending(len))[k] == Relax(len - 1 - k);
    } else {
      assert (Descending(len) + Ascending(len))[k] == Relax(k - len);
    }
  }

  lemma {:induction false} RepeatLength(count: nat, body: seq<Op>)
    ensures |Repeat(count, body)| == count * |body|
  {
    if count > 0 {
      RepeatLength(count - 1, body);
    }
  }

  /** `simulate` performs `particles + 8 * (2 * len)` operations, plus 8 drags while dragging. */
  lemma SimulateLength(particles: nat, len: nat, interacting: bool, psel: Option<nat>)
    ensures |SimulateTrace(particles, len, interacting, psel)|
            == particles + Steps * (2 * len + if Dragging(interacting, psel) then 1 else 0)
  {
    RepeatLength(Steps, Iteration(len, interacting, psel));
  }

  lemma {:induction false} RepeatDrags(count: nat, body: seq<Op>, p: nat)
    requires Drag(p) in Repeat(count, body)
    ensures Drag(p) in body
  {
    if count > 0 && Drag(p) in Repeat(count - 1, body) {
      RepeatDrags(count - 1, body, p);
    }
  }

  /** Every drag step of `simulate` is keyed by the pick, and runs only when `interacting && psel` holds. */
  lemma DragsOnlyPick(particles: nat, len: nat, interacting: bool, psel: Option<nat>, p: nat)
    requires Drag(p) in SimulateTrace(particles, len, interacting, psel)
    ensures Dragging(interacting, psel) && psel == Some(p)
  {
    assert Drag(p) !in Advances(particles);
    var body := Iteration(len, interacting, psel);
    RepeatDrags(Steps, body, p);
    assert Drag(p) !in Descending(len) + Ascending(len);
  }

  /**
   * `updateCloth` (js/index.js:181-193): the pick, then the solver. Copying the
   * positions into the mesh and recomputing its normals are left to three.js.
   */
  method UpdateCloth(picker: Picker, hit: bool, dist: seq<real>, particles: nat, len: nat) returns (trace: seq<Op>)
    modifies picker
    ensures picker.interacting == old(picker.interacting)
    ensures picker.psel == Pick(old(picker.interacting), old(picker.psel), hit, dist)
    ensures trace == SimulateTrace(particles, len, picker.interacting, picker.psel)
  {
    picker.UpdateMouse(hit, dist);
    trace := Simulate(particles, len, picker.interacting, picker.psel);
  }
}
