/**
 * The topology preprocessor of the GPU cloth (build/app.js, `populateConstraints`
 * and `populateColors`): from an indexed triangle list it records per-vertex
 * face pairs, a symmetric adjacency list and one distance constraint per
 * undirected edge, then edge-colours the constraints first-fit into per-vertex
 * colour slots.
 *
 * The module-level arrays `faces`, `colors` and `constraints` of the source are
 * grown in place by these routines; here they are the out-parameters of the
 * methods that build them.
 */
module Topology {

  /** A vertex pair as the source stores it, `[a, b]`. */
  type Pair = (nat, nat)

  /** One triangle of the index buffer, `(a, b, c)`. */
  type Triangle = (nat, nat, nat)

  /** The colour slots of one vertex: slot `k` holds the neighbour it is paired with. */
  type Slots = map<nat, nat>

  // ---------------------------------------------------------------------------
  // Edges

  /** The undirected edge {u, v}, written with the smaller index first. */
  function Key(u: nat, v: nat): (r: Pair)
  {
    if u <= v then (u, v) else (v, u)
  }

  /** The three undirected edges of a triangle. */
  function TriangleEdges(t: Triangle): (r: set<Pair>)
  {
    {Key(t.0, t.1), Key(t.0, t.2), Key(t.1, t.2)}
  }

  /** Every undirected edge of the triangles `tris`. */
  function MeshEdges(tris: seq<Triangle>): (r: set<Pair>)
  {
    if tris == [] then {} else MeshEdges(tris[..|tris| - 1]) + TriangleEdges(tris[|tris| - 1])
  }

  /** The undirected edges that a constraint list stands for. */
  function ConstraintEdges(cons: seq<Pair>): (r: set<Pair>)
  {
    set i | 0 <= i < |cons| :: Key(cons[i].0, cons[i].1)
  }

  ghost predicate TrianglesIn(tris: seq<Triangle>, n: nat)
  {
    forall i :: 0 <= i < |tris| ==> tris[i].0 < n && tris[i].1 < n && tris[i].2 < n
  }

  ghost predicate PairsIn(cons: seq<Pair>, n: nat)
  {
    forall i :: 0 <= i < |cons| ==> cons[i].0 < n && cons[i].1 < n
  }

  /** No undirected edge is represented by two constraints. */
  ghost predicate Distinct(cons: seq<Pair>)
  {
    forall i, j :: 0 <= i < j < |cons| ==> Key(cons[i].0, cons[i].1) != Key(cons[j].0, cons[j].1)
  }

  /** `adj[u]` lists exactly the vertices joined to `u` by an edge of `edges`. */
  ghost predicate AdjacencyIs(adj: seq<seq<nat>>, n: nat, edges: set<Pair>)
  {
    && |adj| == n
    && (forall u, x :: 0 <= u < n && x in adj[u] ==> x < n)
    && (forall u, v :: 0 <= u < n && 0 <= v < n ==> (v in adj[u] <==> Key(u, v) in edges))
  }

  lemma ConstraintEdgesAppend(cons: seq<Pair>, p: Pair)
    ensures ConstraintEdges(cons + [p]) == ConstraintEdges(cons) + {Key(p.0, p.1)}
  {
    var c := cons + [p];
    assert c[|cons|] == p;
    forall e | e in ConstraintEdges(cons) ensures e in ConstraintEdges(c) {
      var i :| 0 <= i < |cons| && e == Key(cons[i].0, cons[i].1);
      assert c[i] == cons[i];
    }
  }

  /** The constraint list after a guarded insertion of `[u, v]`: unchanged when the edge is already listed. */
  function InsertEdge(cons: seq<Pair>, u: nat, v: nat): (r: seq<Pair>)
  {
    if Key(u, v) in ConstraintEdges(cons) then cons else cons + [(u, v)]
  }

  /** The insertions of one triangle `(a, b, c)`, in the source's order: `[a, b]`, `[a, c]`, `[b, c]`. */
  function InsertTriangle(cons: seq<Pair>, t: Triangle): (r: seq<Pair>)
  {
    InsertEdge(InsertEdge(InsertEdge(cons, t.0, t.1), t.0, t.2), t.1, t.2)
  }

  /** The constraint list, in push order, that walking the triangles `tris` produces. */
  function ConstraintList(tris: seq<Triangle>): (r: seq<Pair>)
  {
    if tris == [] then [] else InsertTriangle(ConstraintList(tris[..|tris| - 1]), tris[|tris| - 1])
  }

  lemma InsertEdgeKeeps(cons: seq<Pair>, u: nat, v: nat, n: nat)
    requires Distinct(cons) && PairsIn(cons, n) && u < n && v < n
    ensures ConstraintEdges(InsertEdge(cons, u, v)) == ConstraintEdges(cons) + {Key(u, v)}
    ensures Distinct(InsertEdge(cons, u, v)) && PairsIn(InsertEdge(cons, u, v), n)
  {
    if Key(u, v) !in ConstraintEdges(cons) {
      var c := cons + [(u, v)];
      ConstraintEdgesAppend(cons, (u, v));
      forall i | 0 <= i < |cons| ensures Key(c[i].0, c[i].1) != Key(u, v) {
        assert Key(cons[i].0, cons[i].1) in ConstraintEdges(cons);
      }
    }
  }

  /**
   * The constraint list stands for exactly the mesh's undirected edges, each
   * once, whatever the triangle order or orientation.
   */
  lemma {:induction false} ConstraintListEdges(tris: seq<Triangle>, n: nat)
    requires TrianglesIn(tris, n)
    ensures ConstraintEdges(ConstraintList(tris)) == MeshEdges(tris)
    ensures Distinct(ConstraintList(tris)) && PairsIn(ConstraintList(tris), n)
  {
    if tris != [] {
      var init, t := tris[..|tris| - 1], tris[|tris| - 1];
      assert TrianglesIn(init, n) by {
        forall i | 0 <= i < |init| ensures init[i] == tris[i] { }
      }
      ConstraintListEdges(init, n);
      var c0 := ConstraintList(init);
      InsertEdgeKeeps(c0, t.0, t.1, n);
      var c1 := InsertEdge(c0, t.0, t.1);
      InsertEdgeKeeps(c1, t.0, t.2, n);
      var c2 := InsertEdge(c1, t.0, t.2);
      InsertEdgeKeeps(c2, t.1, t.2, n);
    }
  }

  /**
   * One guarded edge insertion of `populateConstraints` (build/app.js:71-77 and
   * its two copies): when `u` is not yet listed as a neighbour of `v`, each is
   * appended to the other's adjacency and the constraint `[u, v]` is pushed.
   */
  method AddEdge(adj: seq<seq<nat>>, cons: seq<Pair>, u: nat, v: nat, ghost n: nat)
    returns (adj': seq<seq<nat>>, cons': seq<Pair>)
    requires u < n && v < n
    requires AdjacencyIs(adj, n, ConstraintEdges(cons))
    ensures AdjacencyIs(adj', n, ConstraintEdges(cons'))
    ensures ConstraintEdges(cons') == ConstraintEdges(cons) + {Key(u, v)}
    ensures cons' == InsertEdge(cons, u, v)
    ensures Distinct(cons) ==> Distinct(cons')
    ensures PairsIn(cons, n) ==> PairsIn(cons', n)
  {
    if u in adj[v] {
      adj', cons' := adj, cons;
    } else {
      adj' := adj[u := adj[u] + [v]];
      adj' := adj'[v := adj'[v] + [u]];
      cons' := cons + [(u, v)];
      ConstraintEdgesAppend(cons, (u, v));
      if Distinct(cons) {
        forall i | 0 <= i < |cons| ensures Key(cons'[i].0, cons'[i].1) != Key(u, v) {
          assert Key(cons[i].0, cons[i].1) in ConstraintEdges(cons);
        }
      }
    }
  }

  // ---------------------------------------------------------------------------
  // Faces

  /** The face pairs triangle `t` appends to vertex `v`: `[b, c]` at `a`, `[c, a]` at `b`, `[a, b]` at `c`. */
  function FaceContribution(t: Triangle, v: nat): (r: seq<Pair>)
  {
    (if v == t.0 then [(t.1, t.2)] else [])
    + (if v == t.1 then [(t.2, t.0)] else [])
    + (if v == t.2 then [(t.0, t.1)] else [])
  }

  /** The face list of vertex `v` after the triangles `tris`, in push order. */
  function FacesOf(tris: seq<Triangle>, v: nat): (r: seq<Pair>)
  {
    if tris == [] then [] else FacesOf(tris[..|tris| - 1], v) + FaceContribution(tris[|tris| - 1], v)
  }

  /** `(v, f.0, f.1)` is a rotation of triangle `t`, so it keeps `t`'s winding. */
  ghost predicate RotationOf(t: Triangle, v: nat, f: Pair)
  {
    (v, f.0, f.1) == t || (v, f.0, f.1) == (t.1, t.2, t.0) || (v, f.0, f.1) == (t.2, t.0, t.1)
  }

  /**
   * Every face pair recorded at `v` closes a triangle of the mesh with `v` and
   * keeps its winding, which is what the normal kernel's cross product relies on.
   */
  lemma {:induction false} FacesAreRotations(tris: seq<Triangle>, v: nat, p: nat)
    requires p < |FacesOf(tris, v)|
    ensures exists i :: 0 <= i < |tris| && RotationOf(tris[i], v, FacesOf(tris, v)[p])
  {
    var front := tris[..|tris| - 1];
    var t := tris[|tris| - 1];
    if p < |FacesOf(front, v)| {
      FacesAreRotations(front, v, p);
      var i :| 0 <= i < |front| && RotationOf(front[i], v, FacesOf(front, v)[p]);
      assert tris[i] == front[i];
    } else {
      assert RotationOf(t, v, FacesOf(tris, v)[p]);
    }
  }

  /**
   * A triangle with three distinct corners appends exactly one face pair to
   * each corner, `[b, c]`, `[c, a]` and `[a, b]`, and leaves every other
   * vertex's list as it was.
   */
  lemma TriangleAddsOneFacePerCorner(tris: seq<Triangle>, t: Triangle, v: nat)
    requires t.0 != t.1 && t.1 != t.2 && t.0 != t.2
    ensures v == t.0 ==> FacesOf(tris + [t], v) == FacesOf(tris, v) + [(t.1, t.2)]
    ensures v == t.1 ==> FacesOf(tris + [t], v) == FacesOf(tris, v) + [(t.2, t.0)]
    ensures v == t.2 ==> FacesOf(tris + [t], v) == FacesOf(tris, v) + [(t.0, t.1)]
    ensures v != t.0 && v != t.1 && v != t.2 ==> FacesOf(tris + [t], v) == FacesOf(tris, v)
  {
    assert (tris + [t])[..|tris|] == tris;
  }

  // ---------------------------------------------------------------------------
  // populateConstraints

  /** The three face pushes of one triangle (build/app.js:67-69). */
  method PushFaces(faces: seq<seq<Pair>>, t: Triangle) returns (faces': seq<seq<Pair>>)
    requires t.0 < |faces| && t.1 < |faces| && t.2 < |faces|
    ensures |faces'| == |faces|
    ensures forall v :: 0 <= v < |faces| ==> faces'[v] == faces[v] + FaceContribution(t, v)
  {
    var (a, b, c) := t;
    faces' := faces[a := faces[a] + [(b, c)]];
    faces' := faces'[b := faces'[b] + [(c, a)]];
    faces' := faces'[c := faces'[c] + [(a, b)]];
  }

  lemma MeshEdgesSnoc(tris: seq<Triangle>, i: nat)
    requires i < |tris|
    ensures MeshEdges(tris[..i + 1]) == MeshEdges(tris[..i]) + TriangleEdges(tris[i])
    ensures forall v :: FacesOf(tris[..i + 1], v) == FacesOf(tris[..i], v) + FaceContribution(tris[i], v)
  {
    assert tris[..i + 1][..i] == tris[..i];
  }

  /** The three guarded edge insertions of one triangle (build/app.js:71-91). */
  method AddTriangleEdges(adj: seq<seq<nat>>, cons: seq<Pair>, t: Triangle, ghost n: nat)
    returns (adj': seq<seq<nat>>, cons': seq<Pair>)
    requires t.0 < n && t.1 < n && t.2 < n
    requires AdjacencyIs(adj, n, ConstraintEdges(cons))
    requires Distinct(cons) && PairsIn(cons, n)
    ensures AdjacencyIs(adj', n, ConstraintEdges(cons'))
    ensures cons' == InsertTriangle(cons, t)
    ensures ConstraintEdges(cons') == ConstraintEdges(cons) + TriangleEdges(t)
    ensures Distinct(cons') && PairsIn(cons', n)
  {
    var (a, b, c) := t;
    adj', cons' := AddEdge(adj, cons, a, b, n);
    adj', cons' := AddEdge(adj', cons', a, c, n);
    adj', cons' := AddEdge(adj', cons', b, c, n);
  }

  /** Adjacency built from a set of undirected edges is symmetric. */
  lemma AdjacencySymmetric(adj: seq<seq<nat>>, n: nat, edges: set<Pair>)
    requires AdjacencyIs(adj, n, edges)
    ensures forall u, v :: 0 <= u < n && 0 <= v < n ==> (v in adj[u] <==> u in adj[v])
  {
    forall u, v | 0 <= u < n && 0 <= v < n ensures v in adj[u] <==> u in adj[v] {
      assert Key(u, v) == Key(v, u);
    }
  }

  /**
   * `populateConstraints` (build/app.js:54-93): walks the triangles in order,
   * pushes each corner's face pair, and inserts each of the triangle's three
   * edges once.
   */
  method PopulateConstraints(n: nat, tris: seq<Triangle>)
    returns (faces: seq<seq<Pair>>, adjacency: seq<seq<nat>>, constraints: seq<Pair>)
    requires TrianglesIn(tris, n)
    ensures |faces| == n && forall v :: 0 <= v < n ==> faces[v] == FacesOf(tris, v)
    ensures AdjacencyIs(adjacency, n, MeshEdges(tris))
    ensures forall u, v :: 0 <= u < n && 0 <= v < n ==> (v in adjacency[u] <==> u in adjacency[v])
    ensures constraints == ConstraintList(tris)
    ensures ConstraintEdges(constraints) == MeshEdges(tris)
    ensures Distinct(constraints)
    ensures PairsIn(constraints, n)
  {
    faces := seq(n, _ => []);
    adjacency := seq(n, _ => []);
    constraints := [];
    var i := 0;
    while i < |tris|
      invariant 0 <= i <= |tris|
      invariant |faces| == n && forall v :: 0 <= v < n ==> faces[v] == FacesOf(tris[..i], v)
      invariant AdjacencyIs(adjacency, n, ConstraintEdges(constraints))
      invariant constraints == ConstraintList(tris[..i])
      invariant ConstraintEdges(constraints) == MeshEdges(tris[..i])
      invariant Distinct(constraints)
      invariant PairsIn(constraints, n)
    {
      MeshEdgesSnoc(tris, i);
      assert tris[..i + 1][..i] == tris[..i];
      faces := PushFaces(faces, tris[i]);
      adjacency, constraints := AddTriangleEdges(adjacency, constraints, tris[i], n);
      i := i + 1;
    }
    assert tris[..i] == tris;
    AdjacencySymmetric(adjacency, n, ConstraintEdges(constraints));
  }

  // ---------------------------------------------------------------------------
  // populateColors

  /** A bound above every element of `s`. */
  ghost function KeyBound(s: set<nat>): (b: nat)
    ensures forall y :: y in s ==> y < b
  {
    if s == {} then 0
    else
      var x :| x in s;
      var r := KeyBound(s - {x});
      assert forall y :: y in s && y != x ==> y in s - {x};
      if x + 1 > r then x + 1 else r
  }

  /**
   * The inner `while (true)` of `populateColors` (build/app.js:102-113): skip
   * the slots taken at the first endpoint; if the slot reached is taken at the
   * second endpoint, step past it and repeat. The slot found is the smallest
   * one free at both endpoints.
   */
  method FirstFreeSlot(first: Slots, second: Slots) returns (k: nat)
    ensures k !in first && k !in second
    ensures forall j :: 0 <= j < k ==> j in first || j in second
  {
    ghost var bound := KeyBound(first.Keys + second.Keys);
    k := 0;
    while true
      invariant k <= bound
      invariant forall j :: 0 <= j < k ==> j in first || j in second
      decreases bound - k
    {
      while k in first
        invariant k <= bound
        invariant forall j :: 0 <= j < k ==> j in first || j in second
        decreases bound - k
      {
        k := k + 1;
      }
      if k !in second {
        return;
      }
      k := k + 1;
    }
  }

  ghost predicate Incident(c: Pair, v: nat)
  {
    c.0 == v || c.1 == v
  }

  /** The two constraints share an endpoint. */
  ghost predicate Touches(c: Pair, d: Pair)
  {
    Incident(d, c.0) || Incident(d, c.1)
  }

  /** Constraint `c` sits in slot `k` at both of its endpoints, each naming the other. */
  ghost predicate Holds(colors: seq<Slots>, c: Pair, k: nat)
  {
    && c.0 < |colors| && c.1 < |colors|
    && k in colors[c.0] && colors[c.0][k] == c.1
    && k in colors[c.1] && colors[c.1][k] == c.0
  }

  ghost predicate AllHold(colors: seq<Slots>, cons: seq<Pair>, slot: seq<nat>, done: nat)
    requires done <= |cons| && done <= |slot|
  {
    forall i :: 0 <= i < done ==> Holds(colors, cons[i], slot[i])
  }

  /** Slot `k` of `v` names `w` exactly when slot `k` of `w` names `v`. */
  ghost predicate SymmetricSlots(colors: seq<Slots>)
  {
    forall v, k :: 0 <= v < |colors| && k in colors[v] ==>
      colors[v][k] < |colors| && k in colors[colors[v][k]] && colors[colors[v][k]][k] == v
  }

  /** Some of the first `done` constraints has colour `k` and endpoint `v`. */
  ghost predicate UsedAt(cons: seq<Pair>, slot: seq<nat>, done: nat, v: nat, k: nat)
    requires done <= |cons| && done <= |slot|
  {
    exists i :: 0 <= i < done && slot[i] == k && Incident(cons[i], v)
  }

  /** Every filled slot was filled for one of the first `done` constraints, at one of its endpoints. */
  ghost predicate FilledBy(colors: seq<Slots>, cons: seq<Pair>, slot: seq<nat>, done: nat)
    requires done <= |cons| && done <= |slot|
  {
    forall v, k :: 0 <= v < |colors| && k in colors[v] ==> UsedAt(cons, slot, done, v, k)
  }

  /** No two constraints of one colour share a vertex. */
  ghost predicate ProperColoring(cons: seq<Pair>, slot: seq<nat>, done: nat)
    requires done <= |cons| && done <= |slot|
  {
    forall i, j :: 0 <= i < j < done && slot[i] == slot[j] ==> !Touches(cons[i], cons[j])
  }

  /** Colour `k` is taken by a constraint before `i` that touches constraint `i`. */
  ghost predicate BlockedBefore(cons: seq<Pair>, slot: seq<nat>, i: nat, k: nat)
    requires i < |cons| && i <= |slot|
  {
    exists j :: 0 <= j < i && slot[j] == k && Touches(cons[j], cons[i])
  }

  /** Every colour below a constraint's colour is taken by an earlier constraint it touches. */
  ghost predicate FirstFit(cons: seq<Pair>, slot: seq<nat>, done: nat)
    requires done <= |cons| && done <= |slot|
  {
    forall i :: 0 <= i < done ==> forall k :: 0 <= k < slot[i] ==> BlockedBefore(cons, slot, i, k)
  }

  /**
   * `populateColors` (build/app.js:95-116): greedy first-fit edge colouring of
   * the constraints, in order, into per-vertex colour slots. `slot[i]` is the
   * colour given to `constraints[i]` (the source keeps it only in `colors`).
   */
  method PopulateColors(n: nat, cons: seq<Pair>) returns (colors: seq<Slots>, ghost slot: seq<nat>)
    requires PairsIn(cons, n)
    ensures |colors| == n && |slot| == |cons|
    ensures forall i :: 0 <= i < |cons| ==> Holds(colors, cons[i], slot[i])
    ensures SymmetricSlots(colors)
    ensures FilledBy(colors, cons, slot, |cons|)
    ensures ProperColoring(cons, slot, |cons|)
    ensures FirstFit(cons, slot, |cons|)
  {
    colors := seq(n, _ => map[]);
    slot := [];
    var i := 0;
    while i < |cons|
      invariant 0 <= i <= |cons| && |slot| == i && |colors| == n
      invariant AllHold(colors, cons, slot, i)
      invariant SymmetricSlots(colors)
      invariant FilledBy(colors, cons, slot, i)
      invariant ProperColoring(cons, slot, i)
      invariant FirstFit(cons, slot, i)
    {
      var (a, b) := cons[i];
      var k := FirstFreeSlot(colors[a], colors[b]);
      ghost var before := colors;
      colors := Assign(colors, a, b, k);
      AssignExtends(before, a, b, k);
      ColoringStep(before, colors, cons, slot, i, k);
      slot := slot + [k];
      i := i + 1;
    }
  }

  /** `colors[a][k] = b; colors[b][k] = a;` (build/app.js:108-109). */
  function Assign(colors: seq<Slots>, a: nat, b: nat, k: nat): (r: seq<Slots>)
    requires a < |colors| && b < |colors|
  {
    var rowA: Slots := colors[a][k := b];
    var mid := colors[a := rowA];
    var rowB: Slots := mid[b][k := a];
    mid[b := rowB]
  }

  /** `after` is `before` with slot `k` newly filled at `a` (naming `b`) and at `b` (naming `a`). */
  ghost predicate Extends(before: seq<Slots>, after: seq<Slots>, a: nat, b: nat, k: nat)
  {
    && |after| == |before| && a < |before| && b < |before|
    && k !in before[a] && k !in before[b]
    && (forall v :: 0 <= v < |before| ==> after[v].Keys == before[v].Keys + (if v == a || v == b then {k} else {}))
    && (forall v, q :: 0 <= v < |before| && q in before[v] ==> after[v][q] == before[v][q])
    && k in after[a] && after[a][k] == b && k in after[b] && after[b][k] == a
  }

  lemma AssignExtends(before: seq<Slots>, a: nat, b: nat, k: nat)
    requires a < |before| && b < |before| && k !in before[a] && k !in before[b]
    ensures Extends(before, Assign(before, a, b, k), a, b, k)
  {
  }

  /** One assignment of `populateColors` keeps the colouring invariants. */
  lemma ColoringStep(before: seq<Slots>, after: seq<Slots>, cons: seq<Pair>, slot: seq<nat>, i: nat, k: nat)
    requires i < |cons| && |slot| == i
    requires Extends(before, after, cons[i].0, cons[i].1, k)
    requires forall j :: 0 <= j < k ==> j in before[cons[i].0] || j in before[cons[i].1]
    requires AllHold(before, cons, slot, i)
    requires SymmetricSlots(before)
    requires FilledBy(before, cons, slot, i)
    requires ProperColoring(cons, slot, i)
    requires FirstFit(cons, slot, i)
    ensures AllHold(after, cons, slot + [k], i + 1)
    ensures SymmetricSlots(after)
    ensures FilledBy(after, cons, slot + [k], i + 1)
    ensures ProperColoring(cons, slot + [k], i + 1)
    ensures FirstFit(cons, slot + [k], i + 1)
  {
    StepHolds(before, after, cons, slot, i, k);
    StepSymmetric(before, after, cons[i].0, cons[i].1, k);
    StepFilledBy(before, after, cons, slot, i, k);
    StepProper(before, cons, slot, i, k);
    StepFirstFit(before, cons, slot, i, k);
  }

  lemma StepHolds(before: seq<Slots>, after: seq<Slots>, cons: seq<Pair>, slot: seq<nat>, i: nat, k: nat)
    requires i < |cons| && |slot| == i
    requires Extends(before, after, cons[i].0, cons[i].1, k)
    requires AllHold(before, cons, slot, i)
    ensures AllHold(after, cons, slot + [k], i + 1)
  {
    var s := slot + [k];
    forall j | 0 <= j < i + 1 ensures Holds(after, cons[j], s[j]) {
      if j < i {
        assert s[j] == slot[j] && Holds(before, cons[j], slot[j]);
      }
    }
  }

  lemma StepSymmetric(before: seq<Slots>, after: seq<Slots>, a: nat, b: nat, k: nat)
    requires Extends(before, after, a, b, k)
    requires SymmetricSlots(before)
    ensures SymmetricSlots(after)
  {
    forall v, q | 0 <= v < |after| && q in after[v]
      ensures after[v][q] < |after| && q in after[after[v][q]] && after[after[v][q]][q] == v
    {
      if q in before[v] {
        var w := before[v][q];
        assert q in before[w] && before[w][q] == v;
      }
    }
  }

  lemma StepFilledBy(before: seq<Slots>, after: seq<Slots>, cons: seq<Pair>, slot: seq<nat>, i: nat, k: nat)
    requires i < |cons| && |slot| == i
    requires Extends(before, after, cons[i].0, cons[i].1, k)
    requires FilledBy(before, cons, slot, i)
    ensures FilledBy(after, cons, slot + [k], i + 1)
  {
    var s := slot + [k];
    forall v, q | 0 <= v < |after| && q in after[v] ensures UsedAt(cons, s, i + 1, v, q) {
      if q in before[v] {
        assert UsedAt(cons, slot, i, v, q);
        var j :| 0 <= j < i && slot[j] == q && Incident(cons[j], v);
        assert s[j] == q;
      } else {
        assert s[i] == q && Incident(cons[i], v);
      }
    }
  }

  lemma StepProper(before: seq<Slots>, cons: seq<Pair>, slot: seq<nat>, i: nat, k: nat)
    requires i < |cons| && |slot| == i
    requires cons[i].0 < |before| && cons[i].1 < |before|
    requires k !in before[cons[i].0] && k !in before[cons[i].1]
    requires AllHold(before, cons, slot, i)
    requires ProperColoring(cons, slot, i)
    ensures ProperColoring(cons, slot + [k], i + 1)
  {
    var s := slot + [k];
    forall j, m | 0 <= j < m < i + 1 && s[j] == s[m] ensures !Touches(cons[j], cons[m]) {
      if m < i {
        assert s[j] == slot[j] && s[m] == slot[m];
      } else {
        assert Holds(before, cons[j], slot[j]);
      }
    }
  }

  lemma StepFirstFit(before: seq<Slots>, cons: seq<Pair>, slot: seq<nat>, i: nat, k: nat)
    requires i < |cons| && |slot| == i
    requires cons[i].0 < |before| && cons[i].1 < |before|
    requires forall j :: 0 <= j < k ==> j in before[cons[i].0] || j in before[cons[i].1]
    requires FilledBy(before, cons, slot, i)
    requires FirstFit(cons, slot, i)
    ensures FirstFit(cons, slot + [k], i + 1)
  {
    var s := slot + [k];
    forall j | 0 <= j < i + 1 ensures forall q :: 0 <= q < s[j] ==> BlockedBefore(cons, s, j, q) {
      forall q | 0 <= q < s[j] ensures BlockedBefore(cons, s, j, q) {
        if j < i {
          assert BlockedBefore(cons, slot, j, q);
          var m :| 0 <= m < j && slot[m] == q && Touches(cons[m], cons[j]);
          assert s[m] == q;
        } else {
          var v := if q in before[cons[i].0] then cons[i].0 else cons[i].1;
          assert UsedAt(cons, slot, i, v, q);
          var m :| 0 <= m < i && slot[m] == q && Incident(cons[m], v);
          assert s[m] == q && Touches(cons[m], cons[i]);
        }
      }
    }
  }

  /**
   * The converse of `Holds`: a filled slot `k` of vertex `v` was filled for a
   * constraint incident to `v` coloured `k`, and it names that constraint's
   * other endpoint. So the colour slots hold only edges of the constraint list.
   */
  lemma SlotNamesConstraint(colors: seq<Slots>, cons: seq<Pair>, slot: seq<nat>, v: nat, k: nat)
    requires |slot| == |cons|
    requires forall i :: 0 <= i < |cons| ==> Holds(colors, cons[i], slot[i])
    requires FilledBy(colors, cons, slot, |cons|)
    requires v < |colors| && k in colors[v]
    ensures exists c :: 0 <= c < |cons| && slot[c] == k && Incident(cons[c], v)
                        && colors[v][k] == (if cons[c].0 == v then cons[c].1 else cons[c].0)
    ensures Key(v, colors[v][k]) in ConstraintEdges(cons)
  {
    assert UsedAt(cons, slot, |cons|, v, k);
    var c :| 0 <= c < |cons| && slot[c] == k && Incident(cons[c], v);
    HeldSlotNamesPartner(colors, cons[c], v, k);
    assert Key(cons[c].0, cons[c].1) in ConstraintEdges(cons);
  }

  lemma HeldSlotNamesPartner(colors: seq<Slots>, c: Pair, v: nat, k: nat)
    requires Holds(colors, c, k) && Incident(c, v)
    ensures colors[v][k] == (if c.0 == v then c.1 else c.0)
    ensures Key(v, colors[v][k]) == Key(c.0, c.1)
  {
  }

  // ---------------------------------------------------------------------------
  // calculate

  /**
   * `calculate` (build/app.js:28-41) after the geometry is built: empty face
   * lists and colour slots for `n` vertices (`new Array(8).fill()` holds
   * `undefined` in every slot), then `populateConstraints` and `populateColors`.
   */
  method Calculate(n: nat, tris: seq<Triangle>)
    returns (faces: seq<seq<Pair>>, constraints: seq<Pair>, colors: seq<Slots>, ghost slot: seq<nat>)
    requires TrianglesIn(tris, n)
    ensures |faces| == n && forall v :: 0 <= v < n ==> faces[v] == FacesOf(tris, v)
    ensures constraints == ConstraintList(tris)
    ensures ConstraintEdges(constraints) == MeshEdges(tris) && Distinct(constraints)
    ensures |colors| == n && |slot| == |constraints|
    ensures forall i :: 0 <= i < |constraints| ==> Holds(colors, constraints[i], slot[i])
    ensures SymmetricSlots(colors)
    ensures FilledBy(colors, constraints, slot, |constraints|)
    ensures ProperColoring(constraints, slot, |constraints|)
    ensures FirstFit(constraints, slot, |constraints|)
  {
    var adjacency;
    faces, adjacency, constraints := PopulateConstraints(n, tris);
    colors, slot := PopulateColors(n, constraints);
  }
}
