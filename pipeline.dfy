/**
 * The GPU solver's frame: which render passes `update` issues, in which order,
 * and how the position and normal render targets are rotated between them
 * (build/app.js:606-704). The float work each shader does is not modelled; a
 * pass is recorded by what it is, which render targets it samples and which one
 * it renders into. Render targets are abstract buffer identities.
 */
module Pipeline {
  import opened Wrappers
  import opened Topology
  import opened Packing
  import opened Picking

  /** A physical render target, by identity. */
  type Buffer = nat

  /** Solver iterations per frame, `steps = 60` (build/app.js:416). */
  const Steps: nat := 60

  /** The four constraint textures carry two colour slots each (build/app.js:456, 694). */
  const ConstraintPasses: nat := 8

  /** One face texture per face slot (build/app.js:457, 702). */
  const NormalPasses: nat := 6

  datatype Kind =
    | Integrate
    | MouseOffset(psel: nat)
    | SolveConstraints(texture: nat, channel: nat)
    | VertexNormals(faceTexture: nat, reset: bool)

  /** A render pass: what it computes, the render targets it samples, the one it renders into. */
  datatype Pass = Pass(kind: Kind, inputs: set<Buffer>, output: Buffer)

  function Kinds(ps: seq<Pass>): (ks: seq<Kind>)
    ensures |ks| == |ps|
  {
    seq(|ps|, k requires 0 <= k < |ps| => ps[k].kind)
  }

  lemma KindsAppend(a: seq<Pass>, b: seq<Pass>)
    ensures Kinds(a + b) == Kinds(a) + Kinds(b)
  {
    assert forall k :: 0 <= k < |a| ==> (a + b)[k] == a[k];
    assert forall k :: |a| <= k < |a| + |b| ==> (a + b)[k] == b[k - |a|];
  }

  /** No pass renders into a target it samples (a WebGL feedback loop). */
  ghost predicate Isolated(ps: seq<Pass>)
  {
    forall k :: 0 <= k < |ps| ==> ps[k].output !in ps[k].inputs
  }

  /** Every pass after the first samples the render target the pass before it wrote. */
  ghost predicate Chained(ps: seq<Pass>)
  {
    forall k :: 0 < k < |ps| ==> ps[k - 1].output in ps[k].inputs
  }

  /** The vertex the mouse pass is keyed by: the pick, when `updating()` is truthy. */
  function DragTarget(interacting: bool, psel: Option<nat>): (r: Option<nat>)
    ensures r.Some? <==> Dragging(interacting, psel)
    ensures r.Some? ==> r == psel && r.value > 0
  {
    if Dragging(interacting, psel) then psel else None
  }

  /** The eight constraint passes of one iteration: `solveConstraints(0..7)`. */
  function ConstraintSweep(): (r: seq<Kind>)
  {
    seq(ConstraintPasses, j requires 0 <= j < ConstraintPasses => SolveConstraints(j / 2, j % 2))
  }

  /** The six normal passes: `computeVertexNormals(0..5)`, the first one resetting. */
  function NormalsSweep(): (r: seq<Kind>)
  {
    seq(NormalPasses, id requires 0 <= id < NormalPasses => VertexNormals(id, id == 0))
  }

  /** Iteration `i` of `steps`: a mouse pass while dragging and `i + 5 < steps`, then the constraint sweep. */
  function Iteration(i: nat, steps: nat, drag: Option<nat>): (r: seq<Kind>)
  {
    (if MouseIn(i, steps, drag) then [MouseOffset(drag.value)] else []) + ConstraintSweep()
  }

  /** The first `count` iterations of `steps`. */
  function Iterations(count: nat, steps: nat, drag: Option<nat>): (r: seq<Kind>)
  {
    if count == 0 then [] else Iterations(count - 1, steps, drag) + Iteration(count - 1, steps, drag)
  }

  /** The whole frame: integrate, `steps` iterations, the normals. */
  function FrameSchedule(steps: nat, drag: Option<nat>): (r: seq<Kind>)
  {
    [Integrate] + Iterations(steps, steps, drag) + NormalsSweep()
  }

  /** Iteration `i` of `steps` issues a mouse pass. */
  predicate MouseIn(i: nat, steps: nat, drag: Option<nat>)
  {
    drag.Some? && i + 5 < steps
  }

  /** The number of iterations that drag: those with `i + 5 < steps`. */
  function MousePasses(count: nat, steps: nat, drag: Option<nat>): (r: nat)
  {
    if drag.None? || steps <= 5 then 0
    else if count <= steps - 5 then count
    else steps - 5
  }

  /** Iteration `i` adds one to the count of mouse passes exactly when it drags. */
  lemma MousePassesStep(i: nat, steps: nat, drag: Option<nat>)
    ensures MousePasses(i + 1, steps, drag) == MousePasses(i, steps, drag) + if MouseIn(i, steps, drag) then 1 else 0
  {
  }

  /** The position and target handles after iteration `i` still follow the parity of the mouse passes so far. */
  lemma RotationStep(i: nat, drag: Option<nat>, p0: Buffer, t0: Buffer, p: Buffer, t: Buffer, p': Buffer, t': Buffer)
    requires MousePasses(i, Steps, drag) % 2 == 0 ==> p == p0 && t == t0
    requires MousePasses(i, Steps, drag) % 2 == 1 ==> p == t0 && t == p0
    requires MouseIn(i, Steps, drag) ==> p' == t && t' == p
    requires !MouseIn(i, Steps, drag) ==> p' == p && t' == t
    ensures MousePasses(i + 1, Steps, drag) % 2 == 0 ==> p' == p0 && t' == t0
    ensures MousePasses(i + 1, Steps, drag) % 2 == 1 ==> p' == t0 && t' == p0
  {
    MousePassesStep(i, Steps, drag);
  }

  lemma {:induction false} IterationsLength(count: nat, steps: nat, drag: Option<nat>)
    ensures |Iterations(count, steps, drag)| == ConstraintPasses * count + MousePasses(count, steps, drag)
  {
    if count > 0 {
      IterationsLength(count - 1, steps, drag);
    }
  }

  /** A frame is 7 + 8 * steps passes, plus one mouse pass per dragging iteration. */
  lemma FrameLength(steps: nat, drag: Option<nat>)
    ensures |FrameSchedule(steps, drag)| == 1 + ConstraintPasses * steps + MousePasses(steps, steps, drag) + NormalPasses
  {
    IterationsLength(steps, steps, drag);
  }

  /** With 60 steps: 487 passes, or 542 while a vertex is dragged. */
  lemma FrameLengthAtSixty(drag: Option<nat>)
    ensures |FrameSchedule(Steps, drag)| == if drag.Some? then 542 else 487
  {
    FrameLength(Steps, drag);
  }

  lemma {:induction false} IterationsMouse(count: nat, steps: nat, drag: Option<nat>, p: nat)
    requires MouseOffset(p) in Iterations(count, steps, drag)
    ensures drag == Some(p)
  {
    if count > 0 {
      if MouseOffset(p) in Iterations(count - 1, steps, drag) {
        IterationsMouse(count - 1, steps, drag, p);
      } else {
        var tail := Iteration(count - 1, steps, drag);
        assert MouseOffset(p) in tail;
        assert MouseOffset(p) !in ConstraintSweep();
      }
    }
  }

  /** Every mouse pass of a frame is keyed by the vertex the picker reports. */
  lemma MouseOnlyForDragTarget(steps: nat, drag: Option<nat>, p: nat)
    requires MouseOffset(p) in FrameSchedule(steps, drag)
    ensures drag == Some(p)
  {
    assert MouseOffset(p) !in NormalsSweep();
    assert MouseOffset(p) != Integrate;
    IterationsMouse(steps, steps, drag, p);
  }

  /**
   * Constraint pass `j` samples texture `j / 2`, channel `j % 2`; texture `t`
   * was packed by `createConstraintsTexture(2 * t)` (build/app.js:464-468). So
   * pass `j` reads, at every vertex, the partner it holds in colour slot `j`.
   */
  lemma ConstraintPassReadsSlot(textures: seq<seq<byte>>, colors: seq<Slots>, j: nat, i: nat)
    requires |textures| == 4
    requires forall t :: 0 <= t < 4 ==> IsConstraintsTexture(textures[t], colors, 2 * t)
    requires SlotsBelow(colors, |colors|) && |colors| + 1 < 65536
    requires j < ConstraintPasses && i < |colors|
    ensures ConstraintSweep()[j].SolveConstraints?
    ensures ConstraintSweep()[j].texture < 4 && ConstraintSweep()[j].channel < 2
    ensures 4 * i + 4 <= |textures[ConstraintSweep()[j].texture]|
    ensures ConstraintPartner(textures[ConstraintSweep()[j].texture], i, ConstraintSweep()[j].channel, |colors|)
            == SlotOf(colors[i], j)
  {
    var t, c := j / 2, j % 2;
    assert ConstraintSweep()[j] == SolveConstraints(t, c);
    assert 2 * t + c == j;
    ConstraintsTextureDecodes(textures[t], colors, 2 * t, i, c);
  }

  /**
   * Constraint pass `j` consumes colour slot `2 * (j / 2) + j % 2 == j`: the
   * sweep consumes slots 0 to 7, one each, in order, and none from 8 on.
   */
  lemma SweepConsumesSlots()
    ensures forall j :: 0 <= j < ConstraintPasses ==>
      ConstraintSweep()[j].SolveConstraints? && 2 * ConstraintSweep()[j].texture + ConstraintSweep()[j].channel == j
  {
    forall j | 0 <= j < ConstraintPasses
      ensures 2 * ConstraintSweep()[j].texture + ConstraintSweep()[j].channel == j
    {
      assert ConstraintSweep()[j] == SolveConstraints(j / 2, j % 2);
    }
  }

  /** Normal pass `id` samples face texture `id`, packed by `createFacesTexture(id)` (build/app.js:470-474). */
  lemma NormalPassReadsFace(textures: seq<seq<byte>>, faces: seq<seq<Pair>>, id: nat, i: nat)
    requires |textures| == 6
    requires forall t :: 0 <= t < 6 ==> IsFacesTexture(textures[t], faces, t)
    requires FacesBelow(faces, |faces|) && |faces| + 1 < 65536
    requires id < NormalPasses && i < |faces|
    ensures NormalsSweep()[id] == VertexNormals(id, id == 0)
    ensures 4 * i + 4 <= |textures[id]|
    ensures FaceContributionAt(textures[id], i, |faces|) == FaceSlot(faces[i], id)
  {
    FacesTextureDecodes(textures[id], faces, id, i);
  }

  /**
   * A constraint in colour slot `k < 8` is relaxed from both ends by constraint
   * pass `k` of every iteration: at vertex `a` the pass reads `b` and at `b` it
   * reads `a`.
   */
  lemma ColouredConstraintRelaxed(textures: seq<seq<byte>>, n: nat, cons: seq<Pair>, colors: seq<Slots>, c: nat, k: nat)
    requires |textures| == 4
    requires |colors| == n && PairsIn(cons, n)
    requires forall t :: 0 <= t < 4 ==> IsConstraintsTexture(textures[t], colors, 2 * t)
    requires SymmetricSlots(colors) && n + 1 < 65536
    requires c < |cons| && Holds(colors, cons[c], k) && k < ConstraintPasses
    ensures var pass := ConstraintSweep()[k];
      && pass.SolveConstraints?
      && 4 * cons[c].0 + 4 <= |textures[pass.texture]|
      && 4 * cons[c].1 + 4 <= |textures[pass.texture]|
      && ConstraintPartner(textures[pass.texture], cons[c].0, pass.channel, n) == Some(cons[c].1)
      && ConstraintPartner(textures[pass.texture], cons[c].1, pass.channel, n) == Some(cons[c].0)
  {
    var (a, b) := cons[c];
    assert a < n && b < n;
    assert SlotsBelow(colors, n);
    ConstraintPassReadsSlot(textures, colors, k, a);
    ConstraintPassReadsSlot(textures, colors, k, b);
  }

  /**
   * The texture preparation of `init` (build/app.js:464-474): four constraint
   * textures packing colour slots 0..7, two per texture, and six face textures.
   */
  method PrepareTextures(colors: seq<Slots>, faces: seq<seq<Pair>>)
    returns (constraints: seq<seq<byte>>, faceTextures: seq<seq<byte>>)
    ensures |constraints| == 4 && |faceTextures| == 6
    ensures forall t :: 0 <= t < 4 ==> IsConstraintsTexture(constraints[t], colors, 2 * t)
    ensures forall t :: 0 <= t < 6 ==> IsFacesTexture(faceTextures[t], faces, t)
  {
    constraints := [];
    for i := 0 to 4
      invariant |constraints| == i
      invariant forall t :: 0 <= t < i ==> IsConstraintsTexture(constraints[t], colors, 2 * t)
    {
      var data := CreateConstraintsTexture(colors, i * 2);
      constraints := constraints + [data];
    }
    faceTextures := [];
    for i := 0 to 6
      invariant |faceTextures| == i
      invariant forall t :: 0 <= t < i ==> IsFacesTexture(faceTextures[t], faces, t)
    {
      var data := CreateFacesTexture(faces, i);
      faceTextures := faceTextures + [data];
    }
  }

  /** The six `createRenderTarget()` calls of build/app.js:449-454 return six different targets. */
  ghost predicate NoneEqual(bs: seq<Buffer>)
  {
    forall i, j :: 0 <= i < j < |bs| ==> bs[i] != bs[j]
  }

  /**
   * The render-target handles of build/app.js:413-414, which the passes rotate,
   * and a ghost log of the passes issued.
   */
  class RenderTargets {
    const originalRT: Buffer
    var previousRT: Buffer
    var positionRT: Buffer
    var targetRT: Buffer
    var normalsRT: Buffer
    var ntargetRT: Buffer
    /** The three position buffers and the two normal buffers, whatever their current roles. */
    ghost const positionBuffers: set<Buffer>
    ghost const normalBuffers: set<Buffer>
    ghost var passes: seq<Pass>

    /** The handles name six distinct buffers, and the rotations only permute them. */
    ghost predicate Valid()
      reads this
    {
      && previousRT != positionRT && positionRT != targetRT && targetRT != previousRT
      && normalsRT != ntargetRT
      && positionBuffers == {previousRT, positionRT, targetRT}
      && normalBuffers == {normalsRT, ntargetRT}
      && originalRT !in positionBuffers && originalRT !in normalBuffers
      && positionBuffers !! normalBuffers
    }

    constructor (original: Buffer, target: Buffer, ntarget: Buffer, previous: Buffer, position: Buffer, normals: Buffer)
      requires NoneEqual([original, target, ntarget, previous, position, normals])
      ensures Valid() && passes == []
      ensures originalRT == original && targetRT == target && ntargetRT == ntarget
      ensures previousRT == previous && positionRT == position && normalsRT == normals
    {
      originalRT, targetRT, ntargetRT := original, target, ntarget;
      previousRT, positionRT, normalsRT := previous, position, normals;
      positionBuffers := {previous, position, target};
      normalBuffers := {normals, ntarget};
      passes := [];
      ghost var bs := [original, target, ntarget, previous, position, normals];
      assert bs[0] == original && bs[1] == target && bs[2] == ntarget;
      assert bs[3] == previous && bs[4] == position && bs[5] == normals;
    }

    /** `integrate` (build/app.js:606-626): render into `targetRT`, then rotate previous, position, target. */
    method Integrate()
      requires Valid()
      modifies this
      ensures Valid()
      ensures passes == old(passes) + [Pass(Kind.Integrate, {originalRT, old(previousRT), old(positionRT)}, old(targetRT))]
      ensures previousRT == old(positionRT) && positionRT == old(targetRT) && targetRT == old(previousRT)
      ensures normalsRT == old(normalsRT) && ntargetRT == old(ntargetRT)
    {
      passes := passes + [Pass(Kind.Integrate, {originalRT, previousRT, positionRT}, targetRT)];
      var tmp := previousRT;
      previousRT := positionRT;
      positionRT := targetRT;
      targetRT := tmp;
    }

    /**
     * `solveConstraints(offset)` (build/app.js:628-648): texture `offset / 2`
     * (`~~` truncates), channel `offset % 2`; then swap position and target.
     * Only four constraint textures exist, so `offset < 8`.
     */
    method SolveConstraints(offset: nat)
      requires Valid() && offset < ConstraintPasses
      modifies this
      ensures Valid()
      ensures passes == old(passes) + [Pass(Kind.SolveConstraints(offset / 2, offset % 2), {originalRT, old(positionRT)}, old(targetRT))]
      ensures positionRT == old(targetRT) && targetRT == old(positionRT) && previousRT == old(previousRT)
      ensures normalsRT == old(normalsRT) && ntargetRT == old(ntargetRT)
    {
      var tID, cID := offset / 2, offset % 2;
      passes := passes + [Pass(Kind.SolveConstraints(tID, cID), {originalRT, positionRT}, targetRT)];
      positionRT, targetRT := targetRT, positionRT;
    }

    /**
     * `mouseOffset` (build/app.js:650-666): the mouse pass keyed by vertex `psel`
     * (the shader moves every vertex within 5 of it), then swap position and target.
     */
    method MouseOffset(psel: nat)
      requires Valid()
      modifies this
      ensures Valid()
      ensures passes == old(passes) + [Pass(Kind.MouseOffset(psel), {originalRT, old(positionRT)}, old(targetRT))]
      ensures positionRT == old(targetRT) && targetRT == old(positionRT) && previousRT == old(previousRT)
      ensures normalsRT == old(normalsRT) && ntargetRT == old(ntargetRT)
    {
      passes := passes + [Pass(Kind.MouseOffset(psel), {originalRT, positionRT}, targetRT)];
      positionRT, targetRT := targetRT, positionRT;
    }

    /**
     * `computeVertexNormals(id)` (build/app.js:668-684): accumulate the faces of
     * face texture `id` into `ntargetRT`, resetting when `id == 0`, then swap the
     * normal targets. Only six face textures exist, so `id < 6`.
     */
    method ComputeVertexNormals(id: nat)
      requires Valid() && id < NormalPasses
      modifies this
      ensures Valid()
      ensures passes == old(passes) + [Pass(VertexNormals(id, id == 0), {old(positionRT), old(normalsRT)}, old(ntargetRT))]
      ensures normalsRT == old(ntargetRT) && ntargetRT == old(normalsRT)
      ensures previousRT == old(previousRT) && positionRT == old(positionRT) && targetRT == old(targetRT)
    {
      passes := passes + [Pass(VertexNormals(id, id == 0), {positionRT, normalsRT}, ntargetRT)];
      normalsRT, ntargetRT := ntargetRT, normalsRT;
    }

    /** The constraint sweep of one iteration of `update` (build/app.js:694-698). */
    method SolveAllConstraints() returns (ghost added: seq<Pass>)
      requires Valid()
      modifies this
      ensures Valid()
      ensures passes == old(passes) + added
      ensures Kinds(added) == ConstraintSweep()
      ensures Segment(added, old(positionRT), positionRT)
      ensures Confined(added, positionBuffers - {previousRT}, originalRT)
      ensures previousRT == old(previousRT) && positionRT == old(positionRT) && targetRT == old(targetRT)
      ensures normalsRT == old(normalsRT) && ntargetRT == old(ntargetRT)
    {
      added := [];
      for j := 0 to ConstraintPasses
        invariant Valid()
        invariant passes == old(passes) + added
        invariant Kinds(added) == ConstraintSweep()[..j]
        invariant Confined(added, positionBuffers - {previousRT}, originalRT)
        invariant j == 0 ==> added == [] && positionRT == old(positionRT)
        invariant j > 0 ==> Segment(added, old(positionRT), positionRT)
        invariant previousRT == old(previousRT)
        invariant j % 2 == 0 ==> positionRT == old(positionRT) && targetRT == old(targetRT)
        invariant j % 2 == 1 ==> positionRT == old(targetRT) && targetRT == old(positionRT)
        invariant normalsRT == old(normalsRT) && ntargetRT == old(ntargetRT)
      {
        ghost var from := positionRT;
        SolveConstraints(j);
        ghost var pass := passes[|passes| - 1];
        assert Segment([pass], from, positionRT);
        if j > 0 {
          SegmentJoin(added, [pass], old(positionRT), from, positionRT);
        }
        ConfinedAppend(added, [pass], positionBuffers - {previousRT}, originalRT);
        AppendAssoc(old(passes), added, [pass]);
        added := added + [pass];
        assert ConstraintSweep()[..j + 1] == ConstraintSweep()[..j] + [Kind.SolveConstraints(j / 2, j % 2)];
      }
      assert ConstraintSweep()[..ConstraintPasses] == ConstraintSweep();
    }

    /** The normal passes at the end of `update` (build/app.js:701-705). */
    method ComputeAllNormals() returns (ghost added: seq<Pass>)
      requires Valid()
      modifies this
      ensures Valid()
      ensures passes == old(passes) + added
      ensures Kinds(added) == NormalsSweep()
      ensures Segment(added, old(positionRT), normalsRT)
      ensures Confined(added, normalBuffers, positionRT)
      ensures previousRT == old(previousRT) && positionRT == old(positionRT) && targetRT == old(targetRT)
      ensures normalsRT == old(normalsRT) && ntargetRT == old(ntargetRT)
    {
      added := [];
      for id := 0 to NormalPasses
        invariant Valid()
        invariant passes == old(passes) + added
        invariant Kinds(added) == NormalsSweep()[..id]
        invariant Confined(added, normalBuffers, positionRT)
        invariant id == 0 ==> added == []
        invariant id > 0 ==> Segment(added, old(positionRT), normalsRT)
        invariant previousRT == old(previousRT) && positionRT == old(positionRT) && targetRT == old(targetRT)
        invariant id % 2 == 0 ==> normalsRT == old(normalsRT) && ntargetRT == old(ntargetRT)
        invariant id % 2 == 1 ==> normalsRT == old(ntargetRT) && ntargetRT == old(normalsRT)
      {
        ghost var from := if id == 0 then positionRT else normalsRT;
        ComputeVertexNormals(id);
        ghost var pass := passes[|passes| - 1];
        assert Segment([pass], from, normalsRT);
        if id > 0 {
          SegmentJoin(added, [pass], old(positionRT), from, normalsRT);
        }
        ConfinedAppend(added, [pass], normalBuffers, positionRT);
        AppendAssoc(old(passes), added, [pass]);
        added := added + [pass];
        assert NormalsSweep()[..id + 1] == NormalsSweep()[..id] + [VertexNormals(id, id == 0)];
      }
      assert NormalsSweep()[..NormalPasses] == NormalsSweep();
    }

    /**
     * One iteration `i` of the solver loop of `update` (build/app.js:692-698):
     * ask the picker, drag while `updating()` is truthy and `i + 5 < steps`,
     * then the constraint sweep.
     */
    method Iterate(picker: Picker, hit: bool, dist: seq<real>, i: nat) returns (ghost added: seq<Pass>)
      requires Valid()
      modifies this, picker
      ensures Valid()
      ensures picker.interacting == old(picker.interacting)
      ensures picker.psel == Pick(old(picker.interacting), old(picker.psel), hit, dist)
      ensures passes == old(passes) + added
      ensures Kinds(added) == Iteration(i, Steps, DragTarget(picker.interacting, picker.psel))
      ensures Segment(added, old(positionRT), positionRT)
      ensures Confined(added, positionBuffers - {previousRT}, originalRT)
      ensures previousRT == old(previousRT)
      ensures MouseIn(i, Steps, DragTarget(picker.interacting, picker.psel)) ==> positionRT == old(targetRT) && targetRT == old(positionRT)
      ensures !MouseIn(i, Steps, DragTarget(picker.interacting, picker.psel)) ==> positionRT == old(positionRT) && targetRT == old(targetRT)
      ensures normalsRT == old(normalsRT) && ntargetRT == old(ntargetRT)
    {
      var dragging := picker.Updating(hit, dist);
      ghost var mouse: seq<Pass> := [];
      if dragging && i + 5 < Steps {
        MouseOffset(picker.psel.value);
        mouse := [passes[|passes| - 1]];
        assert Segment(mouse, old(positionRT), positionRT);
      }
      ghost var from := positionRT;
      ghost var sweep := SolveAllConstraints();
      if mouse != [] {
        SegmentJoin(mouse, sweep, old(positionRT), from, positionRT);
      }
      ConfinedAppend(mouse, sweep, positionBuffers - {previousRT}, originalRT);
      KindsAppend(mouse, sweep);
      AppendAssoc(old(passes), mouse, sweep);
      added := mouse + sweep;
    }

    /** The `steps` iterations of `update` (build/app.js:690-699). */
    method Solve(picker: Picker, hit: bool, dist: seq<real>) returns (ghost added: seq<Pass>)
      requires Valid()
      modifies this, picker
      ensures Valid()
      ensures picker.interacting == old(picker.interacting)
      ensures picker.psel == Pick(old(picker.interacting), old(picker.psel), hit, dist)
      ensures passes == old(passes) + added
      ensures Kinds(added) == Iterations(Steps, Steps, DragTarget(picker.interacting, picker.psel))
      ensures Segment(added, old(positionRT), positionRT)
      ensures Confined(added, positionBuffers - {previousRT}, originalRT)
      ensures previousRT == old(previousRT)
      ensures DragTarget(picker.interacting, picker.psel).Some? ==> positionRT == old(targetRT) && targetRT == old(positionRT)
      ensures DragTarget(picker.interacting, picker.psel).None? ==> positionRT == old(positionRT) && targetRT == old(targetRT)
      ensures normalsRT == old(normalsRT) && ntargetRT == old(ntargetRT)
    {
      ghost var drag := DragTarget(picker.interacting, Pick(picker.interacting, picker.psel, hit, dist));
      added := [];
      for i := 0 to Steps
        invariant Valid()
        invariant picker.interacting == old(picker.interacting)
        invariant i == 0 ==> picker.psel == old(picker.psel)
        invariant i > 0 ==> picker.psel == Pick(old(picker.interacting), old(picker.psel), hit, dist)
        invariant passes == old(passes) + added
        invariant Kinds(added) == Iterations(i, Steps, drag)
        invariant Confined(added, positionBuffers - {previousRT}, originalRT)
        invariant i == 0 ==> added == [] && positionRT == old(positionRT)
        invariant i > 0 ==> Segment(added, old(positionRT), positionRT)
        invariant previousRT == old(previousRT)
        invariant MousePasses(i, Steps, drag) % 2 == 0 ==> positionRT == old(positionRT) && targetRT == old(targetRT)
        invariant MousePasses(i, Steps, drag) % 2 == 1 ==> positionRT == old(targetRT) && targetRT == old(positionRT)
        invariant normalsRT == old(normalsRT) && ntargetRT == old(ntargetRT)
      {
        PickKept(picker.interacting, old(picker.psel), hit, dist);
        ghost var from, to := positionRT, targetRT;
        ghost var step := Iterate(picker, hit, dist, i);
        RotationStep(i, drag, old(positionRT), old(targetRT), from, to, positionRT, targetRT);
        if i > 0 {
          SegmentJoin(added, step, old(positionRT), from, positionRT);
        }
        ConfinedAppend(added, step, positionBuffers - {previousRT}, originalRT);
        assert DragTarget(picker.interacting, picker.psel) == drag;
        KindsAppend(added, step);
        AppendAssoc(old(passes), added, step);
        added := added + step;
      }
      assert MousePasses(Steps, Steps, drag) == if drag.Some? then 55 else 0;
    }

    /**
     * The solver part of `update` (build/app.js:686-699): `integrate`, then the
     * iterations. Every pass samples the rest positions and renders into a
     * position buffer other than the frame's starting one, which ends as
     * `previousRT`.
     */
    method Advance(picker: Picker, hit: bool, dist: seq<real>) returns (ghost added: seq<Pass>, ghost drag: Option<nat>)
      requires Valid()
      modifies this, picker
      ensures Valid()
      ensures picker.interacting == old(picker.interacting)
      ensures picker.psel == Pick(old(picker.interacting), old(picker.psel), hit, dist)
      ensures drag == DragTarget(picker.interacting, picker.psel)
      ensures passes == old(passes) + added
      ensures Kinds(added) == [Kind.Integrate] + Iterations(Steps, Steps, drag)
      ensures Segment(added, old(positionRT), positionRT)
      ensures Confined(added, positionBuffers - {previousRT}, originalRT)
      ensures previousRT == old(positionRT)
      ensures drag.Some? ==> positionRT == old(previousRT) && targetRT == old(targetRT)
      ensures drag.None? ==> positionRT == old(targetRT) && targetRT == old(previousRT)
      ensures normalsRT == old(normalsRT) && ntargetRT == old(ntargetRT)
    {
      Integrate();
      ghost var first := [passes[|passes| - 1]];
      ghost var afterIntegrate := positionRT;
      assert Segment(first, old(positionRT), afterIntegrate);
      assert Confined(first, positionBuffers - {previousRT}, originalRT);
      ghost var iterations := Solve(picker, hit, dist);
      drag := DragTarget(picker.interacting, picker.psel);
      SegmentJoin(first, iterations, old(positionRT), afterIntegrate, positionRT);
      ConfinedAppend(first, iterations, positionBuffers - {previousRT}, originalRT);
      KindsAppend(first, iterations);
      AppendAssoc(old(passes), first, iterations);
      added := first + iterations;
    }

    /**
     * `update` (build/app.js:686-706): one frame. `updating()` runs at every
     * iteration (it is the left operand of `&&`); its pick is made at most once
     * per press, so every mouse pass of the frame is keyed by the same vertex.
     * The first `solved` passes move the positions; the normal passes after
     * them render only into the normal buffers and sample the new positions.
     */
    method Update(picker: Picker, hit: bool, dist: seq<real>)
      returns (ghost frame: seq<Pass>, ghost solved: nat, ghost drag: Option<nat>)
      requires Valid()
      modifies this, picker
      ensures Valid()
      ensures picker.interacting == old(picker.interacting)
      ensures picker.psel == Pick(old(picker.interacting), old(picker.psel), hit, dist)
      ensures drag == DragTarget(picker.interacting, picker.psel)
      ensures passes == old(passes) + frame
      ensures Kinds(frame) == FrameSchedule(Steps, drag)
      ensures Segment(frame, old(positionRT), normalsRT)
      ensures solved + NormalPasses == |frame|
      ensures Confined(frame[..solved], positionBuffers - {previousRT}, originalRT)
      ensures Confined(frame[solved..], normalBuffers, positionRT)
      ensures previousRT == old(positionRT)
      ensures drag.Some? ==> positionRT == old(previousRT) && targetRT == old(targetRT)
      ensures drag.None? ==> positionRT == old(targetRT) && targetRT == old(previousRT)
      ensures normalsRT == old(normalsRT) && ntargetRT == old(ntargetRT)
    {
      ghost var solver;
      solver, drag := Advance(picker, hit, dist);
      ghost var afterSolve := positionRT;
      assert allocated(picker);
      label solved:
      ghost var normals := ComputeAllNormals();
      assert unchanged@solved(picker);
      FrameJoin(solver, normals, old(positionRT), afterSolve, normalsRT, drag);
      AppendAssoc(old(passes), solver, normals);
      frame := solver + normals;
      solved := |solver|;
    }
  }

  lemma AppendAssoc(log: seq<Pass>, a: seq<Pass>, b: seq<Pass>)
    ensures log + a + b == log + (a + b)
  {
  }

  /** The solver part and the normal part of `update` make one frame of the schedule. */
  lemma FrameJoin(solver: seq<Pass>, normals: seq<Pass>, x: Buffer, y: Buffer, w: Buffer, drag: Option<nat>)
    requires Segment(solver, x, y) && Segment(normals, y, w)
    requires Kinds(solver) == [Kind.Integrate] + Iterations(Steps, Steps, drag)
    requires Kinds(normals) == NormalsSweep()
    ensures Segment(solver + normals, x, w)
    ensures Kinds(solver + normals) == FrameSchedule(Steps, drag)
    ensures (solver + normals)[..|solver|] == solver && (solver + normals)[|solver|..] == normals
  {
    SegmentJoin(solver, normals, x, y, w);
    KindsAppend(solver, normals);
  }

  /** A run of passes that starts by sampling `from`, ends by writing `to`, and is isolated and chained. */
  ghost predicate Segment(ps: seq<Pass>, from: Buffer, to: Buffer)
  {
    && |ps| > 0
    && from in ps[0].inputs
    && ps[|ps| - 1].output == to
    && Isolated(ps)
    && Chained(ps)
  }

  lemma SegmentJoin(a: seq<Pass>, b: seq<Pass>, x: Buffer, y: Buffer, z: Buffer)
    requires Segment(a, x, y) && Segment(b, y, z)
    ensures Segment(a + b, x, z)
  {
    var ab := a + b;
    forall k | 0 < k < |ab|
      ensures ab[k - 1].output in ab[k].inputs
    {
      if k == |a| {
      } else if k < |a| {
        assert ab[k - 1] == a[k - 1] && ab[k] == a[k];
      } else {
        assert ab[k - 1] == b[k - 1 - |a|] && ab[k] == b[k - |a|];
      }
    }
  }

  /** Every pass renders into one of `writes` and samples `sampled`. */
  ghost predicate Confined(ps: seq<Pass>, writes: set<Buffer>, sampled: Buffer)
  {
    forall k :: 0 <= k < |ps| ==> ps[k].output in writes && sampled in ps[k].inputs
  }

  lemma ConfinedAppend(a: seq<Pass>, b: seq<Pass>, writes: set<Buffer>, sampled: Buffer)
    requires Confined(a, writes, sampled) && Confined(b, writes, sampled)
    ensures Confined(a + b, writes, sampled)
  {
    forall k | 0 <= k < |a + b|
      ensures (a + b)[k].output in writes && sampled in (a + b)[k].inputs
    {
      if k < |a| {
        assert (a + b)[k] == a[k];
      } else {
        assert (a + b)[k] == b[k - |a|];
      }
    }
  }

  /**
   * No pass of a frame renders into the rest positions `originalRT`, nor into
   * the frame's starting positions, which end as `previousRT` and are sampled by
   * the next `integrate`.
   */
  lemma FrameSpares(frame: seq<Pass>, solved: nat, positions: set<Buffer>, normalBuffers: set<Buffer>,
                    original: Buffer, position: Buffer, kept: Buffer)
    requires solved <= |frame|
    requires Confined(frame[..solved], positions, original) && Confined(frame[solved..], normalBuffers, position)
    requires original !in positions && original !in normalBuffers
    requires kept !in positions && kept !in normalBuffers
    ensures forall k :: 0 <= k < |frame| ==> frame[k].output != original && frame[k].output != kept
  {
    forall k | 0 <= k < |frame|
      ensures frame[k].output != original && frame[k].output != kept
    {
      if k < solved {
        assert frame[..solved][k] == frame[k];
      } else {
        assert frame[solved..][k - solved] == frame[k];
      }
    }
  }
}
