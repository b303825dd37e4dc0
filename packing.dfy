/**
 * Packing of vertex indices into unsigned-byte RGBA textures, and the shaders'
 * decode of them (build/app.js). Each texel belongs to one vertex and holds two
 * indices, each as a little-endian byte pair: channel 0 in `.xy` (bytes 0 and
 * 1), channel 1 in `.zw` (bytes 2 and 3). A missing colour or face slot is
 * written as the sentinel `length + 1`, which the shaders treat as absent.
 */
module Packing {
  import opened Wrappers
  import opened Topology

  /** One element of a `Uint8Array`. */
  newtype byte = x: int | 0 <= x < 256

  /** The low byte, `idx % 256`. */
  function Lo(idx: nat): (r: byte)
  {
    (idx % 256) as byte
  }

  /** The high byte, `~~(idx / 256)`; storing it in a `Uint8Array` keeps it modulo 256. */
  function Hi(idx: nat): (r: byte)
  {
    ((idx / 256) % 256) as byte
  }

  /**
   * The shader decode `r * 255.0 + g * 255.0 * 256.0` (build/app.js:230, 331,
   * 334), where the sampler hands back each byte divided by 255.
   */
  function Decode(lo: byte, hi: byte): (r: nat)
  {
    lo as nat + hi as nat * 256
  }

  /** Encoding and decoding keep the index modulo 65536: two bytes hold 16 bits. */
  lemma DecodeEncode(idx: nat)
    ensures Decode(Lo(idx), Hi(idx)) == idx % 65536
  {
    var q := idx / 256;
    assert idx == 256 * q + idx % 256;
    assert q == 256 * (q / 256) + q % 256;
    var low := (q % 256) * 256 + idx % 256;
    assert 0 <= low < 65536;
    assert idx == 65536 * (q / 256) + low;
    ModUnique(idx, q / 256, low);
  }

  lemma ModUnique(x: nat, q: nat, r: nat)
    requires r < 65536 && x == 65536 * q + r
    ensures x % 65536 == r
  {
  }

  /** Every index below 65536 survives the byte pair unchanged. */
  lemma RoundTrip(idx: nat)
    requires idx < 65536
    ensures Decode(Lo(idx), Hi(idx)) == idx
  {
    DecodeEncode(idx);
  }

  // ---------------------------------------------------------------------------
  // Texture layout

  /** `Math.ceil(Math.sqrt(n))`, the side of the square texture (build/app.js:430). */
  function Resolution(n: nat): (r: nat)
    ensures r * r >= n
    ensures r > 0 ==> (r - 1) * (r - 1) < n
  {
    CeilSqrtFrom(n, 0)
  }

  function CeilSqrtFrom(n: nat, r: nat): (s: nat)
    requires r == 0 || (r - 1) * (r - 1) < n
    ensures s * s >= n
    ensures s > 0 ==> (s - 1) * (s - 1) < n
    decreases n - r
  {
    if r * r >= n then r
    else
      assert r <= r * r;
      CeilSqrtFrom(n, r + 1)
  }

  /** The byte pair of `channel` (0 or 1) of texel `i`. */
  function Channel(data: seq<byte>, i: nat, channel: nat): (pair: (byte, byte))
    requires channel < 2 && 4 * i + 4 <= |data|
  {
    (data[4 * i + 2 * channel], data[4 * i + 2 * channel + 1])
  }

  /** The value `createConstraintsTexture` stores for colour slot `k`: the neighbour, or `length + 1`. */
  function SlotValue(slots: Slots, k: nat, length: nat): (r: nat)
  {
    if k in slots then slots[k] else length + 1
  }

  /** The value `createFacesTexture` stores for index `j` of face slot `k`: a corner, or `length + 1`. */
  function FaceValue(faces: seq<Pair>, k: nat, j: nat, length: nat): (r: nat)
    requires j < 2
  {
    if k < |faces| then (if j == 0 then faces[k].0 else faces[k].1) else length + 1
  }

  /** Colour slot `k` of a vertex, if filled. */
  function SlotOf(slots: Slots, k: nat): (r: Option<nat>)
  {
    if k in slots then Some(slots[k]) else None
  }

  /** Face slot `k` of a vertex, if filled. */
  function FaceSlot(faces: seq<Pair>, k: nat): (r: Option<Pair>)
  {
    if k < |faces| then Some(faces[k]) else None
  }

  /** Every colour slot names a vertex below `n`. */
  ghost predicate SlotsBelow(colors: seq<Slots>, n: nat)
  {
    forall v, k :: 0 <= v < |colors| && k in colors[v] ==> colors[v][k] < n
  }

  /** Every face pair names vertices below `n`. */
  ghost predicate FacesBelow(faces: seq<seq<Pair>>, n: nat)
  {
    forall v, k :: 0 <= v < |faces| && 0 <= k < |faces[v]| ==> faces[v][k].0 < n && faces[v][k].1 < n
  }

  /** The face lists built from triangles over vertices `0..n-1` name only those vertices. */
  lemma MeshFacesBelow(tris: seq<Triangle>, faces: seq<seq<Pair>>, n: nat)
    requires TrianglesIn(tris, n)
    requires |faces| == n && forall v :: 0 <= v < n ==> faces[v] == FacesOf(tris, v)
    ensures FacesBelow(faces, n)
  {
    forall v, k | 0 <= v < |faces| && 0 <= k < |faces[v]|
      ensures faces[v][k].0 < n && faces[v][k].1 < n
    {
      FacesAreRotations(tris, v, k);
    }
  }

  /** A square texture of side `Resolution(n)`, four bytes per texel, zero past the first `n` texels. */
  ghost predicate TextureShape(data: seq<byte>, n: nat)
  {
    && |data| == Resolution(n) * Resolution(n) * 4
    && (forall p :: 4 * n <= p < |data| ==> data[p] == 0)
  }

  /**
   * The bytes of `createConstraintsTexture(k)` (build/app.js:538-570): texel
   * `i` holds colour slots `k` and `k + 1` of vertex `i` in channels 0 and 1.
   */
  ghost predicate IsConstraintsTexture(data: seq<byte>, colors: seq<Slots>, k: nat)
  {
    && TextureShape(data, |colors|)
    && forall i, j :: 0 <= i < |colors| && 0 <= j < 2 ==>
         Channel(data, i, j) == (Lo(SlotValue(colors[i], k + j, |colors|)), Hi(SlotValue(colors[i], k + j, |colors|)))
  }

  /**
   * The bytes of `createFacesTexture(k)` (build/app.js:572-604): texel `i`
   * holds the two other corners of face slot `k` of vertex `i`.
   */
  ghost predicate IsFacesTexture(data: seq<byte>, faces: seq<seq<Pair>>, k: nat)
  {
    && TextureShape(data, |faces|)
    && forall i, j :: 0 <= i < |faces| && 0 <= j < 2 ==>
         Channel(data, i, j) == (Lo(FaceValue(faces[i], k, j, |faces|)), Hi(FaceValue(faces[i], k, j, |faces|)))
  }

  // ---------------------------------------------------------------------------
  // Shader decode

  /** The index decoded from channel `cID` of texel `i` (build/app.js:225-230, 330-334). */
  function ChannelIndex(data: seq<byte>, i: nat, cID: nat): (r: nat)
    requires cID < 2 && 4 * i + 4 <= |data|
  {
    Decode(Channel(data, i, cID).0, Channel(data, i, cID).1)
  }

  /**
   * The vertex the constraint shader relaxes texel `i` toward, if any: an index
   * above `length` zeroes the correction (build/app.js:241).
   */
  function ConstraintPartner(data: seq<byte>, i: nat, cID: nat, length: nat): (r: Option<nat>)
    requires cID < 2 && 4 * i + 4 <= |data|
  {
    var idx := ChannelIndex(data, i, cID);
    if idx > length then None else Some(idx)
  }

  /**
   * The face the normal shader adds for texel `i`, if any: the contribution is
   * kept only when the second decoded index is at most `length` (build/app.js:339).
   */
  function FaceContributionAt(data: seq<byte>, i: nat, length: nat): (r: Option<Pair>)
    requires 4 * i + 4 <= |data|
  {
    var b := ChannelIndex(data, i, 0);
    var c := ChannelIndex(data, i, 1);
    if c <= length then Some((b, c)) else None
  }

  /**
   * The constraint shader recovers colour slot `k + cID` of vertex `i` from the
   * texture: the neighbour when the slot is filled, nothing when it holds the
   * sentinel.
   */
  lemma ConstraintsTextureDecodes(data: seq<byte>, colors: seq<Slots>, k: nat, i: nat, cID: nat)
    requires IsConstraintsTexture(data, colors, k)
    requires SlotsBelow(colors, |colors|) && |colors| + 1 < 65536
    requires i < |colors| && cID < 2
    ensures 4 * i + 4 <= |data|
    ensures ConstraintPartner(data, i, cID, |colors|) == SlotOf(colors[i], k + cID)
  {
    var n := |colors|;
    var idx := SlotValue(colors[i], k + cID, n);
    RoundTrip(idx);
    assert ChannelIndex(data, i, cID) == idx;
  }

  /**
   * The normal shader recovers face slot `k` of vertex `i`: both corners when
   * the slot is filled, nothing when it holds the sentinel.
   */
  lemma FacesTextureDecodes(data: seq<byte>, faces: seq<seq<Pair>>, k: nat, i: nat)
    requires IsFacesTexture(data, faces, k)
    requires FacesBelow(faces, |faces|) && |faces| + 1 < 65536
    requires i < |faces|
    ensures 4 * i + 4 <= |data|
    ensures FaceContributionAt(data, i, |faces|) == FaceSlot(faces[i], k)
  {
    var n := |faces|;
    RoundTrip(FaceValue(faces[i], k, 0, n));
    RoundTrip(FaceValue(faces[i], k, 1, n));
    assert ChannelIndex(data, i, 0) == FaceValue(faces[i], k, 0, n);
    assert ChannelIndex(data, i, 1) == FaceValue(faces[i], k, 1, n);
  }

  lemma ConstraintsTextureDecodesAll(data: seq<byte>, colors: seq<Slots>, k: nat)
    requires IsConstraintsTexture(data, colors, k)
    requires SlotsBelow(colors, |colors|) && |colors| + 1 < 65536
    ensures forall i, cID :: 0 <= i < |colors| && 0 <= cID < 2 ==>
      4 * i + 4 <= |data| && ConstraintPartner(data, i, cID, |colors|) == SlotOf(colors[i], k + cID)
  {
    forall i, cID | 0 <= i < |colors| && 0 <= cID < 2
      ensures 4 * i + 4 <= |data| && ConstraintPartner(data, i, cID, |colors|) == SlotOf(colors[i], k + cID)
    {
      ConstraintsTextureDecodes(data, colors, k, i, cID);
    }
  }

  lemma FacesTextureDecodesAll(data: seq<byte>, faces: seq<seq<Pair>>, k: nat)
    requires IsFacesTexture(data, faces, k)
    requires FacesBelow(faces, |faces|) && |faces| + 1 < 65536
    ensures forall i :: 0 <= i < |faces| ==>
      4 * i + 4 <= |data| && FaceContributionAt(data, i, |faces|) == FaceSlot(faces[i], k)
  {
    forall i | 0 <= i < |faces|
      ensures 4 * i + 4 <= |data| && FaceContributionAt(data, i, |faces|) == FaceSlot(faces[i], k)
    {
      FacesTextureDecodes(data, faces, k, i);
    }
  }

  // ---------------------------------------------------------------------------
  // Texture creation

  /**
   * The two byte stores of one channel, `data[i4 + j*2] = idx % 256` and
   * `data[i4 + j*2 + 1] = ~~(idx / 256)`, the latter wrapped by the `Uint8Array`.
   */
  method StoreIndex(buffer: array<byte>, i: nat, j: nat, idx: nat)
    requires j < 2 && 4 * i + 4 <= buffer.Length
    modifies buffer
    ensures Channel(buffer[..], i, j) == (Lo(idx), Hi(idx))
    ensures forall p :: 0 <= p < buffer.Length && p != 4 * i + 2 * j && p != 4 * i + 2 * j + 1 ==>
      buffer[p] == old(buffer[p])
    ensures forall i': nat, j' :: 0 <= j' < 2 && 4 * i' + 4 <= buffer.Length && (i' != i || j' != j) ==>
      Channel(buffer[..], i', j') == Channel(old(buffer[..]), i', j')
  {
    buffer[4 * i + j * 2 + 0] := (idx % 256) as byte;
    buffer[4 * i + j * 2 + 1] := ((idx / 256) % 256) as byte;
    forall i': nat, j' | 0 <= j' < 2 && 4 * i' + 4 <= buffer.Length && (i' != i || j' != j)
      ensures Channel(buffer[..], i', j') == Channel(old(buffer[..]), i', j')
    {
      assert 4 * i' + 2 * j' != 4 * i + 2 * j;
    }
  }

  /** `createConstraintsTexture(k)` (build/app.js:538-570). */
  method CreateConstraintsTexture(colors: seq<Slots>, k: nat) returns (data: seq<byte>)
    ensures IsConstraintsTexture(data, colors, k)
    ensures SlotsBelow(colors, |colors|) && |colors| + 1 < 65536 ==>
      forall i, cID :: 0 <= i < |colors| && 0 <= cID < 2 ==>
        4 * i + 4 <= |data| && ConstraintPartner(data, i, cID, |colors|) == SlotOf(colors[i], k + cID)
  {
    var length := |colors|;
    var res := Resolution(length);
    var buffer := new byte[res * res * 4](_ => 0);
    for i := 0 to length
      invariant forall i', j :: 0 <= i' < i && 0 <= j < 2 ==>
        Channel(buffer[..], i', j) == (Lo(SlotValue(colors[i'], k + j, length)), Hi(SlotValue(colors[i'], k + j, length)))
      invariant forall p :: 4 * i <= p < buffer.Length ==> buffer[p] == 0
    {
      for j := 0 to 2
        invariant forall i', j' :: 0 <= i' < i && 0 <= j' < 2 ==>
          Channel(buffer[..], i', j') == (Lo(SlotValue(colors[i'], k + j', length)), Hi(SlotValue(colors[i'], k + j', length)))
        invariant forall j' :: 0 <= j' < j ==>
          Channel(buffer[..], i, j') == (Lo(SlotValue(colors[i], k + j', length)), Hi(SlotValue(colors[i], k + j', length)))
        invariant forall p :: 4 * i + 2 * j <= p < buffer.Length ==> buffer[p] == 0
      {
        var idx := if k + j in colors[i] then colors[i][k + j] else length + 1;
        StoreIndex(buffer, i, j, idx);
      }
    }
    data := buffer[..];
    if SlotsBelow(colors, length) && length + 1 < 65536 {
      ConstraintsTextureDecodesAll(data, colors, k);
    }
  }

  /** `createFacesTexture(k)` (build/app.js:572-604). */
  method CreateFacesTexture(faces: seq<seq<Pair>>, k: nat) returns (data: seq<byte>)
    ensures IsFacesTexture(data, faces, k)
    ensures FacesBelow(faces, |faces|) && |faces| + 1 < 65536 ==>
      forall i :: 0 <= i < |faces| ==>
        4 * i + 4 <= |data| && FaceContributionAt(data, i, |faces|) == FaceSlot(faces[i], k)
  {
    var length := |faces|;
    var res := Resolution(length);
    var buffer := new byte[res * res * 4](_ => 0);
    for i := 0 to length
      invariant forall i', j :: 0 <= i' < i && 0 <= j < 2 ==>
        Channel(buffer[..], i', j) == (Lo(FaceValue(faces[i'], k, j, length)), Hi(FaceValue(faces[i'], k, j, length)))
      invariant forall p :: 4 * i <= p < buffer.Length ==> buffer[p] == 0
    {
      for j := 0 to 2
        invariant forall i', j' :: 0 <= i' < i && 0 <= j' < 2 ==>
          Channel(buffer[..], i', j') == (Lo(FaceValue(faces[i'], k, j', length)), Hi(FaceValue(faces[i'], k, j', length)))
        invariant forall j' :: 0 <= j' < j ==>
          Channel(buffer[..], i, j') == (Lo(FaceValue(faces[i], k, j', length)), Hi(FaceValue(faces[i], k, j', length)))
        invariant forall p :: 4 * i + 2 * j <= p < buffer.Length ==> buffer[p] == 0
      {
        var idx := if k < |faces[i]| then (if j == 0 then faces[i][k].0 else faces[i][k].1) else length + 1;
        StoreIndex(buffer, i, j, idx);
      }
    }
    data := buffer[..];
    if FacesBelow(faces, length) && length + 1 < 65536 {
      FacesTextureDecodesAll(data, faces, k);
    }
  }
}
