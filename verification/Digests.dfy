/** internal/controller/patch.go: what the hash annotation is computed from. */
module Digests {
  newtype byte = x: int | 0 <= x < 256

  type Raw = seq<byte>

  // An ideal SHA-256: a digest stands for the one message it was computed from.
  datatype Digest = Sha256(message: seq<byte>)

  function HashBytes(raw: Raw): Digest {
    Sha256(raw)
  }

  // Everything hashManifestSet writes into the running digest
  function Frame(manifests: seq<Raw>): seq<byte> {
    if manifests == [] then [] else [0] + manifests[0] + Frame(manifests[1..])
  }

  function ManifestSetHash(manifests: seq<Raw>): Digest {
    Sha256(Frame(manifests))
  }

  method HashManifestSet(manifests: seq<Raw>) returns (hash: Digest)
    ensures hash == ManifestSetHash(manifests)
  {
    var written: seq<byte> := [];
    for i := 0 to |manifests|
      invariant written + Frame(manifests[i..]) == Frame(manifests)
    {
      assert manifests[i..][1..] == manifests[i + 1..];
      written := written + [0];
      written := written + manifests[i];
    }
    return Sha256(written);
  }

  // JSON text holds no NUL: section 7 of RFC 8259 bars it from strings and section 2 from white space.
  predicate NulFree(raw: Raw) {
    0 !in raw
  }

  predicate AllNulFree(manifests: seq<Raw>) {
    forall i :: 0 <= i < |manifests| ==> NulFree(manifests[i])
  }

  lemma NoLonger(a: Raw, b: Raw, p: seq<byte>, q: seq<byte>)
    requires NulFree(b) && |a| <= |b|
    requires p == [] || p[0] == 0
    requires a + p == b + q
    ensures |a| == |b|
  {
    var whole := a + p;
    assert |a| < |whole| ==> whole[|a|] == 0;
    assert forall i :: 0 <= i < |b| ==> whole[i] == (b + q)[i] == b[i] && b[i] != 0;
  }

  // Two NUL-free texts, each followed by the end of input or a NUL, are cut at the same place.
  lemma SameCut(a: Raw, b: Raw, p: seq<byte>, q: seq<byte>)
    requires NulFree(a) && NulFree(b)
    requires p == [] || p[0] == 0
    requires q == [] || q[0] == 0
    requires a + p == b + q
    ensures a == b && p == q
  {
    if |a| <= |b| {
      NoLonger(a, b, p, q);
    } else {
      NoLonger(b, a, q, p);
    }
    assert a == (a + p)[..|a|] == (b + q)[..|b|] == b;
    assert p == (a + p)[|a|..] == (b + q)[|b|..] == q;
  }

  // What goes into the digest, list by list: the parts one after the other, each manifest behind one zero byte.
  lemma {:induction false} FrameParts(a: seq<Raw>, b: seq<Raw>, raw: Raw)
    ensures Frame(a + b) == Frame(a) + Frame(b) && Frame([raw]) == [0] + raw
    ensures ManifestSetHash([raw]) == Sha256([0] + raw)
  {
    if a == [] {
      assert a + b == b;
    } else {
      FrameParts(a[1..], b, raw);
      assert (a + b)[1..] == a[1..] + b;
    }
  }

  // The framing keeps manifests, order and boundaries apart.
  lemma {:induction false} FrameInjective(a: seq<Raw>, b: seq<Raw>)
    requires AllNulFree(a) && AllNulFree(b)
    requires Frame(a) == Frame(b)
    ensures a == b
  {
    if a != [] && b != [] {
      var p, q := Frame(a[1..]), Frame(b[1..]);
      assert a[0] + p == Frame(a)[1..] == b[0] + q;
      SameCut(a[0], b[0], p, q);
      FrameInjective(a[1..], b[1..]);
      assert a == [a[0]] + a[1..] && b == [b[0]] + b[1..];
    }
  }

  lemma SameHashSameManifests(a: seq<Raw>, b: seq<Raw>)
    requires AllNulFree(a) && AllNulFree(b)
    ensures ManifestSetHash(a) == ManifestSetHash(b) <==> a == b
  {
    if ManifestSetHash(a) == ManifestSetHash(b) {
      FrameInjective(a, b);
    }
  }

  // Without the NUL-free condition the boundaries are lost.
  lemma NulBreaksFraming()
    ensures ManifestSetHash([[1, 0, 2]]) == ManifestSetHash([[1], [2]])
  {
    assert [[1 as byte], [2 as byte]][1..] == [[2]];
    assert Frame([[2]]) == [0, 2];
    assert Frame([[1], [2]]) == [0, 1, 0, 2];
    assert Frame([[1, 0, 2]]) == [0, 1, 0, 2];
  }
}
