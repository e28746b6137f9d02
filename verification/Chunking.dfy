/** Slicing a mix into overlapping windows and joining stems with linear crossfades
    (core/audio_chunking.py), over exact samples of one channel. */
module Chunking {
  import opened Text

  // ---- crossfades ------------------------------------------------------------

  /** `np.linspace(1.0, 0.0, n)[i]` */
  function FadeOut(n: nat, i: nat): (w: real)
    requires i < n
    ensures 0.0 <= w <= 1.0
  {
    if n == 1 then 1.0
    else
      assert 0.0 <= i as real / (n - 1) as real <= 1.0 by { Ratio(i, n - 1); }
      1.0 - i as real / (n - 1) as real
  }

  lemma Ratio(i: nat, n: nat)
    requires 0 < n && i <= n
    ensures 0.0 <= i as real / n as real <= 1.0
  {
    if i as real / n as real > 1.0 {
      assert (i as real / n as real) * n as real > n as real;
    }
  }

  function Blend(w: real, a: real, b: real): real {
    w * a + (1.0 - w) * b
  }

  /** Sample `i` of an overlap of `n`: the left side falls from all to nothing in equal steps while
      the right side rises; a single shared sample is the left one. */
  ghost predicate Crossfades(n: nat, i: nat, a: real, b: real, r: real) {
    if n == 1 then r == a
    else (n - 1) as real * r == (n - 1 - i) as real * a + i as real * b
  }

  lemma BlendCrossfades(n: nat, i: nat, a: real, b: real)
    requires i < n
    ensures Crossfades(n, i, a, b, Blend(FadeOut(n, i), a, b))
  {
    if n > 1 {
      var m, x := (n - 1) as real, i as real;
      FadeOutScaled(n, i);
      Expand(m, FadeOut(n, i), a, b);
    }
  }

  lemma FadeOutScaled(n: nat, i: nat)
    requires i < n && n > 1
    ensures (n - 1) as real * FadeOut(n, i) == (n - 1 - i) as real
  {
    var m, x := (n - 1) as real, i as real;
    assert m * (x / m) == x;
    assert m * (1.0 - x / m) == m - m * (x / m);
  }

  lemma Expand(m: real, w: real, a: real, b: real)
    ensures m * (w * a + (1.0 - w) * b) == (m * w) * a + (m - m * w) * b
  {
    assert m * (w * a) == (m * w) * a;
    assert m * ((1.0 - w) * b) == (m * (1.0 - w)) * b;
    assert m * (1.0 - w) == m - m * w;
  }

  /** A crossfade starts with the left part's sample and, unless it is one sample long, ends with
      the right part's. */
  lemma CrossfadeEnds(n: nat, i: nat, a: real, b: real, r: real)
    requires i < n && Crossfades(n, i, a, b, r)
    ensures i == 0 ==> r == a
    ensures i == n - 1 && n > 1 ==> r == b
  {
    if n > 1 && i == 0 {
      Cancel((n - 1) as real, r, a);
    }
    if n > 1 && i == n - 1 {
      Cancel((n - 1) as real, r, b);
    }
  }

  lemma Cancel(m: real, x: real, y: real)
    requires m > 0.0 && m * x == m * y
    ensures x == y
  {
    assert m * (x - y) == 0.0;
  }

  /** The overlap a join really uses. */
  function Effective(overlap: int, joined: nat, length: nat): (eff: nat)
    ensures eff <= joined && eff <= length
    ensures overlap <= 0 ==> eff == 0
    ensures overlap > 0 ==> eff <= overlap && (eff == overlap || eff == joined || eff == length)
  {
    if overlap <= 0 then 0
    else if overlap <= joined && overlap <= length then overlap
    else if joined <= length then joined else length
  }

  /** One pairwise join. */
  function Join(a: seq<real>, b: seq<real>, overlap: int): (r: seq<real>)
    ensures |r| == |a| + |b| - Effective(overlap, |a|, |b|)
  {
    var eff := Effective(overlap, |a|, |b|);
    var from := |a| - eff;
    seq(|a| + |b| - eff, k requires 0 <= k < |a| + |b| - eff =>
      if k < from then a[k]
      else if k < |a| then Blend(FadeOut(eff, k - from), a[k], b[k - from])
      else b[k - from])
  }

  /** Join the parts from left to right. */
  function Joined(parts: seq<seq<real>>, overlaps: seq<int>): (r: seq<real>)
    requires |parts| == |overlaps| + 1
  {
    var n := |overlaps|;
    if n == 0 then parts[0] else Join(Joined(parts[..n], overlaps[..n - 1]), parts[n], overlaps[n - 1])
  }

  datatype Overlap = Same(samples: int) | PerJoin(each: seq<int>)

  datatype Result<T> = Ok(value: T) | Err(message: string)

  /** `_FADE_BLOCK` */
  const FadeBlock: nat := 65536

  /** Crossfade the start of `part` into the end of what is written so far, block by block. */
  method FadeInto(out: array<real>, pos: nat, part: seq<real>, ov: nat, block: nat)
    requires ov <= pos <= out.Length && ov <= |part| && block >= 1
    modifies out
    ensures forall k :: pos - ov <= k < pos ==>
      out[k] == Blend(FadeOut(ov, k - (pos - ov)), old(out[k]), part[k - (pos - ov)])
    ensures forall k :: 0 <= k < out.Length && !(pos - ov <= k < pos) ==> out[k] == old(out[k])
    ensures forall k :: pos - ov <= k < pos ==>
      Crossfades(ov, k - (pos - ov), old(out[k]), part[k - (pos - ov)], out[k])
  {
    hide FadeOut, Blend, Crossfades;
    var from := pos - ov;
    var start := 0;
    while start < ov
      invariant 0 <= start
      invariant forall k :: from <= k < from + start && k < pos ==>
        out[k] == Blend(FadeOut(ov, k - from), old(out[k]), part[k - from])
      invariant forall k :: 0 <= k < out.Length && !(from <= k < from + start && k < pos) ==> out[k] == old(out[k])
      decreases ov - start
    {
      var end := if ov <= start + block then ov else start + block;
      for i := start to end
        invariant forall k :: from <= k < from + i ==>
          out[k] == Blend(FadeOut(ov, k - from), old(out[k]), part[k - from])
        invariant forall k :: 0 <= k < out.Length && !(from <= k < from + i) ==> out[k] == old(out[k])
      {
        out[from + i] := Blend(FadeOut(ov, i), out[from + i], part[i]);
      }
      start := start + block;
    }
    forall k | from <= k < pos ensures Crossfades(ov, k - from, old(out[k]), part[k - from], out[k]) {
      BlendCrossfades(ov, k - from, old(out[k]), part[k - from]);
    }
  }

  /** Append one part: crossfade its start, copy the rest. */
  method AppendPart(out: array<real>, pos: nat, part: seq<real>, ov: nat, block: nat) returns (pos': nat)
    requires ov <= pos && ov <= |part| && pos + |part| - ov <= out.Length && block >= 1
    modifies out
    ensures pos' == pos + |part| - ov
    ensures Effective(ov, pos, |part|) == ov && out[..pos'] == Join(old(out[..pos]), part, ov)
  {
    hide FadeOut, Blend;
    FadeInto(out, pos, part, ov, block);
    ghost var faded := out[..];
    var tail := |part| - ov;
    for i := 0 to tail
      invariant forall k :: 0 <= k < pos ==> out[k] == faded[k]
      invariant forall k :: pos <= k < pos + i ==> out[k] == part[k - pos + ov]
    {
      out[pos + i] := part[ov + i];
    }
    pos' := pos + tail;
  }

  /** The lengths pass: the effective overlap of every join and the length of the result. */
  method Lengths(parts: seq<seq<real>>, overlaps: seq<int>) returns (effective: seq<nat>, joined: nat)
    requires |parts| == |overlaps| + 1
    ensures |effective| == |overlaps| && joined == |Joined(parts, overlaps)|
    ensures forall k :: 0 <= k < |overlaps| ==>
      effective[k] == Effective(overlaps[k], |Joined(parts[..k + 1], overlaps[..k])|, |parts[k + 1]|)
    ensures forall k :: 0 <= k <= |overlaps| ==> |Joined(parts[..k + 1], overlaps[..k])| <= joined
  {
    hide Join, Joined, Effective;
    effective, joined := [], |parts[0]|;
    JoinedStarts(parts, overlaps);
    for k := 0 to |overlaps|
      invariant |effective| == k && joined == |Joined(parts[..k + 1], overlaps[..k])|
      invariant forall j :: 0 <= j < k ==>
        effective[j] == Effective(overlaps[j], |Joined(parts[..j + 1], overlaps[..j])|, |parts[j + 1]|)
      invariant forall j :: 0 <= j <= k ==> |Joined(parts[..j + 1], overlaps[..j])| <= joined
    {
      JoinedStep(parts, overlaps, k);
      var eff := Effective(overlaps[k], joined, |parts[k + 1]|);
      effective, joined := effective + [eff], joined + |parts[k + 1]| - eff;
    }
    assert parts[..|overlaps| + 1] == parts && overlaps[..|overlaps|] == overlaps;
  }

  lemma JoinedStep(parts: seq<seq<real>>, overlaps: seq<int>, k: nat)
    requires |parts| == |overlaps| + 1 && k < |overlaps|
    ensures Joined(parts[..k + 2], overlaps[..k + 1])
         == Join(Joined(parts[..k + 1], overlaps[..k]), parts[k + 1], overlaps[k])
  {
    assert parts[..k + 2][..k + 1] == parts[..k + 1] && overlaps[..k + 1][..k] == overlaps[..k];
  }

  lemma JoinedStarts(parts: seq<seq<real>>, overlaps: seq<int>)
    requires |parts| == |overlaps| + 1
    ensures Joined(parts[..1], overlaps[..0]) == parts[0]
  {
  }

  lemma JoinEffective(a: seq<real>, b: seq<real>, overlap: int)
    ensures Join(a, b, Effective(overlap, |a|, |b|)) == Join(a, b, overlap)
  {
  }

  /** `r` is `a` followed by `b` with a crossfade over their shared samples: as many as asked for,
      or all of the shorter side. */
  ghost predicate IsJoin(r: seq<real>, a: seq<real>, b: seq<real>, overlap: int) {
    var n, asked := |a| + |b| - |r|, if overlap > 0 then overlap else 0;
    && 0 <= n <= |a| && n <= |b| && n <= asked && (n == asked || n == |a| || n == |b|)
    && r[..|a| - n] == a[..|a| - n] && r[|a|..] == b[n..]
    && (forall i :: 0 <= i < n ==> Crossfades(n, i, a[|a| - n..][i], b[i], r[|a| - n..][i]))
  }

  lemma JoinIsJoin(a: seq<real>, b: seq<real>, overlap: int)
    ensures IsJoin(Join(a, b, overlap), a, b, overlap)
  {
    hide FadeOut, Blend, Crossfades;
    var n, r := Effective(overlap, |a|, |b|), Join(a, b, overlap);
    forall i | 0 <= i < n ensures Crossfades(n, i, a[|a| - n..][i], b[i], r[|a| - n..][i]) {
      BlendCrossfades(n, i, a[|a| - n + i], b[i]);
    }
  }

  /** `steps[k]` joins the first `k + 1` parts. */
  ghost predicate JoinsInSteps(steps: seq<seq<real>>, parts: seq<seq<real>>, overlap: Overlap) {
    && |steps| == |parts| && parts != [] && steps[0] == parts[0]
    && (|parts| > 1 && overlap.PerJoin? ==> |overlap.each| == |parts| - 1)
    && (forall k :: 0 < k < |parts| ==>
          IsJoin(steps[k], steps[k - 1], parts[k], if overlap.Same? then overlap.samples else overlap.each[k - 1]))
  }

  ghost predicate IsConcat(r: seq<real>, parts: seq<seq<real>>, overlap: Overlap) {
    exists steps :: JoinsInSteps(steps, parts, overlap) && r == steps[|parts| - 1]
  }

  lemma JoinedIsConcat(parts: seq<seq<real>>, overlap: Overlap)
    requires parts != [] && |PerJoinOverlaps(overlap, |parts| - 1)| == |parts| - 1
    ensures IsConcat(Joined(parts, PerJoinOverlaps(overlap, |parts| - 1)), parts, overlap)
  {
    hide Join, Joined, IsJoin;
    var overlaps := PerJoinOverlaps(overlap, |parts| - 1);
    var steps := seq(|parts|, k requires 0 <= k < |parts| => Joined(parts[..k + 1], overlaps[..k]));
    JoinedStarts(parts, overlaps);
    forall k | 0 < k < |parts| ensures IsJoin(steps[k], steps[k - 1], parts[k], overlaps[k - 1]) {
      JoinedStep(parts, overlaps, k - 1);
      JoinIsJoin(steps[k - 1], parts[k], overlaps[k - 1]);
    }
    assert parts[..|parts|] == parts && overlaps[..|overlaps|] == overlaps;
    assert JoinsInSteps(steps, parts, overlap);
  }

  lemma OneIsConcat(parts: seq<seq<real>>, overlap: Overlap)
    requires |parts| == 1
    ensures IsConcat(parts[0], parts, overlap)
  {
    assert JoinsInSteps([parts[0]], parts, overlap);
  }

  function PerJoinOverlaps(overlap: Overlap, joins: nat): seq<int> {
    match overlap
    case Same(n) => seq(joins, k => n)
    case PerJoin(s) => s
  }

  /** `concat_stems`: one output, filled in place. The result is the pairwise join. */
  method Concat(parts: seq<seq<real>>, overlap: Overlap, block: nat) returns (r: Result<seq<real>>)
    requires block >= 1
    ensures r.Err? <==> parts == [] || (|parts| > 1 && overlap.PerJoin? && |overlap.each| != |parts| - 1)
    ensures r.Ok? ==> |parts| == 1 || |PerJoinOverlaps(overlap, |parts| - 1)| == |parts| - 1
    ensures r.Ok? ==> r.value == if |parts| == 1 then parts[0] else Joined(parts, PerJoinOverlaps(overlap, |parts| - 1))
    ensures r.Ok? ==> IsConcat(r.value, parts, overlap)
  {
    hide Join, Joined, IsConcat;
    if parts == [] {
      return Err("concat_stems requires at least one part");
    }
    if |parts| == 1 {
      OneIsConcat(parts, overlap);
      return Ok(parts[0]);
    }
    var overlaps := PerJoinOverlaps(overlap, |parts| - 1);
    if |overlaps| != |parts| - 1 {
      return Err("overlap_samples sequence must have len(parts) - 1 entries");
    }
    var value := Fill(parts, overlaps, block);
    JoinedIsConcat(parts, overlap);
    r := Ok(value);
  }

  method Fill(parts: seq<seq<real>>, overlaps: seq<int>, block: nat) returns (value: seq<real>)
    requires |parts| == |overlaps| + 1 && block >= 1
    ensures value == Joined(parts, overlaps)
  {
    hide Join, Joined, Effective;
    var effective, joined := Lengths(parts, overlaps);
    var out := new real[joined];
    var pos := |parts[0]|;
    JoinedStarts(parts, overlaps);
    for i := 0 to pos
      invariant forall k :: 0 <= k < i ==> out[k] == parts[0][k]
    {
      out[i] := parts[0][i];
    }
    assert out[..pos] == parts[0];
    for k := 0 to |overlaps|
      invariant pos == |Joined(parts[..k + 1], overlaps[..k])| && pos <= out.Length
      invariant out[..pos] == Joined(parts[..k + 1], overlaps[..k])
    {
      JoinedStep(parts, overlaps, k);
      JoinEffective(out[..pos], parts[k + 1], overlaps[k]);
      pos := AppendPart(out, pos, parts[k + 1], effective[k], block);
    }
    assert parts[..|overlaps| + 1] == parts && overlaps[..|overlaps|] == overlaps;
    value := out[..pos];
  }

  // ---- what a join computes --------------------------------------------------

  function TotalLength(parts: seq<seq<real>>): nat {
    if parts == [] then 0 else TotalLength(parts[..|parts| - 1]) + |parts[|parts| - 1]|
  }

  function TotalOverlap(parts: seq<seq<real>>, overlaps: seq<int>): nat
    requires |parts| == |overlaps| + 1
  {
    var n := |overlaps|;
    if n == 0 then 0
    else
      TotalOverlap(parts[..n], overlaps[..n - 1])
      + Effective(overlaps[n - 1], |Joined(parts[..n], overlaps[..n - 1])|, |parts[n]|)
  }

  lemma {:induction false} JoinedLength(parts: seq<seq<real>>, overlaps: seq<int>)
    requires |parts| == |overlaps| + 1
    ensures |Joined(parts, overlaps)| == TotalLength(parts) - TotalOverlap(parts, overlaps)
  {
    var n := |overlaps|;
    if n == 0 {
      assert parts[..0] == [] && TotalLength(parts[..0]) == 0;
    } else {
      JoinedLength(parts[..n], overlaps[..n - 1]);
    }
  }

  /** Where part `k` starts in the result. */
  function Offset(parts: seq<seq<real>>, overlaps: seq<int>, k: nat): (r: nat)
    requires |parts| == |overlaps| + 1 && k < |parts|
  {
    |Joined(parts[..k + 1], overlaps[..k])| - |parts[k]|
  }

  function Times(c: real, x: real): real {
    c * x
  }

  function At(part: seq<real>, index: int): real {
    if 0 <= index < |part| then part[index] else 0.0
  }

  function Sum(weights: seq<real>): real {
    if weights == [] then 0.0 else Sum(weights[..|weights| - 1]) + weights[|weights| - 1]
  }

  function Scaled(c: real, weights: seq<real>): (r: seq<real>)
    ensures |r| == |weights| && forall k :: 0 <= k < |r| ==> r[k] == c * weights[k]
  {
    seq(|weights|, k requires 0 <= k < |weights| => c * weights[k])
  }

  lemma ScaledPrefix(c: real, weights: seq<real>)
    requires weights != []
    ensures var n := |weights| - 1;
            Scaled(c, weights)[..n] == Scaled(c, weights[..n]) && Scaled(c, weights)[n] == c * weights[n]
  {
    var n := |weights| - 1;
    forall k | 0 <= k < n ensures Scaled(c, weights)[..n][k] == Scaled(c, weights[..n])[k] {
      assert weights[..n][k] == weights[k];
    }
  }

  lemma {:induction false} SumScaled(c: real, weights: seq<real>)
    ensures Sum(Scaled(c, weights)) == c * Sum(weights)
  {
    if weights != [] {
      var n := |weights| - 1;
      ScaledPrefix(c, weights);
      SumScaled(c, weights[..n]);
    }
  }

  /** The weighted sum of what the parts hold at position `j` of the result. */
  function Mixture(parts: seq<seq<real>>, overlaps: seq<int>, weights: seq<real>, j: nat): real
    requires |parts| == |overlaps| + 1 == |weights|
  {
    var n := |overlaps|;
    if n == 0 then weights[0] * At(parts[0], j)
    else Mixture(parts[..n], overlaps[..n - 1], weights[..n], j)
         + weights[n] * At(parts[n], j - Offset(parts, overlaps, n))
  }

  lemma Distribute(c: real, w: real, x: real)
    ensures (c * w) * x == c * (w * x)
  {
  }

  lemma {:induction false} MixtureScaled(parts: seq<seq<real>>, overlaps: seq<int>, c: real, weights: seq<real>, j: nat)
    requires |parts| == |overlaps| + 1 == |weights|
    ensures Mixture(parts, overlaps, Scaled(c, weights), j) == c * Mixture(parts, overlaps, weights, j)
  {
    hide At, Offset, Scaled;
    var n := |overlaps|;
    if n == 0 {
      Distribute(c, weights[0], At(parts[0], j));
      assert Scaled(c, weights)[0] == c * weights[0];
    } else {
      ScaledPrefix(c, weights);
      MixtureScaled(parts[..n], overlaps[..n - 1], c, weights[..n], j);
      Distribute(c, weights[n], At(parts[n], j - Offset(parts, overlaps, n)));
    }
  }

  /** `weights` are the shares of a convex combination of the parts that cover position `j`. */
  ghost predicate Shares(parts: seq<seq<real>>, overlaps: seq<int>, weights: seq<real>, j: nat)
    requires |parts| == |overlaps| + 1
  {
    && |weights| == |parts|
    && (forall k :: 0 <= k < |weights| ==> weights[k] >= 0.0)
    && Sum(weights) == 1.0
    && (forall k :: 0 <= k < |parts| && weights[k] != 0.0 ==>
          Offset(parts, overlaps, k) <= j < Offset(parts, overlaps, k) + |parts[k]|)
  }

  lemma OffsetOfPrefix(parts: seq<seq<real>>, overlaps: seq<int>, k: nat)
    requires |parts| == |overlaps| + 1 >= 2 && k < |overlaps|
    ensures Offset(parts[..|overlaps|], overlaps[..|overlaps| - 1], k) == Offset(parts, overlaps, k)
  {
    var n := |overlaps|;
    assert parts[..n][..k + 1] == parts[..k + 1] && overlaps[..n - 1][..k] == overlaps[..k];
  }

  ghost predicate Covers(parts: seq<seq<real>>, overlaps: seq<int>, k: nat, j: nat)
    requires |parts| == |overlaps| + 1 && k < |parts|
  {
    Offset(parts, overlaps, k) <= j < Offset(parts, overlaps, k) + |parts[k]|
  }

  lemma SharesExtend(parts: seq<seq<real>>, overlaps: seq<int>, c: real, before: seq<real>, w: real, j: nat)
    requires |parts| == |overlaps| + 1 >= 2
    requires |before| == |overlaps| && 0.0 <= c && 0.0 <= w && c + w == 1.0
    requires c != 0.0 ==> Shares(parts[..|overlaps|], overlaps[..|overlaps| - 1], before, j)
    requires w != 0.0 ==> Covers(parts, overlaps, |overlaps|, j)
    ensures Shares(parts, overlaps, Scaled(c, before) + [w], j)
  {
    hide Offset;
    var n := |overlaps|;
    var all := Scaled(c, before) + [w];
    assert all[..n] == Scaled(c, before);
    SumScaled(c, before);
    forall k | 0 <= k < n ensures all[k] >= 0.0 && (all[k] != 0.0 ==> Covers(parts, overlaps, k, j)) {
      OffsetOfPrefix(parts, overlaps, k);
      assert all[k] == c * before[k];
    }
  }

  lemma MixtureExtends(parts: seq<seq<real>>, overlaps: seq<int>, c: real, before: seq<real>, w: real, j: nat)
    requires |parts| == |overlaps| + 1 >= 2 && |before| == |overlaps|
    ensures var n := |overlaps|;
            Mixture(parts, overlaps, Scaled(c, before) + [w], j)
            == Times(c, Mixture(parts[..n], overlaps[..n - 1], before, j))
               + Times(w, At(parts[n], j - Offset(parts, overlaps, n)))
  {
    var n := |overlaps|;
    assert (Scaled(c, before) + [w])[..n] == Scaled(c, before);
    MixtureScaled(parts[..n], overlaps[..n - 1], c, before, j);
  }

  /** How much of the left side a join keeps at position `j`. */
  function LeftShare(joined: nat, eff: nat, j: nat): (c: real)
    requires eff <= joined
    ensures 0.0 <= c <= 1.0
    ensures j >= joined ==> c == 0.0
    ensures j < joined - eff ==> c == 1.0
  {
    if j >= joined then 0.0 else if j < joined - eff then 1.0 else FadeOut(eff, j - (joined - eff))
  }

  lemma JoinAt(a: seq<real>, b: seq<real>, overlap: int, j: nat)
    requires j < |Join(a, b, overlap)|
    ensures var eff := Effective(overlap, |a|, |b|);
            var c := LeftShare(|a|, eff, j);
            Join(a, b, overlap)[j] == c * At(a, j) + (1.0 - c) * At(b, j - (|a| - eff))
  {
  }

  /** The last join at position `j`. */
  lemma LastJoinAt(parts: seq<seq<real>>, overlaps: seq<int>, j: nat) returns (c: real)
    requires |parts| == |overlaps| + 1 >= 2 && j < |Joined(parts, overlaps)|
    ensures 0.0 <= c <= 1.0
    ensures var n := |overlaps|;
            var acc := Joined(parts[..n], overlaps[..n - 1]);
            && (c != 0.0 ==> j < |acc|)
            && (1.0 - c != 0.0 ==> Covers(parts, overlaps, n, j))
            && (Joined(parts, overlaps)[j]
               == Times(c, if j < |acc| then acc[j] else 0.0) + Times(1.0 - c, At(parts[n], j - Offset(parts, overlaps, n))))
  {
    hide Offset, FadeOut;
    var n := |overlaps|;
    var acc := Joined(parts[..n], overlaps[..n - 1]);
    LastOffset(parts, overlaps);
    JoinAt(acc, parts[n], overlaps[n - 1], j);
    c := LeftShare(|acc|, Effective(overlaps[n - 1], |acc|, |parts[n]|), j);
  }

  /** Every sample of the result is a convex combination of the parts that cover it. */
  lemma {:induction false} JoinedIsConvex(parts: seq<seq<real>>, overlaps: seq<int>, j: nat)
    returns (weights: seq<real>)
    requires |parts| == |overlaps| + 1 && j < |Joined(parts, overlaps)|
    ensures Shares(parts, overlaps, weights, j)
    ensures Joined(parts, overlaps)[j] == Mixture(parts, overlaps, weights, j)
  {
    var n := |overlaps|;
    if n == 0 {
      weights := [1.0];
      OneShare(parts, overlaps, j);
      assert Joined(parts, overlaps)[j] == Mixture(parts, overlaps, weights, j);
    } else {
      hide Shares, Mixture, Joined, Offset, Covers, At, Scaled, Times;
      var c := LastJoinAt(parts, overlaps, j);
      var before;
      if j < |Joined(parts[..n], overlaps[..n - 1])| {
        before := JoinedIsConvex(parts[..n], overlaps[..n - 1], j);
        SharesSize(parts[..n], overlaps[..n - 1], before, j);
      } else {
        before := seq(n, k => 0.0);
      }
      weights := Scaled(c, before) + [1.0 - c];
      SharesExtend(parts, overlaps, c, before, 1.0 - c, j);
      MixtureExtends(parts, overlaps, c, before, 1.0 - c, j);
      SameProduct(c, if j < |Joined(parts[..n], overlaps[..n - 1])| then Joined(parts[..n], overlaps[..n - 1])[j] else 0.0,
                  Mixture(parts[..n], overlaps[..n - 1], before, j));
      assert Joined(parts, overlaps)[j] == Mixture(parts, overlaps, weights, j);
    }
  }

  lemma SameProduct(c: real, x: real, y: real)
    requires c != 0.0 ==> x == y
    ensures Times(c, x) == Times(c, y)
  {
  }

  lemma SharesSize(parts: seq<seq<real>>, overlaps: seq<int>, weights: seq<real>, j: nat)
    requires |parts| == |overlaps| + 1 && Shares(parts, overlaps, weights, j)
    ensures |weights| == |parts|
  {
  }

  lemma LastOffset(parts: seq<seq<real>>, overlaps: seq<int>)
    requires |parts| == |overlaps| + 1 >= 2
    ensures var n := |overlaps|;
            var acc := Joined(parts[..n], overlaps[..n - 1]);
            Offset(parts, overlaps, n) == |acc| - Effective(overlaps[n - 1], |acc|, |parts[n]|)
  {
    assert parts[..|parts|] == parts && overlaps[..|overlaps|] == overlaps;
  }

  lemma OneShare(parts: seq<seq<real>>, overlaps: seq<int>, j: nat)
    requires |parts| == 1 && overlaps == [] && j < |parts[0]|
    ensures Shares(parts, overlaps, [1.0], j) && Mixture(parts, overlaps, [1.0], j) == parts[0][j]
  {
    assert parts[..1] == parts && overlaps[..0] == overlaps;
    assert [1.0][..0] == [] && Sum([1.0][..0]) == 0.0;
  }

  // ---- windows ---------------------------------------------------------------

  /** Python's `round`: to the nearest integer, halves to the even one. */
  function Round(x: real): (r: int)
    ensures r as real - 0.5 <= x <= r as real + 0.5
    ensures x == r as real + 0.5 || x == r as real - 0.5 ==> r % 2 == 0
  {
    var low := x.Floor;
    var rest := x - low as real;
    if rest < 0.5 then low
    else if rest > 0.5 then low + 1
    else if low % 2 == 0 then low else low + 1
  }

  function ClampOverlap(chunk: real, overlap: real): (r: real)
    ensures 0.0 <= r
    ensures chunk > 0.0 && r > 0.0 ==> r < chunk / 2.0 && r <= overlap
    ensures 0.0 <= overlap <= chunk / 2.0 - 0.000001 ==> r == overlap
    ensures overlap > chunk / 2.0 - 0.000001 >= 0.0 ==> r == chunk / 2.0 - 0.000001
    ensures chunk <= 0.0 || overlap <= 0.0 || chunk / 2.0 <= 0.000001 ==> r == 0.0
  {
    if chunk <= 0.0 then 0.0
    else
      var most := chunk * 0.5 - 0.000001;
      var least := if overlap <= most then overlap else most;
      if least > 0.0 then least else 0.0
  }

  function Samples(seconds: real, rate: int): real {
    seconds * rate as real
  }

  function ChunkSamples(rate: int, chunk: real): (n: int)
    ensures n >= 1
    ensures Samples(chunk, rate) >= 1.0 ==> n as real - 0.5 <= Samples(chunk, rate) <= n as real + 0.5
    ensures Samples(chunk, rate) < 1.0 ==> n == 1
  {
    var rounded := Round(Samples(chunk, rate));
    if rounded >= 1 then rounded else 1
  }

  function OverlapSamples(rate: int, chunk: real, overlap: real): (n: nat)
    ensures n < ChunkSamples(rate, chunk)
  {
    var size := ChunkSamples(rate, chunk);
    var rounded := Round(Samples(ClampOverlap(chunk, overlap), rate));
    var samples := if rounded >= 0 then rounded else 0;
    if samples >= size then size / 2 else samples
  }

  /** The clamped overlap is used to the nearest sample, or half a chunk where rounding would
      reach a whole one. */
  lemma OverlapIsRounded(rate: nat, chunk: real, overlap: real)
    ensures var used, n := Samples(ClampOverlap(chunk, overlap), rate), OverlapSamples(rate, chunk, overlap);
            && (Round(used) < ChunkSamples(rate, chunk) ==> n as real - 0.5 <= used <= n as real + 0.5)
            && (Round(used) >= ChunkSamples(rate, chunk) ==> n == ChunkSamples(rate, chunk) / 2)
  {
    hide Round, ChunkSamples, Samples;
    Product(ClampOverlap(chunk, overlap), rate);
  }

  lemma Product(x: real, n: nat)
    requires x >= 0.0
    ensures Samples(x, n) >= 0.0 && Round(Samples(x, n)) >= 0
  {
  }

  function CeilDiv(a: nat, b: nat): nat
    requires b >= 1
  {
    (a + b - 1) / b
  }

  /** Window `k` starts `k` steps in, but never so late that it would end past `total`. */
  function WindowStart(total: nat, size: nat, step: nat, k: nat): int {
    if k * step <= total - size then k * step else total - size
  }

  function Windows(total: nat, size: nat, step: nat): (r: seq<(int, int)>)
    requires total > size >= step >= 1
  {
    seq(1 + CeilDiv(total - size, step), k requires 0 <= k =>
      (WindowStart(total, size, step, k), WindowStart(total, size, step, k) + size))
  }

  function Bounds(total: int, rate: int, chunk: real, overlap: real): seq<(int, int)> {
    if total <= 0 then [(0, 0)]
    else if chunk <= 0.0 || total <= ChunkSamples(rate, chunk) then [(0, total)]
    else Windows(total, ChunkSamples(rate, chunk), ChunkSamples(rate, chunk) - OverlapSamples(rate, chunk, overlap))
  }

  lemma CeilIs(a: nat, b: nat, n: nat)
    requires b >= 1 && n >= 1 && (n - 1) * b < a <= n * b
    ensures CeilDiv(a, b) == n
  {
    var q, r := (a + b - 1) / b, (a + b - 1) % b;
    assert a + b - 1 == q * b + r;
    assert (n - 1) * b == n * b - b;
    Scale(q, n, b);
    Scale(n, q, b);
  }

  lemma Scale(x: nat, y: nat, b: nat)
    ensures x < y ==> x * b + b <= y * b
    ensures x <= y ==> x * b <= y * b
  {
    if x < y {
      assert (x + 1) * b <= y * b;
    }
  }

  /** `chunk_bounds_for_samples` */
  method ChunkBounds(total: int, rate: int, chunk: real, overlap: real) returns (bounds: seq<(int, int)>)
    ensures bounds == Bounds(total, rate, chunk, overlap)
    ensures total <= 0 ==> bounds == [(0, 0)]
    ensures total > 0 && (chunk <= 0.0 || total <= ChunkSamples(rate, chunk)) ==> bounds == [(0, total)]
    ensures total > 0 && chunk > 0.0 && total > ChunkSamples(rate, chunk) ==>
      |bounds| >= 2 && bounds[|bounds| - 1].1 == total
      && forall k :: 0 <= k < |bounds| ==> bounds[k].1 - bounds[k].0 == ChunkSamples(rate, chunk)
  {
    hide OverlapSamples, ChunkSamples, Neighbours;
    if total <= 0 {
      return [(0, 0)];
    }
    if chunk <= 0.0 {
      return [(0, total)];
    }
    var size := ChunkSamples(rate, chunk);
    if total <= size {
      return [(0, total)];
    }
    var step := size - OverlapSamples(rate, chunk, overlap);
    bounds := SlideWindow(total, size, step);
    WindowsCover(total, size, step);
  }

  /** The loop: full windows a step apart, the last one pulled back to end at `total`. */
  method SlideWindow(total: nat, size: nat, step: nat) returns (bounds: seq<(int, int)>)
    requires total > size >= step >= 1
    ensures bounds == Windows(total, size, step)
  {
    bounds := [];
    var start: nat := 0;
    while start < total
      invariant start == |bounds| * step && start < total
      invariant |bounds| > 0 ==> (|bounds| - 1) * step + size < total
      invariant forall k :: 0 <= k < |bounds| ==> bounds[k] == (k * step, k * step + size) && k * step + size < total
      decreases total - start
    {
      var end := if total <= start + size then total else start + size;
      if end - start < size && bounds != [] {
        CeilIs(total - size, step, |bounds|);
        bounds := bounds + [(total - size, total)];
        break;
      }
      bounds := bounds + [(start, end)];
      if end >= total {
        CeilIs(total - size, step, |bounds| - 1);
        break;
      }
      start := start + step;
    }
  }

  /** Neighbouring windows overlap by the configured amount; the last pair may overlap by more. */
  predicate Neighbours(w: seq<(int, int)>, k: nat, overlap: int)
    requires k + 1 < |w|
  {
    && w[k].0 < w[k + 1].0 <= w[k].1 < w[k + 1].1
    && (if k + 2 < |w| then w[k].1 - w[k + 1].0 == overlap else w[k].1 - w[k + 1].0 >= overlap)
  }

  /** Every window is full, starts strictly increase, no gap opens between neighbours, and the
      windows run from 0 to `total`. */
  lemma WindowsCover(total: nat, size: nat, step: nat)
    requires total > size >= step >= 1
    ensures var w, overlap := Windows(total, size, step), size - step;
            && |w| == 1 + CeilDiv(total - size, step) >= 2
            && w[0].0 == 0 && w[|w| - 1].1 == total
            && (forall k :: 0 <= k < |w| ==> w[k].1 - w[k].0 == size && 0 <= w[k].0 && w[k].1 <= total)
            && (forall k :: 0 <= k < |w| - 1 ==> Neighbours(w, k, overlap))
  {
    hide WindowStart, CeilDiv;
    var w, overlap := Windows(total, size, step), size - step;
    CeilBounds(total - size, step);
    NextWindow(total, size, step, 0);
    NextWindow(total, size, step, |w| - 2);
    forall k | 0 <= k < |w| - 1 ensures Neighbours(w, k, overlap) {
      NextWindow(total, size, step, k);
    }
    forall k | 0 <= k < |w| ensures 0 <= w[k].0 && w[k].1 <= total {
      if k < |w| - 1 {
        NextWindow(total, size, step, k);
      }
    }
  }

  lemma NextWindow(total: nat, size: nat, step: nat, k: nat)
    requires total > size >= step >= 1 && k < CeilDiv(total - size, step)
    ensures var s, t := WindowStart(total, size, step, k), WindowStart(total, size, step, k + 1);
            && 0 <= s < t <= s + step && t <= total - size
            && (k == 0 ==> s == 0)
            && (if k + 1 < CeilDiv(total - size, step) then t == s + step else t == total - size)
  {
    hide CeilDiv;
    var n := CeilDiv(total - size, step);
    CeilBounds(total - size, step);
    Scale(k, n - 1, step);
    Scale(k + 1, n - 1, step);
    assert (k + 1) * step == k * step + step;
  }

  lemma CeilBounds(a: nat, b: nat)
    requires a >= 1 && b >= 1
    ensures var n := CeilDiv(a, b); n >= 1 && (n - 1) * b < a <= n * b
  {
    var q, r := (a + b - 1) / b, (a + b - 1) % b;
    assert a + b - 1 == q * b + r;
    assert (q - 1) * b == q * b - b;
    Scale(q, 1, b);
  }

  // ---- slicing then joining --------------------------------------------------

  /** `overlaps_for_chunks` */
  function OverlapsFor(bounds: seq<(int, int)>): (r: seq<int>)
    requires bounds != []
    ensures |r| == |bounds| - 1
  {
    seq(|bounds| - 1, k requires 0 <= k < |bounds| - 1 =>
      if bounds[k].1 >= bounds[k + 1].0 then bounds[k].1 - bounds[k + 1].0 else 0)
  }

  /** Neighbours share what they overlap by, and nothing across a gap. */
  lemma OverlapsAreReal(bounds: seq<(int, int)>, k: nat)
    requires k + 1 < |bounds|
    ensures OverlapsFor(bounds)[k] >= 0
    ensures OverlapsFor(bounds)[k] == 0 || bounds[k + 1].0 + OverlapsFor(bounds)[k] == bounds[k].1
    ensures OverlapsFor(bounds)[k] == 0 ==> bounds[k].1 <= bounds[k + 1].0
  {
  }

  ghost predicate Tiles(bounds: seq<(int, int)>, total: nat) {
    && bounds != [] && bounds[0].0 == 0 && bounds[|bounds| - 1].1 == total
    && (forall k :: 0 <= k < |bounds| ==> 0 <= bounds[k].0 <= bounds[k].1 <= total)
    && (forall k :: 0 <= k < |bounds| - 1 ==> bounds[k + 1].0 <= bounds[k].1 <= bounds[k + 1].1)
  }

  function Slices(mix: seq<real>, bounds: seq<(int, int)>): (r: seq<seq<real>>)
    requires forall k :: 0 <= k < |bounds| ==> 0 <= bounds[k].0 <= bounds[k].1 <= |mix|
    ensures |r| == |bounds|
  {
    seq(|bounds|, k requires 0 <= k < |bounds| => mix[bounds[k].0..bounds[k].1])
  }

  lemma BlendSame(w: real, x: real)
    ensures Blend(w, x, x) == x
  {
  }

  /** Joining two views of one mix over what they share gives the mix back. */
  lemma JoinViews(mix: seq<real>, start: nat, end: nat, last: nat)
    requires start <= end <= last <= |mix|
    ensures Join(mix[..end], mix[start..last], end - start) == mix[..last]
  {
    hide FadeOut, Blend;
    var a, b := mix[..end], mix[start..last];
    var r := Join(a, b, end - start);
    assert |r| == last;
    forall k | 0 <= k < last ensures r[k] == mix[k] {
      if start <= k < end {
        BlendSame(FadeOut(end - start, k - start), mix[k]);
      }
    }
  }

  lemma TileAt(mix: seq<real>, bounds: seq<(int, int)>, k: nat)
    requires Tiles(bounds, |mix|) && k < |bounds|
    ensures 0 <= bounds[k].0 <= bounds[k].1 <= |mix| && Slices(mix, bounds)[k] == mix[bounds[k].0..bounds[k].1]
    ensures k == 0 ==> bounds[0].0 == 0
    ensures k > 0 ==> 0 <= bounds[k].0 <= bounds[k - 1].1 <= bounds[k].1
                      && OverlapsFor(bounds)[k - 1] == bounds[k - 1].1 - bounds[k].0
  {
    if k > 0 {
      var j := k - 1;
      assert bounds[j + 1].0 <= bounds[j].1 <= bounds[j + 1].1;
    }
  }

  lemma {:induction false} JoinSlices(mix: seq<real>, bounds: seq<(int, int)>, k: nat)
    requires Tiles(bounds, |mix|) && k < |bounds|
    ensures 0 <= bounds[k].1 <= |mix|
    ensures Joined(Slices(mix, bounds)[..k + 1], OverlapsFor(bounds)[..k]) == mix[..bounds[k].1]
  {
    hide Join, Joined, Tiles;
    TilesAreInside(bounds, |mix|);
    var parts, overlaps := Slices(mix, bounds), OverlapsFor(bounds);
    hide Slices, OverlapsFor;
    TileAt(mix, bounds, k);
    if k == 0 {
      JoinedStarts(parts, overlaps);
    } else {
      JoinSlices(mix, bounds, k - 1);
      JoinedStep(parts, overlaps, k - 1);
      JoinViews(mix, bounds[k].0, bounds[k - 1].1, bounds[k].1);
    }
  }

  lemma BoundsTile(total: nat, rate: int, chunk: real, overlap: real)
    ensures Tiles(Bounds(total, rate, chunk, overlap), total)
  {
    hide Windows, ChunkSamples, OverlapSamples, CeilDiv;
    var size := ChunkSamples(rate, chunk);
    if total > 0 && chunk > 0.0 && total > size {
      var step := size - OverlapSamples(rate, chunk, overlap);
      WindowsCover(total, size, step);
      var w, shared := Windows(total, size, step), size - step;
      forall k | 0 <= k < |w| - 1 ensures w[k + 1].0 <= w[k].1 <= w[k + 1].1 {
        assert Neighbours(w, k, shared);
      }
      assert Tiles(w, total);
    }
  }

  /** Slicing a mix and joining the slices over their real overlaps is the identity, for any
      rate, chunk length and overlap. */
  lemma SliceThenJoin(mix: seq<real>, rate: int, chunk: real, overlap: real)
    ensures Tiles(Bounds(|mix|, rate, chunk, overlap), |mix|)
    ensures var bounds := Bounds(|mix|, rate, chunk, overlap);
            Joined(Slices(mix, bounds), OverlapsFor(bounds)) == mix
  {
    hide Bounds;
    BoundsTile(|mix|, rate, chunk, overlap);
    var bounds := Bounds(|mix|, rate, chunk, overlap);
    JoinSlices(mix, bounds, |bounds| - 1);
    assert Slices(mix, bounds)[..|bounds|] == Slices(mix, bounds);
    assert OverlapsFor(bounds)[..|bounds| - 1] == OverlapsFor(bounds);
    assert mix[..|mix|] == mix;
  }

  /** `slice_mix`, then `concat_stems` over `overlaps_for_chunks`. */
  method SliceAndJoin(mix: seq<real>, rate: int, chunk: real, overlap: real) returns (joined: seq<real>)
    ensures joined == mix
  {
    hide Bounds, Joined, Tiles;
    var bounds := ChunkBounds(|mix|, rate, chunk, overlap);
    SliceThenJoin(mix, rate, chunk, overlap);
    TilesAreInside(bounds, |mix|);
    var parts := Slices(mix, bounds);
    var r := Concat(parts, PerJoin(OverlapsFor(bounds)), FadeBlock);
    joined := r.value;
    if |parts| == 1 {
      JoinedStarts(parts, OverlapsFor(bounds));
      assert parts[..1] == parts && OverlapsFor(bounds)[..0] == OverlapsFor(bounds);
    }
  }

  lemma TilesAreInside(bounds: seq<(int, int)>, total: nat)
    requires Tiles(bounds, total)
    ensures bounds != [] && forall k :: 0 <= k < |bounds| ==> 0 <= bounds[k].0 <= bounds[k].1 <= total
  {
  }
}
