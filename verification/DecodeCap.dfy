/** The damage budget of a tolerant decode (core/audio_decode.py): the fill pass is stopped at a
    byte cap, which never changes what the budget accepts. */
module DecodeCap {
  import opened Text
  import opened ArtifactCapture

  /** `_STDERR_LIMIT` */
  const ErrorLimit: nat := 16 * 1024

  /** Rounds down, as `int` does on a positive quotient by 1 - 0.005. */
  function MostFrames(decodedFrames: nat): nat {
    decodedFrames * 200 / 199
  }

  function Quotient(a: nat, b: nat): nat
    requires b >= 1
  {
    a / b
  }

  /** Whole frames of 32-bit samples. */
  function Frames(bytes: nat, channels: nat): nat
    requires channels >= 1
  {
    Quotient(bytes, 4 * channels)
  }

  function Size(frames: nat, channels: nat): nat {
    frames * (4 * channels)
  }

  /** `_repair_output_limit` */
  function RepairLimit(decodedBytes: int, channels: int): nat {
    if channels <= 0 || decodedBytes <= 0 then 0
    else
      var frames := Frames(decodedBytes, channels);
      if frames == 0 then 0 else Size(MostFrames(frames) + 1, channels)
  }

  /** The check of `_decode_damaged`: at most 0.5% of the padded audio may be missing. */
  predicate Accepts(decodedBytes: nat, paddedBytes: nat, channels: nat)
    requires channels >= 1
  {
    var total, decoded := Frames(paddedBytes, channels), Frames(decodedBytes, channels);
    var lost := if total > decoded then total - decoded else 0;
    total > 0 && 200 * lost <= total
  }

  lemma FrameBounds(bytes: nat, channels: nat)
    requires channels >= 1
    ensures Size(Frames(bytes, channels), channels) <= bytes < Size(Frames(bytes, channels) + 1, channels)
  {
    var b := 4 * channels;
    assert bytes == bytes / b * b + bytes % b;
    assert (bytes / b + 1) * b == bytes / b * b + b;
  }

  lemma SizeGrows(a: nat, b: nat, channels: nat)
    requires a <= b
    ensures Size(a, channels) <= Size(b, channels)
  {
  }

  /** Whatever the budget accepts stays below the cap. */
  lemma AcceptedFits(decodedBytes: nat, paddedBytes: nat, channels: nat)
    requires channels >= 1 && Accepts(decodedBytes, paddedBytes, channels)
    ensures paddedBytes < RepairLimit(decodedBytes, channels)
  {
    hide Frames, Size;
    var total, decoded := Frames(paddedBytes, channels), Frames(decodedBytes, channels);
    assert 199 * total <= 200 * decoded && decoded > 0;
    FrameBounds(paddedBytes, channels);
    FrameBounds(decodedBytes, channels);
    SizeGrows(total + 1, MostFrames(decoded) + 1, channels);
    SizeGrows(1, decoded, channels);
    OneFrame(channels);
  }

  /** The cap is one frame above the most the budget accepts. */
  lemma CapIsTight(decodedBytes: nat, channels: nat)
    requires channels >= 1 && Frames(decodedBytes, channels) > 0
    ensures RepairLimit(decodedBytes, channels) >= 4 * channels
    ensures Accepts(decodedBytes, RepairLimit(decodedBytes, channels) - 4 * channels, channels)
  {
    var most := MostFrames(Frames(decodedBytes, channels));
    FrameBounds(decodedBytes, channels);
    SizeGrows(1, Frames(decodedBytes, channels), channels);
    OneFrame(channels);
    assert Size(most + 1, channels) == Size(most, channels) + 4 * channels;
    WholeFrames(most, channels);
  }

  /** The budget accepts exactly the streams of at least one frame that stay below the cap. */
  lemma AcceptsIffBelowCap(decodedBytes: nat, paddedBytes: nat, channels: nat)
    requires channels >= 1
    ensures Accepts(decodedBytes, paddedBytes, channels)
            <==> paddedBytes >= 4 * channels && paddedBytes < RepairLimit(decodedBytes, channels)
  {
    hide Frames, Size;
    var total, decoded := Frames(paddedBytes, channels), Frames(decodedBytes, channels);
    FrameBounds(paddedBytes, channels);
    FrameBounds(decodedBytes, channels);
    OneIsFrame(channels);
    if total > 0 {
      SizeGrows(1, total, channels);
    } else {
      SizeGrows(total + 1, 1, channels);
    }
    if total <= MostFrames(decoded) {
      SizeGrows(total + 1, MostFrames(decoded) + 1, channels);
    } else {
      SizeGrows(MostFrames(decoded) + 1, total, channels);
    }
    if decoded > 0 {
      SizeGrows(1, decoded, channels);
    }
    assert total <= MostFrames(decoded) <==> 199 * total <= 200 * decoded;
  }

  lemma OneIsFrame(channels: nat)
    ensures Size(1, channels) == 4 * channels
  {
  }

  lemma WholeFrames(frames: nat, channels: nat)
    requires channels >= 1
    ensures Frames(Size(frames, channels), channels) == frames
  {
    var n := Frames(Size(frames, channels), channels);
    assert Size(frames + 1, channels) == Size(frames, channels) + 4 * channels;
    if n < frames {
      SizeGrows(n + 1, frames, channels);
    } else if n > frames {
      SizeGrows(frames + 1, n, channels);
    }
    FrameBounds(Size(frames, channels), channels);
  }

  lemma OneFrame(channels: nat)
    requires channels >= 1
    ensures Size(1, channels) >= 4
  {
  }

  // ---- reading the tool's pipes ----------------------------------------------

  datatype Read = Out(bytes: Bytes) | Err(bytes: Bytes)

  function Stdout(parts: seq<Read>): Bytes {
    if parts == [] then []
    else Stdout(parts[..|parts| - 1]) + if parts[|parts| - 1].Out? then parts[|parts| - 1].bytes else []
  }

  function Stderr(parts: seq<Read>): Bytes {
    if parts == [] then []
    else Stderr(parts[..|parts| - 1]) + if parts[|parts| - 1].Err? then parts[|parts| - 1].bytes else []
  }

  lemma OneRead(bytes: Bytes)
    ensures Stdout([Out(bytes)]) == bytes == Stderr([Err(bytes)])
    ensures Stdout([Err(bytes)]) == [] == Stderr([Out(bytes)])
    ensures Stdout([]) == [] == Stderr([])
  {
    assert forall r: Read :: [r][..0] == [];
  }

  /** Each pipe delivers its chunks in the order they were read. */
  lemma {:induction false} PipesConcat(a: seq<Read>, b: seq<Read>)
    ensures Stdout(a + b) == Stdout(a) + Stdout(b)
    ensures Stderr(a + b) == Stderr(a) + Stderr(b)
  {
    if b == [] {
      assert a + b == a;
    } else {
      assert (a + b)[..|a + b| - 1] == a + b[..|b| - 1];
      PipesConcat(a, b[..|b| - 1]);
    }
  }

  datatype Outcome = Finished(output: Bytes, count: nat, errors: Bytes) | LimitExceeded(errors: Bytes)

  lemma {:induction false} StdoutGrows(parts: seq<Read>, k: nat)
    requires k <= |parts|
    ensures |Stdout(parts[..k])| <= |Stdout(parts)|
  {
    if k == |parts| {
      assert parts[..k] == parts;
    } else {
      var n := |parts| - 1;
      StdoutGrows(parts[..n], k);
      assert parts[..n][..k] == parts[..k];
    }
  }

  /** `_run_tool`: keep the output up to the cap, and only a tail of the diagnostics. `peak` is
      the most output ever held. */
  method RunTool(parts: seq<Read>, keep: bool, cap: Option<nat>) returns (r: Outcome, ghost peak: nat)
    ensures r.LimitExceeded? <==> cap.Some? && |Stdout(parts)| > cap.value
    ensures r.Finished? ==>
      && r.count == |Stdout(parts)| && r.output == (if keep then Stdout(parts) else [])
      && r.errors == Tail(Stderr(parts), ErrorLimit)
    ensures r.Finished? ==>
      |r.errors| == (if |Stderr(parts)| <= 16384 then |Stderr(parts)| else 16384)
      && Stderr(parts)[|Stderr(parts)| - |r.errors|..] == r.errors
    ensures r.LimitExceeded? ==> exists k ::
              0 <= k < |parts| && |Stdout(parts[..k])| <= cap.value < |Stdout(parts[..k + 1])|
              && r.errors == Tail(Stderr(parts[..k]), ErrorLimit)
    ensures |r.errors| <= ErrorLimit
    ensures cap.Some? ==> peak <= cap.value
  {
    hide Tail;
    var output: Bytes, count: nat, errors: Bytes := [], 0, [];
    peak := 0;
    NoErrors();
    for k := 0 to |parts|
      invariant count == |Stdout(parts[..k])| && output == (if keep then Stdout(parts[..k]) else [])
      invariant errors == Tail(Stderr(parts[..k]), ErrorLimit) && |errors| <= ErrorLimit
      invariant cap.Some? ==> count <= cap.value && peak <= cap.value
      invariant |output| <= peak <= count
    {
      assert parts[..k + 1][..k] == parts[..k];
      match parts[k] {
        case Out(chunk) =>
          count := count + |chunk|;
          if cap.Some? && count > cap.value {
            StdoutGrows(parts, k + 1);
            return LimitExceeded(errors), peak;
          }
          if keep {
            output := output + chunk;
          }
          peak := if |output| > peak then |output| else peak;
          assert Stderr(parts[..k]) + [] == Stderr(parts[..k]);
        case Err(chunk) =>
          TailAppend(Stderr(parts[..k]), chunk, ErrorLimit);
          errors := Tail(errors + chunk, ErrorLimit);
          TailSize(Stderr(parts[..k + 1]));
          assert Stdout(parts[..k]) + [] == Stdout(parts[..k]);
      }
    }
    assert parts[..|parts|] == parts;
    TailIsLast(Stderr(parts), ErrorLimit);
    r := Finished(output, count, errors);
  }

  lemma NoErrors()
    ensures Tail([], ErrorLimit) == []
  {
  }

  lemma TailSize(bytes: Bytes)
    ensures |Tail(bytes, ErrorLimit)| <= ErrorLimit
  {
  }

  /** `_decode_damaged`, with its two passes over the same file: capping the second one accepts
      exactly the streams the budget check alone would accept, however they are split. */
  method DecodeDamaged(first: seq<Read>, second: seq<Read>, channels: nat) returns (pcm: Option<Bytes>, ghost peak: nat)
    requires channels >= 1
    ensures pcm == if Accepts(|Stdout(first)|, |Stdout(second)|, channels) then Some(Stdout(second)) else None
    ensures peak <= RepairLimit(|Stdout(first)|, channels)
  {
    hide Accepts, RepairLimit, Tail;
    var counted, filled;
    ghost var unused;
    counted, unused := RunTool(first, false, None);
    filled, peak := RunTool(second, true, Some(RepairLimit(counted.count, channels)));
    if Accepts(|Stdout(first)|, |Stdout(second)|, channels) {
      AcceptedFits(|Stdout(first)|, |Stdout(second)|, channels);
    }
    if filled.Finished? && Accepts(counted.count, |filled.output|, channels) {
      pcm := Some(filled.output);
    } else {
      pcm := None;
    }
  }
}
