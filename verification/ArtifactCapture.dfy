/** Fingerprinting an artifact from one pass over its chunks (core/demucs_registry.py): a digest
    of everything, and a sliding window that ends as the tail of the file. */
module ArtifactCapture {
  import opened Text

  type Bytes = seq<bv8>

  /** An incremental hash: how one byte changes its state. */
  type Hasher<!S> = (S, bv8) -> S

  /** `checkpoint_window` */
  const Window: nat := 10000 * 1024

  function Absorb<S>(step: Hasher<S>, state: S, bytes: Bytes): S {
    if bytes == [] then state else step(Absorb(step, state, bytes[..|bytes| - 1]), bytes[|bytes| - 1])
  }

  lemma {:induction false} AbsorbJoins<S>(step: Hasher<S>, state: S, a: Bytes, b: Bytes)
    ensures Absorb(step, state, a + b) == Absorb(step, Absorb(step, state, a), b)
  {
    if b == [] {
      assert a + b == a;
    } else {
      assert (a + b)[..|a + b| - 1] == a + b[..|b| - 1];
      AbsorbJoins(step, state, a, b[..|b| - 1]);
    }
  }

  /** The digest takes the bytes one by one. */
  lemma AbsorbOne<S>(step: Hasher<S>, state: S, byte: bv8)
    ensures Absorb(step, state, [byte]) == step(state, byte) && Absorb(step, state, []) == state
  {
    assert [byte][..0] == [];
  }

  function Flat(chunks: seq<Bytes>): Bytes {
    if chunks == [] then [] else chunks[0] + Flat(chunks[1..])
  }

  lemma {:induction false} FlatAppend(chunks: seq<Bytes>, chunk: Bytes)
    ensures Flat(chunks + [chunk]) == Flat(chunks) + chunk
  {
    if chunks == [] {
      assert [chunk][1..] == [] && Flat([chunk]) == chunk + Flat([]);
    } else {
      assert (chunks + [chunk])[1..] == chunks[1..] + [chunk];
      FlatAppend(chunks[1..], chunk);
    }
  }

  function Tail(bytes: Bytes, n: nat): Bytes {
    if |bytes| <= n then bytes else bytes[|bytes| - n..]
  }

  /** All of a short stream, else its last `n` bytes. */
  lemma TailIsLast(bytes: Bytes, n: nat)
    ensures var r := Tail(bytes, n);
            |r| == (if |bytes| <= n then |bytes| else n) && bytes[|bytes| - |r|..] == r
  {
  }

  /** The tail of a longer stream only needs the tail so far. */
  lemma TailAppend(bytes: Bytes, more: Bytes, n: nat)
    ensures Tail(bytes + more, n) == Tail(Tail(bytes, n) + more, n)
  {
  }

  /** The inner loop: drop or cut chunks at the front until the window fits. */
  method Trim(chunks: seq<Bytes>, size: nat, window: nat) returns (trimmed: seq<Bytes>, left: nat)
    requires size == |Flat(chunks)|
    ensures Flat(trimmed) == Tail(Flat(chunks), window) && left == |Flat(trimmed)|
  {
    trimmed, left := chunks, size;
    while left > window
      invariant left == |Flat(trimmed)|
      invariant Tail(Flat(trimmed), window) == Tail(Flat(chunks), window)
      decreases left, |trimmed|
    {
      assert trimmed != [];
      var overflow := left - window;
      var first := trimmed[0];
      ghost var before := Flat(trimmed);
      if |first| <= overflow {
        trimmed, left := trimmed[1..], left - |first|;
        assert Flat(trimmed) == before[|first|..];
      } else {
        assert trimmed[0 := first[overflow..]][1..] == trimmed[1..];
        trimmed, left := trimmed[0 := first[overflow..]], left - overflow;
        assert Flat(trimmed) == before[overflow..];
      }
    }
  }

  /** `_capture_artifact`, for any way of splitting the file into reads. */
  method Capture<S>(parts: seq<Bytes>, step: Hasher<S>, initial: S, includeContent: bool)
    returns (digest: S, checkpoint: Bytes, content: Option<Bytes>)
    ensures digest == Absorb(step, initial, Flat(parts))
    ensures checkpoint == Tail(Flat(parts), Window)
    ensures content == if includeContent then Some(Flat(parts)) else None
    ensures |checkpoint| == (if |Flat(parts)| <= 10240000 then |Flat(parts)| else 10240000)
    ensures Flat(parts)[|Flat(parts)| - |checkpoint|..] == checkpoint
  {
    hide Tail, Absorb;
    digest := initial;
    var window: seq<Bytes>, size: nat, captured: seq<Bytes> := [], 0, [];
    CaptureStarts(step, initial);
    for k := 0 to |parts|
      invariant digest == Absorb(step, initial, Flat(parts[..k]))
      invariant Flat(window) == Tail(Flat(parts[..k]), Window) && size == |Flat(window)|
      invariant includeContent ==> Flat(captured) == Flat(parts[..k])
    {
      var chunk := parts[k];
      assert parts[..k + 1] == parts[..k] + [chunk];
      FlatAppend(parts[..k], chunk);
      FlatAppend(window, chunk);
      FlatAppend(captured, chunk);
      AbsorbJoins(step, initial, Flat(parts[..k]), chunk);
      TailAppend(Flat(parts[..k]), chunk, Window);
      digest := Absorb(step, digest, chunk);
      if includeContent {
        captured := captured + [chunk];
      }
      window, size := Trim(window + [chunk], size + |chunk|, Window);
    }
    assert parts[..|parts|] == parts;
    checkpoint := Flat(window);
    TailIsLast(Flat(parts), Window);
    content := if includeContent then Some(Flat(captured)) else None;
  }

  lemma CaptureStarts<S>(step: Hasher<S>, initial: S)
    ensures Absorb(step, initial, []) == initial && Tail([], Window) == []
  {
  }
}
