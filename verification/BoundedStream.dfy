/** Draining a process stream while keeping a bounded front of it. */
module BoundedStream {
  function Concat(chunks: seq<seq<bv8>>): seq<bv8> {
    if chunks == [] then [] else Concat(chunks[..|chunks| - 1]) + chunks[|chunks| - 1]
  }

  /** `_read_bounded_stream`: for every way the stream is cut into chunks, the first `maximumBytes` bytes of it
    * and whether there were more. */
  method ReadBoundedStream(chunks: seq<seq<bv8>>, maximumBytes: nat) returns (kept: seq<bv8>, truncated: bool)
    requires forall i :: 0 <= i < |chunks| ==> chunks[i] != []
    ensures kept == if |Concat(chunks)| <= maximumBytes then Concat(chunks) else Concat(chunks)[..maximumBytes]
    ensures truncated <==> |Concat(chunks)| > maximumBytes
  {
    var pieces: seq<seq<bv8>> := [];
    var retained := 0;
    truncated := false;
    for i := 0 to |chunks|
      invariant retained == |Concat(pieces)|
      invariant Concat(pieces) == Front(Concat(chunks[..i]), maximumBytes)
      invariant truncated <==> |Concat(chunks[..i])| > maximumBytes
    {
      var chunk := chunks[i];
      assert chunks[..i + 1][..i] == chunks[..i];
      var remaining := maximumBytes - retained;
      if remaining > 0 {
        var piece := Front(chunk, remaining);
        assert (pieces + [piece])[..|pieces|] == pieces;
        pieces := pieces + [piece];
        retained := retained + |piece|;
      }
      if |chunk| > remaining {
        truncated := true;
      }
    }
    assert chunks[..|chunks|] == chunks;
    kept := Concat(pieces);
  }

  function Front(s: seq<bv8>, n: nat): seq<bv8> {
    if |s| <= n then s else s[..n]
  }

  lemma {:induction false} ConcatSplits(a: seq<seq<bv8>>, b: seq<seq<bv8>>)
    ensures Concat(a + b) == Concat(a) + Concat(b)
  {
    if b == [] {
      assert a + b == a;
    } else {
      assert (a + b)[..|a + b| - 1] == a + b[..|b| - 1];
      ConcatSplits(a, b[..|b| - 1]);
    }
  }

  /** A chunk cut in two is the same stream. */
  lemma CutChunk(chunks: seq<seq<bv8>>, others: seq<seq<bv8>>, middle: seq<bv8>, more: seq<bv8>)
    ensures Concat(chunks + [middle + more] + others) == Concat(chunks + [middle, more] + others)
  {
    ConcatSplits(chunks + [middle + more], others);
    ConcatSplits(chunks + [middle, more], others);
    ConcatSplits(chunks, [middle + more]);
    ConcatSplits(chunks, [middle, more]);
    ConcatSplits([middle], [more]);
    assert [middle, more] == [middle] + [more];
    assert Concat([middle]) == middle && Concat([more]) == more && Concat([middle + more]) == middle + more by {
      assert [middle][..0] == [] && [more][..0] == [] && [middle + more][..0] == [];
    }
  }

  /** Two cuts of the same bytes keep the same bytes and raise the same flag. */
  method ReadBothCuts(chunks: seq<seq<bv8>>, others: seq<seq<bv8>>, maximumBytes: nat)
    returns (kept: seq<bv8>, truncated: bool, otherKept: seq<bv8>, otherTruncated: bool)
    requires forall i :: 0 <= i < |chunks| ==> chunks[i] != []
    requires forall i :: 0 <= i < |others| ==> others[i] != []
    ensures Concat(chunks) == Concat(others) ==> kept == otherKept && truncated == otherTruncated
    ensures kept == otherKept && !truncated && !otherTruncated ==> Concat(chunks) == Concat(others)
  {
    kept, truncated := ReadBoundedStream(chunks, maximumBytes);
    otherKept, otherTruncated := ReadBoundedStream(others, maximumBytes);
  }

  /** Cutting one chunk in two changes nothing that is kept or flagged. */
  method ReadCutChunk(
    chunks: seq<seq<bv8>>, others: seq<seq<bv8>>, middle: seq<bv8>, more: seq<bv8>, maximumBytes: nat)
    returns (kept: seq<bv8>, truncated: bool, otherKept: seq<bv8>, otherTruncated: bool)
    requires middle != [] && more != []
    requires forall i :: 0 <= i < |chunks| ==> chunks[i] != []
    requires forall i :: 0 <= i < |others| ==> others[i] != []
    ensures kept == otherKept && truncated == otherTruncated
  {
    CutChunk(chunks, others, middle, more);
    kept, truncated, otherKept, otherTruncated :=
      ReadBothCuts(chunks + [middle + more] + others, chunks + [middle, more] + others, maximumBytes);
  }
}
