/**
  The byte repacking done by `cameraStreamToBytes`: the Y, V and U plane
  arrays are concatenated in that order, and then a counting loop overwrites a
  window of the concatenation with bytes read from the V and U planes.

  The loop, for iterations j = 0 .. chromaSize - 1, has loop variable
  i == dataSize + 2 * j and does, in this order:
    read  V[i]               (ByteBuffer.get: fails when i is not below |V|)
    store data[p] := V[i]     where p == dataSize + i / 2
    read  U[i + 1]
    store data[p + 1] := U[i + 1]
  For dataSize >= 0 the store position is p == dataSize + dataSize / 2 + j,
  so iteration j + 1 stores its V byte over the U byte of iteration j.
*/
module Nv21 {
  import opened JavaLang

  /** The exceptions the loop can raise, with the index that was out of range. */
  datatype Fault =
    | VBufferIndexOutOfBounds(index: int)   // vBuffer.get(i)
    | UBufferIndexOutOfBounds(index: int)   // uBuffer.get(i + 1)
    | ArrayIndexOutOfBounds(index: int)     // a store into data

  datatype Result<T> = Ok(value: T) | Err(fault: Fault)

  /** The loop from iteration j on, applied to the array contents `data`.
      Each call is one iteration, and the checks are made in the order the
      Java statements evaluate them (the right-hand side of an array store is
      evaluated before the store's own index check). */
  function ChromaLoop(data: seq<Byte>, vBytes: seq<Byte>, uBytes: seq<Byte>,
                      dataSize: int, chromaSize: int, j: nat): (r: Result<seq<Byte>>)
    ensures r.Ok? ==> |r.value| == |data|
    decreases chromaSize - j
  {
    if chromaSize <= j then Ok(data)
    else
      var i := dataSize + 2 * j;
      var p := dataSize + Div(i, 2);
      if !(0 <= i < |vBytes|) then Err(VBufferIndexOutOfBounds(i))
      else if !(0 <= p < |data|) then Err(ArrayIndexOutOfBounds(p))
      else if !(0 <= i + 1 < |uBytes|) then Err(UBufferIndexOutOfBounds(i + 1))
      else if !(0 <= p + 1 < |data|) then Err(ArrayIndexOutOfBounds(p + 1))
      else ChromaLoop(data[p := vBytes[i]][p + 1 := uBytes[i + 1]], vBytes, uBytes, dataSize, chromaSize, j + 1)
  }

  /** The bytes `cameraStreamToBytes` returns for planes Y, U, V and
      dataSize == width * height, or the exception it throws. */
  function Nv21Bytes(yBytes: seq<Byte>, uBytes: seq<Byte>, vBytes: seq<Byte>, dataSize: int): Result<seq<Byte>>
  {
    ChromaLoop(yBytes + vBytes + uBytes, vBytes, uBytes, dataSize, Div(dataSize, 4), 0)
  }

  /** Iteration j of the loop (for dataSize >= 0) runs without an exception
      on an array of length `len`. */
  predicate IterationSafe(len: int, vBytes: seq<Byte>, uBytes: seq<Byte>, dataSize: int, j: int) {
    dataSize + 2 * j < |vBytes| && dataSize + 2 * j + 1 < |uBytes| && dataSize + dataSize / 2 + j + 1 < len
  }

  /** The exception that iteration j raises when it is not safe: the first
      of its four checks that fails. */
  function IterationFault(len: int, vBytes: seq<Byte>, uBytes: seq<Byte>, dataSize: int, j: int): Fault {
    var i := dataSize + 2 * j;
    var p := dataSize + dataSize / 2 + j;
    if |vBytes| <= i then VBufferIndexOutOfBounds(i)
    else if len <= p then ArrayIndexOutOfBounds(p)
    else if |uBytes| <= i + 1 then UBufferIndexOutOfBounds(i + 1)
    else ArrayIndexOutOfBounds(p + 1)
  }

  /** Java's `(dataSize + 2 * j) / 2` for a non-negative dataSize. */
  lemma HalfIndex(dataSize: int, j: nat)
    requires 0 <= dataSize
    ensures Div(dataSize + 2 * j, 2) == dataSize / 2 + j
  {
  }

  // ---------------------------------------------------------------------
  // Properties of the loop, from iteration j on.
  // ---------------------------------------------------------------------

  /** Iteration j is safe whenever a later iteration is: every bound the
      loop needs grows with j. */
  lemma SafeDownward(len: int, vBytes: seq<Byte>, uBytes: seq<Byte>, dataSize: int, j: int, k: int)
    requires j <= k
    requires IterationSafe(len, vBytes, uBytes, dataSize, k)
    ensures IterationSafe(len, vBytes, uBytes, dataSize, j)
  {
  }

  /** The loop completes exactly when its last iteration is safe. */
  lemma {:induction false} ChromaLoopOkIff(data: seq<Byte>, vBytes: seq<Byte>, uBytes: seq<Byte>,
                                           dataSize: int, chromaSize: int, j: nat)
    requires 0 <= dataSize
    requires j < chromaSize
    ensures ChromaLoop(data, vBytes, uBytes, dataSize, chromaSize, j).Ok?
        <==> IterationSafe(|data|, vBytes, uBytes, dataSize, chromaSize - 1)
    decreases chromaSize - j
  {
    HalfIndex(dataSize, j);
    if IterationSafe(|data|, vBytes, uBytes, dataSize, j) {
      var i := dataSize + 2 * j;
      var p := dataSize + Div(i, 2);
      var next := data[p := vBytes[i]][p + 1 := uBytes[i + 1]];
      if j + 1 < chromaSize {
        ChromaLoopOkIff(next, vBytes, uBytes, dataSize, chromaSize, j + 1);
      }
    } else if IterationSafe(|data|, vBytes, uBytes, dataSize, chromaSize - 1) {
      SafeDownward(|data|, vBytes, uBytes, dataSize, j, chromaSize - 1);
    }
  }

  /** When the loop fails, it fails at the first unsafe iteration, with that
      iteration's first failing check. */
  lemma {:induction false} ChromaLoopFault(data: seq<Byte>, vBytes: seq<Byte>, uBytes: seq<Byte>,
                                           dataSize: int, chromaSize: int, j: nat)
    requires 0 <= dataSize
    requires ChromaLoop(data, vBytes, uBytes, dataSize, chromaSize, j).Err?
    ensures exists jf ::
              && j <= jf < chromaSize
              && !IterationSafe(|data|, vBytes, uBytes, dataSize, jf)
              && (forall k :: j <= k < jf ==> IterationSafe(|data|, vBytes, uBytes, dataSize, k))
              && ChromaLoop(data, vBytes, uBytes, dataSize, chromaSize, j).fault
                 == IterationFault(|data|, vBytes, uBytes, dataSize, jf)
    decreases chromaSize - j
  {
    HalfIndex(dataSize, j);
    if IterationSafe(|data|, vBytes, uBytes, dataSize, j) {
      var i := dataSize + 2 * j;
      var p := dataSize + Div(i, 2);
      var next := data[p := vBytes[i]][p + 1 := uBytes[i + 1]];
      ChromaLoopFault(next, vBytes, uBytes, dataSize, chromaSize, j + 1);
    } else {
      assert !IterationSafe(|data|, vBytes, uBytes, dataSize, j);
    }
  }

  /** The loop from iteration j on changes nothing outside the window
      [dataSize + dataSize / 2 + j, dataSize + dataSize / 2 + chromaSize]. */
  lemma {:induction false} ChromaLoopFrame(data: seq<Byte>, vBytes: seq<Byte>, uBytes: seq<Byte>,
                                           dataSize: int, chromaSize: int, j: nat)
    requires 0 <= dataSize
    requires ChromaLoop(data, vBytes, uBytes, dataSize, chromaSize, j).Ok?
    ensures forall k ::
              0 <= k < |data| && (k < dataSize + dataSize / 2 + j || dataSize + dataSize / 2 + chromaSize < k)
              ==> ChromaLoop(data, vBytes, uBytes, dataSize, chromaSize, j).value[k] == data[k]
    decreases chromaSize - j
  {
    if j < chromaSize {
      HalfIndex(dataSize, j);
      var i := dataSize + 2 * j;
      var p := dataSize + Div(i, 2);
      var next := data[p := vBytes[i]][p + 1 := uBytes[i + 1]];
      ChromaLoopFrame(next, vBytes, uBytes, dataSize, chromaSize, j + 1);
    }
  }

  /** After a successful loop from iteration j on, slot
      dataSize + dataSize / 2 + k holds V[dataSize + 2k] for every remaining
      iteration k, and only the last U byte survives, one slot past them. */
  lemma {:induction false} ChromaLoopWindow(data: seq<Byte>, vBytes: seq<Byte>, uBytes: seq<Byte>,
                                            dataSize: int, chromaSize: int, j: nat)
    requires 0 <= dataSize
    requires j < chromaSize
    requires ChromaLoop(data, vBytes, uBytes, dataSize, chromaSize, j).Ok?
    ensures dataSize + dataSize / 2 + chromaSize < |data|
    ensures dataSize + 2 * chromaSize <= |uBytes| && dataSize + 2 * chromaSize - 1 <= |vBytes|
    ensures forall k :: j <= k < chromaSize ==>
      ChromaLoop(data, vBytes, uBytes, dataSize, chromaSize, j).value[dataSize + dataSize / 2 + k]
        == vBytes[dataSize + 2 * k]
    ensures ChromaLoop(data, vBytes, uBytes, dataSize, chromaSize, j).value[dataSize + dataSize / 2 + chromaSize]
        == uBytes[dataSize + 2 * chromaSize - 1]
    decreases chromaSize - j
  {
    ChromaLoopOkIff(data, vBytes, uBytes, dataSize, chromaSize, j);
    HalfIndex(dataSize, j);
    var i := dataSize + 2 * j;
    var p := dataSize + Div(i, 2);
    var next := data[p := vBytes[i]][p + 1 := uBytes[i + 1]];
    assert ChromaLoop(data, vBytes, uBytes, dataSize, chromaSize, j)
        == ChromaLoop(next, vBytes, uBytes, dataSize, chromaSize, j + 1);
    ChromaLoopFrame(next, vBytes, uBytes, dataSize, chromaSize, j + 1);
    if j + 1 < chromaSize {
      ChromaLoopWindow(next, vBytes, uBytes, dataSize, chromaSize, j + 1);
    }
  }

  // ---------------------------------------------------------------------
  // Properties of the whole routine: concatenation, then the loop from
  // iteration 0 with chromaSize == dataSize / 4 (Java division).
  // ---------------------------------------------------------------------

  /** When width * height is below 4, chromaSize is not positive, the loop
      does not run and the result is the plain concatenation Y ++ V ++ U. */
  lemma Nv21WithoutChroma(yBytes: seq<Byte>, uBytes: seq<Byte>, vBytes: seq<Byte>, dataSize: int)
    requires dataSize < 4
    ensures Nv21Bytes(yBytes, uBytes, vBytes, dataSize) == Ok(yBytes + vBytes + uBytes)
  {
  }

  /** The routine returns without an exception exactly when the frame has no
      chroma iterations, or the V plane reaches index dataSize + 2 * chromaSize - 2,
      the U plane reaches index dataSize + 2 * chromaSize - 1, and the
      concatenation reaches index dataSize + dataSize / 2 + chromaSize. */
  lemma Nv21SucceedsIff(yBytes: seq<Byte>, uBytes: seq<Byte>, vBytes: seq<Byte>, dataSize: int)
    ensures Nv21Bytes(yBytes, uBytes, vBytes, dataSize).Ok? <==>
      (dataSize < 4 ||
       (dataSize + 2 * (dataSize / 4) - 1 <= |vBytes| &&
        dataSize + 2 * (dataSize / 4) <= |uBytes| &&
        dataSize + dataSize / 2 + dataSize / 4 < |yBytes| + |vBytes| + |uBytes|))
  {
    if 4 <= dataSize {
      ChromaLoopOkIff(yBytes + vBytes + uBytes, vBytes, uBytes, dataSize, dataSize / 4, 0);
    }
  }

  /** The result is exactly as long as the three planes together: the loop
      only overwrites bytes of the concatenation. */
  lemma Nv21Length(yBytes: seq<Byte>, uBytes: seq<Byte>, vBytes: seq<Byte>, dataSize: int)
    requires Nv21Bytes(yBytes, uBytes, vBytes, dataSize).Ok?
    ensures |Nv21Bytes(yBytes, uBytes, vBytes, dataSize).value| == |yBytes| + |vBytes| + |uBytes|
  {
  }

  /** Every byte outside the written window
      [dataSize + dataSize / 2, dataSize + dataSize / 2 + chromaSize]
      keeps its value from Y ++ V ++ U. */
  lemma Nv21OutsideWindow(yBytes: seq<Byte>, uBytes: seq<Byte>, vBytes: seq<Byte>, dataSize: int)
    requires Nv21Bytes(yBytes, uBytes, vBytes, dataSize).Ok?
    ensures forall k ::
              0 <= k < |yBytes| + |vBytes| + |uBytes| &&
              (dataSize < 4 || k < dataSize + dataSize / 2 || dataSize + dataSize / 2 + dataSize / 4 < k)
              ==> Nv21Bytes(yBytes, uBytes, vBytes, dataSize).value[k] == (yBytes + vBytes + uBytes)[k]
  {
    if 4 <= dataSize {
      ChromaLoopFrame(yBytes + vBytes + uBytes, vBytes, uBytes, dataSize, dataSize / 4, 0);
    }
  }

  /** When the Y plane ends before the window starts, the output begins with
      the Y plane verbatim. */
  lemma Nv21LumaPrefix(yBytes: seq<Byte>, uBytes: seq<Byte>, vBytes: seq<Byte>, dataSize: int)
    requires Nv21Bytes(yBytes, uBytes, vBytes, dataSize).Ok?
    requires |yBytes| <= dataSize + dataSize / 2
    ensures Nv21Bytes(yBytes, uBytes, vBytes, dataSize).value[..|yBytes|] == yBytes
  {
    var out := Nv21Bytes(yBytes, uBytes, vBytes, dataSize).value;
    Nv21OutsideWindow(yBytes, uBytes, vBytes, dataSize);
    forall k | 0 <= k < |yBytes| ensures out[k] == yBytes[k] {
      assert (yBytes + vBytes + uBytes)[k] == yBytes[k];
    }
  }

  /** The surviving contents of the window: slot dataSize + dataSize / 2 + j
      holds V[dataSize + 2j] for each iteration j (so every U byte but the
      last was overwritten), and the slot after them holds the last U byte read,
      U[dataSize + 2 * chromaSize - 1]. */
  lemma Nv21ChromaWindow(yBytes: seq<Byte>, uBytes: seq<Byte>, vBytes: seq<Byte>, dataSize: int)
    requires 4 <= dataSize
    requires Nv21Bytes(yBytes, uBytes, vBytes, dataSize).Ok?
    ensures dataSize + dataSize / 2 + dataSize / 4 < |Nv21Bytes(yBytes, uBytes, vBytes, dataSize).value|
    ensures dataSize + 2 * (dataSize / 4) - 1 <= |vBytes| && dataSize + 2 * (dataSize / 4) <= |uBytes|
    ensures forall j :: 0 <= j < dataSize / 4 ==>
              Nv21Bytes(yBytes, uBytes, vBytes, dataSize).value[dataSize + dataSize / 2 + j]
              == vBytes[dataSize + 2 * j]
    ensures Nv21Bytes(yBytes, uBytes, vBytes, dataSize).value[dataSize + dataSize / 2 + dataSize / 4]
            == uBytes[dataSize + 2 * (dataSize / 4) - 1]
  {
    ChromaLoopWindow(yBytes + vBytes + uBytes, vBytes, uBytes, dataSize, dataSize / 4, 0);
  }

  /** When the routine throws, the exception is the one raised by the first
      check that fails in the first unsafe iteration. */
  lemma Nv21FirstFault(yBytes: seq<Byte>, uBytes: seq<Byte>, vBytes: seq<Byte>, dataSize: int)
    requires Nv21Bytes(yBytes, uBytes, vBytes, dataSize).Err?
    ensures 4 <= dataSize
    ensures exists jf ::
              && 0 <= jf < dataSize / 4
              && !IterationSafe(|yBytes + vBytes + uBytes|, vBytes, uBytes, dataSize, jf)
              && (forall k :: 0 <= k < jf ==> IterationSafe(|yBytes + vBytes + uBytes|, vBytes, uBytes, dataSize, k))
              && Nv21Bytes(yBytes, uBytes, vBytes, dataSize).fault
                 == IterationFault(|yBytes + vBytes + uBytes|, vBytes, uBytes, dataSize, jf)
  {
    assert 4 <= dataSize && Div(dataSize, 4) == dataSize / 4;
    ChromaLoopFault(yBytes + vBytes + uBytes, vBytes, uBytes, dataSize, dataSize / 4, 0);
  }

  /** A V plane no longer than width * height (as a 4:2:0 frame's V plane
      always is) makes the very first read, vBuffer.get(dataSize), throw. */
  lemma Nv21ShortVPlaneFails(yBytes: seq<Byte>, uBytes: seq<Byte>, vBytes: seq<Byte>, dataSize: int)
    requires 4 <= dataSize
    requires |vBytes| <= dataSize
    ensures Nv21Bytes(yBytes, uBytes, vBytes, dataSize) == Err(VBufferIndexOutOfBounds(dataSize))
  {
  }
}
