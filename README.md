# StreamImageUtils plane repacking, in Dafny

This project models the byte-level core of the flutter_d2go Android plugin's
`StreamImageUtils` class. The Dart side sends a camera frame as three plane
byte arrays (Y, U, V) with their bytes-per-pixel, plus width, height and
rotation.

- The constructor stores these in a plane table.
- `cameraStreamToBytes` builds the byte array that is later handed to the YUV
  to RGB converter. It concatenates the planes in the order Y, V, U. It then
  runs a loop that overwrites a window of that array with bytes read from the
  V and U planes.

The model follows the code's actual index arithmetic:

- The loop index `i` starts at `dataSize = width * height` and steps by 2 for
  `chromaSize = dataSize / 4` iterations.
- Iteration `j` (with `i = dataSize + 2j`) stores `V[i]` at
  `dataSize + i/2` and `U[i+1]` at `dataSize + i/2 + 1`.
- So the next iteration's V byte overwrites every U byte except the last one.

The plane reads go through `ByteBuffer.get`, and the stores go into a Java
array. Both throw when an index is out of range. The model returns these
exceptions as `Err` values, checked in Java's evaluation order.

Files:

- `java_lang.dfy` (module `JavaLang`): Java's signed `byte`, the `int` range,
  and Java's truncating integer division.
- `nv21.dfy` (module `Nv21`): the exceptions, `ChromaLoop` (the loop as a
  function, one iteration per call), `Nv21Bytes` (the whole routine), and the
  lemmas that state the routine's behaviour in closed form.
- `stream_image_utils.dfy` (module `StreamImage`): the `StreamImageUtils`
  class. Its constructor fills the plane table in a loop. Its
  `CameraStreamToBytes` method concatenates the planes into an `array` and
  overwrites it in place in a `while` loop. The method is proved equal to
  `Nv21Bytes`.

A conventional NV21 packer would start the chroma interleave at offset 0 of
each chroma plane and step by the pixel stride. This code does neither, and
the model follows the code. One consequence is proved in
`Nv21ShortVPlaneFails`: a V plane no longer than `width * height` makes the
first read, `vBuffer.get(width * height)`, throw. A real 4:2:0 frame's V plane
is always that short. For example, a 2x2 frame with 2-byte U and V planes ends
in an `IndexOutOfBoundsException`. It never comes out as an interleaved
`Y ++ [V0, U0, V1, U1]`.

## Model

| member | source | states |
|---|---|---|
| `StreamImage.StreamImageUtils.constructor` | android/src/main/java/com/tsubauaaa/flutter_d2go/StreamImageUtils.java:45-57 | The table has exactly 3 planes. Plane i pairs `imageBytesList[i]` with `imageBytesPerPixel[i]`. Width, height and rotation are stored unchanged. |
| `StreamImage.StreamImageUtils.CameraStreamToBytes` | android/src/main/java/com/tsubauaaa/flutter_d2go/StreamImageUtils.java:110-142 | The array built from Y ++ V ++ U and updated in place by the loop `for (i = dataSize; i < totalSize; i += 2)` gives exactly `Nv21Bytes` of the three planes' bytes and `width*height`: the same bytes or the same exception. The loop runs iteration j with `i = dataSize + 2j` for j in `[0, chromaSize)`. The result depends on no bytes-per-pixel value. The body proves that, under the area bound, no Java `int` expression in the loop wraps. |
| `Nv21.ChromaLoop` | android/src/main/java/com/tsubauaaa/flutter_d2go/StreamImageUtils.java:137-140 | When the loop completes, the array has the same length as before: the loop only overwrites existing indices. |
| `Nv21.ChromaLoopOkIff` | android/src/main/java/com/tsubauaaa/flutter_d2go/StreamImageUtils.java:137-140 | From iteration j on, the loop completes if and only if its last iteration's two reads and two stores are in range. |
| `Nv21.ChromaLoopFault` | android/src/main/java/com/tsubauaaa/flutter_d2go/StreamImageUtils.java:137-140 | When the loop throws, some iteration jf is unsafe and all earlier iterations are safe. The exception is the first failing check of jf, in the order V read, V store, U read, U store. |
| `Nv21.ChromaLoopFrame` | android/src/main/java/com/tsubauaaa/flutter_d2go/StreamImageUtils.java:137-140 | From iteration j on, the loop leaves every index below `dataSize + dataSize/2 + j` and above `dataSize + dataSize/2 + chromaSize` unchanged. |
| `Nv21.ChromaLoopWindow` | android/src/main/java/com/tsubauaaa/flutter_d2go/StreamImageUtils.java:137-140 | After a completed loop from iteration j on, slot `dataSize + dataSize/2 + k` holds `V[dataSize + 2k]` for each remaining iteration k. Slot `dataSize + dataSize/2 + chromaSize` holds `U[dataSize + 2*chromaSize - 1]`. |
| `Nv21.Nv21WithoutChroma` | android/src/main/java/com/tsubauaaa/flutter_d2go/StreamImageUtils.java:124-140 | When `width*height < 4` (this includes a negative product), `chromaSize` is not positive and the loop does not run. The result is Y ++ V ++ U. |
| `Nv21.Nv21SucceedsIff` | android/src/main/java/com/tsubauaaa/flutter_d2go/StreamImageUtils.java:133-140 | No exception occurs if and only if `dataSize < 4`, or all of these hold: `|V| >= dataSize + 2*chromaSize - 1`, `|U| >= dataSize + 2*chromaSize` and `|Y|+|V|+|U| > dataSize + dataSize/2 + chromaSize`. |
| `Nv21.Nv21Length` | android/src/main/java/com/tsubauaaa/flutter_d2go/StreamImageUtils.java:124-140 | The output length is `|Y| + |V| + |U|`. |
| `Nv21.Nv21OutsideWindow` | android/src/main/java/com/tsubauaaa/flutter_d2go/StreamImageUtils.java:124-140 | Every index outside `[dataSize + dataSize/2, dataSize + dataSize/2 + chromaSize]` keeps its byte from Y ++ V ++ U. |
| `Nv21.Nv21LumaPrefix` | android/src/main/java/com/tsubauaaa/flutter_d2go/StreamImageUtils.java:126-140 | If `|Y| <= dataSize + dataSize/2`, the output starts with the Y plane verbatim. |
| `Nv21.Nv21ChromaWindow` | android/src/main/java/com/tsubauaaa/flutter_d2go/StreamImageUtils.java:134-140 | On success, `out[dataSize + dataSize/2 + j] == V[dataSize + 2j]` for every j below `chromaSize`, so every U byte except the last is overwritten. `out[dataSize + dataSize/2 + chromaSize] == U[dataSize + 2*chromaSize - 1]`. |
| `Nv21.Nv21FirstFault` | android/src/main/java/com/tsubauaaa/flutter_d2go/StreamImageUtils.java:134-140 | An exception implies `dataSize >= 4`. It is the first failing check of the first unsafe iteration. |
| `Nv21.Nv21ShortVPlaneFails` | android/src/main/java/com/tsubauaaa/flutter_d2go/StreamImageUtils.java:137-138 | With `dataSize >= 4` and `|V| <= dataSize`, the routine throws `IndexOutOfBoundsException` from `vBuffer.get(dataSize)` in the first iteration. |

## Left out

- `StreamImage.StreamImageUtils.CameraStreamToBytes`: requires `|width*height| < 2^30`, so the Java `int` arithmetic of lines 134-139 never wraps. Wrap-around for larger products is not modelled.
- `StreamImage.StreamImageUtils.constructor`: requires at least 3 entries in each argument list. The `IndexOutOfBoundsException` that `ArrayList.get` throws for a shorter list is not modelled. Null list entries are not modelled either.
- The `ByteArrayOutputStream` concatenation is modelled as total. The `IOException` catch (lines 129-131) cannot fire for an in-memory stream. The `OutOfMemoryError` for a concatenation longer than `Integer.MAX_VALUE` bytes is not modelled. Plane lengths are unbounded in the model.
- Reading the arguments from the Flutter `MethodCall` (lines 40-44) is cross-language glue. The constructor takes the already extracted values, and the `Context` it stores is left out.
- `streamImageToBitmap` (lines 80-103) is left out: it is the YUV to RGB conversion through RenderScript's `ScriptIntrinsicYuvToRGB`, a library call with no visible arithmetic.
- `getBitmap` (lines 67-73) is left out: it scales and rotates through `Bitmap.createScaledBitmap` and `Matrix.postRotate`, which are library calls doing floating-point resampling.
- Java's signed `byte` is modelled as a signed 8-bit newtype. Bytes are only copied, never computed on.
