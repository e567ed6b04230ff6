/**
  The `StreamImageUtils` object: the plane table its constructor builds from
  the arguments of a camera-frame call, and `cameraStreamToBytes`, which
  repacks the three planes into one byte array. The table never changes after
  construction, so its entries are `const` fields.
*/
module StreamImage {
  import opened JavaLang
  import opened Nv21

  /** One entry of the "planes" list: the plane's bytes and its pixel stride. */
  datatype Plane = Plane(bytes: seq<Byte>, bytesPerPixel: int)

  /** Java's `width * height` and the arithmetic the loop derives from it
      stay inside the `int` range. */
  predicate AreaFitsInt(width: int, height: int) {
    -0x4000_0000 <= width * height < 0x4000_0000
  }

  class StreamImageUtils {
    const planes: seq<Plane>
    const width: int
    const height: int
    const rotation: int

    /** The table holds the Y, U and V planes, in that order. */
    predicate Valid() {
      |planes| == 3
    }

    /** Pairs plane i's bytes with its bytes-per-pixel for i = 0, 1, 2 and
        stores width, height and rotation unchanged. Entries past the third
        are ignored. */
    constructor (imageBytesList: seq<seq<Byte>>, imageBytesPerPixel: seq<int>,
                 width: int, height: int, rotation: int)
      requires 3 <= |imageBytesList| && 3 <= |imageBytesPerPixel|
      ensures Valid()
      ensures forall i :: 0 <= i < 3 ==> planes[i] == Plane(imageBytesList[i], imageBytesPerPixel[i])
      ensures this.width == width && this.height == height && this.rotation == rotation
    {
      // The list starts as three empty maps; each slot is then replaced.
      var table := [Plane([], 0), Plane([], 0), Plane([], 0)];
      var i := 0;
      while i < |table|
        invariant 0 <= i <= |table| == 3
        invariant forall k :: 0 <= k < i ==> table[k] == Plane(imageBytesList[k], imageBytesPerPixel[k])
      {
        table := table[i := Plane(imageBytesList[i], imageBytesPerPixel[i])];
        i := i + 1;
      }
      planes := table;
      this.width := width;
      this.height := height;
      this.rotation := rotation;
    }

    /** Concatenates the planes as Y, V, U and then overwrites a window of the
        result in a loop whose index i runs from dataSize to totalSize by 2.
        The result, or the exception thrown, is Nv21Bytes of the planes' bytes
        and width * height: the pixel strides play no part in it. */
    method CameraStreamToBytes() returns (r: Result<seq<Byte>>)
      requires Valid()
      requires AreaFitsInt(width, height)
      ensures r == Nv21Bytes(planes[0].bytes, planes[1].bytes, planes[2].bytes, width * height)
    {
      var yBytes := planes[0].bytes;
      var uBytes := planes[1].bytes;
      var vBytes := planes[2].bytes;
      var colorPixelStride := planes[1].bytesPerPixel;  // read, never used

      var outputBytes: seq<Byte> := [];
      outputBytes := outputBytes + yBytes;
      outputBytes := outputBytes + vBytes;
      outputBytes := outputBytes + uBytes;

      var data := new Byte[|outputBytes|](k requires 0 <= k < |outputBytes| => outputBytes[k]);
      assert outputBytes == yBytes + vBytes + uBytes;
      assert data[..] == outputBytes;
      var dataSize := width * height;
      assert -0x4000_0000 <= dataSize < 0x4000_0000;
      var chromaSize := Div(dataSize, 4);
      assert dataSize < 4 ==> chromaSize <= 0;
      assert 0 <= dataSize ==> 4 * chromaSize <= dataSize;
      var totalSize := dataSize + 2 * chromaSize;
      assert IsInt(chromaSize) && IsInt(totalSize);
      var i := dataSize;
      ghost var j: nat := 0;
      while i < totalSize
        invariant i == dataSize + 2 * j
        invariant j == 0 || j <= chromaSize
        invariant data.Length == |outputBytes|
        invariant ChromaLoop(data[..], vBytes, uBytes, dataSize, chromaSize, j)
               == ChromaLoop(outputBytes, vBytes, uBytes, dataSize, chromaSize, 0)
        decreases totalSize - i
      {
        var p := dataSize + Div(i, 2);
        assert IsInt(i + 1) && IsInt(p + 1) && IsInt(i + 2);
        if !(0 <= i < |vBytes|) {
          return Err(VBufferIndexOutOfBounds(i));
        }
        if !(0 <= p < data.Length) {
          return Err(ArrayIndexOutOfBounds(p));
        }
        data[p] := vBytes[i];
        if !(0 <= i + 1 < |uBytes|) {
          return Err(UBufferIndexOutOfBounds(i + 1));
        }
        if !(0 <= p + 1 < data.Length) {
          return Err(ArrayIndexOutOfBounds(p + 1));
        }
        data[p + 1] := uBytes[i + 1];
        i := i + 2;
        j := j + 1;
      }
      assert chromaSize <= j;
      return Ok(data[..]);
    }
  }
}
