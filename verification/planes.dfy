/**
 Turning one raw channel buffer into an `(h, w)` plane: the dtype chosen from
 the pixel-type tag, `np.frombuffer`, and the `arr.shape = (h, w)` reshape.
 */
module Planes {
  import opened ExrTypes

  /** The dtype the loader picks for a tag: FLOAT and UINT are recognised, anything else is half. */
  function DTypeOf(tag: PixelTag): (t: DType)
    ensures t == Float32 <==> tag == FloatTag
    ensures t == UInt32 <==> tag == UIntTag
  {
    match tag
    case FloatTag => Float32
    case UIntTag => UInt32
    case _ => Float16
  }

  /** Bytes per sample of a dtype. */
  function ElemSize(t: DType): (n: nat)
    ensures n == 2 || n == 4
    ensures n == 2 <==> t == Float16
  {
    match t
    case Float32 => 4
    case UInt32 => 4
    case Float16 => 2
  }

  /** The tag that names a dtype, used to re-read a plane's own bytes. */
  function TagOf(t: DType): (tag: PixelTag)
    ensures DTypeOf(tag) == t
  {
    match t
    case Float32 => FloatTag
    case UInt32 => UIntTag
    case Float16 => HalfTag
  }

  function Flatten<T>(ss: seq<seq<T>>): seq<T> {
    if |ss| == 0 then [] else ss[0] + Flatten(ss[1..])
  }

  /** `s` cut, front to back, into `n` consecutive pieces of length `k`. */
  function Chunks<T>(s: seq<T>, n: nat, k: nat): (r: seq<seq<T>>)
    requires |s| == n * k
    ensures |r| == n
    ensures forall i :: 0 <= i < n ==> |r[i]| == k
    ensures forall i, j :: 0 <= i < n && 0 <= j < k ==> r[i][j] in s
    ensures Flatten(r) == s
  {
    if n == 0 then []
    else
      assert |s[k..]| == (n - 1) * k;
      [s[..k]] + Chunks(s[k..], n - 1, k)
  }

  lemma {:induction false} FlattenLength<T>(ss: seq<seq<T>>, k: nat)
    requires forall i :: 0 <= i < |ss| ==> |ss[i]| == k
    ensures |Flatten(ss)| == |ss| * k
  {
    if |ss| > 0 {
      FlattenLength(ss[1..], k);
    }
  }

  /** Cutting a concatenation of equal-length pieces gives the pieces back. */
  lemma {:induction false} ChunksOfFlatten<T>(ss: seq<seq<T>>, k: nat)
    requires forall i :: 0 <= i < |ss| ==> |ss[i]| == k
    ensures |Flatten(ss)| == |ss| * k
    ensures Chunks(Flatten(ss), |ss|, k) == ss
  {
    FlattenLength(ss, k);
    if |ss| > 0 {
      ChunksOfFlatten(ss[1..], k);
      var f := Flatten(ss);
      assert f == ss[0] + Flatten(ss[1..]);
      assert f[..k] == ss[0];
      assert f[k..] == Flatten(ss[1..]);
    }
  }

  /** A plane whose rows and elements have the lengths its header fields announce. */
  ghost predicate WellShaped(p: Plane) {
    && |p.rows| == p.height
    && (forall y :: 0 <= y < p.height ==> |p.rows[y]| == p.width)
    && (forall y, x :: 0 <= y < p.height && 0 <= x < p.width ==> |p.rows[y][x]| == ElemSize(p.dtype))
  }

  /** `ndarray.tobytes()`: the samples in row-major order. */
  function ToBytes(p: Plane): Bytes {
    Flatten(Flatten(p.rows))
  }

  datatype DecodeError = NegativeShape | SizeMismatch

  /**
   `np.frombuffer(buf, dtype)` followed by `arr.shape = (h, w)`: it succeeds
   exactly when the buffer holds `w*h` samples of the tag's dtype, and the
   plane's row-major bytes are the buffer.
   */
  function Decode(buf: Bytes, tag: PixelTag, w: int, h: int): (r: Result<Plane, DecodeError>)
    ensures r.Success? <==> w >= 0 && h >= 0 && |buf| == w * h * ElemSize(DTypeOf(tag))
    ensures r.Success? ==>
      && r.value.dtype == DTypeOf(tag)
      && r.value.height == h && r.value.width == w
      && WellShaped(r.value)
      && ToBytes(r.value) == buf
  {
    if w < 0 || h < 0 then Failure(NegativeShape)
    else
      var es := ElemSize(DTypeOf(tag));
      if |buf| != w * h * es then Failure(SizeMismatch)
      else
        assert |buf| == (h * w) * es;
        var samples := Chunks(buf, h * w, es);
        assert |samples| == h * w;
        var rows := Chunks(samples, h, w);
        Success(Plane(DTypeOf(tag), h, w, rows))
  }

  /** Concatenating rows whose elements all have length `k` keeps that element length. */
  lemma {:induction false} FlattenUniform<T>(ss: seq<seq<seq<T>>>, k: nat)
    requires forall i, j :: 0 <= i < |ss| && 0 <= j < |ss[i]| ==> |ss[i][j]| == k
    ensures forall j :: 0 <= j < |Flatten(ss)| ==> |Flatten(ss)[j]| == k
  {
    if |ss| > 0 {
      FlattenUniform(ss[1..], k);
      assert Flatten(ss) == ss[0] + Flatten(ss[1..]);
    }
  }

  /** Reading a plane's own bytes back with its own dtype and shape gives the plane. */
  lemma DecodeToBytes(p: Plane)
    requires WellShaped(p)
    ensures Decode(ToBytes(p), TagOf(p.dtype), p.width, p.height) == Success(p)
  {
    var es := ElemSize(p.dtype);
    FlattenLength(p.rows, p.width);
    FlattenUniform(p.rows, es);
    ChunksOfFlatten(Flatten(p.rows), es);
    ChunksOfFlatten(p.rows, p.width);
    assert |ToBytes(p)| == p.width * p.height * es;
  }
}
