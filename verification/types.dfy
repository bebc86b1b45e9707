/**
 The shared data model of the EXR viewer's loading core: what the OpenEXR
 library hands over (headers, channel type tags, raw buffers, read outcomes)
 and what the loader builds from it (parts, layers, decoded planes).
 */
module ExrTypes {

  /** A byte of a raw pixel buffer. */
  newtype byte = x: int | 0 <= x < 256

  type Bytes = seq<byte>

  /** Python's `None` or a value. */
  datatype Option<+T> = None | Some(value: T)

  datatype Result<+T, +E> = Success(value: T) | Failure(error: E)

  /** The outcome of a call into the OpenEXR library: it raised, or it returned a value. */
  datatype Fetch<+T> = Raised | Returned(value: T)

  /** `Imath.PixelType` tags; any code other than FLOAT and UINT is read as half. */
  datatype PixelTag = UIntTag | HalfTag | FloatTag | OtherTag(code: int)

  /** One entry of the header's `channels` attribute: a channel name and its pixel type. */
  datatype ChannelInfo = ChannelInfo(name: string, ptype: PixelTag)

  ghost predicate NamesDistinct(cs: seq<ChannelInfo>) {
    forall i, j :: 0 <= i < j < |cs| ==> cs[i].name != cs[j].name
  }

  /** The header's channel list, in header order; its names are the keys of a dict, hence distinct. */
  type ChannelList = cs: seq<ChannelInfo> | NamesDistinct(cs) witness []

  function Names(cs: seq<ChannelInfo>): (r: seq<string>)
    ensures |r| == |cs|
    ensures forall i :: 0 <= i < |cs| ==> r[i] == cs[i].name
  {
    seq(|cs|, i requires 0 <= i < |cs| => cs[i].name)
  }

  /** An `Imath.Box2i`: the inclusive corners of the data window. */
  datatype Box = Box(minX: int, minY: int, maxX: int, maxY: int)

  /** A part header: the data window, the channel list, and every other attribute passed through untouched. */
  datatype Header = Header(dataWindow: Box, channels: ChannelList, attributes: map<string, string>)

  /** numpy dtypes a channel buffer is read as. */
  datatype DType = Float32 | UInt32 | Float16

  /**
   A decoded channel: `height` rows of `width` elements, each element the
   raw bytes of one sample of type `dtype`.
   */
  datatype Plane = Plane(dtype: DType, height: nat, width: nat, rows: seq<seq<Bytes>>)

  /** One entry of the `layers` dict: a layer name and its channel names in header order. */
  datatype Layer = Layer(name: string, channels: seq<string>)

  /** (width, height) as the loader computes it from the data window. */
  datatype Size = Size(width: int, height: int)

  datatype Part = Part(name: string, header: Header, size: Size, channels: map<string, Plane>, layers: seq<Layer>)

  datatype Image = Image(filepath: string, parts: seq<Part>)

  /** Why a read fails. */
  datatype LoadError =
    | NotOpenExr                   // the format check rejected the file
    | LibraryRaised                // an OpenEXR call raised
    | MissingChannel(name: string) // multi-part: the pixel dict lacks a header channel
    | BadBuffer(name: string)      // multi-part: a buffer is None or has the wrong length
}
