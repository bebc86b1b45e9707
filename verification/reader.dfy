/**
 `FileOperationThread._load_exr` and the load half of `run`: from what the
 OpenEXR library reports about a file to the `{"filepath", "parts"}` model,
 in the single-part layout (bulk read, per-channel fallback, skip what does
 not decode) and the multi-part layout (every channel must decode).
 */
module Reader {
  import opened ExrTypes
  import opened Planes
  import opened Layers

  /** What `InputFile.channels(names)` returned: a dict by name, or a list in request order. */
  datatype BulkPixels = AsDict(entries: map<string, Option<Bytes>>) | AsList(items: seq<Option<Bytes>>)

  /**
   A single-part file as `InputFile` sees it: its header, the outcome of the
   bulk read, and the channels whose own `channel(name)` call returned (a
   name missing from `perChannel` is a call that raised).
   */
  datatype SingleSource = SingleSource(header: Header, bulk: Fetch<BulkPixels>, perChannel: map<string, Option<Bytes>>)

  /** One part as `MultiPartInputFile.get_part(i)` sees it: its name, `header()` and `pixels()`. */
  datatype PartSource = PartSource(name: string, header: Fetch<Header>, pixels: Fetch<map<string, Option<Bytes>>>)

  /**
   A file on disk as the library reports it: the `isOpenExrFile` verdict and
   the outcome of opening it with either API.
   */
  datatype ExrFile = ExrFile(isOpenExr: bool, single: Fetch<SingleSource>, multi: Fetch<seq<PartSource>>)

  /** The thread's signal: `finished(data)` or `error(message)`. */
  datatype RunSignal = Finished(data: Image) | ErrorSignal(reason: LoadError)

  /** `(max.x - min.x + 1, max.y - min.y + 1)`: the window spans `width` columns from `min.x` and `height` rows from `min.y`. */
  function WindowSize(b: Box): (s: Size)
    ensures b.minX + s.width - 1 == b.maxX
    ensures b.minY + s.height - 1 == b.maxY
  {
    Size(b.maxX - b.minX + 1, b.maxY - b.minY + 1)
  }

  function NameSet(cs: seq<ChannelInfo>): set<string> {
    set c | c in cs :: c.name
  }

  /** The names of a non-empty list are its first name and the names of the rest. */
  lemma NameSetCons(cs: seq<ChannelInfo>)
    requires |cs| > 0
    ensures NameSet(cs) == {cs[0].name} + NameSet(cs[1..])
  {
    assert cs == [cs[0]] + cs[1..];
  }

  /** A buffer that `np.frombuffer` plus the `(h, w)` reshape accept for a channel of type `tag`. */
  predicate Fits(buf: Bytes, tag: PixelTag, size: Size) {
    size.width >= 0 && size.height >= 0 && |buf| == size.width * size.height * ElemSize(DTypeOf(tag))
  }

  /**
   The list branch of the bulk read: channel `i` gets element `i` when the
   list is long enough; later channels get no entry and surplus elements are
   ignored.
   */
  function FromList(chans: seq<ChannelInfo>, items: seq<Option<Bytes>>): (r: map<string, Option<Bytes>>)
    ensures r.Keys <= NameSet(chans)
  {
    if |chans| == 0 then map[]
    else
      var k := |chans| - 1;
      var m := FromList(chans[..k], items);
      if k < |items| then m[chans[k].name := items[k]] else m
  }

  /** Channel `i` of a list with distinct names has an entry exactly when `i < |items|`, and that entry is `items[i]`. */
  lemma {:induction false} FromListAt(chans: ChannelList, items: seq<Option<Bytes>>, i: nat)
    requires i < |chans|
    ensures chans[i].name in FromList(chans, items) <==> i < |items|
    ensures i < |items| ==> FromList(chans, items)[chans[i].name] == items[i]
  {
    var k := |chans| - 1;
    if i < k {
      var prefix := chans[..k];
      assert prefix[i] == chans[i];
      assert chans[i].name != chans[k].name;
      FromListAt(prefix, items, i);
    }
  }

  /** The per-channel fallback: every channel whose own read returned, with what it returned. */
  function ReadEach(chans: ChannelList, perChannel: map<string, Option<Bytes>>): (r: map<string, Option<Bytes>>)
    ensures r.Keys <= NameSet(chans)
    ensures forall i :: 0 <= i < |chans| ==>
      (chans[i].name in r <==> chans[i].name in perChannel)
      && (chans[i].name in r ==> r[chans[i].name] == perChannel[chans[i].name])
  {
    map n | n in NameSet(chans) && n in perChannel :: perChannel[n]
  }

  /** `pixels_dict` after the bulk read or its fallback. */
  function PixelDict(src: SingleSource): map<string, Option<Bytes>> {
    match src.bulk
    case Returned(AsDict(m)) => m
    case Returned(AsList(items)) => FromList(src.header.channels, items)
    case Raised => ReadEach(src.header.channels, src.perChannel)
  }

  /** The plane stored for one channel in single-part mode, if any. */
  function Stored(c: ChannelInfo, pixels: map<string, Option<Bytes>>, size: Size): (r: Option<Plane>)
    ensures r.Some? <==> c.name in pixels && pixels[c.name].Some? && Fits(pixels[c.name].value, c.ptype, size)
  {
    if c.name in pixels && pixels[c.name].Some? then
      match Decode(pixels[c.name].value, c.ptype, size.width, size.height)
      case Success(p) => Some(p)
      case Failure(_) => None
    else None
  }

  /**
   The single-part decode loop: every channel is tried in header order, and
   one that cannot be decoded is skipped; nothing but header channels is
   stored.
   */
  function DecodeAvailable(chans: seq<ChannelInfo>, pixels: map<string, Option<Bytes>>, size: Size): (r: map<string, Plane>)
    ensures r.Keys <= NameSet(chans)
  {
    if |chans| == 0 then map[]
    else
      var k := |chans| - 1;
      var m := DecodeAvailable(chans[..k], pixels, size);
      match Stored(chans[k], pixels, size)
      case Some(p) => m[chans[k].name := p]
      case None => m
  }

  /**
   For a header with distinct channel names, channel `i` is stored exactly
   when it has an entry, the entry is not None, and the buffer has the length
   the window and the pixel type call for, and what is stored is its decoded
   plane; a skipped channel does not affect the others.
   */
  lemma {:induction false} DecodeAvailableAt(chans: ChannelList, pixels: map<string, Option<Bytes>>, size: Size, i: nat)
    requires i < |chans|
    ensures chans[i].name in DecodeAvailable(chans, pixels, size) <==>
      chans[i].name in pixels && pixels[chans[i].name].Some? && Fits(pixels[chans[i].name].value, chans[i].ptype, size)
    ensures chans[i].name in DecodeAvailable(chans, pixels, size) ==>
      Some(DecodeAvailable(chans, pixels, size)[chans[i].name]) == Stored(chans[i], pixels, size)
  {
    var k := |chans| - 1;
    if i < k {
      var prefix := chans[..k];
      assert prefix[i] == chans[i];
      assert chans[i].name != chans[k].name;
      DecodeAvailableAt(prefix, pixels, size, i);
    }
  }

  /** The single-part branch: one pseudo-part named "default". */
  function SinglePartImage(path: string, src: SingleSource): (img: Image)
    ensures img.filepath == path && |img.parts| == 1
    ensures img.parts[0].name == "default" && img.parts[0].header == src.header
    ensures img.parts[0].size == WindowSize(src.header.dataWindow)
    ensures img.parts[0].channels.Keys <= NameSet(src.header.channels)
  {
    var size := WindowSize(src.header.dataWindow);
    var chans := src.header.channels;
    var part := Part("default", src.header, size, DecodeAvailable(chans, PixelDict(src), size), Group(Names(chans)));
    Image(path, [part])
  }

  /**
   The multi-part decode loop: every header channel must have an entry whose
   buffer fits, or the read fails at the first channel that does not.
   */
  function DecodeAll(chans: seq<ChannelInfo>, pixels: map<string, Option<Bytes>>, size: Size): (r: Result<map<string, Plane>, LoadError>)
    ensures r.Success? <==> forall i :: 0 <= i < |chans| ==> Stored(chans[i], pixels, size).Some?
    ensures r.Success? ==> r.value.Keys == NameSet(chans)
    ensures r.Failure? ==> exists i :: (0 <= i < |chans| && Stored(chans[i], pixels, size).None?
      && (r.error == MissingChannel(chans[i].name) || r.error == BadBuffer(chans[i].name)))
  {
    if |chans| == 0 then Success(map[])
    else
      var c := chans[0];
      if c.name !in pixels then Failure(MissingChannel(c.name))
      else match Stored(c, pixels, size)
        case None => Failure(BadBuffer(c.name))
        case Some(p) =>
          var rest := chans[1..];
          assert forall i :: 1 <= i < |chans| ==> rest[i - 1] == chans[i];
          match DecodeAll(rest, pixels, size)
          case Failure(e) => Failure(e)
          case Success(m) =>
            NameSetCons(chans);
            Success(m[c.name := p])
  }

  /** For a header with distinct channel names, a successful multi-part decode stores channel `i` as its decoded plane. */
  lemma {:induction false} DecodeAllAt(chans: ChannelList, pixels: map<string, Option<Bytes>>, size: Size, i: nat)
    requires i < |chans|
    ensures DecodeAll(chans, pixels, size).Success? ==>
      Some(DecodeAll(chans, pixels, size).value[chans[i].name]) == Stored(chans[i], pixels, size)
  {
    if i > 0 && DecodeAll(chans, pixels, size).Success? {
      var rest := chans[1..];
      assert rest[i - 1] == chans[i];
      assert chans[i].name != chans[0].name;
      assert forall j :: 0 <= j < |rest| ==> rest[j] == chans[j + 1];
      DecodeAllAt(rest, pixels, size, i - 1);
    }
  }

  /**
   One part of a multi-part file: it loads exactly when its header and pixel
   reads return and every header channel decodes at the window's size; a
   raising library call fails it with `LibraryRaised`.
   */
  function LoadPart(src: PartSource): (r: Result<Part, LoadError>)
    ensures r.Success? <==>
      && src.header.Returned? && src.pixels.Returned?
      && forall i :: 0 <= i < |src.header.value.channels| ==>
           Stored(src.header.value.channels[i], src.pixels.value, WindowSize(src.header.value.dataWindow)).Some?
    ensures src.header.Raised? || src.pixels.Raised? ==> r == Failure(LibraryRaised)
  {
    match src.header
    case Raised => Failure(LibraryRaised)
    case Returned(h) =>
      var size := WindowSize(h.dataWindow);
      match src.pixels
      case Raised => Failure(LibraryRaised)
      case Returned(pixels) =>
        match DecodeAll(h.channels, pixels, size)
        case Failure(e) => Failure(e)
        case Success(planes) => Success(Part(src.name, h, size, planes, Group(Names(h.channels))))
  }

  /** The multi-part loop: parts in file order, and the first failing part fails the whole read. */
  function LoadParts(srcs: seq<PartSource>): (r: Result<seq<Part>, LoadError>)
    ensures r.Success? <==> forall i :: 0 <= i < |srcs| ==> LoadPart(srcs[i]).Success?
    ensures r.Success? ==> |r.value| == |srcs| && forall i :: 0 <= i < |srcs| ==> r.value[i] == LoadPart(srcs[i]).value
  {
    if |srcs| == 0 then Success([])
    else
      match LoadPart(srcs[0])
      case Failure(e) => Failure(e)
      case Success(p) =>
        match LoadParts(srcs[1..])
        case Failure(e) => Failure(e)
        case Success(ps) => Success([p] + ps)
  }

  /** `_load_exr` of the single-part-only loader: the format check, then the single-part branch. */
  function ReadSingle(path: string, file: ExrFile): (r: Result<Image, LoadError>)
    ensures !file.isOpenExr ==> r == Failure(NotOpenExr)
    ensures r.Success? ==> r.value.filepath == path && |r.value.parts| == 1 && r.value.parts[0].name == "default"
  {
    if !file.isOpenExr then Failure(NotOpenExr)
    else
      match file.single
      case Raised => Failure(LibraryRaised)
      case Returned(src) => Success(SinglePartImage(path, src))
  }

  /**
   `_load_exr` of the package loader: the format check, then the multi-part
   branch when the library offers `MultiPartInputFile`, else the single-part one.
   */
  function ReadContainer(path: string, file: ExrFile, hasMultiPart: bool): (r: Result<Image, LoadError>)
    ensures !file.isOpenExr ==> r == Failure(NotOpenExr)
    ensures r.Success? ==> r.value.filepath == path
    ensures !hasMultiPart ==> r == ReadSingle(path, file)
  {
    if !file.isOpenExr then Failure(NotOpenExr)
    else if hasMultiPart then
      match file.multi
      case Raised => Failure(LibraryRaised)
      case Returned(srcs) =>
        match LoadParts(srcs)
        case Failure(e) => Failure(e)
        case Success(parts) => Success(Image(path, parts))
    else ReadSingle(path, file)
  }

  /** `run` with operation "load": `finished` with the data, or `error` and no data. */
  function RunLoad(path: string, file: ExrFile, hasMultiPart: bool): (s: RunSignal)
    ensures s.Finished? <==> ReadContainer(path, file, hasMultiPart).Success?
    ensures s.Finished? ==> s.data == ReadContainer(path, file, hasMultiPart).value
    ensures !file.isOpenExr ==> s == ErrorSignal(NotOpenExr)
  {
    match ReadContainer(path, file, hasMultiPart)
    case Success(img) => Finished(img)
    case Failure(e) => ErrorSignal(e)
  }

  /** Every plane a part stores has the `(height, width)` shape of the part's window. */
  ghost predicate PlanesMatchSize(p: Part) {
    forall n :: n in p.channels ==>
      p.channels[n].height == p.size.height && p.channels[n].width == p.size.width && WellShaped(p.channels[n])
  }

  lemma DecodeAvailableShapes(chans: ChannelList, pixels: map<string, Option<Bytes>>, size: Size)
    ensures forall n :: n in DecodeAvailable(chans, pixels, size) ==>
      var p := DecodeAvailable(chans, pixels, size)[n];
      p.height == size.height && p.width == size.width && WellShaped(p)
  {
    var r := DecodeAvailable(chans, pixels, size);
    forall n | n in r
      ensures r[n].height == size.height && r[n].width == size.width && WellShaped(r[n])
    {
      var c :| c in chans && c.name == n;
      var i :| 0 <= i < |chans| && chans[i] == c;
      DecodeAvailableAt(chans, pixels, size, i);
    }
  }

  /**
   A readable file in the single-part layout yields exactly one part, named
   "default", carrying the path it was read from, the header as read, the
   window's size, planes of that size, and the layers of all header channels
   grouped by prefix in header order — whatever happened to the pixel reads.
   */
  lemma SinglePartStructure(path: string, file: ExrFile, src: SingleSource)
    requires file.isOpenExr && file.single == Returned(src)
    ensures ReadContainer(path, file, false).Success?
    ensures var img := ReadContainer(path, file, false).value;
      && img.filepath == path
      && |img.parts| == 1
      && img.parts[0].name == "default"
      && img.parts[0].header == src.header
      && img.parts[0].size == Size(src.header.dataWindow.maxX - src.header.dataWindow.minX + 1,
                                   src.header.dataWindow.maxY - src.header.dataWindow.minY + 1)
      && PlanesMatchSize(img.parts[0])
      && img.parts[0].layers == Group(Names(src.header.channels))
      && GroupedBy(Names(src.header.channels), img.parts[0].layers)
  {
    var size := WindowSize(src.header.dataWindow);
    DecodeAvailableShapes(src.header.channels, PixelDict(src), size);
    GroupSpec(Names(src.header.channels));
  }

  /** The part a readable single-part file yields. */
  function SinglePart(path: string, src: SingleSource): Part {
    SinglePartImage(path, src).parts[0]
  }

  /**
   When the bulk read returns a list, channel `i` is stored exactly when the
   list has an element `i`, it is not None, and its length fits.
   */
  lemma ListBranchChannels(path: string, src: SingleSource, items: seq<Option<Bytes>>)
    requires src.bulk == Returned(AsList(items))
    ensures var chans := src.header.channels;
      forall i :: 0 <= i < |chans| ==>
        (chans[i].name in SinglePart(path, src).channels <==>
          i < |items| && items[i].Some? && Fits(items[i].value, chans[i].ptype, SinglePart(path, src).size))
  {
    var chans := src.header.channels;
    var part := SinglePart(path, src);
    assert part.channels == DecodeAvailable(chans, FromList(chans, items), part.size);
    forall i | 0 <= i < |chans|
      ensures chans[i].name in part.channels <==>
        i < |items| && items[i].Some? && Fits(items[i].value, chans[i].ptype, part.size)
    {
      FromListAt(chans, items, i);
      DecodeAvailableAt(chans, FromList(chans, items), part.size, i);
    }
  }

  /** When the bulk read returns a dict, a channel is stored exactly when its entry exists, is not None, and fits. */
  lemma DictBranchChannels(path: string, src: SingleSource, entries: map<string, Option<Bytes>>)
    requires src.bulk == Returned(AsDict(entries))
    ensures var chans := src.header.channels;
      && SinglePart(path, src).channels.Keys <= NameSet(chans)
      && forall i :: 0 <= i < |chans| ==>
        (chans[i].name in SinglePart(path, src).channels <==>
          chans[i].name in entries && entries[chans[i].name].Some?
          && Fits(entries[chans[i].name].value, chans[i].ptype, SinglePart(path, src).size))
  {
    var chans := src.header.channels;
    forall i | 0 <= i < |chans| {
      DecodeAvailableAt(chans, entries, SinglePart(path, src).size, i);
    }
  }

  /**
   When the bulk read raises, a channel is stored exactly when its own read
   returned a buffer that fits; a channel left out this way is still listed in
   exactly one layer, the one its name prefix selects.
   */
  lemma FallbackChannels(path: string, src: SingleSource)
    requires src.bulk == Raised
    ensures var chans := src.header.channels;
      forall i :: 0 <= i < |chans| ==>
        (chans[i].name in SinglePart(path, src).channels <==>
          chans[i].name in src.perChannel && src.perChannel[chans[i].name].Some?
          && Fits(src.perChannel[chans[i].name].value, chans[i].ptype, SinglePart(path, src).size))
    ensures var chans := src.header.channels;
      forall i :: 0 <= i < |chans| ==>
        chans[i].name in ChannelsOf(SinglePart(path, src).layers, LayerOf(chans[i].name))
  {
    var chans := src.header.channels;
    var names := Names(chans);
    forall i | 0 <= i < |chans| {
      DecodeAvailableAt(chans, ReadEach(chans, src.perChannel), SinglePart(path, src).size, i);
    }
    forall i | 0 <= i < |chans|
      ensures chans[i].name in ChannelsOf(Group(names), LayerOf(chans[i].name))
    {
      assert chans[i].name == names[i];
      GroupLookup(names, LayerOf(names[i]));
      MembersContain(names, LayerOf(names[i]), names[i]);
    }
  }

  /**
   In the multi-part layout the read is all or nothing: a successful read
   stores a plane for every header channel of every part, and one channel of
   one part whose buffer is missing, None or of the wrong length makes `run`
   signal an error with no data.
   */
  lemma MultiPartAllOrNothing(path: string, file: ExrFile, srcs: seq<PartSource>)
    requires file.isOpenExr && file.multi == Returned(srcs)
    ensures ReadContainer(path, file, true).Success? ==>
      var img := ReadContainer(path, file, true).value;
      && |img.parts| == |srcs|
      && forall i :: 0 <= i < |srcs| ==>
           && srcs[i].header.Returned?
           && img.parts[i].name == srcs[i].name
           && img.parts[i].channels.Keys == NameSet(srcs[i].header.value.channels)
    ensures (exists i, c :: 0 <= i < |srcs| && srcs[i].header.Returned? && srcs[i].pixels.Returned?
               && c in srcs[i].header.value.channels
               && Stored(c, srcs[i].pixels.value, WindowSize(srcs[i].header.value.dataWindow)).None?)
            ==> RunLoad(path, file, true).ErrorSignal?
  {
    if exists i, c :: 0 <= i < |srcs| && srcs[i].header.Returned? && srcs[i].pixels.Returned?
         && c in srcs[i].header.value.channels
         && Stored(c, srcs[i].pixels.value, WindowSize(srcs[i].header.value.dataWindow)).None? {
      var i, c :| 0 <= i < |srcs| && srcs[i].header.Returned? && srcs[i].pixels.Returned?
         && c in srcs[i].header.value.channels
         && Stored(c, srcs[i].pixels.value, WindowSize(srcs[i].header.value.dataWindow)).None?;
      var h := srcs[i].header.value;
      var k :| 0 <= k < |h.channels| && h.channels[k] == c;
      assert DecodeAll(h.channels, srcs[i].pixels.value, WindowSize(h.dataWindow)).Failure?;
      assert LoadPart(srcs[i]).Failure?;
    }
  }

  /**
   A loaded part carries its own name, the header as read, the window's size,
   a plane of that size for every header channel, and the layers of its
   header channels grouped by prefix in header order.
   */
  lemma LoadPartStructure(src: PartSource)
    ensures LoadPart(src).Success? ==>
      var part := LoadPart(src).value;
      var h := src.header.value;
      && part.name == src.name
      && part.header == h
      && part.size == Size(h.dataWindow.maxX - h.dataWindow.minX + 1, h.dataWindow.maxY - h.dataWindow.minY + 1)
      && part.channels.Keys == NameSet(h.channels)
      && PlanesMatchSize(part)
      && part.layers == Group(Names(h.channels))
      && GroupedBy(Names(h.channels), part.layers)
  {
    if LoadPart(src).Success? {
      var part := LoadPart(src).value;
      var h := src.header.value;
      var size := WindowSize(h.dataWindow);
      var chans := h.channels;
      forall n | n in part.channels
        ensures part.channels[n].height == size.height && part.channels[n].width == size.width
          && WellShaped(part.channels[n])
      {
        var i :| 0 <= i < |chans| && chans[i].name == n;
        DecodeAllAt(chans, src.pixels.value, size, i);
      }
      GroupSpec(Names(chans));
    }
  }

  /**
   In the multi-part layout, part `i` of a successful read is what loading
   source `i` gives, with that source's name, header, window size, planes of
   that size and grouped layers.
   */
  lemma MultiPartStructure(path: string, file: ExrFile, srcs: seq<PartSource>, i: nat)
    requires file.isOpenExr && file.multi == Returned(srcs)
    requires i < |srcs|
    ensures ReadContainer(path, file, true).Success? ==>
      var part := ReadContainer(path, file, true).value.parts[i];
      var h := srcs[i].header.value;
      && srcs[i].header.Returned?
      && part.name == srcs[i].name
      && part.header == h
      && part.size == Size(h.dataWindow.maxX - h.dataWindow.minX + 1, h.dataWindow.maxY - h.dataWindow.minY + 1)
      && PlanesMatchSize(part)
      && part.layers == Group(Names(h.channels))
      && GroupedBy(Names(h.channels), part.layers)
  {
    LoadPartStructure(srcs[i]);
  }
}
