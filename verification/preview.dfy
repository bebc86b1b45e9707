/**
 Choosing what to preview for a selected layer or channel
 (`ImageProcessor.prepare_preview_data` and its helpers, and the same rule
 inside `EXREditor.on_tree_item_selected`).
 */
module Preview {
  import opened ExrTypes
  import opened Planes
  import opened Layers
  import opened Reader

  /** The alpha plane of a composite: the layer's own A channel, or `np.ones_like(r)`. */
  datatype Alpha = AlphaChannel(plane: Plane) | OnesLikeRed

  /** What is handed to the display: an `[r, g, b, a]` stack, or a single plane. */
  datatype Preview = Composite(r: Plane, g: Plane, b: Plane, a: Alpha) | Single(plane: Plane)

  predicate EndsWith(s: string, suffix: string) {
    |suffix| <= |s| && s[|s| - |suffix|..] == suffix
  }

  /** Position of the first name ending with `suffix`, or `|names|` when none does. */
  function FirstIndexEndingWith(names: seq<string>, suffix: string): (k: nat)
    ensures k <= |names|
    ensures forall j :: 0 <= j < k ==> !EndsWith(names[j], suffix)
    ensures k < |names| ==> EndsWith(names[k], suffix)
  {
    if |names| == 0 || EndsWith(names[0], suffix) then 0
    else 1 + FirstIndexEndingWith(names[1..], suffix)
  }

  /** `next((ch for ch in names if ch.endswith(suffix)), None)`. */
  function FirstEndingWith(names: seq<string>, suffix: string): (r: Option<string>)
    ensures r.None? <==> forall i :: 0 <= i < |names| ==> !EndsWith(names[i], suffix)
    ensures r.Some? ==> (exists i :: 0 <= i < |names| && names[i] == r.value && EndsWith(r.value, suffix)
                           && forall j :: 0 <= j < i ==> !EndsWith(names[j], suffix))
  {
    var k := FirstIndexEndingWith(names, suffix);
    if k < |names| then Some(names[k]) else None
  }

  /** `channels.get(name)`. */
  function Get(channels: map<string, Plane>, name: string): Option<Plane> {
    if name in channels then Some(channels[name]) else None
  }

  /** The RGBA slot channels of a layer's channel list. */
  datatype Slots = Slots(r: Option<string>, g: Option<string>, b: Option<string>, a: Option<string>)

  function SlotsOf(names: seq<string>): Slots {
    Slots(FirstEndingWith(names, ".R"), FirstEndingWith(names, ".G"),
          FirstEndingWith(names, ".B"), FirstEndingWith(names, ".A"))
  }

  /** R, G and B were all found and all decoded. */
  predicate CanCompose(channels: map<string, Plane>, s: Slots) {
    s.r.Some? && s.g.Some? && s.b.Some?
    && s.r.value in channels && s.g.value in channels && s.b.value in channels
  }

  /**
   `_prepare_layer_preview`: the four-plane stack when R, G and B are found and
   decoded (alpha from the A channel when that is decoded too, else ones like
   R); otherwise the layer's first listed channel, which may itself be missing;
   nothing for an unknown or empty layer.
   */
  function LayerPreview(channels: map<string, Plane>, layers: seq<Layer>, layer: string): (r: Option<Preview>)
    ensures var s := SlotsOf(ChannelsOf(layers, layer));
      r.Some? && r.value.Composite? <==> CanCompose(channels, s)
    ensures var s := SlotsOf(ChannelsOf(layers, layer));
      CanCompose(channels, s) ==>
        && r.value.r == channels[s.r.value]
        && r.value.g == channels[s.g.value]
        && r.value.b == channels[s.b.value]
        && r.value.a == (if s.a.Some? && s.a.value in channels then AlphaChannel(channels[s.a.value]) else OnesLikeRed)
    ensures var names := ChannelsOf(layers, layer);
      !CanCompose(channels, SlotsOf(names)) ==>
        r == (if |names| > 0 && names[0] in channels then Some(Single(channels[names[0]])) else None)
    ensures layer !in LayerNames(layers) ==> r.None?
  {
    var names := ChannelsOf(layers, layer);
    var s := SlotsOf(names);
    if CanCompose(channels, s) then
      var alpha := match s.a
        case Some(a) => (if a in channels then AlphaChannel(channels[a]) else OnesLikeRed)
        case None => OnesLikeRed;
      Some(Composite(channels[s.r.value], channels[s.g.value], channels[s.b.value], alpha))
    else if |names| > 0 then
      match Get(channels, names[0])
      case Some(p) => Some(Single(p))
      case None => None
    else None
  }

  /** `_prepare_channel_preview`: the decoded plane itself, or nothing when it was not decoded. */
  function ChannelPreview(channels: map<string, Plane>, name: string): (r: Option<Preview>)
    ensures r.Some? <==> name in channels
    ensures r.Some? ==> r.value == Single(channels[name])
  {
    match Get(channels, name)
    case Some(p) => Some(Single(p))
    case None => None
  }

  /** Python truthiness of an optional string argument. */
  predicate Given(s: Option<string>) {
    s.Some? && |s.value| > 0
  }

  /**
   `prepare_preview_data`: a layer preview for kind "layer" with a non-empty
   layer name, a channel preview for kind "channel" with a non-empty channel
   name, and nothing otherwise.
   */
  function PreparePreviewData(part: Part, kind: string, layerName: Option<string>, channelName: Option<string>): (r: Option<Preview>)
    ensures !(kind == "layer" && Given(layerName)) && !(kind == "channel" && Given(channelName)) ==> r.None?
    ensures kind == "layer" && Given(layerName) ==> r == LayerPreview(part.channels, part.layers, layerName.value)
    ensures kind == "channel" && Given(channelName) ==> r == ChannelPreview(part.channels, channelName.value)
  {
    if kind == "layer" && Given(layerName) then LayerPreview(part.channels, part.layers, layerName.value)
    else if kind == "channel" && Given(channelName) then ChannelPreview(part.channels, channelName.value)
    else None
  }

  /** A Python value used as a part index: an `int`, or anything else. */
  datatype PyIndex = IntIndex(i: int) | NotAnInt

  /** The user data attached to a tree item: `("part", i)`, `("layer", i, name)` or `("channel", i, name)`. */
  datatype TreeItem = PartItem(index: PyIndex) | LayerItem(index: PyIndex, layer: string) | ChannelItem(index: PyIndex, channel: string)

  /**
   The state a handled selection leaves: the header shown in the metadata
   table, the preview data, and both sliders back at their neutral positions.
   */
  datatype Selection = Selection(header: Header, preview: Option<Preview>, brightnessSlider: int, contrastSlider: int)

  /**
   `on_tree_item_selected`: nothing happens without loaded data, without an
   item, or unless the index is an int inside the part list; otherwise the
   part's header is shown, the preview chosen by the item's kind, and the
   sliders reset to brightness 0 and contrast 100.
   */
  function SelectTreeItem(data: Option<Image>, item: Option<TreeItem>): (r: Option<Selection>)
    ensures r.Some? <==>
      data.Some? && item.Some? && item.value.index.IntIndex? && 0 <= item.value.index.i < |data.value.parts|
    ensures r.Some? ==>
      var part := data.value.parts[item.value.index.i];
      && r.value.header == part.header
      && r.value.brightnessSlider == 0 && r.value.contrastSlider == 100
      && r.value.preview == match item.value
           case PartItem(_) => None
           case LayerItem(_, l) => LayerPreview(part.channels, part.layers, l)
           case ChannelItem(_, c) => ChannelPreview(part.channels, c)
  {
    if data.None? || item.None? then None
    else
      var parts := data.value.parts;
      match item.value.index
      case NotAnInt => None
      case IntIndex(i) =>
        if i < 0 || i >= |parts| then None
        else
          var part := parts[i];
          var preview := match item.value
            case PartItem(_) => None
            case LayerItem(_, l) => LayerPreview(part.channels, part.layers, l)
            case ChannelItem(_, c) => ChannelPreview(part.channels, c);
          Some(Selection(part.header, preview, 0, 100))
  }

  /**
   A layer that has channels ending in `.R`, `.G` and `.B`, all of whose
   channels were decoded, is previewed as a four-plane stack.
   */
  lemma DecodedRgbLayerComposes(channels: map<string, Plane>, layers: seq<Layer>, layer: string)
    requires forall n :: n in ChannelsOf(layers, layer) ==> n in channels
    requires exists n :: n in ChannelsOf(layers, layer) && EndsWith(n, ".R")
    requires exists n :: n in ChannelsOf(layers, layer) && EndsWith(n, ".G")
    requires exists n :: n in ChannelsOf(layers, layer) && EndsWith(n, ".B")
    ensures LayerPreview(channels, layers, layer).Some?
    ensures LayerPreview(channels, layers, layer).value.Composite?
  {
    var names := ChannelsOf(layers, layer);
    var s := SlotsOf(names);
    assert s.r.Some? && s.g.Some? && s.b.Some?;
    assert s.r.value in names && s.g.value in names && s.b.value in names;
  }

  /**
   In a part whose planes all have the window's shape, the planes of a
   composite preview share one shape, so stacking them cannot fail.
   */
  lemma CompositePlanesAgree(part: Part, layer: string)
    requires PlanesMatchSize(part)
    ensures LayerPreview(part.channels, part.layers, layer).Some? && LayerPreview(part.channels, part.layers, layer).value.Composite? ==>
      var c := LayerPreview(part.channels, part.layers, layer).value;
      && c.r.height == c.g.height == c.b.height == part.size.height
      && c.r.width == c.g.width == c.b.width == part.size.width
      && (c.a.AlphaChannel? ==> c.a.plane.height == part.size.height && c.a.plane.width == part.size.width)
  {
  }

  /**
   The layer list of a channel named `.R` is keyed by the empty string; the
   tree handler previews that layer, while `prepare_preview_data` treats the
   empty layer name as no selection and returns nothing.
   */
  lemma EmptyLayerNameOnlyInTree(part: Part, path: string, p: Plane)
    requires part.layers == [Layer("", [".R"])]
    requires part.channels == map[".R" := p]
    ensures LayerOf(".R") == ""
    ensures PreparePreviewData(part, "layer", Some(""), None) == None
    ensures SelectTreeItem(Some(Image(path, [part])), Some(LayerItem(IntIndex(0), ""))).value.preview == Some(Single(p))
  {
    assert BeforeFirstDot(".R") == "";
    var names := ChannelsOf(part.layers, "");
    assert names == [".R"];
    assert !EndsWith(".R", ".G");
    assert FirstEndingWith(names, ".G") == None;
    assert !CanCompose(part.channels, SlotsOf(names));
    assert LayerPreview(part.channels, part.layers, "") == Some(Single(p));
  }
}
