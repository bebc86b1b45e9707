/**
 Grouping a part's channel names into layers: the layer of `Beauty.R` is
 `Beauty`, a name without a dot belongs to `"default"`, and each layer lists
 its channels in header order (`layers.setdefault(layer, []).append(name)`).
 */
module Layers {
  import opened ExrTypes

  /** The text before the first `.` of `s` (all of `s` when it has no dot). */
  function BeforeFirstDot(s: string): string {
    if |s| == 0 || s[0] == '.' then []
    else [s[0]] + BeforeFirstDot(s[1..])
  }

  /**
   The text before the first dot is a dot-free prefix of `s`; when `s` has a
   dot the next character is that dot, and otherwise it is all of `s`.
   */
  lemma {:induction false} BeforeFirstDotSpec(s: string)
    ensures BeforeFirstDot(s) <= s
    ensures '.' !in BeforeFirstDot(s)
    ensures '.' in s ==> |BeforeFirstDot(s)| < |s| && s[|BeforeFirstDot(s)|] == '.'
    ensures '.' !in s ==> BeforeFirstDot(s) == s
  {
    if |s| > 0 && s[0] != '.' {
      BeforeFirstDotSpec(s[1..]);
      assert s == [s[0]] + s[1..];
    }
  }

  /** `name.split(".")[0] if "." in name else "default"`. */
  function LayerOf(name: string): (r: string)
    ensures '.' !in name ==> r == "default"
    ensures '.' in name ==> r <= name && |r| < |name| && name[|r|] == '.' && '.' !in r
  {
    if '.' in name then BeforeFirstDotSpec(name); BeforeFirstDot(name) else "default"
  }

  /** The layer names of a layer list, in order. */
  function LayerNames(layers: seq<Layer>): (r: seq<string>)
    ensures |r| == |layers|
    ensures forall i :: 0 <= i < |layers| ==> r[i] == layers[i].name
  {
    seq(|layers|, i requires 0 <= i < |layers| => layers[i].name)
  }

  ghost predicate DistinctLayerNames(layers: seq<Layer>) {
    forall i, j :: 0 <= i < j < |layers| ==> layers[i].name != layers[j].name
  }

  /** The channels of `names` that belong to layer `layer`, in order. */
  function Members(names: seq<string>, layer: string): seq<string> {
    if |names| == 0 then []
    else
      var last := names[|names| - 1];
      Members(names[..|names| - 1], layer) + (if LayerOf(last) == layer then [last] else [])
  }

  /** Index of the first name of `names` that belongs to `layer`; `|names|` if there is none. */
  function FirstMember(names: seq<string>, layer: string): (k: nat)
    ensures k <= |names|
    ensures forall i :: 0 <= i < k ==> LayerOf(names[i]) != layer
    ensures k < |names| ==> LayerOf(names[k]) == layer
  {
    if |names| == 0 then 0
    else if LayerOf(names[0]) == layer then 0
    else 1 + FirstMember(names[1..], layer)
  }

  /** Position of the entry named `layer` in `layers`, or `|layers|` when there is none. */
  function IndexOfLayer(layers: seq<Layer>, layer: string): (k: nat)
    ensures k <= |layers|
    ensures forall i :: 0 <= i < k ==> layers[i].name != layer
    ensures k < |layers| <==> layer in LayerNames(layers)
    ensures k < |layers| ==> layers[k].name == layer
  {
    if |layers| == 0 then 0
    else if layers[0].name == layer then 0
    else
      assert LayerNames(layers) == [layers[0].name] + LayerNames(layers[1..]);
      1 + IndexOfLayer(layers[1..], layer)
  }

  /** `layers.setdefault(layer, []).append(name)`. */
  function AddChannel(layers: seq<Layer>, layer: string, name: string): seq<Layer> {
    if |layers| == 0 then [Layer(layer, [name])]
    else if layers[0].name == layer then
      [Layer(layer, layers[0].channels + [name])] + layers[1..]
    else
      [layers[0]] + AddChannel(layers[1..], layer, name)
  }

  /** When `layer` has an entry, that entry gains `name` at its end and every other entry is unchanged. */
  lemma {:induction false} AddChannelExisting(layers: seq<Layer>, layer: string, name: string)
    requires IndexOfLayer(layers, layer) < |layers|
    ensures var k := IndexOfLayer(layers, layer);
      AddChannel(layers, layer, name) == layers[k := Layer(layer, layers[k].channels + [name])]
  {
    if layers[0].name == layer {
      assert [Layer(layer, layers[0].channels + [name])] + layers[1..]
          == layers[0 := Layer(layer, layers[0].channels + [name])];
    } else {
      var rest := layers[1..];
      AddChannelExisting(rest, layer, name);
      var k := IndexOfLayer(rest, layer);
      var x := Layer(layer, rest[k].channels + [name]);
      var lhs := [layers[0]] + rest[k := x];
      var rhs := layers[k + 1 := x];
      forall j | 0 <= j < |lhs|
        ensures lhs[j] == rhs[j]
      {
        if j > 0 {
          assert lhs[j] == rest[k := x][j - 1];
        }
      }
      assert lhs == rhs;
    }
  }

  /** When `layer` has no entry, a new one holding just `name` is added after all others. */
  lemma {:induction false} AddChannelNew(layers: seq<Layer>, layer: string, name: string)
    requires IndexOfLayer(layers, layer) == |layers|
    ensures AddChannel(layers, layer, name) == layers + [Layer(layer, [name])]
  {
    if |layers| > 0 {
      var rest := layers[1..];
      AddChannelNew(rest, layer, name);
      assert [layers[0]] + (rest + [Layer(layer, [name])]) == layers + [Layer(layer, [name])];
    }
  }

  /** The `layers` dict built from the header's channel names, in header order. */
  function Group(names: seq<string>): seq<Layer> {
    if |names| == 0 then []
    else
      var last := names[|names| - 1];
      AddChannel(Group(names[..|names| - 1]), LayerOf(last), last)
  }

  /** Each layer lists exactly the channels of `names` that belong to it, and at least one. */
  ghost predicate ListsMembers(names: seq<string>, g: seq<Layer>) {
    forall i :: 0 <= i < |g| ==> g[i].channels == Members(names, g[i].name) && |g[i].channels| > 0
  }

  /** The layer of every channel is present. */
  ghost predicate Covers(names: seq<string>, g: seq<Layer>) {
    forall n :: n in names ==> LayerOf(n) in LayerNames(g)
  }

  /** Layers come in the order in which their first channel appears. */
  ghost predicate FirstSeenOrder(names: seq<string>, g: seq<Layer>) {
    forall i, j :: 0 <= i < j < |g| ==> FirstMember(names, g[i].name) < FirstMember(names, g[j].name)
  }

  ghost predicate GroupedBy(names: seq<string>, g: seq<Layer>) {
    DistinctLayerNames(g) && ListsMembers(names, g) && Covers(names, g) && FirstSeenOrder(names, g)
  }

  /**
   The layers of `Group(names)` have distinct names; each lists exactly the
   channels of `names` that belong to it, in header order, and is non-empty;
   every channel's layer is present; and layers come in the order in which
   their first channel appears in the header.
   */
  lemma {:induction false} GroupSpec(names: seq<string>)
    ensures GroupedBy(names, Group(names))
  {
    if |names| > 0 {
      var prefix := names[..|names| - 1];
      var last := names[|names| - 1];
      GroupSpec(prefix);
      GroupStep(names, prefix, last, Group(prefix));
    }
  }

  /** One step of `Group`: appending a channel keeps the grouping invariant, whether or not its layer exists. */
  lemma {:induction false} GroupStep(names: seq<string>, prefix: seq<string>, last: string, g: seq<Layer>)
    requires names == prefix + [last]
    requires GroupedBy(prefix, g)
    ensures GroupedBy(names, AddChannel(g, LayerOf(last), last))
  {
    if LayerOf(last) in LayerNames(g) {
      GroupStepExisting(prefix, last, g);
    } else {
      GroupStepNew(prefix, last, g);
    }
  }

  lemma {:induction false} MembersStep(prefix: seq<string>, last: string, layer: string)
    ensures Members(prefix + [last], layer) == Members(prefix, layer) + (if LayerOf(last) == layer then [last] else [])
  {
    assert (prefix + [last])[..|prefix|] == prefix;
  }

  /** Appending a channel whose layer already exists keeps the grouping invariant. */
  lemma {:induction false} GroupStepExisting(prefix: seq<string>, last: string, g: seq<Layer>)
    requires GroupedBy(prefix, g)
    requires LayerOf(last) in LayerNames(g)
    ensures GroupedBy(prefix + [last], AddChannel(g, LayerOf(last), last))
  {
    var l := LayerOf(last);
    var k := IndexOfLayer(g, l);
    AddChannelExisting(g, l, last);
    ExistingLayerStep(prefix, last, g, k);
  }

  /** Extending the entry of the appended channel's own layer keeps the grouping invariant. */
  lemma {:induction false} ExistingLayerStep(prefix: seq<string>, last: string, g: seq<Layer>, k: nat)
    requires GroupedBy(prefix, g)
    requires k < |g| && g[k].name == LayerOf(last)
    ensures GroupedBy(prefix + [last], g[k := Layer(LayerOf(last), g[k].channels + [last])])
  {
    var r := g[k := Layer(LayerOf(last), g[k].channels + [last])];
    ExistingLayerLists(prefix, last, g, k);
    ExistingLayerOrder(prefix, last, g, k);
    assert LayerNames(r)[k] == LayerOf(last);
    CoversStep(prefix, last, g, r);
  }

  /**
   A grouping that keeps every earlier layer name in place and has the new
   channel's layer still covers every channel.
   */
  lemma {:induction false} CoversStep(prefix: seq<string>, last: string, g: seq<Layer>, r: seq<Layer>)
    requires Covers(prefix, g)
    requires |g| <= |r|
    requires forall i :: 0 <= i < |g| ==> r[i].name == g[i].name
    requires LayerOf(last) in LayerNames(r)
    ensures Covers(prefix + [last], r)
  {
    forall n | n in prefix + [last]
      ensures LayerOf(n) in LayerNames(r)
    {
      if n != last {
        assert n in prefix;
        var i := IndexOfLayer(g, LayerOf(n));
        assert LayerNames(r)[i] == LayerOf(n);
      }
    }
  }

  /** Extending the entry of the channel's own layer keeps names distinct and every layer listing its members. */
  lemma {:induction false} ExistingLayerLists(prefix: seq<string>, last: string, g: seq<Layer>, k: nat)
    requires GroupedBy(prefix, g)
    requires k < |g| && g[k].name == LayerOf(last)
    ensures var r := g[k := Layer(LayerOf(last), g[k].channels + [last])];
      DistinctLayerNames(r) && ListsMembers(prefix + [last], r)
  {
    var names := prefix + [last];
    var r := g[k := Layer(LayerOf(last), g[k].channels + [last])];
    forall i | 0 <= i < |r|
      ensures r[i].channels == Members(names, r[i].name) && |r[i].channels| > 0
    {
      MembersStep(prefix, last, g[i].name);
      if i != k {
        assert g[i].name != g[k].name;
      }
    }
    forall i, j | 0 <= i < j < |r|
      ensures r[i].name != r[j].name
    {
      assert r[i].name == g[i].name && r[j].name == g[j].name;
    }
  }

  /** Extending an existing entry changes neither the layer set nor the first-seen order. */
  lemma {:induction false} ExistingLayerOrder(prefix: seq<string>, last: string, g: seq<Layer>, k: nat)
    requires GroupedBy(prefix, g)
    requires k < |g| && g[k].name == LayerOf(last)
    ensures FirstSeenOrder(prefix + [last], g[k := Layer(LayerOf(last), g[k].channels + [last])])
  {
    var names := prefix + [last];
    var r := g[k := Layer(LayerOf(last), g[k].channels + [last])];
    forall i | 0 <= i < |g|
      ensures FirstMember(names, g[i].name) == FirstMember(prefix, g[i].name)
    {
      MembersNonEmpty(prefix, g[i].name);
      FirstMemberExtend(prefix, last, g[i].name);
    }
    forall i, j | 0 <= i < j < |r|
      ensures FirstMember(names, r[i].name) < FirstMember(names, r[j].name)
    {
      assert r[i].name == g[i].name && r[j].name == g[j].name;
    }
  }

  /** Appending a channel of a new layer keeps the grouping invariant. */
  lemma {:induction false} GroupStepNew(prefix: seq<string>, last: string, g: seq<Layer>)
    requires GroupedBy(prefix, g)
    requires LayerOf(last) !in LayerNames(g)
    ensures GroupedBy(prefix + [last], AddChannel(g, LayerOf(last), last))
  {
    var l := LayerOf(last);
    var r := g + [Layer(l, [last])];
    AddChannelNew(g, l, last);
    NewLayerLists(prefix, last, g);
    NewLayerOrder(prefix, last, g);
    assert LayerNames(r)[|g|] == l;
    CoversStep(prefix, last, g, r);
  }

  /** The appended layer is distinct from the others, and every layer still lists its members. */
  lemma {:induction false} NewLayerLists(prefix: seq<string>, last: string, g: seq<Layer>)
    requires GroupedBy(prefix, g)
    requires LayerOf(last) !in LayerNames(g)
    ensures var r := g + [Layer(LayerOf(last), [last])];
      DistinctLayerNames(r) && ListsMembers(prefix + [last], r)
  {
    var names := prefix + [last];
    var l := LayerOf(last);
    var r := g + [Layer(l, [last])];
    MembersAbsent(prefix, l, g);
    forall i | 0 <= i < |r|
      ensures r[i].channels == Members(names, r[i].name) && |r[i].channels| > 0
    {
      MembersStep(prefix, last, r[i].name);
    }
    forall i, j | 0 <= i < j < |r|
      ensures r[i].name != r[j].name
    {
      if j == |g| {
        assert LayerNames(g)[i] == r[i].name;
      }
    }
  }

  /** The appended layer comes after the others in first-seen order, and every channel's layer is present. */
  lemma {:induction false} NewLayerOrder(prefix: seq<string>, last: string, g: seq<Layer>)
    requires GroupedBy(prefix, g)
    requires LayerOf(last) !in LayerNames(g)
    ensures FirstSeenOrder(prefix + [last], g + [Layer(LayerOf(last), [last])])
  {
    var names := prefix + [last];
    var l := LayerOf(last);
    var r := g + [Layer(l, [last])];
    MembersAbsent(prefix, l, g);
    forall i | 0 <= i < |g|
      ensures FirstMember(names, g[i].name) == FirstMember(prefix, g[i].name) < |prefix|
    {
      MembersNonEmpty(prefix, g[i].name);
      FirstMemberExtend(prefix, last, g[i].name);
    }
    FirstMemberNew(prefix, last, l);
  }

  /** A layer with members has its first member inside the sequence. */
  lemma {:induction false} MembersNonEmpty(names: seq<string>, layer: string)
    requires |Members(names, layer)| > 0
    ensures FirstMember(names, layer) < |names|
  {
    var prefix := names[..|names| - 1];
    var last := names[|names| - 1];
    assert names == prefix + [last];
    MembersStep(prefix, last, layer);
    if LayerOf(last) != layer {
      MembersNonEmpty(prefix, layer);
      FirstMemberExtend(prefix, last, layer);
    } else {
      FirstMemberBound(names, layer, |names| - 1);
    }
  }

  /** The first member of a layer comes no later than any of its members. */
  lemma {:induction false} FirstMemberBound(names: seq<string>, layer: string, i: nat)
    requires i < |names| && LayerOf(names[i]) == layer
    ensures FirstMember(names, layer) <= i
  {
    if LayerOf(names[0]) != layer {
      FirstMemberBound(names[1..], layer, i - 1);
    }
  }

  /** Appending a channel does not move the first member of a layer that already has one. */
  lemma {:induction false} FirstMemberExtend(names: seq<string>, last: string, layer: string)
    requires FirstMember(names, layer) < |names|
    ensures FirstMember(names + [last], layer) == FirstMember(names, layer)
  {
    if LayerOf(names[0]) != layer {
      assert (names + [last])[1..] == names[1..] + [last];
      FirstMemberExtend(names[1..], last, layer);
    }
  }

  /** A layer that no channel of `names` belongs to first appears at the appended channel. */
  lemma {:induction false} FirstMemberNew(names: seq<string>, last: string, layer: string)
    requires Members(names, layer) == []
    requires LayerOf(last) == layer
    ensures FirstMember(names + [last], layer) == |names|
  {
    if |names| > 0 {
      MembersEmptyHead(names, layer);
      assert (names + [last])[1..] == names[1..] + [last];
      FirstMemberNew(names[1..], last, layer);
    }
  }

  lemma {:induction false} MembersEmptyHead(names: seq<string>, layer: string)
    requires |names| > 0
    requires Members(names, layer) == []
    ensures LayerOf(names[0]) != layer
    ensures Members(names[1..], layer) == []
  {
    if |names| > 1 {
      var prefix := names[..|names| - 1];
      MembersEmptyHead(prefix, layer);
      assert prefix[1..] == names[1..][..|names| - 2];
    }
  }

  /** A layer name that `Group` did not produce has no members. */
  lemma {:induction false} MembersAbsent(names: seq<string>, layer: string, g: seq<Layer>)
    requires Covers(names, g)
    requires layer !in LayerNames(g)
    ensures Members(names, layer) == []
  {
    MembersNoneBelong(names, layer);
  }

  lemma {:induction false} MembersNoneBelong(names: seq<string>, layer: string)
    requires forall n :: n in names ==> LayerOf(n) != layer
    ensures Members(names, layer) == []
  {
    if |names| > 0 {
      MembersNoneBelong(names[..|names| - 1], layer);
    }
  }

  /** `layers.get(layer, [])`: the channel list of the named layer, or `[]`. */
  function ChannelsOf(layers: seq<Layer>, layer: string): (r: seq<string>)
    ensures layer !in LayerNames(layers) ==> r == []
    ensures layer in LayerNames(layers) ==> r == layers[IndexOfLayer(layers, layer)].channels
  {
    if |layers| == 0 then []
    else if layers[0].name == layer then layers[0].channels
    else
      assert LayerNames(layers) == [layers[0].name] + LayerNames(layers[1..]);
      ChannelsOf(layers[1..], layer)
  }

  /** Looking a layer up in `Group(names)` gives exactly its members. */
  lemma {:induction false} GroupLookup(names: seq<string>, layer: string)
    ensures ChannelsOf(Group(names), layer) == Members(names, layer)
  {
    var g := Group(names);
    GroupSpec(names);
    if layer in LayerNames(g) {
      var i := IndexOfLayer(g, layer);
      assert g[i].channels == Members(names, layer);
    } else {
      MembersAbsent(names, layer, g);
    }
  }

  /** A channel belongs to the members of its own layer and of no other. */
  lemma {:induction false} MembersContain(names: seq<string>, layer: string, n: string)
    ensures n in Members(names, layer) <==> n in names && LayerOf(n) == layer
  {
    if |names| > 0 {
      var prefix := names[..|names| - 1];
      var last := names[|names| - 1];
      MembersContain(prefix, layer, n);
      assert names == prefix + [last];
      MembersStep(prefix, last, layer);
      assert n in names <==> n in prefix || n == last;
    }
  }

  /** Every header channel is listed in exactly one layer of `Group(names)`: the layer named by `LayerOf`. */
  lemma {:induction false} ExactlyOneLayer(names: seq<string>, n: string)
    requires n in names
    ensures exists i :: 0 <= i < |Group(names)| && n in Group(names)[i].channels
    ensures forall i :: 0 <= i < |Group(names)| && n in Group(names)[i].channels ==>
      Group(names)[i].name == LayerOf(n)
  {
    var g := Group(names);
    GroupSpec(names);
    assert LayerOf(n) in LayerNames(g);
    var i := IndexOfLayer(g, LayerOf(n));
    MembersContain(names, LayerOf(n), n);
    assert n in g[i].channels;
    forall j | 0 <= j < |g| && n in g[j].channels
      ensures g[j].name == LayerOf(n)
    {
      MembersContain(names, g[j].name, n);
    }
  }

  /** The layer of `prefix.rest`, for a prefix without a dot, is `prefix`, whatever `rest` holds. */
  lemma {:induction false} LayerOfDotted(prefix: string, rest: string)
    requires '.' !in prefix
    ensures LayerOf(prefix + "." + rest) == prefix
  {
    var s := prefix + "." + rest;
    assert s[|prefix|] == '.';
    BeforeFirstDotOfDotted(prefix, rest);
  }

  lemma {:induction false} BeforeFirstDotOfDotted(prefix: string, rest: string)
    requires '.' !in prefix
    ensures BeforeFirstDot(prefix + "." + rest) == prefix
  {
    if |prefix| > 0 {
      assert (prefix + "." + rest)[1..] == prefix[1..] + "." + rest;
      BeforeFirstDotOfDotted(prefix[1..], rest);
    }
  }
}
