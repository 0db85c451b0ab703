/** The decision logic of `FloatConnect::render_widget` and
    `FloatConnect::render_channel`: whether the widget is drawn at all, which
    class suffixes hide it or a channel on a device, and which channel links it
    holds and in what order. The HTML around these decisions is left out. */
module Rendering {
  import opened Php
  import opened Text
  import opened WordPress
  import opened LinkResolver

  const HideMobile: string := " fc-hide-mobile"
  const HideDesktop: string := " fc-hide-desktop"

  /** The `$defaults` array `render_widget` merges the stored options over. Its
      `channels` default, the empty array, is the `Some([])` of `ParseArgs`. */
  const RenderDefaults: Record := map[
    "position" := Str("right"),
    "button_size" := Int(60),
    "button_color" := Str("#4482FF"),
    "icon_color" := Str("#ffffff"),
    "show_on_mobile" := Int(1),
    "show_on_desktop" := Int(1)]

  /** `wp_parse_args($options, $defaults)`: every stored entry wins, and a default
      fills each key the stored record lacks. A `channels` entry that is absent
      or not an array gives no channels to walk either way, so both become the
      empty list. */
  function ParseArgs(o: OptionsArray): (r: OptionsArray)
    ensures forall k :: k in o.fields ==> k in r.fields && r.fields[k] == o.fields[k]
    ensures forall k :: k in RenderDefaults && k !in o.fields ==> k in r.fields && r.fields[k] == RenderDefaults[k]
    ensures forall k :: k in r.fields ==> k in o.fields || k in RenderDefaults
    ensures r.channels.Some? && (o.channels.Some? ==> r.channels == o.channels)
    ensures o.channels.None? ==> r.channels == Some([])
  {
    OptionsArray(RenderDefaults + o.fields, if o.channels.Some? then o.channels else Some([]))
  }

  /** `isset($r[$key]) && $r[$key]`, the test `render_widget` applies to the
      `enabled` entries and to a channel's device flags. */
  predicate FlagOn(r: Record, key: string)
  {
    IsSet(r, key) && Truthy(r[key])
  }

  /** The class suffix for two device flags, as `$device_class` and
      `$channel_class` are built: the mobile part first, then the desktop part. */
  function HideSuffix(showMobile: bool, showDesktop: bool): string
  {
    (if showMobile then "" else HideMobile) + (if showDesktop then "" else HideDesktop)
  }

  /** The suffix of a channel's anchor: an absent flag hides the channel. */
  function ChannelClass(channel: Record): string
  {
    HideSuffix(FlagOn(channel, "show_mobile"), FlagOn(channel, "show_desktop"))
  }

  /** One channel link in the widget: the stored channel, the escaped link of
      its `href`, and the suffix of its `class`. */
  datatype Anchor = Anchor(channel: Record, href: string, classSuffix: string)

  /** The widget as `render_widget` draws it: the options after the merge with
      the defaults, the device class suffix and the channel links in order. */
  datatype Widget = Widget(options: OptionsArray, deviceClass: string, anchors: seq<Anchor>)

  /** `render_channel($channel, $class)`: no anchor when the link is `''` or
      `"0"`, otherwise an anchor to the escaped link. */
  function RenderChannel(h: Host, ctx: PageContext, channel: Record, cls: string): Option<Anchor>
  {
    var url := ChannelUrl(h, ctx, channel);
    if !Truthy(Str(url)) then None else Some(Anchor(channel, h.escUrl(url), cls))
  }

  /** What one iteration of the channel loop draws: nothing for a channel that
      is not enabled, otherwise what `render_channel` draws with its suffix. */
  function ChannelAnchor(h: Host, ctx: PageContext, channel: Record): Option<Anchor>
  {
    if !FlagOn(channel, "enabled") then None else RenderChannel(h, ctx, channel, ChannelClass(channel))
  }

  /** An anchor for `channel` as the widget may hold it: the channel is enabled,
      its link is neither `''` nor `"0"`, the `href` is that link escaped, and
      the class suffix follows the channel's device flags. */
  predicate Drawn(h: Host, ctx: PageContext, a: Anchor)
  {
    && FlagOn(a.channel, "enabled")
    && Truthy(Str(ChannelUrl(h, ctx, a.channel)))
    && a.href == h.escUrl(ChannelUrl(h, ctx, a.channel))
    && a.classSuffix == ChannelClass(a.channel)
  }

  /** The anchors the channel loop draws for `chans`, in their order. */
  function Rendered(h: Host, ctx: PageContext, chans: seq<Record>): (anchors: seq<Anchor>)
    ensures |anchors| <= |chans|
    ensures forall k :: 0 <= k < |anchors| ==> Drawn(h, ctx, anchors[k])
    decreases |chans|
  {
    if chans == [] then []
    else
      var a := ChannelAnchor(h, ctx, chans[|chans| - 1]);
      Rendered(h, ctx, chans[..|chans| - 1]) + (if a.Some? then [a.value] else [])
  }

  /** The positions in `chans` of the channels that are drawn. */
  function RenderedIndices(h: Host, ctx: PageContext, chans: seq<Record>): (idx: seq<nat>)
    ensures forall k :: 0 <= k < |idx| ==> idx[k] < |chans|
    ensures forall k, l :: 0 <= k < l < |idx| ==> idx[k] < idx[l]
    decreases |chans|
  {
    if chans == [] then []
    else
      var n := |chans| - 1;
      RenderedIndices(h, ctx, chans[..n]) + (if ChannelAnchor(h, ctx, chans[n]).Some? then [n] else [])
  }

  /** The widget `render_widget` draws for the stored options (`None` when no
      option record exists), or `None` when it draws nothing. */
  function Render(h: Host, ctx: PageContext, stored: Option<OptionsArray>): (w: Option<Widget>)
    ensures w.Some? <==> stored.Some? && FlagOn(stored.value.fields, "enabled")
    ensures w.Some? ==> w.value.options == ParseArgs(stored.value)
  {
    if stored.None? || !FlagOn(stored.value.fields, "enabled") then None
    else
      var o := ParseArgs(stored.value);
      var deviceClass := HideSuffix(Truthy(Lookup(o.fields, "show_on_mobile")), Truthy(Lookup(o.fields, "show_on_desktop")));
      Some(Widget(o, deviceClass, Rendered(h, ctx, o.channels.value)))
  }

  /** `render_widget()`: returns early when the widget is off, merges the
      defaults, appends the device suffixes, then walks the channels, skipping
      those that are not enabled, and hands each other one with its suffix to
      `render_channel`. */
  method RenderWidget(h: Host, ctx: PageContext, stored: Option<OptionsArray>) returns (w: Option<Widget>)
    ensures w == Render(h, ctx, stored)
  {
    if stored.None? || !IsSet(stored.value.fields, "enabled") || !Truthy(stored.value.fields["enabled"]) {
      return None;
    }
    var options := ParseArgs(stored.value);

    var deviceClass := "";
    if !Truthy(Lookup(options.fields, "show_on_mobile")) {
      deviceClass := deviceClass + HideMobile;
    }
    if !Truthy(Lookup(options.fields, "show_on_desktop")) {
      deviceClass := deviceClass + HideDesktop;
    }

    var anchors: seq<Anchor> := [];
    if options.channels.Some? {
      anchors := RenderChannels(h, ctx, options.channels.value);
    }
    assert deviceClass == HideSuffix(Truthy(Lookup(options.fields, "show_on_mobile")), Truthy(Lookup(options.fields, "show_on_desktop")));
    w := Some(Widget(options, deviceClass, anchors));
  }

  /** The `foreach` of `render_widget` over the channels: skips a channel that
      is not enabled, builds the class suffix of each other one and hands it to
      `render_channel`. */
  method RenderChannels(h: Host, ctx: PageContext, chans: seq<Record>) returns (anchors: seq<Anchor>)
    ensures anchors == Rendered(h, ctx, chans)
  {
    anchors := [];
    var i := 0;
    while i < |chans|
      invariant 0 <= i <= |chans|
      invariant anchors == Rendered(h, ctx, chans[..i])
    {
      var channel := chans[i];
      i := i + 1;
      assert chans[..i][..i - 1] == chans[..i - 1] && chans[..i][i - 1] == channel;
      if !IsSet(channel, "enabled") || !Truthy(channel["enabled"]) {
        continue;
      }
      var channelClass := "";
      if !IsSet(channel, "show_mobile") || !Truthy(channel["show_mobile"]) {
        channelClass := channelClass + HideMobile;
      }
      if !IsSet(channel, "show_desktop") || !Truthy(channel["show_desktop"]) {
        channelClass := channelClass + HideDesktop;
      }
      assert channelClass == ChannelClass(channel);
      var a := RenderChannel(h, ctx, channel, channelClass);
      if a.Some? {
        anchors := anchors + [a.value];
      }
    }
    assert chans[..|chans|] == chans;
  }

  /** The suffix holds ` fc-hide-mobile` exactly when the mobile flag is off,
      and ` fc-hide-desktop` exactly when the desktop flag is off. */
  lemma HideSuffixFlags(showMobile: bool, showDesktop: bool)
    ensures Occurs(HideSuffix(showMobile, showDesktop), HideMobile) <==> !showMobile
    ensures Occurs(HideSuffix(showMobile, showDesktop), HideDesktop) <==> !showDesktop
  {
    var m := if showMobile then "" else HideMobile;
    var d := if showDesktop then "" else HideDesktop;
    var s := m + d;
    if !showMobile {
      assert s[..|HideMobile|] == HideMobile;
      assert OccursAt(s, HideMobile, 0);
    } else {
      assert s == d;
      forall i | 0 <= i <= |d| && i + |HideMobile| <= |d|
        ensures !OccursAt(d, HideMobile, i)
      {
        if i == 0 {
          assert d[i..i + |HideMobile|][9] != HideMobile[9];
        } else {
          assert i == 1 && d[1] == 'f';
          assert d[i..i + |HideMobile|][0] != HideMobile[0];
        }
      }
    }
    if !showDesktop {
      assert s[|m|..|m| + |HideDesktop|] == HideDesktop;
      assert OccursAt(s, HideDesktop, |m|);
    } else {
      assert s == m;
    }
  }

  /** A channel's anchor is hidden on a device exactly when the channel's flag
      for that device is absent or PHP-false. */
  lemma ChannelClassFlags(channel: Record)
    ensures Occurs(ChannelClass(channel), HideMobile) <==> !FlagOn(channel, "show_mobile")
    ensures Occurs(ChannelClass(channel), HideDesktop) <==> !FlagOn(channel, "show_desktop")
  {
    HideSuffixFlags(FlagOn(channel, "show_mobile"), FlagOn(channel, "show_desktop"));
  }

  /** The widget is hidden on a device exactly when the stored record has that
      device's flag and it is PHP-false: unlike a channel's flags, a missing
      widget flag takes the default 1 and shows the widget. */
  lemma DeviceClassFlags(h: Host, ctx: PageContext, stored: Option<OptionsArray>)
    requires Render(h, ctx, stored).Some?
    ensures var f := stored.value.fields;
            var c := Render(h, ctx, stored).value.deviceClass;
            && (Occurs(c, HideMobile) <==> "show_on_mobile" in f && !Truthy(f["show_on_mobile"]))
            && (Occurs(c, HideDesktop) <==> "show_on_desktop" in f && !Truthy(f["show_on_desktop"]))
  {
    var o := ParseArgs(stored.value);
    assert RenderDefaults["show_on_mobile"] == Int(1) && RenderDefaults["show_on_desktop"] == Int(1);
    HideSuffixFlags(Truthy(Lookup(o.fields, "show_on_mobile")), Truthy(Lookup(o.fields, "show_on_desktop")));
  }

  /** The anchors are the channels at the drawn positions, in stored order. */
  lemma {:induction false} RenderedAtIndices(h: Host, ctx: PageContext, chans: seq<Record>)
    ensures |RenderedIndices(h, ctx, chans)| == |Rendered(h, ctx, chans)|
    ensures forall k :: 0 <= k < |RenderedIndices(h, ctx, chans)| ==>
              Rendered(h, ctx, chans)[k].channel == chans[RenderedIndices(h, ctx, chans)[k]]
    decreases |chans|
  {
    if chans != [] {
      var n := |chans| - 1;
      var front := chans[..n];
      RenderedAtIndices(h, ctx, front);
      forall k | 0 <= k < |RenderedIndices(h, ctx, front)|
        ensures chans[RenderedIndices(h, ctx, front)[k]] == front[RenderedIndices(h, ctx, front)[k]]
      {
      }
    }
  }

  /** A channel is drawn exactly when it is enabled and its link is neither
      `''` nor `"0"`. */
  lemma {:induction false} RenderedIndicesComplete(h: Host, ctx: PageContext, chans: seq<Record>, i: nat)
    requires i < |chans|
    ensures i in RenderedIndices(h, ctx, chans) <==>
              FlagOn(chans[i], "enabled") && Truthy(Str(ChannelUrl(h, ctx, chans[i])))
    decreases |chans|
  {
    var n := |chans| - 1;
    var front := chans[..n];
    if i < n {
      RenderedIndicesComplete(h, ctx, front, i);
      assert front[i] == chans[i];
      assert n !in RenderedIndices(h, ctx, front);
    } else {
      assert i !in RenderedIndices(h, ctx, front);
    }
  }

  /** Every drawn channel has one of the seven known types: an unknown type
      has the empty link and is skipped. */
  lemma RenderedTypesKnown(h: Host, ctx: PageContext, chans: seq<Record>)
    ensures forall k :: 0 <= k < |Rendered(h, ctx, chans)| ==>
              ToStr(Lookup(Rendered(h, ctx, chans)[k].channel, "type")) in PrefixedTypes + ["custom"]
  {
    forall k | 0 <= k < |Rendered(h, ctx, chans)|
      ensures ToStr(Lookup(Rendered(h, ctx, chans)[k].channel, "type")) in PrefixedTypes + ["custom"]
    {
      var c := Rendered(h, ctx, chans)[k].channel;
      if ToStr(Lookup(c, "type")) !in PrefixedTypes + ["custom"] {
        UnknownTypeHasNoLink(h, ctx, c);
      }
    }
  }
}
