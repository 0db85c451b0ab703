/** The three parts together: a settings form is sanitised, stored as
    `update_option` stores the result, and drawn by the front-end. */
module Pipeline {
  import opened Php
  import opened Text
  import opened WordPress
  import opened LinkResolver
  import opened Sanitizer
  import opened Rendering

  /** A stored record holds every key the render defaults supply, so merging
      the defaults changes none of its scalar fields; a record stored without a
      channel list gets the default empty one. */
  lemma StoredNeedsNoDefaults(o: Settings)
    ensures ParseArgs(Stored(o)).fields == Stored(o).fields
    ensures ParseArgs(Stored(o)).channels == Some(if o.channels.Some? then StoredChannels(o.channels.value) else [])
  {
    var f := Stored(o).fields;
    assert RenderDefaults.Keys <= f.Keys;
    assert ParseArgs(Stored(o)).fields.Keys == f.Keys;
  }

  /** Saved settings with the widget switched on are drawn, and the widget is
      hidden on a device exactly when that device's box was left unticked. */
  lemma SavedSettingsRender(h: Host, ctx: PageContext, o: Settings)
    requires o.enabled
    ensures var w := Render(h, ctx, Some(Stored(o)));
            && w.Some?
            && (Occurs(w.value.deviceClass, HideMobile) <==> !o.showOnMobile)
            && (Occurs(w.value.deviceClass, HideDesktop) <==> !o.showOnDesktop)
  {
    var f := Stored(o).fields;
    assert f["enabled"] == Int(1);
    assert f["show_on_mobile"] == FlagValue(o.showOnMobile);
    assert f["show_on_desktop"] == FlagValue(o.showOnDesktop);
    DeviceClassFlags(h, ctx, Some(Stored(o)));
  }

  /** Within the channel loop: a saved channel that is switched on and has a
      built-in type other than `custom` gets a link. Whether the loop runs at
      all depends on the widget's own `enabled`; `SavedChannelOnPage` adds it. */
  lemma SavedChannelRendered(h: Host, ctx: PageContext, cs: seq<Channel>, k: nat)
    requires k < |cs|
    requires cs[k].enabled && cs[k].kind in PrefixedTypes
    ensures k in RenderedIndices(h, ctx, StoredChannels(cs))
  {
    var r := StoredChannels(cs)[k];
    assert Lookup(r, "type") == Str(cs[k].kind);
    assert r["enabled"] == Int(1);
    PrefixedLinkIsTruthy(h, ctx, r);
    RenderedIndicesComplete(h, ctx, StoredChannels(cs), k);
  }

  /** A saved channel that is switched off is never drawn. */
  lemma SavedDisabledChannelSkipped(h: Host, ctx: PageContext, cs: seq<Channel>, k: nat)
    requires k < |cs|
    requires !cs[k].enabled
    ensures k !in RenderedIndices(h, ctx, StoredChannels(cs))
  {
    var r := StoredChannels(cs)[k];
    assert r["enabled"] == Int(0);
    RenderedIndicesComplete(h, ctx, StoredChannels(cs), k);
  }

  /** The widget `w` is drawn and one of its anchors links `channel`. */
  predicate OnPage(w: Option<Widget>, channel: Record)
  {
    w.Some? && exists j :: 0 <= j < |w.value.anchors| && w.value.anchors[j].channel == channel
  }

  /** Saved settings with the widget switched on put every saved channel that is
      switched on and has a built-in type other than `custom` on the page: the
      widget is drawn and one of its anchors is that stored channel. */
  lemma SavedChannelOnPage(h: Host, ctx: PageContext, o: Settings, k: nat)
    requires o.enabled && o.channels.Some? && k < |o.channels.value|
    requires o.channels.value[k].enabled && o.channels.value[k].kind in PrefixedTypes
    ensures OnPage(Render(h, ctx, Some(Stored(o))), StoredChannel(o.channels.value[k]))
  {
    var cs := o.channels.value;
    var chans := StoredChannels(cs);
    assert Stored(o).fields["enabled"] == Int(1);
    var w := Render(h, ctx, Some(Stored(o)));
    assert ParseArgs(Stored(o)).channels == Some(chans);
    assert w.value.anchors == Rendered(h, ctx, chans);
    SavedChannelRendered(h, ctx, cs, k);
    RenderedAtIndices(h, ctx, chans);
    var idx := RenderedIndices(h, ctx, chans);
    var j :| 0 <= j < |idx| && idx[j] == k;
    assert w.value.anchors[j].channel == chans[k];
  }

  /** From form to page: when the form ticks the widget's `enabled` box, a
      submitted channel that is ticked as enabled and whose sanitised type is a
      built-in type other than `custom` is kept by the sanitiser, sanitised
      whole, and drawn in the widget rendered from the stored record. */
  lemma SubmittedChannelReachesWidget(h: Host, ctx: PageContext, input: OptionsArray, raws: seq<Record>, i: nat)
    requires input.channels == Some(raws) && i < |raws|
    requires IsSet(input.fields, "enabled")
    requires IsSet(raws[i], "enabled")
    requires SanitizeChannel(h, raws[i]).kind in PrefixedTypes
    ensures var kept := KeptChannels(h, raws);
            exists k :: 0 <= k < |kept| && kept[k] == SanitizeChannel(h, raws[i])
    ensures OnPage(Render(h, ctx, Some(Stored(Sanitized(h, input)))), StoredChannel(SanitizeChannel(h, raws[i])))
  {
    var kept := KeptChannels(h, raws);
    var c := SanitizeChannel(h, raws[i]);
    assert c.kind in AllowedTypes;
    KeptIndicesComplete(h, raws, i);
    KeptAtIndices(h, raws);
    var idx := KeptIndices(h, raws);
    var k :| 0 <= k < |idx| && idx[k] == i;
    assert kept[k] == c;
    var o := Sanitized(h, input);
    assert o.enabled && o.channels == Some(kept);
    SavedChannelOnPage(h, ctx, o, k);
  }
}
