/** `FloatConnect::activate`, which writes the default options when the plugin is
    switched on, and `FloatConnect::add_settings_link`, which puts a link to the
    settings page in front of the plugin's action links. */
module Activation {
  import opened Php
  import opened WordPress
  import opened Rendering

  /** The `$default_options` array of `activate`. */
  const ActivationDefaults: OptionsArray := OptionsArray(
    map[
      "enabled" := Int(1),
      "position" := Str("right"),
      "button_size" := Int(60),
      "button_color" := Str("#4482FF"),
      "icon_color" := Str("#ffffff"),
      "show_on_mobile" := Int(1),
      "show_on_desktop" := Int(1)],
    Some([]))

  /** The `floatconnect_options` row after activation: the defaults when there
      was no row, and the existing row, untouched, otherwise. */
  function Activated(stored: Option<OptionsArray>): (r: Option<OptionsArray>)
    ensures r.Some?
    ensures stored.Some? ==> r == stored
    ensures stored.None? ==> r == Some(ActivationDefaults)
  {
    if stored.None? then Some(ActivationDefaults) else stored
  }

  /** The WordPress options table, reduced to the plugin's one row. */
  class OptionTable {
    var row: Option<OptionsArray>

    constructor(initial: Option<OptionsArray>)
      ensures row == initial
    {
      row := initial;
    }

    /** `activate()`: `add_option` with the defaults when `get_option` finds no
        row. */
    method Activate()
      modifies this
      ensures row == Activated(old(row))
    {
      if row.None? {
        row := Some(ActivationDefaults);
      }
    }
  }

  /** Activating twice is activating once: a re-activation never resets the
      settings an administrator saved. */
  lemma ActivateIdempotent(stored: Option<OptionsArray>)
    ensures Activated(Activated(stored)) == Activated(stored)
  {
  }

  /** Once `activate()` has written the defaults, the widget is drawn on every device, with
      the default settings and no channel links. */
  lemma FreshInstallRendersEmptyWidget(h: Host, ctx: PageContext)
    ensures var w := Render(h, ctx, Activated(None));
            && w.Some?
            && w.value.options == ActivationDefaults
            && w.value.deviceClass == ""
            && w.value.anchors == []
  {
    var d := ActivationDefaults;
    assert FlagOn(d.fields, "enabled");
    var o := ParseArgs(d);
    assert o.fields.Keys == d.fields.Keys;
    assert o.fields == d.fields;
    assert Lookup(o.fields, "show_on_mobile") == Int(1) && Lookup(o.fields, "show_on_desktop") == Int(1);
  }

  const SettingsAnchorStart: string := "<a href=\"admin.php?page=floatconnect\">"

  /** The settings link, with `caption` the translation of "Settings". */
  function SettingsLink(caption: string): string
  {
    SettingsAnchorStart + caption + "</a>"
  }

  /** `add_settings_link($links)`: `array_unshift` puts the settings link first;
      the links already there follow it, unchanged and in their order. */
  function AddSettingsLink(links: seq<string>, caption: string): (r: seq<string>)
    ensures |r| == |links| + 1
    ensures r[0] == SettingsLink(caption)
    ensures r[1..] == links
  {
    [SettingsLink(caption)] + links
  }
}
