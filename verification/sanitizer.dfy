/** `FloatConnect::sanitize_options`, the callback WordPress runs on every save of
    the settings form: it turns the untrusted `floatconnect_options` array into the
    record that is stored. */
module Sanitizer {
  import opened Php
  import opened WordPress

  /** The closed set of channel types a stored channel may have. */
  const AllowedTypes: seq<string> := ["whatsapp", "messenger", "phone", "email", "telegram", "viber", "custom"]

  const MinButtonSize: int := 40
  const MaxButtonSize: int := 80

  /** One sanitised channel (`displayLabel` is its `label` entry); the flags are the stored 1 (true) and 0 (false). */
  datatype Channel = Channel(
    kind: string, value: string, displayLabel: string, message: string,
    showMobile: bool, showDesktop: bool, enabled: bool)

  /** The sanitised options record. `channels` is `None` when the submission had
      no channel array: the sanitiser then writes no `channels` entry at all. */
  datatype Settings = Settings(
    enabled: bool, position: string, buttonSize: int,
    buttonColor: Option<string>, iconColor: Option<string>,
    showOnMobile: bool, showOnDesktop: bool,
    channels: Option<seq<Channel>>)

  /** `max(40, min(80, $n))`. */
  function ClampButtonSize(n: int): (size: int)
    ensures MinButtonSize <= size <= MaxButtonSize
    ensures MinButtonSize <= n <= MaxButtonSize ==> size == n
  {
    var upper := if n < MaxButtonSize then n else MaxButtonSize;
    if MinButtonSize > upper then MinButtonSize else upper
  }

  /** `in_array($position, array('left', 'right')) ? $position : 'right'`. */
  function SanitizePosition(v: Scalar): (position: string)
    ensures position == "left" || position == "right"
  {
    if LooseInArray(v, ["left", "right"]) then ToStr(v) else "right"
  }

  /** The sanitised form of one submitted channel, before its type is checked. */
  function SanitizeChannel(h: Host, raw: Record): Channel
  {
    Channel(
      kind := h.textField(Lookup(raw, "type")),
      value := h.textField(Lookup(raw, "value")),
      displayLabel := h.textField(Lookup(raw, "label")),
      message := h.textareaField(Lookup(raw, "message")),
      showMobile := IsSet(raw, "show_mobile"),
      showDesktop := IsSet(raw, "show_desktop"),
      enabled := IsSet(raw, "enabled"))
  }

  /** The channels the sanitiser keeps from `raws`, in their order: the
      sanitised entries whose type is in the closed set. */
  function KeptChannels(h: Host, raws: seq<Record>): (kept: seq<Channel>)
    ensures |kept| <= |raws|
    ensures forall k :: 0 <= k < |kept| ==> kept[k].kind in AllowedTypes
    decreases |raws|
  {
    if raws == [] then []
    else
      var c := SanitizeChannel(h, raws[|raws| - 1]);
      KeptChannels(h, raws[..|raws| - 1]) + (if c.kind in AllowedTypes then [c] else [])
  }

  /** The positions in `raws` of the channels that are kept. */
  function KeptIndices(h: Host, raws: seq<Record>): (idx: seq<nat>)
    ensures forall k :: 0 <= k < |idx| ==> idx[k] < |raws|
    ensures forall k, l :: 0 <= k < l < |idx| ==> idx[k] < idx[l]
    decreases |raws|
  {
    if raws == [] then []
    else
      var c := SanitizeChannel(h, raws[|raws| - 1]);
      KeptIndices(h, raws[..|raws| - 1]) + (if c.kind in AllowedTypes then [|raws| - 1] else [])
  }

  /** What `sanitize_options` returns for `input`. */
  function Sanitized(h: Host, input: OptionsArray): (o: Settings)
    ensures MinButtonSize <= o.buttonSize <= MaxButtonSize
    ensures o.position == "left" || o.position == "right"
    ensures o.channels.None? <==> input.channels.None?
  {
    Settings(
      enabled := IsSet(input.fields, "enabled"),
      position := SanitizePosition(Lookup(input.fields, "position")),
      buttonSize := ClampButtonSize(AbsInt(Lookup(input.fields, "button_size"))),
      buttonColor := h.hexColor(Lookup(input.fields, "button_color")),
      iconColor := h.hexColor(Lookup(input.fields, "icon_color")),
      showOnMobile := IsSet(input.fields, "show_on_mobile"),
      showOnDesktop := IsSet(input.fields, "show_on_desktop"),
      channels := if input.channels.Some? then Some(KeptChannels(h, input.channels.value)) else None)
  }

  /** `sanitize_options($input)`: fills the record field by field, then walks the
      submitted channels and appends each one whose type is allowed. */
  method SanitizeOptions(h: Host, input: OptionsArray) returns (o: Settings)
    ensures o == Sanitized(h, input)
    ensures MinButtonSize <= o.buttonSize <= MaxButtonSize
    ensures o.channels.Some? ==> forall k :: 0 <= k < |o.channels.value| ==> o.channels.value[k].kind in AllowedTypes
  {
    var f := input.fields;
    var enabled := IsSet(f, "enabled");
    var position := SanitizePosition(Lookup(f, "position"));
    var buttonSize := AbsInt(Lookup(f, "button_size"));
    buttonSize := ClampButtonSize(buttonSize);
    var buttonColor := h.hexColor(Lookup(f, "button_color"));
    var iconColor := h.hexColor(Lookup(f, "icon_color"));
    var showOnMobile := IsSet(f, "show_on_mobile");
    var showOnDesktop := IsSet(f, "show_on_desktop");

    var channels: Option<seq<Channel>> := None;
    if input.channels.Some? {
      var raws := input.channels.value;
      var kept: seq<Channel> := [];
      for i := 0 to |raws|
        invariant kept == KeptChannels(h, raws[..i])
      {
        var c := SanitizeChannel(h, raws[i]);
        assert raws[..i + 1][..i] == raws[..i];
        if c.kind in AllowedTypes {
          kept := kept + [c];
        }
      }
      assert raws[..|raws|] == raws;
      channels := Some(kept);
    }
    o := Settings(enabled, position, buttonSize, buttonColor, iconColor, showOnMobile, showOnDesktop, channels);
  }

  /** The button size is `absint` of the input clamped to [40, 80]: a value in the
      range is kept, a smaller one becomes 40, a larger one 80. */
  lemma ButtonSizeClamped(h: Host, input: OptionsArray)
    ensures var n := AbsInt(Lookup(input.fields, "button_size"));
            var size := Sanitized(h, input).buttonSize;
            && (MinButtonSize <= n <= MaxButtonSize ==> size == n)
            && (n < MinButtonSize ==> size == MinButtonSize)
            && (n > MaxButtonSize ==> size == MaxButtonSize)
  {
  }

  /** A submission without a button size is stored with size 40, not with the
      default 60: `absint(null)` is 0, which the clamp raises to 40. */
  lemma MissingButtonSizeIsMinimum(h: Host, input: OptionsArray)
    requires "button_size" !in input.fields
    ensures Sanitized(h, input).buttonSize == MinButtonSize
  {
    assert Lookup(input.fields, "button_size") == Null;
  }

  /** The submitted sizes "5" and "999" become 40 and 80; "-50" becomes 50,
      because `absint` drops the sign before the clamp. */
  lemma ButtonSizeExamples(h: Host, rest: Record)
    ensures Sanitized(h, OptionsArray(rest["button_size" := Str("5")], None)).buttonSize == 40
    ensures Sanitized(h, OptionsArray(rest["button_size" := Str("999")], None)).buttonSize == 80
    ensures Sanitized(h, OptionsArray(rest["button_size" := Str("-50")], None)).buttonSize == 50
  {
    assert ToStr(Int(5)) == "5";
    IntValOfToStr(5);
    assert ToStr(Int(999)) == "999" by {
      assert DecimalString(99) == "99";
    }
    IntValOfToStr(999);
    assert ToStr(Int(-50)) == "-50" by {
      assert DecimalString(50) == "50";
    }
    IntValOfToStr(-50);
  }

  /** The position is one of `left` and `right`; a string input is kept when it is
      one of them and replaced by `right` otherwise. */
  lemma PositionOfString(h: Host, input: OptionsArray, s: string)
    requires Lookup(input.fields, "position") == Str(s)
    ensures s == "left" || s == "right" ==> Sanitized(h, input).position == s
    ensures s != "left" && s != "right" ==> Sanitized(h, input).position == "right"
  {
    if s == "left" || s == "right" {
      PositionKept(s);
    }
  }

  lemma PositionKept(s: string)
    requires s == "left" || s == "right"
    ensures SanitizePosition(Str(s)) == s
  {
    assert LooseEquals(Str(s), ["left", "right"][if s == "left" then 0 else 1]);
  }

  /** Each top-level flag depends only on whether its key is set: any non-null
      value, `0` and `"0"` included, gives 1, and a missing key gives 0. */
  lemma FlagsFollowPresence(h: Host, input: OptionsArray, v: Scalar)
    requires v != Null
    ensures Sanitized(h, input.(fields := input.fields["enabled" := v])).enabled
    ensures Sanitized(h, input.(fields := input.fields["show_on_mobile" := v])).showOnMobile
    ensures Sanitized(h, input.(fields := input.fields["show_on_desktop" := v])).showOnDesktop
    ensures !Sanitized(h, input.(fields := input.fields - {"enabled"})).enabled
    ensures !Sanitized(h, input.(fields := input.fields - {"show_on_mobile"})).showOnMobile
    ensures !Sanitized(h, input.(fields := input.fields - {"show_on_desktop"})).showOnDesktop
  {
  }

  /** The same holds of a channel's three flags. */
  lemma ChannelFlagsFollowPresence(h: Host, raw: Record, v: Scalar)
    requires v != Null
    ensures SanitizeChannel(h, raw["enabled" := v]).enabled
    ensures SanitizeChannel(h, raw["show_mobile" := v]).showMobile
    ensures SanitizeChannel(h, raw["show_desktop" := v]).showDesktop
    ensures !SanitizeChannel(h, raw - {"enabled"}).enabled
    ensures !SanitizeChannel(h, raw - {"show_mobile"}).showMobile
    ensures !SanitizeChannel(h, raw - {"show_desktop"}).showDesktop
  {
  }

  /** The kept channels are the submitted entries at the kept positions, each
      sanitised as a whole: nothing is defaulted or merged. */
  lemma {:induction false} KeptAtIndices(h: Host, raws: seq<Record>)
    ensures |KeptIndices(h, raws)| == |KeptChannels(h, raws)|
    ensures forall k :: 0 <= k < |KeptIndices(h, raws)| ==>
              KeptChannels(h, raws)[k] == SanitizeChannel(h, raws[KeptIndices(h, raws)[k]])
    decreases |raws|
  {
    if raws != [] {
      var n := |raws| - 1;
      var front := raws[..n];
      KeptAtIndices(h, front);
      forall k | 0 <= k < |KeptIndices(h, front)|
        ensures raws[KeptIndices(h, front)[k]] == front[KeptIndices(h, front)[k]]
      {
      }
    }
  }

  /** An entry is kept exactly when its sanitised type is in the closed set. */
  lemma {:induction false} KeptIndicesComplete(h: Host, raws: seq<Record>, i: nat)
    requires i < |raws|
    ensures i in KeptIndices(h, raws) <==> SanitizeChannel(h, raws[i]).kind in AllowedTypes
    decreases |raws|
  {
    var n := |raws| - 1;
    var front := raws[..n];
    if i < n {
      KeptIndicesComplete(h, front, i);
      assert front[i] == raws[i];
      assert n !in KeptIndices(h, front);
    } else {
      assert i !in KeptIndices(h, front);
    }
  }

  /** Filtering works piece by piece, so a rejected entry between two valid ones
      does not disturb them. */
  lemma {:induction false} KeptOfConcat(h: Host, a: seq<Record>, b: seq<Record>)
    ensures KeptChannels(h, a + b) == KeptChannels(h, a) + KeptChannels(h, b)
    decreases |b|
  {
    if b == [] {
      assert a + b == a;
    } else {
      var n := |b| - 1;
      assert (a + b)[..|a + b| - 1] == a + b[..n];
      assert (a + b)[|a + b| - 1] == b[n];
      KeptOfConcat(h, a, b[..n]);
    }
  }

  /** The sanitised record as the PHP array `update_option` stores: flags as the
      integers 1 and 0, a `null` colour kept as `null`, and no `channels` entry
      when the sanitiser wrote none. */
  function Stored(o: Settings): OptionsArray
  {
    OptionsArray(
      map[
        "enabled" := FlagValue(o.enabled),
        "position" := Str(o.position),
        "button_size" := Int(o.buttonSize),
        "button_color" := ColorValue(o.buttonColor),
        "icon_color" := ColorValue(o.iconColor),
        "show_on_mobile" := FlagValue(o.showOnMobile),
        "show_on_desktop" := FlagValue(o.showOnDesktop)],
      if o.channels.Some? then Some(StoredChannels(o.channels.value)) else None)
  }

  function FlagValue(b: bool): Scalar
  {
    Int(if b then 1 else 0)
  }

  function ColorValue(c: Option<string>): Scalar
  {
    if c.Some? then Str(c.value) else Null
  }

  function StoredChannel(c: Channel): Record
  {
    map[
      "type" := Str(c.kind),
      "value" := Str(c.value),
      "label" := Str(c.displayLabel),
      "message" := Str(c.message),
      "show_mobile" := FlagValue(c.showMobile),
      "show_desktop" := FlagValue(c.showDesktop),
      "enabled" := FlagValue(c.enabled)]
  }

  function StoredChannels(cs: seq<Channel>): (rs: seq<Record>)
    ensures |rs| == |cs|
    ensures forall k :: 0 <= k < |cs| ==> rs[k] == StoredChannel(cs[k])
  {
    if cs == [] then [] else [StoredChannel(cs[0])] + StoredChannels(cs[1..])
  }

  /** Sanitising a stored record again keeps its position and button size, but
      turns every flag on: a stored 0 is set, so `isset` reports it. The
      sanitiser is therefore not idempotent on records with a flag off. */
  lemma {:induction false} ResanitizeStored(h: Host, o: Settings)
    requires o.position == "left" || o.position == "right"
    requires MinButtonSize <= o.buttonSize <= MaxButtonSize
    ensures var again := Sanitized(h, Stored(o));
            && again.position == o.position
            && again.buttonSize == o.buttonSize
            && again.enabled && again.showOnMobile && again.showOnDesktop
            && (again.channels.Some? <==> o.channels.Some?)
            && (again.channels.Some? ==> forall k :: 0 <= k < |again.channels.value| ==>
                  again.channels.value[k].enabled && again.channels.value[k].showMobile && again.channels.value[k].showDesktop)
  {
    var f := Stored(o).fields;
    assert IsSet(f, "enabled") && IsSet(f, "show_on_mobile") && IsSet(f, "show_on_desktop");
    assert Lookup(f, "position") == Str(o.position);
    PositionKept(o.position);
    assert Lookup(f, "button_size") == Int(o.buttonSize);
    if o.channels.Some? {
      KeptHasFlagsSet(h, StoredChannels(o.channels.value));
    }
  }

  /** Entries whose three flags are all set are kept with all three flags on. */
  lemma {:induction false} KeptHasFlagsSet(h: Host, raws: seq<Record>)
    requires forall i :: 0 <= i < |raws| ==>
               IsSet(raws[i], "enabled") && IsSet(raws[i], "show_mobile") && IsSet(raws[i], "show_desktop")
    ensures forall k :: 0 <= k < |KeptChannels(h, raws)| ==>
              var c := KeptChannels(h, raws)[k]; c.enabled && c.showMobile && c.showDesktop
    decreases |raws|
  {
    if raws != [] {
      KeptHasFlagsSet(h, raws[..|raws| - 1]);
    }
  }

  /** A submission with the widget switched off is stored with `enabled` 0, and
      sanitising that stored record again switches the widget on. */
  lemma ResanitizeEnables(h: Host, input: OptionsArray)
    requires !IsSet(input.fields, "enabled")
    ensures !Sanitized(h, input).enabled
    ensures Sanitized(h, Stored(Sanitized(h, input))).enabled
  {
    ResanitizeStored(h, Sanitized(h, input));
  }

  /** The settings form shows the stored size in its input field; posting the
      form again without touching it keeps the size. */
  lemma ResubmittedSizeKept(h: Host, o: Settings, input: OptionsArray)
    requires MinButtonSize <= o.buttonSize <= MaxButtonSize
    requires Lookup(input.fields, "button_size") == Str(ToStr(Int(o.buttonSize)))
    ensures Sanitized(h, input).buttonSize == o.buttonSize
  {
    IntValOfToStr(o.buttonSize);
  }
}
