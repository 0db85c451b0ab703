# FloatConnect: a Dafny model of the channel pipeline

FloatConnect is a WordPress plugin. It draws a floating contact button on every
page. Clicking the button shows links to the site's contact channels: WhatsApp,
Messenger, phone, e-mail, Telegram, Viber, or a custom URL. This project models
the logic behind those links, all of it in `floatconnect.php`, and proves
properties of the model.

- **The settings sanitiser**, `sanitize_options`. It turns the posted settings
  form into the stored `floatconnect_options` record: flags, position, button
  size, colours, and the filtered list of channels.
  - `Sanitizer.Sanitized` is the specification.
  - `Sanitizer.SanitizeOptions` is the loop, proved equal to it.
- **The link resolver**, `get_channel_url` with `replace_variables`. It turns a
  stored channel into its deep link. It substitutes `[PAGE_URL]`,
  `[PAGE_TITLE]` and `[SITE_NAME]` in the message, keeps only the digits of
  WhatsApp and Viber numbers, and applies PHP's `urlencode` to the message and
  the e-mail subject.
  - Module `LinkResolver`, built on modules `Text` and `UrlEncoding`.
- **The front-end renderer**, `render_widget` and `render_channel`, reduced to
  their decisions:
  - whether the widget is drawn at all;
  - the merge with the defaults;
  - the ` fc-hide-mobile` / ` fc-hide-desktop` class suffixes;
  - which channels get a link, and in what order.
  - `Rendering.Render` is the specification; `Rendering.RenderWidget` and
    `Rendering.RenderChannels` are the code, with the channel loop and its
    `continue`.
- **Activation**, `activate` and `add_settings_link`: the defaults written
  when `activate()` runs, and the settings link put in front of the plugin's action
  links (module `Activation`).
- **The pipeline**: lemmas that follow one channel from the form to the page
  (module `Pipeline`).

PHP's loosely typed values are modelled in module `Php`:

- a value is `Null`, an integer or a string;
- an array is a `map` from keys to such values;
- `isset`, truthiness (`null`, `0`, `""` and `"0"` are false), string
  conversion, `intval` and `absint` are written out.

Comparisons with the channel type words and with `left`/`right` use PHP 8's
loose comparison. For those non-numeric words it compares as strings.

The WordPress sanitisers and escapers (`sanitize_text_field`,
`sanitize_textarea_field`, `sanitize_hex_color`, `esc_url`) are library code.
They are the function-valued fields of `WordPress.Host`, so every property
holds whatever they do. The page data (`get_permalink`, `get_the_title`,
`get_bloginfo('name')`) is the record `WordPress.PageContext`.

Some of the code's behaviour differs from what a reader of the plugin would
expect. The model follows the code:

- `urlencode` writes a space as `+`, not `%20`. The message "Hi [SITE_NAME]" on
  a site called "Acme" becomes `?text=Hi+Acme` (`LinkExamples.WhatsAppExample`).
- An unknown channel type gives the empty link `''`, not `null`. `render_channel`
  skips it because `''` is false; it would equally skip a link `"0"`.
- The three tokens are replaced one after the other, not at once. A page URL
  that itself contains `[PAGE_TITLE]` or `[SITE_NAME]` is substituted again.
- The sanitiser is not idempotent. A stored flag `0` is set, so `isset` turns
  it back into `1` (`Sanitizer.ResanitizeEnables`).
- A submission without a button size is stored with size 40, not with the
  default 60: `absint(null)` is 0, and the clamp raises it to 40
  (`Sanitizer.MissingButtonSizeIsMinimum`).
- When the submission has no channel array, the sanitiser writes no `channels`
  entry at all; it does not write an empty list.
- Device visibility is not a filter. A channel hidden on mobile is still
  rendered, with the class suffix ` fc-hide-mobile`; the style sheet hides it.

## Model

| member | source | states |
|---|---|---|
| Php.IntVal | floatconnect.php:147 | defines `intval`: `null` is 0, an integer is itself, a string is read as optional whitespace, an optional sign and leading digits |
| Php.AbsInt | floatconnect.php:147 | `absint` is a natural number, either `intval` of the value or its negation |
| Php.IntValOfToStr | floatconnect.php:147 | `intval` reads back every integer from its printed decimal form |
| Sanitizer.ClampButtonSize | floatconnect.php:148 | `max(40, min(80, n))` is always in [40, 80] and keeps every size already in that range |
| Sanitizer.SanitizePosition | floatconnect.php:146 | the `in_array` test against `left` and `right` always gives one of the two |
| Sanitizer.SanitizeChannel | floatconnect.php:158-166 | defines the sanitised channel: the four text fields through the WordPress sanitisers, the three flags from `isset` |
| Sanitizer.Stored | floatconnect.php:176 | defines the array the sanitiser returns and WordPress stores: flags as 1 and 0, a `null` colour as `null`, no `channels` entry when none was written |
| Sanitizer.Sanitized | floatconnect.php:141-177 | the stored size is in [40, 80]; the position is `left` or `right`; a `channels` entry is written exactly when the submission has a channel array |
| Sanitizer.SanitizeOptions | floatconnect.php:141-177 | the field-by-field assignments and the channel loop give exactly `Sanitized`; the size is in [40, 80] and every kept channel has one of the seven allowed types |
| Sanitizer.KeptChannels | floatconnect.php:155-174 | the kept channels are never more than the submitted ones, and each has an allowed type |
| Sanitizer.KeptIndices | floatconnect.php:155-174 | the positions of kept entries are valid positions in the submission, strictly increasing (submission order is kept) |
| Sanitizer.KeptAtIndices | floatconnect.php:157-173 | the kept channels are, one for one, the submitted entries at the kept positions, each sanitised whole: nothing is defaulted or merged |
| Sanitizer.KeptIndicesComplete | floatconnect.php:169-172 | a submitted entry is kept exactly when its sanitised type is one of the seven allowed types |
| Sanitizer.KeptOfConcat | floatconnect.php:157-173 | each entry is filtered on its own: the kept channels of two concatenated lists are the kept channels of each, in order |
| Sanitizer.ButtonSizeClamped | floatconnect.php:147-148 | a size within [40, 80] is kept, a smaller one becomes 40, a larger one 80 |
| Sanitizer.ButtonSizeExamples | floatconnect.php:147-148 | "5" is stored as 40, "999" as 80, "-50" as 50, because `absint` drops the sign |
| Sanitizer.MissingButtonSizeIsMinimum | floatconnect.php:147-148 | a submission without `button_size` is stored with size 40, not the default 60, because `absint(null)` is 0 |
| Sanitizer.PositionOfString | floatconnect.php:146 | a string position is kept when it is `left` or `right` and becomes `right` otherwise |
| Sanitizer.FlagsFollowPresence | floatconnect.php:145-152 | each top-level flag is 1 when its key holds any non-null value, `0` and `"0"` included, and 0 when the key is missing |
| Sanitizer.ChannelFlagsFollowPresence | floatconnect.php:163-165 | the same holds for a channel's `show_mobile`, `show_desktop` and `enabled` |
| Sanitizer.ResanitizeStored | floatconnect.php:141-177 | sanitising a stored record again keeps its position, its size and whether it has channels, but turns every flag on, channel flags included |
| Sanitizer.ResanitizeEnables | floatconnect.php:145 | a widget saved as switched off is switched on when its stored record is sanitised again, so the sanitiser is not idempotent |
| Sanitizer.ResubmittedSizeKept | floatconnect.php:147-148 | posting a stored size back as its decimal string stores the same size |
| Text.ReplaceAll | floatconnect.php:895 | defines `str_replace` of one non-empty search string: a left-to-right scan that replaces each occurrence and goes on behind it |
| Text.SplitPiecesFree | floatconnect.php:895 | no piece between the cuts holds the search string, so the replace-all, which joins these pieces, replaces every occurrence |
| Text.ReplaceAllTwice | floatconnect.php:895 | two occurrences in a row are both replaced |
| Text.ReplaceAllSkipsNonMatch | floatconnect.php:895 | a piece that does not match where it starts and holds no other first character of the search string is copied, and the scan goes on behind it |
| Text.ReplaceAllIsJoinOfSplit | floatconnect.php:895 | the left-to-right replace-all of `str_replace` equals `implode` of the replacement over `explode` of the text |
| Text.SplitJoinRoundTrip | floatconnect.php:895 | joining the pieces cut at the search string with that string gives back the text |
| Text.ReplaceAllBySelf | floatconnect.php:895 | replacing a string by itself leaves any text unchanged |
| Text.ReplaceAllAbsent | floatconnect.php:895 | a text in which the search string does not occur is returned unchanged |
| Text.ReplaceAllWithoutLead | floatconnect.php:895 | a text without the search string's first character is returned unchanged |
| Text.ReplaceAllSkipsPrefix | floatconnect.php:895 | a prefix without the search string's first character is copied and the rest is replaced on its own |
| Text.ReplaceAllWhole | floatconnect.php:895 | a text that is exactly the search string becomes the replacement |
| Text.Digits | floatconnect.php:855 | defines `preg_replace('/[^0-9]/', '', $s)`: the characters 0-9 of the text, in order |
| Text.DigitsAreDigits | floatconnect.php:853-873 | the digit filter yields only the characters 0-9 and is never longer than its input |
| Text.DigitsOfConcat | floatconnect.php:853-873 | the digit filter works piece by piece over a concatenation |
| Text.DigitsKeepsDigitString | floatconnect.php:853-873 | a string of digits passes the filter whole, so the filter is idempotent |
| Text.DigitsKeepsEveryDigit | floatconnect.php:853-873 | every digit occurs in the output as often as in the input, and nothing else occurs |
| UrlEncoding.UrlEncode | floatconnect.php:856 | defines `urlencode`: the UTF-8 bytes of the text, letters, digits and `-_.` kept, a space as `+`, every other byte as `%` and two upper-case hexadecimal digits |
| UrlEncoding.PercentEncodeIsQuerySafe | floatconnect.php:856-866 | `urlencode` output holds only letters, digits and `-_.+%`, so it never ends or splits a query parameter |
| UrlEncoding.UrlEncodeIsQuerySafe | floatconnect.php:856-866 | the same for a text encoded as UTF-8 |
| UrlEncoding.PercentRoundTrip | floatconnect.php:856-866 | `urldecode` of `urlencode` of any byte string gives back those bytes |
| UrlEncoding.UrlRoundTrip | floatconnect.php:856-866 | `urldecode` of `urlencode` of a text gives back its UTF-8 bytes |
| LinkResolver.ReplaceVariables | floatconnect.php:886-896 | defines `replace_variables`: the replace-all of `[PAGE_URL]`, then of `[PAGE_TITLE]`, then of `[SITE_NAME]`, each pass on the result of the one before |
| LinkResolver.ChannelMessage | floatconnect.php:848-851 | defines the message: the stored message when it is set, `''` otherwise, after `replace_variables` |
| LinkResolver.ChannelUrl | floatconnect.php:846-881 | defines `get_channel_url`: the `switch` over the loosely compared type, one link per type, `esc_url` of the value for `custom` and `''` for any other type |
| LinkResolver.ReplaceVariablesWithoutTokens | floatconnect.php:886-896 | text containing none of the three tokens is returned unchanged |
| LinkResolver.ReplaceVariablesWithoutBracket | floatconnect.php:886-896 | text without a `[` is returned unchanged |
| LinkResolver.PageUrlIsSubstitutedAgain | floatconnect.php:889-895 | `[PAGE_URL]` becomes the page URL with `[PAGE_TITLE]` and then `[SITE_NAME]` replaced in it: the passes run one after another |
| LinkResolver.PageUrlHoldingTitleToken | floatconnect.php:889-895 | so a page URL that reads `[PAGE_TITLE]` ends up as the page title |
| LinkResolver.SiteNameAfterPlainText | floatconnect.php:886-896 | bracket-free text followed by `[SITE_NAME]` becomes that text followed by the site name |
| LinkResolver.SiteNameTwice | floatconnect.php:886-896 | `[SITE_NAME][SITE_NAME]` becomes the site name twice: every occurrence of a token is replaced |
| LinkResolver.EmailSubjectText | floatconnect.php:865 | the e-mail subject before encoding is "Inquiry from " followed by the site name |
| LinkResolver.WhatsAppUrlParts | floatconnect.php:854-856 | the WhatsApp link is the prefix, the digits of the value and the `?text=` query of the substituted message, in that order |
| LinkResolver.WhatsAppLink | floatconnect.php:847-856 | the link is `https://wa.me/`, then the digits of the value (digits only, in order), then, exactly when the substituted message is PHP-true, `?text=` and an encoding that decodes to the message's bytes |
| LinkResolver.ViberLink | floatconnect.php:872-873 | the link is `viber://chat?number=` followed by the digits of the value and nothing else |
| LinkResolver.VerbatimLinks | floatconnect.php:858-870 | Messenger, phone and Telegram links are their prefix followed by the value as stored |
| LinkResolver.EmailLink | floatconnect.php:864-867 | `mailto:`, the address, `?subject=` and the encoded "Inquiry from <site name>", then `&body=` and the encoded message exactly when the message is PHP-true |
| LinkResolver.PrefixedLinkIsTruthy | floatconnect.php:853-873 | for the six built-in types other than `custom` the link is never `''` or `"0"` |
| LinkResolver.UnknownTypeHasNoLink | floatconnect.php:878-879 | a type outside the seven known ones gives the empty link |
| LinkExamples.ExampleNumberDigits | floatconnect.php:855 | the number "+1 555" is reduced to "1555" |
| LinkExamples.ExampleMessageEncoding | floatconnect.php:856 | "Hi Acme" is encoded as "Hi+Acme" |
| LinkExamples.ExampleMessage | floatconnect.php:848-851 | the message "Hi [SITE_NAME]" on the site "Acme" reads "Hi Acme" |
| LinkExamples.WhatsAppExample | floatconnect.php:846-856 | that channel, with the number "+1 555", links to `https://wa.me/1555?text=Hi+Acme` |
| Rendering.ParseArgs | floatconnect.php:758-768 | after the merge every stored entry is kept, each default fills a key the record lacks, no other key appears; a stored channel list is kept, and a missing one becomes the default empty array |
| Rendering.RenderChannel | floatconnect.php:821-841 | defines `render_channel`: no anchor when the link is `''` or `"0"`, otherwise an anchor to `esc_url` of the link with the given class suffix |
| Rendering.ChannelAnchor | floatconnect.php:797-809 | defines one pass of the channel loop: nothing for a channel whose `enabled` is not set or PHP-false, otherwise `render_channel` with the channel's class suffix |
| Rendering.Rendered | floatconnect.php:795-830 | no more anchors than channels; each anchor's channel is enabled, its link is neither `''` nor `"0"`, its `href` is the escaped link and its class suffix follows the channel's device flags |
| Rendering.RenderedIndices | floatconnect.php:795-810 | the positions of drawn channels are valid and strictly increasing, so the stored order is kept |
| Rendering.Render | floatconnect.php:751-811 | a widget is drawn exactly when an option record exists and its `enabled` is set and PHP-true; it then uses the options merged over the defaults |
| Rendering.RenderWidget | floatconnect.php:751-811 | the early return, the suffix appends and the channel loop with its `continue` give exactly `Render` |
| Rendering.RenderChannels | floatconnect.php:795-810 | the channel loop, with its `continue` for channels not enabled and its suffix appends, draws exactly `Rendered` of the stored channels |
| Rendering.HideSuffixFlags | floatconnect.php:770-807 | the suffix contains ` fc-hide-mobile` exactly when the mobile flag is off, and ` fc-hide-desktop` exactly when the desktop flag is off |
| Rendering.ChannelClassFlags | floatconnect.php:801-807 | a channel's anchor is hidden on a device exactly when its flag for that device is absent or PHP-false |
| Rendering.DeviceClassFlags | floatconnect.php:768-776 | the widget is hidden on a device exactly when the stored record has that flag and it is PHP-false; a missing widget flag takes the default 1 |
| Rendering.RenderedAtIndices | floatconnect.php:795-810 | the anchors are, one for one and in order, the channels at the drawn positions |
| Rendering.RenderedIndicesComplete | floatconnect.php:797-825 | a channel is drawn exactly when its `enabled` is set and PHP-true and its link is neither `''` nor `"0"` |
| Rendering.RenderedTypesKnown | floatconnect.php:878-879 | every drawn channel has one of the seven known types |
| Activation.Activated | floatconnect.php:82-98 | after activation an option record exists: the existing one untouched, or the defaults when there was none |
| Activation.OptionTable.constructor | floatconnect.php:95 | the table starts with the given row |
| Activation.OptionTable.Activate | floatconnect.php:82-98 | the row afterwards is `Activated` of the row before |
| Activation.ActivateIdempotent | floatconnect.php:95-97 | activating twice is activating once, so re-activation never resets saved settings |
| Activation.FreshInstallRendersEmptyWidget | floatconnect.php:84-97 | once `activate()` has written the defaults, the widget is drawn with the default options, on every device, with no channel links |
| Activation.SettingsLink | floatconnect.php:111 | defines the settings link: an anchor to `admin.php?page=floatconnect` around the translated caption |
| Activation.AddSettingsLink | floatconnect.php:110-114 | the settings link comes first, followed by the existing links unchanged and in order |
| Pipeline.StoredNeedsNoDefaults | floatconnect.php:758-768 | the merge with the defaults changes no scalar field of a record the sanitiser stored; its channel list is kept, and a record stored without channels gets the empty list |
| Pipeline.SavedSettingsRender | floatconnect.php:754-776 | saved settings with the widget on are drawn, hidden on a device exactly when that box was left unticked |
| Pipeline.SavedChannelRendered | floatconnect.php:797-809 | within the channel loop, a saved, enabled channel with a built-in type other than `custom` gets a link (the loop runs only when the widget's own `enabled` is set) |
| Pipeline.SavedChannelOnPage | floatconnect.php:754-809 | saved settings with the widget on are drawn, and every saved, enabled channel with a built-in type other than `custom` is one of the widget's anchors |
| Pipeline.SavedDisabledChannelSkipped | floatconnect.php:797-799 | a saved channel that is switched off is never drawn |
| Pipeline.SubmittedChannelReachesWidget | floatconnect.php:141-177 | when the form ticks the widget's `enabled`, a submitted channel ticked as enabled whose sanitised type is a built-in type other than `custom` is kept whole by the sanitiser, and the widget rendered from the stored record is drawn with that channel among its anchors |

## Left out

- PHP 7's loose comparison (where `0 == 'left'` holds) is not modelled. Comparisons follow PHP 8, as for string inputs.
- `intval`'s handling of exponents (`"1e3"` reads as 1000 in PHP, 1 in the model) and overflow to `PHP_INT_MAX` is not modelled. Integers are unbounded; the clamp to [40, 80] makes the width irrelevant for stored sizes.
- Array-valued form fields and non-array channel entries are not modelled: every channel entry is a map from keys to scalars.
- A stored `floatconnect_options` value that is not an array (a string, say) is not modelled: the row is either absent or an options array.
- Sanitizer.Sanitized: missing fields are passed to the WordPress sanitisers as `null`, which the model does; what those sanitisers return is left open, so no contract says a missing colour is stored as `null` or `''`.
- The HTML that `render_widget` and `render_channel` print is left out: `esc_attr` and `esc_html`, the inline style with the size and colours, the title and label texts, the `target`/`rel` attributes, and the icons of `get_channel_icon`. The model keeps the decisions: whether a widget or an anchor is printed, its escaped `href`, and its class suffixes.
- `esc_url`, `sanitize_text_field`, `sanitize_textarea_field` and `sanitize_hex_color` are parameters, not definitions.
- `get_option`/`add_option`: the options table is one optional row. `add_option`'s own check that the row does not already exist is not modelled; `activate` only calls it when `get_option` returns a PHP-false value.
- An existing but PHP-false stored row (an empty array) makes `activate` call `add_option`, which then refuses. The model keeps the existing row unchanged, which is the same outcome.
- `deactivate`, the hook wiring, the singleton, the admin page and its CSS/JS, script enqueueing and `wp_localize_script` are left out: they are host lifecycle and presentation code with no decision logic.
- Whether `activate()` runs at all is not modelled. The activation hook is registered in the constructor (floatconnect.php:75), which runs from a `plugins_loaded` callback (floatconnect.php:923-928); WordPress loads a plugin being activated after `plugins_loaded` has fired, so the hook is probably never registered. The first save then adds the option itself; the model states what `activate()` does when it runs.
- Texts are taken to be UTF-8. PHP's `str_replace`, `preg_replace` and `urlencode` work on the raw bytes of the blog's charset; for the ASCII tokens and digits on UTF-8 text the model gives the same result, but on a site in another charset `urlencode` writes é as `%E9` where the model writes `%C3%A9`.
- `uninstall.php` is not part of this model: it only calls WordPress and database functions.
- The translation done by `__()` is left out: `AddSettingsLink` takes the translated caption as a parameter.
