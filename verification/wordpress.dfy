/** What the plugin takes from WordPress. The sanitising and escaping functions
    are library code whose behaviour the model does not fix: they are fields of a
    record of functions, so every property proved here holds whatever they do.
    The page data (`get_permalink`, `get_the_title`, `get_bloginfo('name')`) is a
    plain record handed in by the caller. */
module WordPress {
  import opened Php

  datatype Host = Host(
    /** `sanitize_text_field` */
    textField: Scalar -> string,
    /** `sanitize_textarea_field` */
    textareaField: Scalar -> string,
    /** `sanitize_hex_color`: a colour string, `''`, or `null` (None) */
    hexColor: Scalar -> Option<string>,
    /** `esc_url` */
    escUrl: string -> string)

  datatype PageContext = PageContext(permalink: string, title: string, siteName: string)

  /** The `floatconnect_options` array, in a form submission or in the options
      table: its scalar entries, and its `channels` entry, which is `None` when
      that entry is absent or is not an array. */
  datatype OptionsArray = OptionsArray(fields: Record, channels: Option<seq<Record>>)
}
