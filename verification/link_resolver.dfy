/** `FloatConnect::get_channel_url` and `FloatConnect::replace_variables`: the deep
    link a stored channel points to. The channel is the stored PHP array, so
    missing entries and non-string values are handled as PHP handles them. */
module LinkResolver {
  import opened Php
  import opened Text
  import opened UrlEncoding
  import opened WordPress

  const PageUrlToken: string := "[PAGE_URL]"
  const PageTitleToken: string := "[PAGE_TITLE]"
  const SiteNameToken: string := "[SITE_NAME]"

  const WhatsAppPrefix: string := "https://wa.me/"
  const MessengerPrefix: string := "https://m.me/"
  const PhonePrefix: string := "tel:"
  const EmailPrefix: string := "mailto:"
  const TelegramPrefix: string := "https://t.me/"
  const ViberPrefix: string := "viber://chat?number="
  const EmailSubjectTemplate: string := "Inquiry from [SITE_NAME]"

  /** `replace_variables($text)`: `str_replace` with the three tokens as an array,
      which replaces them one after the other, each pass working on the result of
      the one before. */
  function ReplaceVariables(ctx: PageContext, text: string): string
  {
    var afterUrl := ReplaceAll(text, PageUrlToken, ctx.permalink);
    var afterTitle := ReplaceAll(afterUrl, PageTitleToken, ctx.title);
    ReplaceAll(afterTitle, SiteNameToken, ctx.siteName)
  }

  /** The channel's message after substitution: `''` when no message is set. */
  function ChannelMessage(ctx: PageContext, channel: Record): string
  {
    ReplaceVariables(ctx, if IsSet(channel, "message") then ToStr(channel["message"]) else "")
  }

  /** The query `get_channel_url` appends for a message: `?text=` and the
      encoded message when the message is PHP-true, nothing otherwise. */
  function TextQuery(message: string): string
  {
    if Truthy(Str(message)) then "?text=" + UrlEncode(message) else ""
  }

  /** `get_channel_url($channel)`: the `switch` over the channel type. An unknown
      type gives `''`. */
  function ChannelUrl(h: Host, ctx: PageContext, channel: Record): string
  {
    var value := ToStr(Lookup(channel, "value"));
    var message := ChannelMessage(ctx, channel);
    var kind := Lookup(channel, "type");
    if LooseEquals(kind, "whatsapp") then
      WhatsAppPrefix + Digits(value) + TextQuery(message)
    else if LooseEquals(kind, "messenger") then MessengerPrefix + value
    else if LooseEquals(kind, "phone") then PhonePrefix + value
    else if LooseEquals(kind, "email") then
      var subject := UrlEncode(ReplaceVariables(ctx, EmailSubjectTemplate));
      var body := if Truthy(Str(message)) then "&body=" + UrlEncode(message) else "";
      EmailPrefix + value + "?subject=" + subject + body
    else if LooseEquals(kind, "telegram") then TelegramPrefix + value
    else if LooseEquals(kind, "viber") then ViberPrefix + Digits(value)
    else if LooseEquals(kind, "custom") then h.escUrl(value)
    else ""
  }

  /** The built-in types whose link has a fixed prefix. */
  const PrefixedTypes: seq<string> := ["whatsapp", "messenger", "phone", "email", "telegram", "viber"]

  /** The part of `s` before the first `c`, or all of `s`. */
  function TakeUntil(s: string, c: char): (p: string)
    ensures p <= s
  {
    if s == [] || s[0] == c then [] else [s[0]] + TakeUntil(s[1..], c)
  }

  lemma {:induction false} TakeUntilAbsent(a: string, b: string, c: char)
    requires forall i :: 0 <= i < |a| ==> a[i] != c
    requires b == [] || b[0] == c
    ensures TakeUntil(a + b, c) == a
    decreases |a|
  {
    if a == [] {
      assert a + b == b;
    } else {
      assert (a + b)[1..] == a[1..] + b;
      TakeUntilAbsent(a[1..], b, c);
    }
  }

  /** Text with none of the three tokens in it is returned unchanged. */
  lemma ReplaceVariablesWithoutTokens(ctx: PageContext, text: string)
    requires !Occurs(text, PageUrlToken) && !Occurs(text, PageTitleToken) && !Occurs(text, SiteNameToken)
    ensures ReplaceVariables(ctx, text) == text
  {
    ReplaceAllAbsent(text, PageUrlToken, ctx.permalink);
    ReplaceAllAbsent(text, PageTitleToken, ctx.title);
    ReplaceAllAbsent(text, SiteNameToken, ctx.siteName);
  }

  /** Text without a `[` is never touched: every token starts with one. */
  lemma ReplaceVariablesWithoutBracket(ctx: PageContext, text: string)
    requires forall i :: 0 <= i < |text| ==> text[i] != '['
    ensures ReplaceVariables(ctx, text) == text
  {
    ReplaceAllWithoutLead(text, PageUrlToken, ctx.permalink);
    ReplaceAllWithoutLead(text, PageTitleToken, ctx.title);
    ReplaceAllWithoutLead(text, SiteNameToken, ctx.siteName);
  }

  /** The substitution is not simultaneous: the page URL put in for
      `[PAGE_URL]` is itself scanned for `[PAGE_TITLE]` and `[SITE_NAME]`. */
  lemma PageUrlIsSubstitutedAgain(ctx: PageContext)
    ensures ReplaceVariables(ctx, PageUrlToken)
         == ReplaceAll(ReplaceAll(ctx.permalink, PageTitleToken, ctx.title), SiteNameToken, ctx.siteName)
  {
    ReplaceAllWhole(PageUrlToken, ctx.permalink);
  }

  /** So a page URL that itself reads `[PAGE_TITLE]` ends up as the page title. */
  lemma PageUrlHoldingTitleToken(ctx: PageContext)
    requires ctx.permalink == PageTitleToken
    requires forall i :: 0 <= i < |ctx.title| ==> ctx.title[i] != '['
    ensures ReplaceVariables(ctx, PageUrlToken) == ctx.title
  {
    PageUrlIsSubstitutedAgain(ctx);
    ReplaceAllWhole(PageTitleToken, ctx.title);
    ReplaceAllWithoutLead(ctx.title, SiteNameToken, ctx.siteName);
  }

  /** `[SITE_NAME]` passes the two earlier passes untouched. */
  lemma SiteNameTokenSurvives(ctx: PageContext)
    ensures ReplaceAll(SiteNameToken, PageUrlToken, ctx.permalink) == SiteNameToken
    ensures ReplaceAll(SiteNameToken, PageTitleToken, ctx.title) == SiteNameToken
  {
    var rest := SiteNameToken[1..];
    assert SiteNameToken[..|PageUrlToken|] != PageUrlToken by {
      assert SiteNameToken[..|PageUrlToken|][1] == 'S';
    }
    assert forall i :: 0 <= i < |rest| ==> rest[i] != '[';
    ReplaceAllWithoutLead(rest, PageUrlToken, ctx.permalink);
    assert SiteNameToken == [SiteNameToken[0]] + rest;
  }

  /** Every occurrence of a token is replaced: `[SITE_NAME][SITE_NAME]` passes the
      first two passes untouched and becomes the site name twice. */
  lemma SiteNameTwice(ctx: PageContext)
    ensures ReplaceVariables(ctx, SiteNameToken + SiteNameToken) == ctx.siteName + ctx.siteName
  {
    var s := SiteNameToken + SiteNameToken;
    assert forall i :: 1 <= i < |SiteNameToken| ==> SiteNameToken[i] != '[';
    SiteNameTokenSurvives(ctx);
    assert s[..|PageUrlToken|][1] != PageUrlToken[1];
    ReplaceAllSkipsNonMatch(SiteNameToken, SiteNameToken, PageUrlToken, ctx.permalink);
    assert s[..|PageTitleToken|][1] != PageTitleToken[1];
    ReplaceAllSkipsNonMatch(SiteNameToken, SiteNameToken, PageTitleToken, ctx.title);
    ReplaceAllTwice(SiteNameToken, ctx.siteName);
  }

  /** A text made of bracket-free words followed by `[SITE_NAME]` gets the site
      name in place of the token. */
  lemma {:induction false} SiteNameAfterPlainText(ctx: PageContext, lead: string)
    requires forall i :: 0 <= i < |lead| ==> lead[i] != '['
    ensures ReplaceVariables(ctx, lead + SiteNameToken) == lead + ctx.siteName
  {
    ReplaceAllSkipsPrefix(lead, SiteNameToken, PageUrlToken, ctx.permalink);
    SiteNameTokenSurvives(ctx);
    ReplaceAllSkipsPrefix(lead, SiteNameToken, PageTitleToken, ctx.title);
    ReplaceAllSkipsPrefix(lead, SiteNameToken, SiteNameToken, ctx.siteName);
    ReplaceAllWhole(SiteNameToken, ctx.siteName);
  }

  /** The e-mail subject is "Inquiry from " followed by the site name. */
  lemma EmailSubjectText(ctx: PageContext)
    ensures ReplaceVariables(ctx, EmailSubjectTemplate) == "Inquiry from " + ctx.siteName
  {
    var lead := "Inquiry from ";
    assert EmailSubjectTemplate == lead + SiteNameToken;
    SiteNameAfterPlainText(ctx, lead);
  }

  lemma WhatsAppUrlParts(h: Host, ctx: PageContext, channel: Record)
    requires LooseEquals(Lookup(channel, "type"), "whatsapp")
    ensures ChannelUrl(h, ctx, channel)
         == WhatsAppPrefix + Digits(ToStr(Lookup(channel, "value"))) + TextQuery(ChannelMessage(ctx, channel))
  {
  }

  /** A link made of a prefix, a digit string and a query that is empty or
      starts with `?` can be cut back into its three parts. */
  lemma PrefixNumberQuery(prefix: string, number: string, query: string)
    requires AllDigits(number)
    requires query == [] || query[0] == '?'
    ensures var url := prefix + number + query;
            && url[..|prefix|] == prefix
            && TakeUntil(url[|prefix|..], '?') == number
            && url[|prefix| + |number|..] == query
  {
    var url := prefix + number + query;
    assert url[|prefix|..] == number + query;
    TakeUntilAbsent(number, query, '?');
  }

  /** The WhatsApp link: after the prefix comes the number, which is made of
      digits only and is the digits of the value in their order; then, exactly
      when the substituted message is PHP-true (so neither `''` nor `"0"`), the
      query `?text=` whose text decodes to the message's bytes. */
  lemma WhatsAppLink(h: Host, ctx: PageContext, channel: Record)
    requires LooseEquals(Lookup(channel, "type"), "whatsapp")
    ensures var url := ChannelUrl(h, ctx, channel);
            var number := Digits(ToStr(Lookup(channel, "value")));
            var message := ChannelMessage(ctx, channel);
            var query := url[|WhatsAppPrefix| + |number|..];
            && url[..|WhatsAppPrefix|] == WhatsAppPrefix
            && TakeUntil(url[|WhatsAppPrefix|..], '?') == number
            && AllDigits(number)
            && (query == [] <==> !Truthy(Str(message)))
            && (query != [] ==> query[..6] == "?text=" && IsByteString(query[6..]) && UrlDecode(query[6..]) == Utf8(message))
  {
    var number := Digits(ToStr(Lookup(channel, "value")));
    var message := ChannelMessage(ctx, channel);
    var query := TextQuery(message);
    WhatsAppUrlParts(h, ctx, channel);
    DigitsAreDigits(ToStr(Lookup(channel, "value")));
    PrefixNumberQuery(WhatsAppPrefix, number, query);
    if query != [] {
      assert query[6..] == UrlEncode(message);
      UrlRoundTrip(message);
    }
  }

  /** The Viber link: the prefix and then the digits of the value, nothing else. */
  lemma ViberLink(h: Host, ctx: PageContext, channel: Record)
    requires LooseEquals(Lookup(channel, "type"), "viber")
    ensures var url := ChannelUrl(h, ctx, channel);
            && url[..|ViberPrefix|] == ViberPrefix
            && url[|ViberPrefix|..] == Digits(ToStr(Lookup(channel, "value")))
            && AllDigits(url[|ViberPrefix|..])
  {
    DigitsAreDigits(ToStr(Lookup(channel, "value")));
  }

  /** Messenger, phone and Telegram links are their prefix followed by the value
      exactly as stored. */
  lemma VerbatimLinks(h: Host, ctx: PageContext, channel: Record)
    ensures var url := ChannelUrl(h, ctx, channel);
            var value := ToStr(Lookup(channel, "value"));
            && (LooseEquals(Lookup(channel, "type"), "messenger") ==> url == MessengerPrefix + value)
            && (LooseEquals(Lookup(channel, "type"), "phone") ==> url == PhonePrefix + value)
            && (LooseEquals(Lookup(channel, "type"), "telegram") ==> url == TelegramPrefix + value)
  {
  }

  /** The e-mail link: `mailto:`, the address as stored, the subject "Inquiry
      from <site name>" encoded, and the encoded message as `&body=` exactly when
      the message is PHP-true. */
  lemma EmailLink(h: Host, ctx: PageContext, channel: Record)
    requires LooseEquals(Lookup(channel, "type"), "email")
    ensures var url := ChannelUrl(h, ctx, channel);
            var message := ChannelMessage(ctx, channel);
            var head := EmailPrefix + ToStr(Lookup(channel, "value")) + "?subject=" + UrlEncode("Inquiry from " + ctx.siteName);
            && (Truthy(Str(message)) ==> url == head + "&body=" + UrlEncode(message))
            && (!Truthy(Str(message)) ==> url == head)
  {
    EmailSubjectText(ctx);
  }

  /** For the six built-in types other than `custom` the link is never empty nor
      `"0"`, so it is always rendered. */
  lemma PrefixedLinkIsTruthy(h: Host, ctx: PageContext, channel: Record)
    requires ToStr(Lookup(channel, "type")) in PrefixedTypes
    ensures |ChannelUrl(h, ctx, channel)| >= |PhonePrefix|
    ensures Truthy(Str(ChannelUrl(h, ctx, channel)))
  {
  }

  /** A type outside the closed set, whatever its spelling, gives no link. */
  lemma UnknownTypeHasNoLink(h: Host, ctx: PageContext, channel: Record)
    requires ToStr(Lookup(channel, "type")) !in PrefixedTypes + ["custom"]
    ensures ChannelUrl(h, ctx, channel) == ""
  {
  }
}
