/** Worked examples of the links the resolver builds, with concrete page data. */
module LinkExamples {
  import opened Php
  import opened Text
  import opened UrlEncoding
  import opened WordPress
  import opened LinkResolver

  lemma ExampleNumberDigits()
    ensures Digits("+1 555") == "1555"
  {
    var a, b := "+1", " 555";
    assert Digits(a) == "1";
    assert Digits(b) == "555";
    DigitsOfConcat(a, b);
    assert a + b == "+1 555";
  }

  lemma ExampleMessageEncoding()
    ensures UrlEncode("Hi Acme") == "Hi+Acme"
  {
    assert Utf8("Hi Acme") == ['H' as int, 'i' as int, ' ' as int, 'A' as int, 'c' as int, 'm' as int, 'e' as int];
  }

  /** The message "Hi [SITE_NAME]" on a site called "Acme" reads "Hi Acme". */
  lemma ExampleMessage(ctx: PageContext, channel: Record)
    requires ctx.siteName == "Acme"
    requires IsSet(channel, "message") && channel["message"] == Str("Hi [SITE_NAME]")
    ensures ChannelMessage(ctx, channel) == "Hi Acme"
  {
    assert "Hi [SITE_NAME]" == "Hi " + SiteNameToken;
    SiteNameAfterPlainText(ctx, "Hi ");
  }

  /** A worked WhatsApp example: the number "+1 555" with the message
      "Hi [SITE_NAME]" on a site called "Acme" links to
      `https://wa.me/1555?text=Hi+Acme`; `urlencode` writes the space as `+`. */
  lemma WhatsAppExample(h: Host, ctx: PageContext, channel: Record)
    requires ctx.siteName == "Acme"
    requires Lookup(channel, "type") == Str("whatsapp") && Lookup(channel, "value") == Str("+1 555")
    requires IsSet(channel, "message") && channel["message"] == Str("Hi [SITE_NAME]")
    ensures ChannelUrl(h, ctx, channel) == WhatsAppPrefix + "1555" + ("?text=" + "Hi+Acme")
  {
    ExampleMessage(ctx, channel);
    ExampleNumberDigits();
    ExampleMessageEncoding();
    var message := ChannelMessage(ctx, channel);
    assert ChannelUrl(h, ctx, channel) == WhatsAppPrefix + Digits("+1 555") + ("?text=" + UrlEncode(message));
  }
}
