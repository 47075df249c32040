/**
 * The STOMP destination for one short URL's click events. The server publishes to it
 * (`UrlService.getOriginalUrl`) and the browser subscribes to it (`useWebSocket`); both
 * build it as the prefix `/topic/clicks/` followed by the URL's id in decimal.
 */
module Topics {
  import opened Text

  const ClickTopicPrefix: string := "/topic/clicks/"

  /** `"/topic/clicks/" + id` in Java and `` `/topic/clicks/${urlId}` `` in TypeScript. */
  function ClickTopic(id: nat): string
  {
    ClickTopicPrefix + DecimalString(id)
  }

  /** Distinct URL ids get distinct topics, so no URL receives another URL's events. */
  lemma ClickTopicInjective(a: nat, b: nat)
    requires ClickTopic(a) == ClickTopic(b)
    ensures a == b
  {
    assert DecimalString(a) == ClickTopic(a)[|ClickTopicPrefix|..];
    assert DecimalString(b) == ClickTopic(b)[|ClickTopicPrefix|..];
    DecimalStringInjective(a, b);
  }
}
