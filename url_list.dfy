/**
 * `UrlList`'s live bookkeeping: the list of the user's URLs as the client holds it, the update
 * applied when a click event arrives, and the ids handed to the subscription hook.
 */
module UrlList {

  /** The client's `UrlDto` (`frontend/lib/types.ts`); dates stay strings on the client. */
  datatype UrlEntry = UrlEntry(
    id: nat, url: string, shortenedUrl: string, clicks: int, dateCreated: string, username: string)

  /** A click event as the client receives it. */
  datatype ClickUpdate = ClickUpdate(urlId: nat, clicks: int, clickDate: string)

  /** The updater given to `setUrls` by `handleClickUpdate`: a `map` with an object spread. */
  function ApplyClickUpdate(urls: seq<UrlEntry>, message: ClickUpdate): (r: seq<UrlEntry>)
    ensures |r| == |urls|
    ensures forall k :: 0 <= k < |urls| && urls[k].id == message.urlId ==>
      r[k] == urls[k].(clicks := message.clicks)
    ensures forall k :: 0 <= k < |urls| && urls[k].id != message.urlId ==> r[k] == urls[k]
  {
    seq(|urls|, k requires 0 <= k < |urls| =>
      if urls[k].id == message.urlId then urls[k].(clicks := message.clicks) else urls[k])
  }

  /** `urls.map((url) => url.id)`. */
  function UrlIds(urls: seq<UrlEntry>): (r: seq<nat>)
    ensures |r| == |urls|
    ensures forall k :: 0 <= k < |urls| ==> r[k] == urls[k].id
  {
    seq(|urls|, k requires 0 <= k < |urls| => urls[k].id)
  }

  /**
   * An update never changes which URLs are listed nor their order, so the ids handed to the
   * subscription hook are the same before and after it.
   */
  lemma UpdateKeepsIds(urls: seq<UrlEntry>, message: ClickUpdate)
    ensures UrlIds(ApplyClickUpdate(urls, message)) == UrlIds(urls)
  {
  }

  /** `clicks` is assigned, not incremented: a repeated message changes nothing more. */
  lemma UpdateIdempotent(urls: seq<UrlEntry>, message: ClickUpdate)
    ensures ApplyClickUpdate(ApplyClickUpdate(urls, message), message) == ApplyClickUpdate(urls, message)
  {
  }

  /** Of two messages for the same URL, the later one decides its count; the earlier is lost. */
  lemma LaterUpdateWins(urls: seq<UrlEntry>, first: ClickUpdate, second: ClickUpdate)
    requires first.urlId == second.urlId
    ensures ApplyClickUpdate(ApplyClickUpdate(urls, first), second) == ApplyClickUpdate(urls, second)
  {
  }

  /** Messages for different URLs touch different entries, so their arrival order does not matter. */
  lemma UpdatesForDifferentUrlsCommute(urls: seq<UrlEntry>, m1: ClickUpdate, m2: ClickUpdate)
    requires m1.urlId != m2.urlId
    ensures ApplyClickUpdate(ApplyClickUpdate(urls, m1), m2) == ApplyClickUpdate(ApplyClickUpdate(urls, m2), m1)
  {
  }

  /** After an update every entry for the URL shows the message's count, and the click date is not kept anywhere. */
  lemma UpdateShowsCount(urls: seq<UrlEntry>, message: ClickUpdate, k: nat)
    requires k < |urls| && urls[k].id == message.urlId
    ensures ApplyClickUpdate(urls, message)[k].clicks == message.clicks
    ensures forall d :: ApplyClickUpdate(urls, message) == ApplyClickUpdate(urls, message.(clickDate := d))
  {
  }
}
