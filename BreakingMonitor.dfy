/**
 * The orchestration step of the breaking-news monitor: dedup one scraped
 * story against the stored marker, merge its translation into the feed and
 * persist feed and marker, with the storage helpers' fail-soft reads.
 * The scraper's and the translator's results are inputs; so is whether each
 * upload succeeds, since the upload helpers swallow their errors.
 */
module BreakingMonitor {
  import opened Wrappers
  import opened Strings
  import opened Feed

  /** The feed keeps only the newest this-many items. */
  const FeedCap: nat := 50

  /** The dictionary the scraper returns for the top story. */
  datatype Story = Story(title: string, url: string, content: string, publishedAt: string)

  /** The text blob last_breaking_url.txt: absent, failing to download, or holding text. */
  datatype TextBlob = TextAbsent | TextUnreachable | TextStored(text: string)

  /** The storage calls a run makes, in the order it makes them. */
  datatype StorageCall =
    | MarkerDownload
    | FeedDownload
    | FeedUpload(items: seq<Item>)
    | MarkerUpload(text: string)

  /** How a run ends. FeedNotList is the AttributeError raised by `insert` on a non-list document. */
  datatype Outcome = NoStory | AlreadySeen | NotTranslated | FeedNotList | Posted(item: Item)

  function Min(a: int, b: int): int {
    if a <= b then a else b
  }

  /** download_text_from_gcs: the stripped text, or "" when the blob is absent or unreadable. */
  function MarkerText(b: TextBlob): (r: string)
    ensures IsStripped(r)
    ensures !b.TextStored? ==> r == ""
    ensures b.TextStored? ==> r == Strip(b.text)
    ensures b.TextStored? && IsStripped(b.text) ==> r == b.text
  {
    match b
    case TextStored(text) => Strip(text)
    case _ => ""
  }

  /** download_json_from_gcs: the parsed document, or the empty list when the blob is absent, unreadable or not valid JSON. */
  function FeedDocOf(b: JsonBlob): (r: FeedDoc)
    ensures b.JsonStored? ==> r == b.doc
    ensures !b.JsonStored? ==> r == ListDoc([])
  {
    if b.JsonStored? then b.doc else ListDoc([])
  }

  /** The feed after `item` is inserted at index 0 and the list is cut to its first FeedCap entries. */
  function Merge(item: Item, feed: seq<Item>): (r: seq<Item>)
    ensures |r| == Min(FeedCap, |feed| + 1)
    ensures r[0] == item
    ensures r[1..] == feed[..|r| - 1]
  {
    ([item] + feed)[..Min(FeedCap, |feed| + 1)]
  }

  /** The feed after each of `posts` is merged in turn, oldest post first. */
  function MergeAll(posts: seq<Item>, feed: seq<Item>): seq<Item>
    decreases |posts|
  {
    if posts == [] then feed else MergeAll(posts[1..], Merge(posts[0], feed))
  }

  function Reversed(s: seq<Item>): (r: seq<Item>)
    ensures |r| == |s|
    ensures forall i :: 0 <= i < |s| ==> r[i] == s[|s| - 1 - i]
  {
    if s == [] then [] else Reversed(s[1..]) + [s[0]]
  }

  /**
   * Newest first: after a series of successful posts the feed holds the
   * posts, latest at index 0, followed by the older items, cut to FeedCap
   * (with no post at all the feed is left as it is, even above FeedCap).
   */
  lemma {:induction false} MergeAllNewestFirst(posts: seq<Item>, feed: seq<Item>)
    requires posts != [] || |feed| <= FeedCap
    ensures MergeAll(posts, feed) == (Reversed(posts) + feed)[..Min(FeedCap, |posts| + |feed|)]
    decreases |posts|
  {
    if posts != [] {
      var m := Merge(posts[0], feed);
      MergeAllNewestFirst(posts[1..], m);
      var a := Reversed(posts[1..]);
      var n := Min(FeedCap, |posts| - 1 + |m|);
      assert n == Min(FeedCap, |posts| + |feed|);
      assert Reversed(posts) == a + [posts[0]];
      assert m == ([posts[0]] + feed)[..|m|];
      assert (a + m)[..n] == (a + [posts[0]] + feed)[..n];
    }
  }

  /** A story the marker does not already name. */
  predicate IsNew(story: Option<Story>, marker: TextBlob) {
    story.Some? && story.value.url != MarkerText(marker)
  }

  /** The translator's result is truthy: a non-empty list. */
  predicate HasTranslation(translation: Option<seq<Item>>) {
    translation.Some? && translation.value != []
  }

  /**
   * Once the marker holds a story's URL, the same story counts as seen
   * exactly when its URL has no whitespace at either end: the marker is
   * written as given but read back stripped.
   */
  lemma SavedMarkerDeduplicates(story: Story)
    ensures !IsNew(Some(story), TextStored(story.url)) <==> IsStripped(story.url)
  {
  }

  class Store {
    /** last_breaking_url.txt */
    var marker: TextBlob
    /** news.json */
    var feed: JsonBlob
    /** Every storage call made so far, oldest first. */
    var calls: seq<StorageCall>

    constructor (marker0: TextBlob, feed0: JsonBlob)
      ensures marker == marker0 && feed == feed0 && calls == []
    {
      marker, feed, calls := marker0, feed0, [];
    }

    /** download_text_from_gcs("last_breaking_url.txt") */
    method DownloadText() returns (text: string)
      modifies this`calls
      ensures text == MarkerText(marker)
      ensures calls == old(calls) + [MarkerDownload]
    {
      text := MarkerText(marker);
      calls := calls + [MarkerDownload];
    }

    /** download_json_from_gcs("news.json") */
    method DownloadJson() returns (doc: FeedDoc)
      modifies this`calls
      ensures doc == FeedDocOf(feed)
      ensures calls == old(calls) + [FeedDownload]
    {
      doc := FeedDocOf(feed);
      calls := calls + [FeedDownload];
    }

    /** upload_json_to_gcs("news.json", items); a failed upload is logged and changes nothing. */
    method UploadJson(items: seq<Item>, succeeds: bool)
      modifies this`feed, this`calls
      ensures feed == if succeeds then JsonStored(ListDoc(items)) else old(feed)
      ensures calls == old(calls) + [FeedUpload(items)]
    {
      if succeeds {
        feed := JsonStored(ListDoc(items));
      }
      calls := calls + [FeedUpload(items)];
    }

    /** upload_text_to_gcs("last_breaking_url.txt", text); a failed upload is logged and changes nothing. */
    method UploadText(text: string, succeeds: bool)
      modifies this`marker, this`calls
      ensures marker == if succeeds then TextStored(text) else old(marker)
      ensures calls == old(calls) + [MarkerUpload(text)]
    {
      if succeeds {
        marker := TextStored(text);
      }
      calls := calls + [MarkerUpload(text)];
    }

    /**
     * process_breaking_news. `story` is what the scraper returned,
     * `translation` what the translator would return for it, and
     * `feedSaved`/`markerSaved` whether each upload succeeds.
     * `translated` tells whether the translator was called at all.
     */
    method ProcessBreakingNews(story: Option<Story>, translation: Option<seq<Item>>,
                               feedSaved: bool, markerSaved: bool)
      returns (outcome: Outcome, translated: bool)
      modifies this
      // no story: the store is neither read nor written, nothing is translated
      ensures story.None? ==>
        outcome == NoStory && !translated &&
        calls == old(calls) && marker == old(marker) && feed == old(feed)
      // the marker already names the story: one read, no translation, no write
      ensures story.Some? && !IsNew(story, old(marker)) ==>
        outcome == AlreadySeen && !translated &&
        calls == old(calls) + [MarkerDownload] && marker == old(marker) && feed == old(feed)
      // a new story is always translated
      ensures IsNew(story, old(marker)) ==> translated
      // the translation is missing or empty: nothing more is read or written
      ensures IsNew(story, old(marker)) && !HasTranslation(translation) ==>
        outcome == NotTranslated &&
        calls == old(calls) + [MarkerDownload] && marker == old(marker) && feed == old(feed)
      // the stored document is not a list: `insert` raises before any write
      ensures IsNew(story, old(marker)) && HasTranslation(translation) &&
              FeedDocOf(old(feed)).NonListDoc? ==>
        outcome == FeedNotList &&
        calls == old(calls) + [MarkerDownload, FeedDownload] &&
        marker == old(marker) && feed == old(feed)
      // success: the merged feed is uploaded, then the story's URL as the marker
      ensures IsNew(story, old(marker)) && HasTranslation(translation) &&
              FeedDocOf(old(feed)).ListDoc? ==>
        var merged := Merge(translation.value[0], FeedDocOf(old(feed)).items);
        outcome == Posted(translation.value[0]) &&
        calls == old(calls) + [MarkerDownload, FeedDownload, FeedUpload(merged), MarkerUpload(story.value.url)] &&
        feed == (if feedSaved then JsonStored(ListDoc(merged)) else old(feed)) &&
        marker == (if markerSaved then TextStored(story.value.url) else old(marker))
    {
      translated := false;
      if story.None? {
        outcome := NoStory;
        return;
      }
      var breaking := story.value;
      var lastUrl := DownloadText();
      assert lastUrl == MarkerText(old(marker)) && marker == old(marker);
      if breaking.url == lastUrl {
        outcome := AlreadySeen;
        return;
      }
      translated := true;
      if !HasTranslation(translation) {
        outcome := NotTranslated;
        return;
      }
      var translatedItem := translation.value;
      var current := DownloadJson();
      if current.NonListDoc? {
        outcome := FeedNotList;
        return;
      }
      var currentNewsList := current.items;
      currentNewsList := [translatedItem[0]] + currentNewsList;
      var finalList := currentNewsList[..Min(FeedCap, |currentNewsList|)];
      UploadJson(finalList, feedSaved);
      UploadText(breaking.url, markerSaved);
      outcome := Posted(translatedItem[0]);
    }
  }

  /**
   * Two runs that scrape the same new story and translate it. The second
   * run is deduplicated when the first run's marker upload succeeded; when
   * only that upload failed, the second run posts the story again.
   */
  method RunTwice(store: Store, story: Story, translation: seq<Item>, markerSaved: bool)
    returns (first: Outcome, second: Outcome)
    requires IsNew(Some(story), store.marker) && IsStripped(story.url) && translation != []
    requires FeedDocOf(store.feed).ListDoc?
    modifies store
    ensures first == Posted(translation[0])
    ensures second == if markerSaved then AlreadySeen else Posted(translation[0])
    ensures var once := Merge(translation[0], FeedDocOf(old(store.feed)).items);
      store.feed == JsonStored(ListDoc(if markerSaved then once else Merge(translation[0], once)))
  {
    var asked;
    first, asked := store.ProcessBreakingNews(Some(story), Some(translation), true, markerSaved);
    second, asked := store.ProcessBreakingNews(Some(story), Some(translation), true, true);
  }
}
