/**
 * The values stored in news.json, shared by the monitor and the removal
 * script: the items of the feed, the document the blob parses to, and the
 * states a JSON blob in the bucket can be in.
 */
module Feed {
  import opened Wrappers

  /**
   * One element of the news.json array. `title` is what the removal script
   * sees through `item.get('title', '')`: Some(t) when the item is a JSON
   * object whose "title" is the string t (Some("") when the key is absent),
   * None when the item is not an object or its title is not a string.
   * `rest` stands for the item's other fields, kept as serialised text.
   */
  datatype Item = Item(title: Option<string>, rest: string)

  /** What json.loads makes of the blob's text: a list of items, or any other JSON value. */
  datatype FeedDoc = ListDoc(items: seq<Item>) | NonListDoc

  /**
   * A JSON blob in the bucket: absent; present but failing to download
   * (or failing the existence check); downloaded but not valid JSON; or
   * holding a parsed document.
   */
  datatype JsonBlob = JsonAbsent | JsonUnreachable | JsonMalformed | JsonStored(doc: FeedDoc)

}
