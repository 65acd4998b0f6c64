/**
 * The maintenance script that takes one breaking-news item back out of
 * news.json: it prefers index 0 when that item's title carries the
 * breaking tag, otherwise it removes the first item whose title mentions
 * the breaking word, and it uploads the list only when something was
 * removed. The blob read is an input; the upload is the returned list.
 */
module RemoveLastBreaking {
  import opened Wrappers
  import opened Strings
  import opened Feed

  /** The title prefix the translator is told to put on breaking stories. */
  const BreakingTag: string := "【突發】"
  /** The word the fallback search looks for. */
  const BreakingWord: string := "突發"

  /** The index-0 test: a string title starting with the breaking tag. */
  predicate Tagged(item: Item) {
    item.title.Some? && StartsWith(item.title.value, BreakingTag)
  }

  /** The fallback test: a string title containing the breaking word. */
  predicate Mentions(item: Item) {
    item.title.Some? && Contains(item.title.value, BreakingWord)
  }

  /** How the script ends: an exit code and the list it uploaded, if any, or an uncaught exception. */
  datatype ScriptResult = Exited(code: int, upload: Option<seq<Item>>) | Raised

  /** The lowest index whose item mentions the breaking word. */
  function FirstMention(data: seq<Item>): (r: Option<nat>)
    ensures r.Some? ==> r.value < |data| && Mentions(data[r.value])
    ensures r.Some? ==> forall j :: 0 <= j < r.value ==> !Mentions(data[j])
    ensures r.None? ==> forall j :: 0 <= j < |data| ==> !Mentions(data[j])
  {
    if data == [] then None
    else if Mentions(data[0]) then Some(0)
    else match FirstMention(data[1..])
      case None => None
      case Some(k) => Some(k + 1)
  }

  /** The list after `data.pop(k)`. */
  function RemoveAt(data: seq<Item>, k: nat): (r: seq<Item>)
    requires k < |data|
    ensures |r| == |data| - 1
    ensures forall i :: 0 <= i < k ==> r[i] == data[i]
    ensures forall i :: k <= i < |r| ==> r[i] == data[i + 1]
  {
    data[..k] + data[k + 1..]
  }

  /** An item that is not an object, or whose title is not a string, matches neither test. */
  lemma NonStringTitleNeverMatches(item: Item)
    requires item.title.None?
    ensures !Tagged(item) && !Mentions(item)
  {
  }

  /** A title that starts with the breaking tag also contains the breaking word. */
  lemma TaggedMentions(item: Item)
    requires Tagged(item)
    ensures Mentions(item)
  {
    var t := item.title.value;
    assert t[1..3] == BreakingWord;
    OccurrenceContains(t, BreakingWord, 1);
  }

  /**
   * The preference for index 0 changes nothing: when the item at index 0 is
   * tagged, it is also the first item that mentions the breaking word.
   */
  lemma TaggedHeadIsFirstMention(data: seq<Item>)
    requires data != [] && Tagged(data[0])
    ensures FirstMention(data) == Some(0)
  {
    TaggedMentions(data[0]);
  }

  /**
   * main() of the script, after the blob has been looked up: `blob` is the
   * state of news.json in the bucket, and `uploadSucceeds` whether the
   * upload of the shortened list goes through (nothing catches its error).
   */
  method RemoveLastBreaking(blob: JsonBlob, uploadSucceeds: bool) returns (result: ScriptResult)
    // the existence check or the download raises: nothing catches it
    ensures blob.JsonUnreachable? ==> result == Raised
    // no blob, or text that is not JSON: exit code 1, no upload
    ensures blob.JsonAbsent? || blob.JsonMalformed? ==> result == Exited(1, None)
    // a document that is not a list, or an empty list: exit code 0, no upload
    ensures blob == JsonStored(NonListDoc) || blob == JsonStored(ListDoc([])) ==> result == Exited(0, None)
    // a tagged item at index 0 is the one removed
    ensures blob.JsonStored? && blob.doc.ListDoc? && blob.doc.items != [] && Tagged(blob.doc.items[0]) ==>
      result == if uploadSucceeds then Exited(0, Some(blob.doc.items[1..])) else Raised
    // in every case the item removed is the first that mentions the breaking word,
    // and a failed upload raises; with no such item, nothing is uploaded
    ensures blob.JsonStored? && blob.doc.ListDoc? && blob.doc.items != [] ==>
      var data := blob.doc.items;
      result == match FirstMention(data)
        case None => Exited(0, None)
        case Some(k) => if uploadSucceeds then Exited(0, Some(RemoveAt(data, k))) else Raised
  {
    if blob.JsonAbsent? {
      return Exited(1, None);
    }
    if blob.JsonUnreachable? {
      return Raised;
    }
    if blob.JsonMalformed? {
      return Exited(1, None);
    }
    if blob.doc.NonListDoc? || blob.doc.items == [] {
      return Exited(0, None);
    }
    var data := blob.doc.items;
    ghost var original := data;
    var removed: Option<Item> := None;
    if Tagged(data[0]) {
      TaggedHeadIsFirstMention(data);
      removed := Some(data[0]);
      data := data[1..];
      assert data == RemoveAt(original, 0);
    } else {
      var i := 0;
      while i < |data|
        invariant 0 <= i <= |data|
        invariant data == original && removed.None?
        invariant forall j :: 0 <= j < i ==> !Mentions(data[j])
      {
        if Mentions(data[i]) {
          removed := Some(data[i]);
          data := data[..i] + data[i + 1..];
          assert FirstMention(original) == Some(i) && data == RemoveAt(original, i);
          break;
        }
        i := i + 1;
      }
      assert removed.None? ==> FirstMention(original).None?;
    }
    if removed.None? {
      return Exited(0, None);
    }
    if !uploadSucceeds {
      return Raised;
    }
    result := Exited(0, Some(data));
  }
}
