# Breaking-news monitor: feed merge and breaking-item removal

This project models, in Dafny, the two pieces of state logic in the
breaking-news monitor that publishes translated stories to a `news.json`
feed in a storage bucket.

- **The monitor's run** (`process_breaking_news`). One scraped story is
  checked against the marker blob `last_breaking_url.txt`. The marker is
  read through a fail-soft helper that strips the text and turns an absent
  or unreadable blob into `""`. A new story is translated. If the
  translation is a non-empty list, its first item is inserted at index 0
  of the feed. The feed is cut to its 50 newest items and uploaded, and
  then the story's URL is uploaded as the new marker. The bucket is the
  class `BreakingMonitor.Store`. Its fields are the two blobs and a log of
  every storage call, so the order of reads and writes can be stated.
- **The removal script** (`scripts/remove_last_breaking.py`, `main`). It
  deletes one breaking item from `news.json`. It pops index 0 when that
  item's title starts with `【突發】`. Otherwise it pops the first item whose
  title contains `突發`. It uploads the list only when an item was removed.
  This is the method `RemoveLastBreaking.RemoveLastBreaking`. Its result
  is proved to be the list without the first item that mentions `突發`,
  because a tagged title always mentions the word.

Files:
- `Wrappers.dfy`: the `Option` type.
- `Strings.dfy`: Python's `str.strip()`, `startswith` and `in`.
- `Feed.dfy`: feed items, parsed documents and the states of a JSON blob.
- `BreakingMonitor.dfy`: the storage helpers, the merge rule and the run.
- `RemoveLastBreaking.dfy`: the removal script.

Inputs in place of foreign calls:
- The scraper's result is an `Option<Story>`.
- The translator's result is an `Option<seq<Item>>`.
- Whether each upload succeeds is a `bool`. The upload helpers log and
  swallow their errors.
- The state of each blob is a datatype value: absent, unreachable,
  malformed or stored.

The feed is cut to its first 50 entries (`breaking_monitor.py:65`). The
comment at `breaking_monitor.py:64` calls this cut optional, but the code
always applies it, and the model follows the code (`BreakingMonitor.FeedCap`).

Two consequences of the code are proved:
- `SavedMarkerDeduplicates`: the marker is uploaded as given but read back
  stripped. So a story URL with whitespace at either end is never
  recognised as already seen. Every run that scrapes it translates it
  again, and posts it whenever the translation succeeds.
- `RunTwice`: if the feed upload succeeds and the marker upload fails, the
  next run with the same story posts it a second time when that run's
  translation succeeds.

## Model

| member | source | states |
|---|---|---|
| `Strings.IsSpace` | breaking_monitor.py:86 | the definition is the statement: the character is one of the 29 code points for which Python's `str.isspace()` holds (`Strings.Whitespace`), which are the characters `str.strip()` removes |
| `Strings.StartsWith` | scripts/remove_last_breaking.py:35 | the definition is the statement: `p` is a prefix of `s`, as in `s.startswith(p)` |
| `Strings.Contains` | scripts/remove_last_breaking.py:41 | the definition is the statement: `w` is a prefix of `s` or of one of its suffixes, as in `w in s`; `OccurrenceContains` and `ContainsHasOccurrence` prove this means "occurs at some position" |
| `Strings.LeadingSpaces` | breaking_monitor.py:86 | the count is the length of the text's leading whitespace: every character before it is whitespace, and the character at it (if any) is not |
| `Strings.TrailingSpaces` | breaking_monitor.py:86 | the count is the length of the text's trailing whitespace: every character in it is whitespace, and the character before it (if any) is not |
| `Strings.Strip` | breaking_monitor.py:86 | the result is the slice of the text that starts right after its leading whitespace; every character after that slice is whitespace; neither end of the result is whitespace. These fix the result to what `str.strip()` returns. Text whose ends are not whitespace is returned unchanged |
| `Strings.StripFixesExactlyStripped` | breaking_monitor.py:86 | stripping leaves a text unchanged exactly when neither of its ends is whitespace |
| `Strings.OccurrenceContains` | scripts/remove_last_breaking.py:41 | if the word occurs at any position of the title, the substring test is true |
| `Strings.ContainsHasOccurrence` | scripts/remove_last_breaking.py:41 | the substring test is true only if the word occurs at some position of the title |
| `BreakingMonitor.MarkerText` | breaking_monitor.py:80-89 | a stored marker reads as `Strip` of its text; an absent or unreadable blob reads as `""`; the result never has whitespace at either end; stored text whose ends are not whitespace reads back unchanged |
| `BreakingMonitor.FeedDocOf` | breaking_monitor.py:100-110 | an absent, unreadable or malformed feed reads as the empty list; a stored document reads as itself |
| `BreakingMonitor.Merge` | breaking_monitor.py:61-65 | the new feed has length min(50, old length + 1); element 0 is the inserted item; the rest is a prefix of the old feed in its original order |
| `BreakingMonitor.MergeAllNewestFirst` | breaking_monitor.py:61-65 | after any series of posts, the feed is the posts latest-first followed by the older items, cut to 50 |
| `BreakingMonitor.SavedMarkerDeduplicates` | breaking_monitor.py:48-69 | once the marker holds a story's URL, that story counts as seen exactly when the URL has no whitespace at either end |
| `BreakingMonitor.IsNew` | breaking_monitor.py:43-49 | the definition is the statement: the scraper returned a story, and its URL differs from the marker as `MarkerText` reads it |
| `BreakingMonitor.HasTranslation` | breaking_monitor.py:57 | the definition is the statement: the translator's result is truthy, meaning it is present and is a non-empty list |
| `BreakingMonitor.Store.constructor` | breaking_monitor.py:76-78 | a bucket with the given marker and feed blobs and no storage calls yet |
| `BreakingMonitor.Store.DownloadText` | breaking_monitor.py:80-89 | returns the marker as `MarkerText` reads it; logs one marker read; changes no blob |
| `BreakingMonitor.Store.DownloadJson` | breaking_monitor.py:100-110 | returns the feed document as `FeedDocOf` reads it; logs one feed read; changes no blob |
| `BreakingMonitor.Store.UploadJson` | breaking_monitor.py:112-121 | logs the upload; the feed blob becomes the uploaded list if the upload succeeds and is unchanged otherwise; the marker is untouched |
| `BreakingMonitor.Store.UploadText` | breaking_monitor.py:91-98 | logs the upload; the marker blob becomes the text if the upload succeeds and is unchanged otherwise; the feed is untouched |
| `BreakingMonitor.Store.ProcessBreakingNews` | breaking_monitor.py:40-70 | no story: no storage call and no translation. Story URL equal to the marker: one marker read, no translation, no write. Missing or empty translation: nothing written. Non-list feed document: raises before any write. Otherwise the calls are marker read, feed read, feed upload of `Merge(translation[0], old feed)`, then marker upload of the story URL, and each blob changes only if its upload succeeds |
| `BreakingMonitor.RunTwice` | breaking_monitor.py:46-69 | a second run on the same story (URL with no outer whitespace) is deduplicated if the first run saved the marker; if only the marker upload failed, the story is posted twice |
| `RemoveLastBreaking.Tagged` | scripts/remove_last_breaking.py:34-35 | the definition is the statement: the item's title is a string that starts with `【突發】` |
| `RemoveLastBreaking.Mentions` | scripts/remove_last_breaking.py:40-41 | the definition is the statement: the item's title is a string that contains `突發` |
| `RemoveLastBreaking.FirstMention` | scripts/remove_last_breaking.py:39-43 | the result, when present, is an index whose item mentions `突發` and no earlier item does; when absent, no item mentions it |
| `RemoveLastBreaking.RemoveAt` | scripts/remove_last_breaking.py:42 | popping index k drops exactly one item and keeps the others in their order |
| `RemoveLastBreaking.NonStringTitleNeverMatches` | scripts/remove_last_breaking.py:34-41 | an item that is not an object, or whose title is not a string, matches neither the prefix nor the substring test |
| `RemoveLastBreaking.TaggedMentions` | scripts/remove_last_breaking.py:33-41 | a title that starts with `【突發】` also contains `突發` |
| `RemoveLastBreaking.TaggedHeadIsFirstMention` | scripts/remove_last_breaking.py:33-43 | when item 0 is tagged, it is also the first item that mentions `突發` |
| `RemoveLastBreaking.RemoveLastBreaking` | scripts/remove_last_breaking.py:10-52 | a download error propagates. A missing blob or a parse failure exits 1 with no upload. A non-list or empty document exits 0 with no upload. A tagged item 0 is the item removed. In every case the item removed is the first that mentions `突發`, the rest keep their order, and the shorter list is uploaded; if that upload fails, the error propagates. With no match, the script exits 0 with no upload |

## Left out

- Scraping the news homepage and the article page (`get_9news_breaking_story`): HTML parsing and network calls. The model takes the scraper's result as an input.
- `BreakingMonitor.Store.ProcessBreakingNews` does not model that, as written, the translator raises on every new story. The scraper's dictionary has no `imageUrl` key (`breaking_monitor.py:30-35`). The translator reads that key while building its prompt (`breaking_monitor.py:147`), before its `try` (`breaking_monitor.py:164`). So each new story ends the run with an uncaught KeyError at `breaking_monitor.py:54`, after the marker read and before any feed read or write. The model takes the translator's result as an input that never raises, so its `Posted` outcome is reachable only with a scraper that supplies `imageUrl`.
- The language-model call (`translate_breaking_story`) and the prompt: a foreign call. The model takes its result as an input.
- `parse_json_safely`: it is not part of this model.
- A translator result that is truthy but is not a list (a JSON object, for example) is not modelled. The model's translation is always a list of items.
- The success message printed after both uploads (`breaking_monitor.py:70`) reads the title of the new item. It raises when that item has no `title` key or is not an object. This raise comes after both writes and only changes the HTTP status the entrypoint returns, so it is not modelled.
- The storage client, the bucket and the blob I/O are foreign calls. The model keeps only what their reads return when a blob is absent, unreadable or malformed, and whether each write succeeds. In the monitor a failed write is swallowed. In the removal script it raises.
- Text decoding, JSON serialisation (`ensure_ascii=False`, `indent=2`) and content types.
- Timestamps (`publishedAt`) and all log output.
- The HTTP entrypoints (`main.py`, `cloud_function.py`) only map an uncaught exception from the monitor's run to status 500 and anything else to 200. The model's `FeedNotList` outcome is one such exception.
- The removal script is not called by either entrypoint. It runs on its own through `sys.exit(main())` (`scripts/remove_last_breaking.py:54-55`). Its `Raised` result stands for an uncaught exception that ends the process with a traceback and exit status 1. The process exit itself is not modelled.
- `scripts/inspect_news.py` only reads and prints.
- Two concurrent runs can both read the same marker and both insert the story. This is a concurrency concern, and each run is modelled on its own.
