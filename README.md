# Interactive Stories — offline cache policy and story player, in Dafny

This project models the core of a small offline-first web application of
interactive stories for children. There are two parts.

* **The service worker** (`sw.js`). It keeps a precache catalog of 38
  resources and three versioned cache names. It handles four events:
  - `install` opens the static cache, adds the whole catalog with one atomic
    `addAll`, and swallows a failure;
  - `activate` deletes every cache whose name is neither the static nor the
    dynamic one;
  - `fetch` answers catalog requests cache-first with a network fallback and
    an `index.html` fallback, and answers all other requests cache-first with
    a write-through to the dynamic cache and offline fallbacks chosen by
    request destination;
  - `message` calls `skipWaiting` on a `SKIP_WAITING` message.
* **The page script** (`app.js`). It holds:
  - the story player's state (`currentStory`, `currentNodeId`, `lastScrollY`,
    `lastStoryId`) and the operations on it (open a story, follow a choice,
    restart, go home);
  - the buttons each node offers;
  - `toHtmlParagraphs`, which turns story text into `<p>` and `<br/>` markup;
  - the theme rule: a saved theme wins, then the system preference, and a
    click toggles the theme.

The cache storage is a class, `CacheStore.CacheStorage`, holding an ordered
sequence of named caches. Its methods (`Open`, `Put`, `Delete`, `Match`,
`AddAll`) are each proved against a function on that sequence. The service
worker is a class, `ServiceWorker.Worker`, whose handlers change the storage.
Each handler is proved equal to a specification function (`Installed`,
`Retained`, `StaticOutcome`, `DynamicOutcome`, `FetchOutcome`), and the
properties are lemmas about those functions. The player is a class,
`StoryPlayer.Player`, whose invariant says that an open story is one of the
stories and that its current node is reachable from `"start"`: a ghost field
holds the route of nodes visited since the story was opened or restarted, and
each step of that route follows a choice of the node before it. The paragraph
splitter and the theme rule are pure functions.

**The membership test is modelled as the code writes it.** At `sw.js:91`, a
request counts as a catalog request when its URL *contains* some catalog
entry with the first `./` removed. This is a substring test, not a comparison
of paths. The first entry is `./`, which becomes the empty string, and every
URL contains the empty string. So every request takes the static branch.
`ServiceWorker.EveryRequestIsCatalogRequest` proves this, and
`ServiceWorker.DynamicBranchUnreachable` proves that the fetch handler always
behaves as the static branch. The dynamic branch (`DynamicOutcome`) is still
modelled and proved on its own.

Two further details of the code shape the model:
* install precaches the whole catalog with one `addAll`, which stores every
  resource or none of them;
* when the network rejects a catalog request that the cache misses, the
  static branch falls back to `./index.html` exactly when the URL contains
  `.html`; the request's destination plays no part there.

## Model

| member | source | states |
|---|---|---|
| Text.IndexOf | sw.js:91 | the result is the first position where the pattern occurs, and it is None exactly when the pattern occurs nowhere |
| Text.Contains | sw.js:91 | `includes` always holds for the empty pattern, and it holds only when the pattern is no longer than the text |
| Text.ContainsIffOccurs | sw.js:91 | the substring test `includes` holds exactly when IndexOf finds a position, which happens exactly when some position holds an occurrence |
| Text.ReplaceFirst | sw.js:91 | `replace` with a string pattern changes only the first occurrence: it keeps the prefix before it, inserts the replacement and keeps the rest; with no occurrence the string is unchanged |
| ServiceWorker.Stripped | sw.js:91 | a catalog entry that starts with `./` loses exactly those two characters, and an entry without `./` is unchanged |
| ServiceWorker.IsCatalogRequest | sw.js:91 | defines the catalog test: some catalog entry, stripped, is a substring of the URL; its consequences are EveryRequestIsCatalogRequest and DynamicBranchUnreachable |
| ServiceWorker.EveryRequestIsCatalogRequest | sw.js:91 | the first catalog entry `./` strips to the empty string, so every request URL passes the catalog test |
| ServiceWorker.DynamicBranchUnreachable | sw.js:87-139 | for every request, network and cache state, the fetch handler's outcome is the static branch's response with the caches left unchanged |
| CacheStore.MatchIn | sw.js:93 | `caches.match` returns the entry from the first cache, in creation order, that holds the URL, and returns None when no cache holds it |
| CacheStore.MatchFindsStored | sw.js:93 | a URL that some named cache holds is always found by `caches.match` |
| CacheStore.Names | sw.js:72 | `caches.keys()` lists one name per cache, in creation order |
| CacheStore.Opened | sw.js:54 | `caches.open` keeps every existing cache in place, adds at most one cache at the end, and the name is present afterwards |
| CacheStore.Stored | sw.js:57 | storing a batch never adds, removes or reorders cache names |
| CacheStore.Without | sw.js:77 | `caches.delete` keeps exactly the caches not called by the name, and never adds one |
| CacheStore.CacheStorage.Match | sw.js:93 | the loop over the caches returns exactly MatchIn of the current storage and changes nothing |
| CacheStore.CacheStorage.Open | sw.js:54 | opening appends an empty cache only when the name is new; names stay distinct |
| CacheStore.CacheStorage.Put | sw.js:122 | the named cache gains or overwrites the one entry and no other cache changes |
| CacheStore.CacheStorage.Delete | sw.js:77 | the named cache is removed, the result says whether it existed, and the other caches keep their order |
| CacheStore.CacheStorage.AddAll | sw.js:57 | succeeds exactly when every fetch succeeds with an ok status other than 206; on success every response is stored, and on failure nothing is stored |
| CacheStore.Batch | sw.js:57 | the batch written by addAll has exactly the requested URLs as keys, each mapped to its fetched response |
| CacheStore.OpenedSpec | sw.js:54 | opening keeps names distinct, makes the name present, leaves the other caches' contents alone, and keeps an existing cache's entries |
| CacheStore.StoredSpec | sw.js:57 | storing a batch into a named cache adds or overwrites exactly the batch's keys in that cache and leaves every other cache unchanged |
| CacheStore.WithoutSpec | sw.js:77 | deleting a name removes exactly that name from the set of names and keeps every other cache's contents |
| ServiceWorker.Installed | sw.js:53-63 | after install the static cache exists, whether or not precaching failed |
| ServiceWorker.InstallSpec | sw.js:53-63 | after install the static cache exists; if every catalog fetch succeeded, each catalog entry is stored with its fetched response; otherwise the static cache's contents are unchanged; no other cache changes and no entry is lost |
| ServiceWorker.InstallIdempotent | sw.js:53-63 | installing twice against the same network gives the same caches as installing once |
| ServiceWorker.Worker.Install | sw.js:51-66 | the handler leaves the storage as Installed describes and calls skipWaiting whether or not precaching failed |
| ServiceWorker.Retained | sw.js:72-78 | a cache survives activation exactly when it existed before and its name is the static or the dynamic one |
| ServiceWorker.RetainedSpec | sw.js:72-78 | after activation the cache names are exactly the old names that are current; a current cache keeps its contents and every other cache is gone |
| ServiceWorker.ActivationDeletesUnusedCacheName | sw.js:1-3 | the declared `interactive-stories-v1.2` cache is not current, so activation deletes it |
| ServiceWorker.RetainedIdempotent | sw.js:72-78 | activating a second time deletes nothing more |
| ServiceWorker.Worker.DeleteIfOld | sw.js:74-78 | one pass of the deletion loop deletes the enumerated cache exactly when its name is neither current name, so the storage stays equal to Retained of the caches seen so far followed by the rest |
| ServiceWorker.Worker.DeleteOldCaches | sw.js:72-80 | the loop over the enumerated names leaves exactly the caches Retained keeps, in their old order |
| ServiceWorker.Worker.Activate | sw.js:69-84 | after the deletion pass the storage is as Retained describes, the clients are claimed and the skipWaiting flag is untouched |
| ServiceWorker.StaticOutcome | sw.js:92-103 | on a cache hit it returns the cached entry; on a miss it returns the network response; when the network rejects, it returns the cached `./index.html` for a URL containing `.html` and no response otherwise |
| ServiceWorker.StaticHitIgnoresNetwork | sw.js:93-95 | when the cache holds the URL, the response does not depend on the network |
| ServiceWorker.Worker.RespondStatic | sw.js:92-103 | the static branch answers with StaticOutcome and writes nothing |
| ServiceWorker.OfflineFallback | sw.js:127-136 | a document falls back to the cached shell, an image to the cached placeholder, and any other destination gets no response |
| ServiceWorker.WriteThrough | sw.js:118-124 | after the write-through the dynamic cache exists |
| ServiceWorker.DynamicOutcome | sw.js:108-138 | a hit is returned unchanged; a fetched response is returned and, only when its status is 200, written to the dynamic cache; a rejection gives the offline fallback |
| ServiceWorker.WriteThroughSpec | sw.js:118-124 | the write-through creates the dynamic cache if it is missing, puts exactly the one response under its URL there, and leaves every other cache unchanged |
| ServiceWorker.Worker.RespondDynamic | sw.js:108-138 | the dynamic branch answers and changes the storage as DynamicOutcome describes |
| ServiceWorker.FetchOutcome | sw.js:87-139 | no fetch, on either branch, changes the contents of any cache other than the dynamic one |
| ServiceWorker.Worker.HandleFetch | sw.js:87-139 | the fetch handler answers and changes the storage as FetchOutcome describes |
| ServiceWorker.CatalogServedOffline | sw.js:53-103 | after a successful install and an activation, every catalog URL is answered even when the network later rejects everything |
| ServiceWorker.RequestsSkipWaiting | sw.js:143 | the handler calls skipWaiting exactly for a message whose `type` is `SKIP_WAITING`, the message the page posts at app.js line 231 |
| ServiceWorker.Worker.OnMessage | sw.js:142-146 | the message handler records a skipWaiting call exactly for that message and leaves the caches alone |
| Paragraphs.ToHtmlParagraphs | app.js:195-201 | missing or empty text gives the empty string, and the markup never contains a newline |
| Paragraphs.Split | app.js:198 | the split always gives at least one piece, even for empty text |
| Paragraphs.BreakLines | app.js:199 | every newline in a paragraph becomes `<br/>`, so none is left, and a paragraph without a newline is unchanged |
| Paragraphs.BreakLinesChar | app.js:199 | a newline becomes `<br/>` and every other character stays itself |
| Paragraphs.BreakLinesAppend | app.js:199 | the replacement acts on the parts of a text independently, so with BreakLinesChar it fixes the output for every text |
| Paragraphs.Wrap | app.js:199-200 | the wrapped paragraphs, concatenated, hold no newline |
| Paragraphs.JoinSplit | app.js:198 | joining the pieces of the split with a blank line gives back the text with every run of two or more newlines collapsed to exactly two |
| Paragraphs.SplitJoin | app.js:198 | splitting the join of well-formed paragraphs returns exactly those paragraphs |
| Paragraphs.SplitWellFormed | app.js:198 | every split is well formed: at least one piece, no blank line inside a piece, no newline on a side that touches a separator, and only the first and last piece may be empty |
| Paragraphs.PlainTextIsOneParagraph | app.js:195-201 | non-empty text without a newline becomes exactly one paragraph holding the text |
| Paragraphs.OneOpeningPerPiece | app.js:197-200 | for text without `<`, the markup holds one `<p>` per piece of the split |
| Theme.InitialTheme | app.js:35-43 | a saved `dark` or `light` wins; otherwise the system preference decides; the result is always a valid theme |
| Theme.Toggled | app.js:45-48 | the toggle gives `light` exactly when the current theme is `dark`, and `dark` otherwise |
| Theme.SetTheme | app.js:29-33 | `setTheme` sets both the page attribute and the saved value to the given theme |
| Theme.AfterInit | app.js:29-43 | after start-up the page attribute and the saved value are both InitialTheme of the saved value and the preference |
| Theme.AfterToggle | app.js:45-48 | a click sets the attribute and the saved value to Toggled of the attribute shown before: the same valid theme, different from that one |
| Theme.ToggleTwice | app.js:45-48 | two clicks from a valid theme come back to it |
| Theme.ReloadRestoresTheme | app.js:29-43 | after any number of toggles, a reload keeps the theme on screen whatever the system preference |
| StoryPlayer.FindStory | app.js:97 | the lookup returns the first story with the id, and None exactly when no story has it |
| StoryPlayer.ScrollPosition | app.js:94 | the window offset when it is non-zero, else the document offset when that is non-zero, else the body offset |
| StoryPlayer.ActionsFor | app.js:118-150 | an ending offers exactly restart then back to the list; any other node offers one choice button per choice, in the order of the choices |
| StoryPlayer.Player.constructor | app.js:15-19 | the player starts with no story, no node, scroll 0 and no remembered story |
| StoryPlayer.Player.CurrentNode | app.js:109-111 | the current node is the open story's node under the current id, and None when there is no story or no such node |
| StoryPlayer.Player.Offered | app.js:113-151 | the buttons shown are those of the current node, and none when no node is shown |
| StoryPlayer.Player.OpenStory | app.js:92-99 | remembers ScrollPosition of the three offsets and the requested id even when the story is unknown; the open story is the first with that id, a known story opens at `start` with a one-node route, and an unknown one leaves no story open |
| StoryPlayer.Player.ChooseChoice | app.js:145-147 | following an offered choice moves to its target node, extends the route by that node and keeps the story open |
| StoryPlayer.Player.Restart | app.js:125-127 | restart returns to `start` of the same story and resets the route to that node |
| StoryPlayer.Player.GoHome | app.js:153-174 | going home closes the story and node and keeps the remembered scroll position and story id |

## Left out

- Promise timing and concurrency: each handler is one atomic step. The fire-and-forget `cache.put` at sw.js:120-123 is modelled as finished before the response is returned.
- `skipWaiting` and `clients.claim` are recorded only as flags on the worker. The worker lifecycle they drive is browser behaviour and is not modelled.
- URL resolution, `Request` objects, headers, `Vary` and response cloning are not modelled. Cache keys are the literal URL strings, and the unused `new URL(...)` at sw.js:88 is left out.
- CacheStore.CacheStorage.AddAll: the duplicate-request check of `Cache.addAll` is not modelled. The catalog has no duplicates.
- Failures of `caches.open`, `caches.match` and `caches.delete` themselves are not modelled. The model's storage operations always succeed.
- Logging through `console` and the `beforeinstallprompt` listener (sw.js:149-153) only log or cancel a browser event, and are left out.
- The network is a total function from URL to a response or a rejection, passed in as a parameter. Time and retries are not modelled.
- `localStorage` and `matchMedia` are inputs: the saved theme is a field of ThemeState, and the system preference is a boolean parameter. The toggle icon is left out.
- StoryPlayer.Player.Offered: when the current node id names no node, `renderNode` throws before it clears the old buttons, so the source leaves the previous node's buttons on screen. The model offers no buttons in that case.
- StoryPlayer.Player.OpenStory: the DOM updates (image, title, view switch, image fallback) are left out. Only the player state is modelled.
- StoryPlayer.Player.GoHome: the deferred scroll restore and the card focus at app.js:159-170 are DOM effects and are left out.
- Text.ReplaceFirst: the `$&`, `$$`, `` $` `` and `$'` patterns that `replace` expands in a replacement string are not modelled; the replacement is inserted literally. The one call, at sw.js:91, passes the empty string, which holds no `$`.
- StoryPlayer.ScrollPosition: browser scroll offsets can be fractional; the model takes them as integers.
- Paragraphs.ToHtmlParagraphs: the text is a string or absent. The `String(text)` conversion of other falsy or non-string values is not modelled.
- Story cards, the story list rendering, image preloading, zoom prevention, service-worker registration, the update `confirm` prompt and page reload, the install button, and online or offline indicators are page and DOM work outside this model.
