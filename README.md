# AI Image Studio: gallery store and offline cache, in Dafny

This project models the two state-keeping parts of AI Image Studio, a browser
client that sends a prompt to an image-generation service and keeps a history
of the results.

- **Gallery store** (`app.js`). The module-level `gallery` array holds
  generated-image records, newest first. `addToGallery` prepends and then cuts
  the array to `MAX_GALLERY_ITEMS` (50). `clearGallery` empties it after the
  user confirms. The array is mirrored into the localStorage slot
  `ai_image_gallery`, and `loadGallery` reads it back. Two pure helpers sit
  next to it: the prompt composition in `generateImage` and `getModelName`.
  - `gallery.dfy`: class `GalleryStore` (the in-memory gallery plus
    localStorage) and the specification functions and lemmas about additions.
  - `studio.dfy`: the prompt composition and `getModelName`.
- **Service worker** (`sw.js`).
  - Install caches a fixed manifest under the generation `ai-image-studio-v1`.
  - Activate deletes every other generation.
  - Fetch routes each request: hosts containing `pollinations.ai` pass
    straight to the network; everything else is cache-first, and a miss
    answered with status 200 is stored. When the lookup or the fetch fails,
    a document request gets the cached `/index.html`.
  - A `SKIP_WAITING` message calls `skipWaiting`.
  - `cache_storage.dfy`: the browser's CacheStorage as an ordered sequence of
    named generations. `caches.match` searches all of them, oldest first.
  - `service_worker.dfy`: the routing policy as a pure function `Route`, and
    class `Worker` with one method per event handler.
- `wrappers.dfy`: the `Option` datatype.

Inputs that the code gets from outside are parameters of the model:

- the localStorage read and write outcomes (`readOk`, `writeOk`);
- the user's answer to `confirm()` (`confirmed`);
- JSON serialisation, as an abstract `Codec` of two total functions. Lemmas
  that need a round trip assume the predicate `RoundTrips`;
- the network, as a `Fetch` value per request or a function from URL to
  `Fetch` for install;
- whether `caches.open` and the `addAll` batch write succeed during install
  (`openOk`, `writeOk`);
- whether `caches.keys()` succeeds during activate (`keysOk`), and for each
  name whether `caches.delete` succeeds (`deleteOk`);
- whether `caches.match` rejects (`lookupOk`), and how the un-awaited
  `caches.open(...).then(cache.put)` ends (`PutOutcome`: stored, put
  rejected, open rejected).

The model follows the code in these details:

- A response is cached only when its status is exactly 200, not for any
  success status.
- `caches.match(request)` searches every cache generation in creation order,
  not only the current one. Before activation an older generation can still
  answer.
- `loadGallery` treats an empty stored string like an absent one.
- `loadGallery` also falls back to the empty gallery when the parsed value
  makes rendering throw (for example `null` or a number). The codec's
  `Parsed` value tells these cases apart.
- A parsed value whose `length` is 0 but which is not an array (the JSON
  text `""` or `{"length":0}`) does not make rendering throw. It stays in
  `gallery`; see Findings.
- `cache.addAll` rejects when any response is not ok (outside 200-299), has
  status 206, or carries `Vary: *`. `cache.put` rejects a `Vary: *`
  response too.

## Model

| member | source | states |
|---|---|---|
| Gallery.Added | app.js:373-379 | the new gallery has length min(old + 1, 50), the item at index 0, and then the newest old items in their order; eviction is only from the tail |
| Gallery.AddedAllShape | app.js:373-379 | any non-empty run of additions leaves the added items newest first, followed by the earlier gallery, cut to 50 |
| Gallery.AddedAllBounded | app.js:376-379 | after any non-empty run of additions the length is min(total, 50), at most 50 even if the loaded gallery was longer, and the last item added is at index 0 |
| Gallery.Loaded | app.js:354-363 | an absent or empty slot gives the empty gallery; a slot that decodes to records gives exactly those records; a slot that does not decode to records gives the empty gallery |
| Gallery.Saved | app.js:365-371 | a successful setItem puts the encoded gallery under STORAGE_KEY; a failed one leaves storage as it was; no other key is touched either way |
| Gallery.LoadedAsWritten | app.js:354-363 | the loaded value is a non-array exactly when the slot is non-empty and parses to a non-array of length 0; otherwise it is the list Loaded gives |
| Gallery.AddedAsWritten | app.js:373-381 | addToGallery as written succeeds exactly when `gallery` holds an array, and then gives the item first followed by the old gallery in order, cut to length min(old + 1, 50) |
| Gallery.AsksToClearAsWritten | app.js:421-422 | clearGallery as written asks the user exactly when `gallery` is a non-empty array; a non-array of length 0 returns early |
| Gallery.CorruptSlotIsKept | app.js:354-422 | a slot holding a non-array of length 0 loads as a non-array; the next addToGallery throws before anything is saved, and clearGallery does not even ask |
| Gallery.CorruptSlotRecovers | app.js:354-383 | with the intended fallback, any slot that does not decode to records loads as the empty gallery, the next addition gives [item], and once saved the slot reads back as [item] |
| Gallery.LoadAfterSave | app.js:355-370 | with a round-tripping codec, loading after a successful save returns the saved gallery |
| Gallery.GalleryStore.constructor | app.js:50 | the gallery starts empty and storage is as given |
| Gallery.GalleryStore.LoadGallery | app.js:354-363 | a failed read gives the empty gallery; otherwise the gallery is Loaded of the storage (the decoded records, or the empty gallery for an absent, empty or corrupt slot); storage is untouched |
| Gallery.GalleryStore.SaveGallery | app.js:365-371 | a successful write replaces exactly the STORAGE_KEY slot with the encoded gallery; a failed write changes nothing; no other key changes |
| Gallery.GalleryStore.AddToGallery | app.js:373-383 | the item is at index 0 and the gallery is ([item] + old) cut to min(old + 1, 50); storage holds the new gallery when the write succeeds and is unchanged otherwise; after a successful write, loading gives back the new gallery |
| Gallery.GalleryStore.ClearGallery | app.js:421-430 | the user is asked exactly when the gallery is non-empty; if not asked or not confirmed, gallery and storage are unchanged; if confirmed, the gallery is empty and the empty list is saved |
| Studio.ComposePrompt | app.js:217-221 | the result is the prompt, then ", STYLE style" exactly when the style is non-empty, then ", high quality, detailed" |
| Studio.ComposePromptKeepsStyle | app.js:217-221 | the style can be read back from the composed prompt |
| Studio.ComposePromptInjective | app.js:217-221 | for a given prompt, two different styles never produce the same request text |
| Studio.GetModelNameAsWritten | app.js:301-307 | known ids map to their display names; Object.prototype member names yield an inherited member; any other id is returned unchanged |
| Studio.GetModelNameAsWrittenLeaksPrototype | app.js:306 | the id "toString" is not returned as itself |
| Studio.ModelName | app.js:301-307 | "flux" and "zimage" map to their display names, every other id is returned unchanged, and a non-empty id never gives an empty name |
| Studio.ModelNameKnownIds | app.js:302-305 | "flux" is shown as "Flux Schnell" and "zimage" as "Z-Image Turbo" |
| Studio.GetModelNameAgrees | app.js:301-307 | outside the inherited member names, the code as written and ModelName agree |
| CacheStorage.Names | sw.js:26 | caches.keys() lists one name per generation, in creation order |
| CacheStorage.Open | sw.js:14 | caches.open keeps names distinct, reuses an existing generation unchanged, appends a missing one empty at the end (so the order of the others is kept), and changes no stored entry |
| CacheStorage.Put | sw.js:64-66 | cache.put sets exactly one entry of the named generation, creating it if needed; every other lookup is unchanged; the generation names and their order are those after caches.open |
| CacheStorage.WithoutAllBut | sw.js:26-31 | deleting every name but CACHE_NAME leaves at most that one generation, only if it existed, with its entries unchanged |
| CacheStorage.WithoutSome | sw.js:26-31 | when only the successful deletions remove a generation, a name survives exactly when it existed and is the kept name or its delete failed; the kept generation's entries are unchanged; if every stale delete succeeds at most one generation remains |
| CacheStorage.Delete | sw.js:30 | caches.delete removes exactly the generation with that name |
| CacheStorage.WithoutKeepsRest | sw.js:27-31 | removing a set of names keeps names distinct and every other generation and its entries intact |
| CacheStorage.Match | sw.js:49-53 | caches.match finds nothing exactly when no generation holds the key; otherwise it returns the oldest generation's response |
| CacheStorage.MatchAfterPut | sw.js:49-66 | a key that no generation held is found, with the stored response, once it is put |
| ServiceWorker.IsApiRequest | sw.js:42 | a request is routed to the network exactly when "pollinations.ai" occurs at some position of its hostname |
| ServiceWorker.Cacheable | sw.js:17 | a fetch is accepted by addAll exactly when it settled with a response whose status is in 200-299 and not 206, and which does not carry `Vary: *` |
| ServiceWorker.Fallback | sw.js:71-76 | the offline branch never stores; documents get caches.match('/index.html'), every other destination gets no response |
| ServiceWorker.Served | sw.js:62-66 | Distinct names are kept; only the (CACHE_NAME, request URL) entry can change; nothing changes when Route hands nothing to cache.put or the open rejects; a 200 miss without `Vary: *` whose put succeeds is stored under the request URL in CACHE_NAME; the only generation that can appear is CACHE_NAME |
| ServiceWorker.AsksToSkipWaiting | sw.js:82 | a message asks to skip waiting exactly when its data is a record whose type is "SKIP_WAITING" |
| ServiceWorker.IncludesIffOccurs | sw.js:42 | the hostname test holds exactly when "pollinations.ai" occurs somewhere in the hostname |
| ServiceWorker.Route | sw.js:37-78 | API hosts get the network's answer verbatim without touching the cache; a hit is answered from cache without a fetch; a miss with status exactly 200 is returned and handed to cache.put; any other miss answer is returned unstored; a failed lookup or fetch gives the cached /index.html to documents and nothing to other requests; only the returned 200 response is ever handed to cache.put |
| ServiceWorker.ApiRequestsNeverCached | sw.js:42-45 | serving an API request any number of times, with any outcomes, leaves the caches unchanged |
| ServiceWorker.StoredThenHit | sw.js:49-68 | after a miss answered with 200 (without `Vary: *`) and a successful open and put, the same request is answered from the cache with that response and no fetch |
| ServiceWorker.Stale | sw.js:28-29 | the filtered list holds exactly the names that differ from CACHE_NAME |
| ServiceWorker.Worker.Install | sw.js:12-21 | the handler fulfils exactly when the open succeeds, the batch write succeeds and every manifest fetch is Cacheable; CACHE_NAME is added only when the open succeeds, and the generation order is that of caches.open; every manifest URL is stored with its response, and skipWaiting is called, only when the handler fulfils; otherwise no entry changes |
| ServiceWorker.AllCacheable | sw.js:17 | the fetching half of addAll succeeds exactly when every manifest fetch is Cacheable (2xx, not 206, no `Vary: *`) |
| ServiceWorker.StaleAllDeleted | sw.js:26-32 | every filtered name's delete succeeds exactly when every name other than CACHE_NAME is deleted successfully |
| ServiceWorker.Worker.StoreAll | sw.js:17 | after a successful addAll every URL maps to its fetched response in CACHE_NAME; the generation names and their order are unchanged, and no other entry changes |
| ServiceWorker.StoredAllShape | sw.js:17 | putting each URL's response in turn keeps the names distinct and in order, stores every URL's response, and changes no other entry |
| ServiceWorker.Worker.Activate | sw.js:24-34 | when keys() rejects nothing changes; otherwise the caches are the old ones, in their order and with their entries, without the names other than CACHE_NAME whose delete succeeded; a generation survives exactly when it is CACHE_NAME or its delete rejected; clients are claimed exactly when keys() and every stale delete succeed, and then at most one generation remains |
| ServiceWorker.Worker.DeleteAll | sw.js:27-31 | the caches lose exactly the names whose delete succeeds; the result says whether every delete succeeded |
| ServiceWorker.Worker.HandleFetch | sw.js:37-78 | the page receives Route's answer; the caches become Served: a rejected open changes nothing, a rejected put (also for a `Vary: *` response) only creates CACHE_NAME, and a successful put stores the 200 response under the request URL |
| ServiceWorker.Worker.OnMessage | sw.js:81-85 | skipWaiting is called exactly for a message whose data has type "SKIP_WAITING" |

## Left out

- DOM wiring and rendering are not modelled. This covers the event listeners, the gallery HTML, the character counter, the modal, toasts and keyboard shortcuts. They hold no state beyond the page.
- enhancePrompt, uploadToCloudinary, loadImage, downloadImage and copyImageUrl are not modelled: they call remote services, the clipboard or blob APIs. An item's `url` is whatever the upload returned, or the generation URL when the upload failed. The model takes the item as given.
- The random seed, the size parsing and the URL building in generateImage are not modelled. They rely on Math.random and JavaScript number coercion.
- The prompt's `trim()` and the empty-prompt check in generateImage are not modelled. ComposePrompt receives the trimmed prompt.
- debounce is not modelled: it is timer-based and never called.
- The JSON text format is not modelled. Serialisation is the abstract Codec, and the round trip is assumed where a lemma needs it. Parsed arrays whose elements are not records are outside the model: the codec either yields items or fails.
- URL parsing is not modelled. A request carries its hostname. Cache keys are strings in the form the manifest writes them (the relative "/index.html"), so a same-origin request's `url` must be given in that same form for a lookup to find an installed asset; the browser's resolution of relative URLs is not modelled.
- The Cache API's matching by HTTP method and Vary headers is not modelled. The key is the URL alone, so a non-GET request behaves as a GET would.
- The fallback `caches.match('/index.html')` is modelled as never rejecting. Only the first lookup has a failure input.
- The promise timing in sw.js is not modelled. The deletions in activate run in parallel in the browser but are sequential here. The un-awaited `cache.put` is a best-effort update after the answer is chosen, never an interleaving.
- Logging is not modelled: the console.error calls in loadGallery and saveGallery (app.js:360,369) and the console.log in install (sw.js:16) have no effect on state.
- Gallery.GalleryStore.LoadGallery: models the intended fallback, where any value that is not a list of records gives the empty gallery. The code as written keeps a non-array value of length 0; that case is Gallery.LoadedAsWritten and the Findings row below.
- The browser's install, activate and active lifecycle is not modelled. The model records only the calls the handlers make (`skipWaiting`, `clients.claim`).

## Findings

| source | as written | input that shows it | evidently intended | confidence | as-written member | corrected member |
|---|---|---|---|---|---|---|
| app.js:301-307 | `models[model] \|\| model` looks the id up through the object literal's prototype chain, so an Object.prototype member name returns the inherited function or object | model id "toString" (also "constructor", "valueOf", "__proto__") | any id without a display name is returned unchanged | medium, not executed; the ids come from a fixed select list, so the UI does not reach it | Studio.GetModelNameAsWrittenLeaksPrototype | Studio.ModelName |
| app.js:354-363, 373-383, 421-422 | loadGallery keeps any parsed value that renderGallery does not throw on; a non-array with `length` 0 passes (`gallery.length === 0`), so `gallery` is not an array; addToGallery then throws at `unshift` before saving, and clearGallery returns early, so the slot is never repaired | the slot `ai_image_gallery` holding the JSON text `""` or `{"length":0}` | a stored value that is not a list of records gives the empty gallery, which the next addition overwrites | low, not executed; only this app writes the slot, and it always writes an array | Gallery.CorruptSlotIsKept | Gallery.CorruptSlotRecovers |
