# A verified model of the aframe-model-gen asset lifecycle

This project models in Dafny the core of an A-Frame web application. In the
app a user types or uploads a prompt, gets an image and then a 3D model for
it, keeps the results in a browser-side IndexedDB store, and places,
rescales, downloads and deletes them from a desktop library and an in-world
(VR) carousel. The model covers four parts:

- **The asset store** (`db.js`, module `AssetStore`). The class `Store`
  holds the object store's records as `map<int, Asset>`. It also holds the
  auto-increment key generator's current number (`nextId`) and whether
  `initDB` has set the module-level handle (`initialized`). Every operation
  refuses to run with "Database not initialised. Call initDB() first." until
  that handle is set. Keys follow the key-generator rules of section 2.11 of
  the W3C Indexed Database API: they start at 1, are never handed out twice
  and run out above 2^53. `deleteAsset` is called by the application but
  not defined in `db.js`. It is modelled from its tests: deleting a missing
  key is a no-op.
- **Scene instances and text helpers** (`js/utils.js`, modules `TextWrap`
  and `Scene`).
  - `wrapText` is a `for` loop proved equal to a greedy line-breaking
    specification (`Greedy`/`Groups`). Its properties are proved about that
    specification.
  - The `model-<assetId>-<timestamp>` instance id parses back to its asset
    id under `handleRange`'s `split("-")[1]`.
  - The other helpers are the size fieldsets (`setSizeValue`,
    `updateSize`), `handleRange`'s base-anchored rescale with best-effort
    persistence, `addToScene`, `removeFromScene`, and `downloadModel`'s file
    name and object-URL lifetime.
- **Library surfaces and the generation pipeline** (`js/components.js`,
  modules `Library`, `Pipeline` and `Events`).
  - `load-model-library` rebuilds every desktop scroller and the VR page
    from the store on `library-updated`. The carousel has its pages, its
    arrows and their visibility.
  - Desktop card selection and the desktop and VR delete-confirmation state
    machines.
  - The `model-entity` click, which opens or toggles the single
    `active-ui-panel` in VR, and the panel's ±0.25 scale steps clamped to
    [0.25, 5].
  - The two-stage pipeline (`scene-setup`, `generate-image`,
    `generate-model`, the VR keyboard). It stages `(prompt, imageBlob)` from
    `image-ready` and gates the image and model buttons.
- **The earlier single-file variant** (`model-gen.js`, module `Legacy`).
  Its `wrapText`, `handleRange` and `downloadModel` are the same code as in
  `js/utils.js` and share their Dafny members. Its differences are modelled
  on their own:
  - instance ids without a timestamp;
  - the floor-level start height;
  - an upload whose prompt is the file name;
  - a library built once, whose delete emits nothing;
  - a pipeline without button gating.

Scales are `real` (the app only produces multiples of 0.25), blobs are
`seq<bv8>`, strings are `seq<char>`. Events emitted on the scene element are
kept in order in `Events.Bus`. Outside inputs are parameters:
- the VR capability check (`hasVR`, `vrSupported`);
- the answers of the image and model services (`Option<Blob>`, `None` for a
  failed request or a non-ok status);
- whether `indexedDB.open` succeeds;
- `Date.now()`.

## Model

| member | source | states |
|---|---|---|
| AssetStore.Store.InitDB | db.js:9-36 | a successful open sets the handle for good; a failed one rejects with "Database error" and leaves the handle as it was |
| AssetStore.Store.constructor | db.js:1-3 | the store as a page finds it: earlier sessions' records under keys below the generator's number, and no handle yet |
| AssetStore.Store.AddAsset | db.js:41-72 | before init: rejects with the not-initialised error and changes nothing; otherwise inserts exactly one record {prompt, image, model, scale 1, created} under a key that was not in use and is larger than every stored key, returns that key and advances the generator; an exhausted generator rejects with "Error adding asset" |
| AssetStore.Store.UpdateModelScale | db.js:78-113 | as written: on a stored key, sets that record's scale to the given value with no clamping and changes nothing else; on a missing key, writes nothing and never settles; reports success exactly when the key is stored |
| AssetStore.Store.UpdateModelScaleChecked | tests/db.test.js:124-131 | corrected form: same effect on a stored key; a missing key rejects with "Asset does not exist."; it always settles |
| AssetStore.Store.GetAsset | db.js:115-135 | rejects exactly when uninitialised; a stored key yields its record, an absent key yields undefined (not an error) |
| AssetStore.Store.GetAllAssets | db.js:137-157 | rejects before init; otherwise lists exactly the stored records, each once, in ascending key order |
| AssetStore.Store.DeleteAsset | tests/db.test.js:53-63 | rejects before init and changes nothing; otherwise removes the key if present and completes without error, so a missing key is a no-op |
| AssetStore.AddThenGet | tests/db.test.js:105-116 | round trip: getAsset of the key addAsset returned yields the same prompt, byte-equal image and model blobs, and scale 1 |
| AssetStore.KeysAreNotReused | db.js:19 | add, delete, add: the second key is larger than the first, so a deleted key is never handed out again |
| AssetStore.DeleteThenGet | tests/db.test.js:91-99 | after deleting a key, getAsset answers undefined for it, and every other key still answers its old record |
| AssetStore.ListingHasOneEntryPerRecord | db.js:146-150 | a listing of the store has exactly as many entries as the store has records |
| Events.Bus.Emit | js/components.js:780 | an emitted event is appended to the scene's event log after all earlier ones |
| Strings.Split | js/utils.js:208 | `s.split(sep)` with empty pieces kept: always at least one piece; its inverse is Join (Strings.SplitJoin, Strings.JoinSplit) |
| Strings.Trim | js/utils.js:214 | `s.trim()` with JavaScript's whitespace set: leading and trailing whitespace removed; a string ending in whitespace gets shorter (Strings.TrimShortensTrailingSpace) |
| Strings.ParseInt | js/utils.js:114 | `parseInt(s, 10)`: leading whitespace, an optional sign, then the longest digit run, NaN as none; it reads back every formatted integer (Strings.ParseIntOfIntToString) |
| Strings.SplitJoin | js/utils.js:208 | splitting the join of separator-free pieces gives the pieces back (used for the worked wrap example) |
| Strings.ParseIntOfIntToString | js/components.js:259 | parseInt reads back every formatted integer exactly |
| Strings.ReplaceWhitespace | model-gen.js:120 | the replacement keeps the length and maps each whitespace character to the replacement and every other character to itself |
| TextWrap.WrapText | js/utils.js:203-222 | wrapText returns exactly the greedy layout's lines joined by newlines, or the text itself when it fits |
| TextWrap.Greedy | js/utils.js:211-218 | the greedy rule word by word: break before a word when the buffer plus the word exceeds maxLength; its properties are GreedyKeepsWords, GreedyLineBound and GreedyBreaksOnlyWhenNeeded |
| TextWrap.Wrapped | js/utils.js:203-222 | what wrapText returns: the text itself when it fits, otherwise the greedy lines joined by newlines; WrapText is proved equal to it |
| TextWrap.PushLines | model-gen.js:36-49 | the word loop (character for character the same in both files) pushes one trimmed line per greedy group |
| TextWrap.ShortTextUnchanged | js/utils.js:204-206 | text no longer than maxLength comes back unchanged, and '' maps to '' |
| TextWrap.WrapExample | tests/utils.test.js:6-16 | "a cat wearing a wizard hat" at width 10 wraps to "a cat\nwearing a\nwizard hat" |
| TextWrap.GreedyKeepsWords | js/utils.js:208-219 | the greedy groups, flattened, are exactly the split words, in order, none lost or repeated; each line is its group's words joined by spaces and then trimmed |
| TextWrap.GreedyLineBound | js/utils.js:212-219 | a line of two or more words is at most maxLength long; a single-word line is longer only when that word itself is; an empty group gives the empty line |
| TextWrap.GreedyBreaksOnlyWhenNeeded | js/utils.js:212-216 | a new group starts only when the next word would overflow the buffer; only the first group can be empty, and it is empty exactly when the first word alone exceeds maxLength (a later line is empty only when its group holds nothing but empty or whitespace words, as doubled spaces give) |
| Scene.InstanceIdNamesItsAsset | js/utils.js:114-134 | handleRange's split("-")[1] parsed as an integer recovers the asset id from every id addToScene builds |
| Scene.InstanceIdInjective | js/utils.js:133-134 | two instance ids are equal only when their asset ids and timestamps both are |
| Scene.InstanceId | js/utils.js:134 | the id `model-<assetId>-<Date.now()>`; InstanceIdNamesItsAsset and InstanceIdInjective are its properties |
| Scene.AssetIdOf | js/utils.js:114 | `parseInt(id.split("-")[1], 10)`, none for NaN; it inverts InstanceId (InstanceIdNamesItsAsset) |
| Scene.DownloadName | js/utils.js:184 | the prompt with every whitespace character replaced by '_', then ".glb"; DownloadNameShape states it |
| Scene.DownloadNameShape | js/utils.js:184 | the download name is the prompt with each whitespace character replaced by '_', then ".glb"; it contains no whitespace |
| Scene.DownloadNameOfTwoWords | tests/utils.test.js:96-113 | a prompt of two whitespace-free words such as "download test" gives "download_test.glb" |
| Scene.Clamp | js/utils.js:77 | the clamped value lies in [min, max], equals the input when it is in range, and is the nearer bound otherwise |
| Scene.ClampIdempotent | js/utils.js:74-78 | clamping twice equals clamping once |
| Scene.Resized | js/utils.js:109-112 | the instance takes the new scale, its base height is unchanged (y moves by half the scale change), and id, asset and name are kept |
| Scene.ResizedTwice | model-gen.js:67-70 | applying the same size again changes nothing: the second vertical shift is 0 |
| Scene.GroundedAfterAdd | js/components.js:495-499 | an instance appended with its base at the floor keeps every instance resting on that floor |
| Scene.GroundedAfterResize | js/utils.js:109-112 | resizing one instance keeps every instance resting on the floor it rested on |
| Scene.GroundedAfterRemove | js/utils.js:163 | removing one instance keeps the others resting on their floor |
| Scene.FindInstance | js/utils.js:108 | getElementById among the instances: the first instance with that id, or none exactly when no instance has it |
| Scene.WithValuePointwise | js/utils.js:70-81 | setSizeValue rewrites each fieldset's value to the value clamped to that fieldset's own range, and nothing else |
| Scene.WithValueInRange | js/utils.js:77-78 | every stored fieldset value lies in that fieldset's range, and equals the input when the input is in range |
| Scene.WithValueIdempotent | js/utils.js:71-80 | a repeated setSizeValue with the same value changes nothing |
| Scene.StepTarget | js/utils.js:90-92 | a zero direction keeps the value; with a positive step the value rises exactly when the direction is positive |
| Scene.StepPastMaximum | js/utils.js:87-98 | at the top of the range a step up gives a value above max: the fieldset shows max while handleRange receives the larger value |
| Scene.PanelStart | js/components.js:593 | the panel's starting scale is the model's scale, or 1 when that is 0 (never 0) |
| Scene.PanelPlus | js/components.js:599-604 | plus never exceeds 5, adds exactly 0.25 below the cap, gives exactly 5 past it, and keeps a scale in [0.25, 5] in that range |
| Scene.PanelMinus | js/components.js:606-611 | minus never goes below 0.25, subtracts exactly 0.25 above the floor, gives exactly 0.25 below it, and keeps a scale in [0.25, 5] in that range |
| Scene.PanelStepsInverse | js/components.js:599-611 | away from the bounds, plus undoes minus and minus undoes plus |
| Scene.Scene.constructor | js/utils.js:106-108 | the page state the scene helpers read, before any instance: no instance, no selection, no panel, the desktop panel hidden |
| Scene.Scene.AddToScene | js/utils.js:127-155 | a stored asset gets one new instance appended with id model-assetId-now, its prompt, its stored scale and the start height (base at 0.2), and that id is returned; a failed lookup adds nothing and returns no id; a scene whose instances all rest at 0.2 still does |
| Scene.Scene.RemoveFromScene | js/utils.js:160-168 | the selected instance (the first with that id) is removed and the desktop panel hidden; with no such instance nothing changes; the remaining instances keep their floor |
| Scene.Scene.HandleRange | js/utils.js:104-121 | the selected instance takes the size with its base kept; the store's record for the parsed asset id gets that scale exactly when the store is open and holds it; a failed write leaves the visual change in place and the store unchanged; the call stays pending exactly when the store is open and the parsed key has no record (the as-written updateModelScale); every instance keeps its floor |
| Scene.Scene.SetSizeValue | js/utils.js:70-81 | the loop leaves the fieldsets equal to the clamped rewrite of every fieldset |
| Scene.Scene.UpdateSize | js/utils.js:87-98 | as written: the value sent to handleRange is current + direction × step, unclamped, while the fieldsets store it clamped; the selected instance is resized to, and its record stored at, that unclamped value; with no selected instance neither scene nor store changes |
| Scene.Scene.UpdateSizeClamped | js/utils.js:94-95 | corrected form: handleRange receives the value the desktop fieldset shows, which lies within its range, and that value is what the instance takes and the store records |
| Scene.Scene.ClickModel | js/components.js:558-636 | the clicked instance becomes the selection; in VR, clicking the panel's own model closes the panel, otherwise the panel is replaced by a fresh one for the clicked model, so at most one panel exists and it is attached to the selection; on the desktop the panel is shown and every fieldset takes the model's scale |
| Scene.Scene.PanelPlusClick | js/components.js:598-604 | the panel's scale steps up (capped at 5); the selected instance is resized to it and its record stored at it as handleRange does; with no selected instance nothing else changes |
| Scene.Scene.PanelMinusClick | js/components.js:605-611 | the panel's scale steps down (floored at 0.25); the selected instance is resized to it and its record stored at it as handleRange does; with no selected instance nothing else changes |
| Scene.Scene.PanelRemoveClick | js/components.js:613-617 | the selected instance (the first with that id) is removed, the desktop panel hidden and the VR panel closed; if removeFromScene throws, scene and both panels stay as they were |
| Scene.Browser.DownloadModel | js/utils.js:174-194 | a stored asset is saved once under the derived file name with its model bytes; the object URL created for it is revoked before the call returns (no live URL is left); a failed lookup saves nothing |
| Library.CardKeyOfAsset | js/components.js:224-259 | the model-id written on a card parses back to its asset's key |
| Library.DesktopCardFor | js/components.js:218-225 | the card refreshLibrary builds for an asset: its id as model-id, its prompt wrapped at 20, its image, unselected, with its listeners attached; CardKeyOfAsset and ListedCardsMatchRecords are its properties |
| Library.Toggled | js/components.js:236-250 | the desktop card click on its scroller's cards; ToggledSelectsAtMostOne and ToggledTwice are its properties |
| Library.PageOf | js/components.js:319-321 | the slice of the listing shown on a page; PageSize, PageOfIndex and PagesShowEveryAsset are its properties |
| Library.VrCardFor | js/components.js:324-347 | the VR card renderCurrentPage builds for the asset at a slot: its id, prompt, image and x-offset; VrCardForShape states it |
| Library.ResetDelete | js/components.js:386-400 | resetDeleteUI: the main buttons shown and clickable, the question hidden; AfterClickConsistent covers it |
| Library.AfterClick | js/components.js:415-473 | a VR card's overlay, Delete and Cancel clicks; AfterClickConsistent and ConfirmOnlyAfterDelete are its properties |
| Library.ListedCardsMatchRecords | js/components.js:217-229 | after a rebuild from a listing, every card names a stored record and every stored record has a card |
| Library.ToggledSelectsAtMostOne | js/components.js:236-250 | a card click flips that card's selection, leaves at most that card selected in its scroller, and changes nothing but selection |
| Library.ToggledTwice | model-gen.js:233-247 | two clicks on the same card restore its selection and leave every other card of the scroller deselected |
| Library.MaxPage | js/components.js:361 | the last page number is the one whose slice holds the last asset: 4 × maxPage < n ≤ 4 × (maxPage + 1) |
| Library.PageSize | js/components.js:319-321 | a page holds at most 4 assets; every reachable page of a non-empty library holds at least one; every page beyond the last is empty |
| Library.PageOfIndex | js/components.js:319-321 | the asset at position i of the listing is shown on page i / 4 at slot i % 4 |
| Library.PagesShowEveryAsset | js/components.js:169-182 | stepping through every reachable page shows every asset once, in listing order |
| Library.NextShownWhenMoreAssets | js/components.js:361-362 | the right arrow shows exactly when assets remain beyond the current page |
| Library.CardsCentred | js/components.js:345 | the four card positions are symmetric about the panel's centre and 1.2 apart |
| Library.VrCardForShape | js/components.js:324-347 | a freshly rendered VR card acts on its asset, sits at its slot, and has its overlay hidden and nothing clickable |
| Library.AfterClickConsistent | js/components.js:386-473 | every card click (overlay toggle, Delete, Cancel) keeps the clickable buttons exactly {add, download, delete}, exactly {confirm, cancel}, or none |
| Library.ConfirmOnlyAfterDelete | js/components.js:451-468 | Confirm becomes clickable only through a click on Delete on an open overlay |
| Library.Library.constructor | js/components.js:152-156 | the component before its first refresh: no assets, page 0, every scroller and the VR page empty |
| Library.Library.Refresh | js/components.js:193-311 | the scrollers are emptied first; on a successful open the component holds exactly the stored records, goes back to page 0, every scroller holds exactly one card per asset in listing order, and in VR page 0 and its arrows are rendered; a failed open leaves the scrollers empty |
| Library.Library.ClearSurfaces | js/components.js:198-201 | every scroller is emptied |
| Library.Library.Populate | js/components.js:217-229 | every scroller receives one card per listed asset, in listing order |
| Library.Library.RenderCurrentPage | js/components.js:313-363 | the VR cards are exactly those of the current page's slice, the left arrow shows past page 0, and the right arrow shows before the last page |
| Library.Library.PrevClick | js/components.js:169-174 | the page goes back one only when it is above 0, so it stays in range |
| Library.Library.NextClick | js/components.js:176-182 | the page advances only below the last page, and the new page holds at least one card |
| Library.Library.ClickCard | js/components.js:236-250 | on a card the build wired, the scroller's cards become the toggled selection; the other scrollers are unchanged |
| Library.Library.MarkDeleting | js/components.js:279-282 | Delete marks only the clicked card is-deleting |
| Library.Library.CancelDeleting | js/components.js:285-289 | Cancel clears only the clicked card's is-deleting |
| Library.Library.DeleteCard | js/components.js:296-302 | success deletes the card's key from the store and removes the card from its own scroller; a failure (store not open, or key not a number) clears is-deleting and leaves the store unchanged |
| Library.Library.ConfirmDesktopDelete | js/components.js:292-305 | the delete outcome of DeleteCard, then exactly one library-updated, on success and failure alike |
| Library.Library.VrCardClick | js/components.js:415-473 | a VR card click changes only that card, as AfterClick says, and keeps every card's buttons consistent |
| Library.Library.VrConfirmClick | js/components.js:475-486 | a Confirm that is not clickable does nothing; otherwise success deletes and removes the card, failure restores the main buttons, and either way exactly one library-updated is emitted |
| Library.AddFromCard | js/components.js:262-267 | the card's Add button adds exactly one instance of the card's stored asset, and nothing when the key is missing or not a number |
| Library.DownloadFromCard | js/components.js:270-276 | the card's Download button saves the card's asset model under its derived name and leaves no live object URL |
| Library.DeleteThenRefresh | js/components.js:160 | after a successful confirm and the refresh that library-updated triggers, no scroller still shows a card for the deleted asset |
| Pipeline.Pipeline.constructor | js/components.js:11-15 | the Generate Model box starts disabled and nothing is staged |
| Pipeline.Pipeline.DesktopSubmit | js/components.js:17-52 | a non-empty prompt is shown, the image and error hidden, Generate Image enabled and Generate Model disabled; an empty one changes nothing |
| Pipeline.Pipeline.KeyboardInput | js/utils.js:31-42 | the typed value becomes the prompt, the error is cleared and Generate Image is enabled |
| Pipeline.Pipeline.SelectFile | js/components.js:63-76 | the first picked file is held and the label dialog opens; an empty pick changes nothing |
| Pipeline.Pipeline.LabelSubmit | js/components.js:79-138 | only with both a label and a held file: image-ready {label, file} is emitted and staged, Generate Model enabled, Generate Image disabled, and the dialog closed with the file dropped |
| Pipeline.Pipeline.CancelLabel | js/components.js:141-148 | the dialog closes and the held file is dropped |
| Pipeline.Pipeline.Announce | js/components.js:740-748 | image-ready is emitted and generate-model stages exactly its prompt and image |
| Pipeline.Pipeline.GenerateImage | js/components.js:662-713 | the shown prompt is requested; success enables Generate Model, emits image-ready {prompt, image} and stages it; failure shows "Could not generate image" and leaves the staged pair and Generate Model as they were |
| Pipeline.Pipeline.GenerateModel | js/components.js:751-797 | with nothing staged: "Generate an image first", no request and no change; a failed request: "Could not create model"; on success the staged prompt, staged image and model are stored under a fresh key (the generator's next number, not in use before), then one library-updated, then one scene instance of it; a store failure is only logged; the store stays open and its generator advances by exactly one per saved asset |
| Pipeline.PromptToAsset | js/components.js:680-688 | typed prompt, image, model: the stored record, under a fresh key, carries the prompt and both blobs, and the events are image-ready then library-updated |
| Pipeline.UploadToAsset | js/components.js:99-103 | upload and label, model: the stored record, under a fresh key, carries the label and the file's bytes; the event shape is the same as the generated path's |
| Legacy.LegacyInstanceIdNamesItsAsset | model-gen.js:75-90 | the timestamp-free id model-assetId still parses back to its asset id |
| Legacy.SecondCopyUnreachable | model-gen.js:90 | two instances of one asset share an id, and lookup by id never reaches the second copy |
| Legacy.LegacyInstanceId | model-gen.js:90 | the id `model-<assetId>` with no timestamp; LegacyInstanceIdNamesItsAsset and SecondCopyUnreachable are its properties |
| Legacy.LegacyAddToSceneAsWritten | model-gen.js:84-108 | as written: the scene never gains an instance, because the append goes to an undeclared variable and the error is caught |
| Legacy.LegacyAddToScene | model-gen.js:87-102 | corrected form: a stored asset gets one instance with id model-assetId, its prompt, its stored scale and the floor start height; a failed lookup adds nothing; a scene whose instances all rest on the floor still does |
| Legacy.LegacyAddToSceneDiffers | model-gen.js:104 | for a stored asset, the as-written form adds no instance and the corrected form adds exactly one |
| Legacy.PlaceCardAsWritten | model-gen.js:547-550 | as written: the one new card node ends up only in the last scroller, and every other scroller is unchanged |
| Legacy.NewModelCard | model-gen.js:523-550 | the card generate-model builds for a new asset: its model-id parses back to the asset's key, and it carries none of the build's listeners, so no handler can select or delete it |
| Legacy.PlaceCard | model-gen.js:523-529 | corrected form: every scroller gains one copy of the new card |
| Legacy.LegacyLoadLibrary | model-gen.js:196-226 | the one-time build: on a successful open every scroller holds exactly one card per stored asset, in listing order; a failure adds nothing |
| Legacy.LegacyConfirmDelete | model-gen.js:289-300 | only on a card the build wired: success deletes the key and removes the card from its own scroller, failure clears is-deleting; nothing is emitted, so the other scrollers keep the deleted asset's card |
| Legacy.LegacyPipeline.DesktopSubmit | model-gen.js:137-153 | a non-empty prompt replaces the shown one; no button is touched |
| Legacy.LegacyPipeline.Upload | model-gen.js:157-192 | the first picked file is emitted in image-ready with the file name as prompt, and staged and shown |
| Legacy.LegacyPipeline.GenerateImage | model-gen.js:410-455 | as in the later variant (image-ready and staging on success, "Could not generate image" on failure), with no button gating |
| Legacy.LegacyPipeline.GenerateModel | model-gen.js:491-567 | a click with nothing staged is rejected with "Generate an image first"; on success the asset is stored, then added to the scene, then given a card in every scroller; the key is fresh and the generator advances by exactly one per saved asset; no library-updated is emitted; with nothing staged only the error changes |

## Left out

- Rendering: THREE texture loading, material replacement, hover colours,
  the `toFixed` display texts, card and panel positions beyond the VR card
  x-offset, and mouse-cursor and drag handling.
- `checkVRSupport` calls `navigator.xr`, a browser API. It is an input
  boolean, fixed for the session.
- The image and model services are network calls. Each answer is an
  `Option<Blob>` parameter.
- IndexedDB open, upgrade and transaction callbacks. Only the handle flag,
  the records and the key generator are kept. Rejections carry their
  message only, not an `Error` object type.
- Concurrency: the handlers are modelled as running one at a time to
  completion. The code has no in-flight guard, and nothing here claims
  at most one pipeline run.
- Object-URL lifetime outside `downloadModel`. Card images and scene-model
  URLs are not tracked; desktop card image URLs are never revoked in the
  source.
- A-Frame component lifecycle: listeners are never removed, and re-adding
  `generate-image` or `generate-model` re-runs `init`. Button enablement is
  the `clickable` flag only.
- Initial state the page markup declares. The VR card template is taken to
  start with its overlay hidden and no button clickable; `renderCurrentPage`
  (js/components.js:324-347) does not set these, and `Library.Library.Valid`
  (`ControlsConsistent`, `ConfirmOnlyAfterDelete`) rests on them. The
  `Pipeline.Pipeline.constructor` likewise takes Generate Image as enabled
  and the prompt, error, loading indicator and image as hidden; js/components.js
  sets only Generate Model's state at start.
- Legacy.PlaceCard: cards placed after the library build carry no
  listeners (`wired` is false), so the card handlers do not apply to them
  until a reload rebuilds the library; their own click handler, which
  only logs, is not modelled.
- model-gen.js's VR `card-controls` and its new-card click handler. The
  handler piles up listeners and has no confirm handler.
- The page-layout switching on `DOMContentLoaded` and js/config.js (URL
  constants).
- Scene.Scene.AddToScene: when the lookup fails, the source's catch clause
  returns the undeclared identifier `None`. That throws a ReferenceError,
  so the promise rejects instead of resolving with no id. The model returns
  no id.
- Scene.Scene.RemoveFromScene: the selection is left pointing at the
  removed element, as in the source. A later handler that looks it up
  finds nothing and does nothing.
- Library.Library.Refresh: the `library-updated` listener is registered
  before the first refresh. Two refreshes in flight at once are not
  modelled (see Concurrency).
- Library.Library.DeleteCard: the store's delete is abstract, because
  `deleteAsset` is not part of db.js. A key that is not a number takes the
  failure path.
- Legacy.LegacyPipeline.GenerateModel: uses the corrected add-to-scene and
  card placement (see Findings).
- model-gen.js `removeModel` (lines 52-58) is `removeFromScene` without the
  length check on the desktop panel list. Scene.Scene.RemoveFromScene
  stands for both.
- `parseInt` without a radix (js/components.js:259 and :383) is modelled as
  radix 10. The two differ only for text starting with `0x`, which a card's
  model-id, written by `${asset.id}`, never is.
- Number formatting switches to exponent form at 1e21. Store keys stay
  below 2^53, so `NatToString` models only the plain decimal form.
- Pipeline.Pipeline.GenerateModel: one `now` stands for both clock reads,
  the record's `created` (`new Date()` in `addAsset`) and the instance id's
  `Date.now()`; nothing reads `created`, so the two are not told apart.
- JavaScript string lengths count UTF-16 code units; here they count
  characters. Text with characters outside the Basic Multilingual Plane
  can wrap differently.

## Findings

| source | as written | input that shows it | evidently intended | confidence | as-written member | corrected member |
|---|---|---|---|---|---|---|
| db.js:90-93 | `updateModelScale` on a missing key reads `undefined` and sets `.scale` on it inside the success callback. The TypeError escapes the promise, which never settles. | `updateModelScale(-1, 2)` on an open store: the test at tests/db.test.js:124-131 waits for a rejection that never comes | reject with "Asset does not exist." | high, not executed | AssetStore.Store.UpdateModelScale | AssetStore.Store.UpdateModelScaleChecked |
| js/utils.js:92-97 | `updateSize` stores the clamped value in the fieldsets but passes the unclamped `newValue` to `handleRange` | desktop fieldset at its max 5 with step 0.25, `updateSize(1)`: the field shows 5, but the model is scaled to, and stored at, 5.25 | `handleRange` receives the clamped value | medium, not executed | Scene.Scene.UpdateSize (exhibited by Scene.StepPastMaximum) | Scene.Scene.UpdateSizeClamped |
| model-gen.js:104 | `addToScene` appends to `sceneEl`, which is not declared in its scope; the ReferenceError is caught and logged | any stored asset id: the scene gains no instance | append to the scene element | medium (an element with id `sceneEl` in the page would make it work), not executed | Legacy.LegacyAddToSceneAsWritten (exhibited by Legacy.LegacyAddToSceneDiffers) | Legacy.LegacyAddToScene |
| model-gen.js:547-550 | `generate-model` appends one new card node to each scroller in turn; each append moves the node | a page with two scrollers: only the second shows the new card | one copy per scroller, as the library build does with `cloneNode` | high, not executed | Legacy.PlaceCardAsWritten | Legacy.PlaceCard |
