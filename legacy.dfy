/**
 * model-gen.js, the earlier single-file variant of the application. Its
 * `wrapText`, `handleRange` and `downloadModel` are those of js/utils.js
 * (`TextWrap.WrapText`, `Scene.Scene.HandleRange`,
 * `Scene.Browser.DownloadModel`), and its desktop library is
 * `Library.Library` without VR pages. What differs is modelled here: the
 * element id without a timestamp and the floor-level start height of a new
 * instance, a pipeline without button gating whose upload takes the file
 * name as prompt, and the card a new model gets in the library.
 */
module Legacy {
  import opened Wrappers
  import opened Strings
  import opened AssetStore
  import opened Events
  import opened Scene
  import opened Library
  import TextWrap
  import Pipeline

  // ---------------------------------------------------------------- instances

  /** The element id this variant's `addToScene` gives an instance: `model-<assetId>`. */
  function LegacyInstanceId(assetId: nat): string {
    "model-" + NatToString(assetId)
  }

  /** `handleRange` recovers the asset id from a legacy element id as well. */
  lemma LegacyInstanceIdNamesItsAsset(assetId: nat)
    ensures AssetIdOf(LegacyInstanceId(assetId)) == Some(assetId)
  {
    var a := NatToString(assetId);
    DigitsHaveNoDash(a);
    SplitWithoutSeparator(a, '-');
    assert LegacyInstanceId(assetId) == "model" + ['-'] + a;
    SplitAtFirstSeparator("model", '-', a);
    ParseIntOfNatToString(assetId);
  }

  /**
   * Two instances of the same asset get the same element id, and the
   * lookup by id that `handleRange` and `removeFromScene` rely on stops at
   * the earlier one: appending a second copy changes no lookup, and the
   * later copy can never be resized or removed.
   */
  lemma {:induction false} SecondCopyUnreachable(instances: seq<Instance>, first: Instance, second: Instance)
    requires first.elementId == second.elementId
    ensures FindInstance(instances + [first, second], first.elementId) == FindInstance(instances + [first], first.elementId)
    ensures FindInstance(instances + [first, second], first.elementId) != Some(|instances| + 1)
    decreases |instances|
  {
    var id := first.elementId;
    if instances == [] {
      assert [first] + [first, second] == [first, first, second];
    } else if instances[0].elementId != id {
      SecondCopyUnreachable(instances[1..], first, second);
      assert (instances + [first, second])[1..] == instances[1..] + [first, second];
      assert (instances + [first])[1..] == instances[1..] + [first];
    }
  }

  /** The height at which this variant's `model-entity` sets a new instance's base: the floor. */
  const LegacyStartBase: real := 0.0

  /** `model-entity`'s start height in this variant, `scale / 2`: the base rests on the floor. */
  function LegacyInitialHeight(scale: real): (y: real)
    ensures y - scale / 2.0 == 0.0
  {
    scale / 2.0
  }

  /**
   * `addToScene` as written: after a successful lookup it appends to
   * `sceneEl`, which model-gen.js never declares; the `ReferenceError` is
   * caught and logged, so no instance is ever added.
   */
  method LegacyAddToSceneAsWritten(scene: Scene, store: Store, assetId: int)
    requires scene.Valid() && store.Valid()
    modifies scene`instances
    ensures scene.Valid()
    ensures scene.instances == old(scene.instances)
  {
    var got := store.GetAsset(assetId);
    if got.Ok? && got.value.Some? {
      // the append to the undeclared `sceneEl` throws before the scene changes
    }
  }

  /**
   * `addToScene` as evidently intended: a stored asset gets one new
   * instance with id `model-<assetId>`, its prompt and stored scale, at the
   * legacy start height; a failed lookup adds nothing.
   */
  method LegacyAddToScene(scene: Scene, store: Store, assetId: int) returns (appended: bool)
    requires scene.Valid() && store.Valid()
    modifies scene`instances
    ensures scene.Valid()
    ensures appended <==> store.initialized && assetId in store.records
    ensures appended ==>
              && assetId >= 1
              && scene.instances == old(scene.instances) + [Instance(LegacyInstanceId(assetId), assetId,
                   store.records[assetId].prompt, store.records[assetId].scale,
                   LegacyInitialHeight(store.records[assetId].scale))]
    ensures !appended ==> scene.instances == old(scene.instances)
    ensures Grounded(old(scene.instances), LegacyStartBase) ==> Grounded(scene.instances, LegacyStartBase)
  {
    var got := store.GetAsset(assetId);
    if got.Err? || got.value.None? {
      return false;
    }
    var asset := got.value.value;
    var added := Instance(LegacyInstanceId(assetId), assetId, asset.prompt, asset.scale, LegacyInitialHeight(asset.scale));
    if Grounded(scene.instances, LegacyStartBase) {
      GroundedAfterAdd(scene.instances, added, LegacyStartBase);
    }
    scene.instances := scene.instances + [added];
    appended := true;
  }

  /**
   * For a stored asset the two differ: as written the scene keeps its
   * instances, as intended it gains exactly one.
   */
  method LegacyAddToSceneDiffers(scene: Scene, store: Store, assetId: int) returns (afterWritten: nat, afterIntended: nat)
    requires scene.Valid() && store.Valid()
    requires store.initialized && assetId in store.records
    modifies scene`instances
    ensures afterWritten == |old(scene.instances)| && afterIntended == afterWritten + 1
  {
    LegacyAddToSceneAsWritten(scene, store, assetId);
    afterWritten := |scene.instances|;
    var _ := LegacyAddToScene(scene, store, assetId);
    afterIntended := |scene.instances|;
  }

  // ---------------------------------------------------------------- the new model's card

  /**
   * The card `generate-model` gives a new asset: its id, its prompt
   * unwrapped, its image. It gets none of the listeners the library build
   * attaches (its own click handler only logs), so until the page is
   * reloaded it can be neither selected nor deleted.
   */
  function NewModelCard(id: int, prompt: string, image: Blob): (r: DesktopCard)
    ensures !r.wired && CardKey(r.modelId) == Some(id)
  {
    ParseIntOfIntToString(id);
    DesktopCard(IntToString(id), prompt, image, false, false, false)
  }

  /**
   * The card placement as written: one card node is appended to every
   * scroller in turn, and each append moves the node, so only the last
   * scroller ends up holding it.
   */
  method PlaceCardAsWritten(lib: Library, card: DesktopCard)
    requires lib.Valid()
    modifies lib`surfaces
    ensures lib.Valid()
    ensures lib.scrollers > 0 ==>
              lib.surfaces == old(lib.surfaces)[lib.scrollers - 1 := old(lib.surfaces)[lib.scrollers - 1] + [card]]
    ensures forall j :: 0 <= j < lib.scrollers - 1 ==> lib.surfaces[j] == old(lib.surfaces)[j]
  {
    if lib.scrollers > 0 {
      var last := lib.scrollers - 1;
      lib.surfaces := lib.surfaces[last := lib.surfaces[last] + [card]];
    }
  }

  /** The card placement as evidently intended: every scroller gets its own copy. */
  method PlaceCard(lib: Library, card: DesktopCard)
    requires lib.Valid()
    modifies lib`surfaces
    ensures lib.Valid()
    ensures forall j :: 0 <= j < lib.scrollers ==> lib.surfaces[j] == old(lib.surfaces)[j] + [card]
  {
    for j := 0 to lib.scrollers
      invariant |lib.surfaces| == lib.scrollers
      invariant forall k :: 0 <= k < j ==> lib.surfaces[k] == old(lib.surfaces)[k] + [card]
      invariant forall k :: j <= k < lib.scrollers ==> lib.surfaces[k] == old(lib.surfaces)[k]
    {
      lib.surfaces := lib.surfaces[j := lib.surfaces[j] + [card]];
    }
  }

  // ---------------------------------------------------------------- the library

  /**
   * `load-model-library`'s `init` in this variant: it opens the store,
   * lists it and appends one card per asset to every (still empty)
   * scroller. It builds no VR pages and never rebuilds: there is no
   * `library-updated` listener. A failure is logged and adds nothing.
   */
  method LegacyLoadLibrary(lib: Library, store: Store, openSucceeds: bool) returns (listed: Option<seq<Asset>>)
    requires lib.Valid() && store.Valid()
    requires forall j :: 0 <= j < lib.scrollers ==> lib.surfaces[j] == []
    modifies lib`surfaces, store`initialized
    ensures lib.Valid() && store.Valid()
    ensures listed.Some? <==> openSucceeds
    ensures listed.None? ==> lib.surfaces == old(lib.surfaces)
    ensures listed.Some? ==>
              && ListsExactly(listed.value, store.records)
              && forall j :: 0 <= j < lib.scrollers ==> lib.surfaces[j] == DesktopCards(listed.value)
  {
    var open := store.InitDB(openSucceeds);
    if open.Err? {
      return None;
    }
    var all := store.GetAllAssets();
    var assets := all.value;
    for i := 0 to |assets|
      invariant |lib.surfaces| == lib.scrollers
      invariant forall j :: 0 <= j < lib.scrollers ==> lib.surfaces[j] == DesktopCards(assets[..i])
    {
      var name := TextWrap.WrapText(assets[i].prompt, CardLabelWidth);
      var card := DesktopCard(IntToString(assets[i].id), name, assets[i].imageBlob, false, false, true);
      DesktopCardsSnoc(assets, i);
      for j := 0 to lib.scrollers
        invariant |lib.surfaces| == lib.scrollers
        invariant forall k :: 0 <= k < j ==> lib.surfaces[k] == DesktopCards(assets[..i + 1])
        invariant forall k :: j <= k < lib.scrollers ==> lib.surfaces[k] == DesktopCards(assets[..i])
      {
        lib.surfaces := lib.surfaces[j := lib.surfaces[j] + [card]];
      }
    }
    assert assets[..|assets|] == assets;
    listed := Some(assets);
  }

  /**
   * The Confirm button of a desktop card in this variant: the asset is
   * deleted and the card leaves its own scroller, or on failure its
   * question is hidden. Nothing is emitted, so every other scroller keeps
   * showing the card of the deleted asset.
   */
  method LegacyConfirmDelete(lib: Library, s: nat, c: nat, store: Store) returns (deleted: bool)
    requires lib.Valid() && store.Valid() && s < lib.scrollers && c < |lib.surfaces[s]| && lib.surfaces[s][c].wired
    modifies lib`surfaces, store`records
    ensures lib.Valid() && store.Valid()
    ensures var key := CardKey(old(lib.surfaces)[s][c].modelId);
            && (deleted <==> key.Some? && store.initialized)
            && (deleted ==> store.records == old(store.records) - {key.value}
                            && lib.surfaces[s] == Without(old(lib.surfaces)[s], c))
            && (!deleted ==> store.records == old(store.records)
                             && lib.surfaces[s] == old(lib.surfaces)[s][c := old(lib.surfaces)[s][c].(deleting := false)])
    ensures forall j :: 0 <= j < lib.scrollers && j != s ==> lib.surfaces[j] == old(lib.surfaces)[j]
  {
    deleted := lib.DeleteCard(s, c, store);
  }

  // ---------------------------------------------------------------- the pipeline

  class LegacyPipeline {
    /** The `value` of `#prompt`. */
    var promptText: string
    /** Visibility of `#image` and `#loading-image`. */
    var imageVisible: bool
    var loadingVisible: bool
    /** `#error`: its text and its visibility. */
    var errorText: string
    var errorVisible: bool
    /** `imageToSend` and `prompt` of `generate-model`. */
    var staged: Option<Pipeline.Staged>

    /** A shown error is one of the three messages. */
    ghost predicate Valid()
      reads this
    {
      errorVisible ==> Pipeline.KnownError(errorText)
    }

    constructor ()
      ensures Valid() && staged == None && !errorVisible && !loadingVisible && !imageVisible
    {
      promptText := "";
      imageVisible := false;
      loadingVisible := false;
      errorText := "";
      errorVisible := false;
      staged := None;
    }

    /** The desktop prompt form: a non-empty prompt replaces the shown one; nothing else changes. */
    method DesktopSubmit(value: string)
      requires Valid()
      modifies this`promptText
      ensures Valid()
      ensures promptText == if value == "" then old(promptText) else value
    {
      if value != "" {
        promptText := value;
      }
    }

    /**
     * The upload input's `change`: the first picked file is announced in
     * `image-ready` under its file name, staged, and shown.
     */
    method Upload(files: seq<Pipeline.UploadedFile>, bus: Bus)
      requires Valid()
      modifies this`staged, this`imageVisible, this`loadingVisible, bus
      ensures Valid()
      ensures files == [] ==> staged == old(staged) && imageVisible == old(imageVisible)
                              && loadingVisible == old(loadingVisible) && bus.log == old(bus.log)
      ensures files != [] ==>
                && bus.log == old(bus.log) + [ImageReady(files[0].name, files[0].content)]
                && staged == Some(Pipeline.Staged(files[0].name, files[0].content))
                && imageVisible && !loadingVisible
    {
      if files == [] {
        return;
      }
      loadingVisible := false;
      var file := files[0];
      bus.Emit(ImageReady(file.name, file.content));
      staged := Some(Pipeline.Staged(file.name, file.content));
      imageVisible := true;
      loadingVisible := false;
    }

    /**
     * A click on Generate Image: as in the later variant, but no button is
     * enabled or disabled.
     */
    method GenerateImage(response: Option<Blob>, bus: Bus) returns (requested: string)
      requires Valid()
      modifies this`imageVisible, this`loadingVisible, this`errorText, this`errorVisible, this`staged, bus
      ensures Valid()
      ensures requested == promptText && !loadingVisible
      ensures response.Some? ==>
                && bus.log == old(bus.log) + [ImageReady(requested, response.value)]
                && staged == Some(Pipeline.Staged(requested, response.value))
                && imageVisible && errorText == "" && !errorVisible
      ensures response.None? ==>
                && bus.log == old(bus.log) && staged == old(staged) && !imageVisible
                && errorText == Pipeline.ImageFailed && errorVisible
    {
      loadingVisible := true;
      imageVisible := false;
      requested := promptText;
      if response.None? {
        errorText := Pipeline.ImageFailed;
        errorVisible := true;
        loadingVisible := false;
        return;
      }
      bus.Emit(ImageReady(requested, response.value));
      staged := Some(Pipeline.Staged(requested, response.value));
      imageVisible := true;
      loadingVisible := false;
      errorText := "";
      errorVisible := false;
    }

    /**
     * A click on Generate Model. With nothing staged the error reads
     * "Generate an image first". On success the asset is saved, added to
     * the scene and given a card with its unwrapped prompt in every
     * scroller; no `library-updated` is emitted. A store failure is only
     * logged; a failed request shows "Could not create model".
     */
    method GenerateModel(response: Option<Blob>, store: Store, scene: Scene, lib: Library, now: int)
      returns (saved: Option<int>)
      requires Valid() && store.Valid() && scene.Valid() && lib.Valid()
      modifies this`loadingVisible, this`errorText, this`errorVisible, store`records, store`nextId, scene`instances, lib`surfaces
      ensures Valid() && store.Valid() && scene.Valid() && lib.Valid()
      ensures store.nextId == if saved.Some? then old(store.nextId) + 1 else old(store.nextId)
      ensures old(staged).None? ==>
                && saved == None && errorText == Pipeline.NoImageYet && errorVisible && loadingVisible == old(loadingVisible)
                && unchanged(store) && scene.instances == old(scene.instances) && lib.surfaces == old(lib.surfaces)
      ensures old(staged).Some? && response.None? ==>
                && saved == None && errorText == Pipeline.ModelFailed && errorVisible && !loadingVisible
                && unchanged(store) && scene.instances == old(scene.instances) && lib.surfaces == old(lib.surfaces)
      ensures old(staged).Some? && response.Some? ==>
                && errorText == "" && !errorVisible && !loadingVisible
                && (saved.Some? <==> old(store.initialized) && old(store.nextId) <= MaxGeneratedKey)
      ensures saved.None? && old(staged).Some? && response.Some? ==>
                store.records == old(store.records) && scene.instances == old(scene.instances)
                && lib.surfaces == old(lib.surfaces)
      ensures saved.Some? ==>
                var s := old(staged).value;
                && saved.value >= 1
                && saved.value == old(store.nextId) && saved.value !in old(store.records)
                && store.records == old(store.records)[saved.value :=
                     Asset(saved.value, s.prompt, s.image, response.value, DefaultScale, now)]
                && scene.instances == old(scene.instances) + [Instance(LegacyInstanceId(saved.value), saved.value,
                     s.prompt, DefaultScale, LegacyInitialHeight(DefaultScale))]
                && forall j :: 0 <= j < lib.scrollers ==>
                     lib.surfaces[j] == old(lib.surfaces)[j] + [NewModelCard(saved.value, s.prompt, s.image)]
    {
      if staged.None? {
        errorVisible := true;
        errorText := Pipeline.NoImageYet;
        return None;
      }
      var image := staged.value;
      loadingVisible := true;
      if response.None? {
        errorText := Pipeline.ModelFailed;
        errorVisible := true;
        loadingVisible := false;
        return None;
      }
      var added := store.AddAsset(image.prompt, image.image, response.value, now);
      saved := None;
      if added.Ok? {
        saved := Some(added.value);
        var _ := LegacyAddToScene(scene, store, added.value);
        PlaceCard(lib, NewModelCard(added.value, image.prompt, image.image));
      }
      loadingVisible := false;
      errorText := "";
      errorVisible := false;
    }
  }
}
