/**
 * The generation pipeline of js/components.js and js/utils.js: the prompt
 * inputs (`scene-setup`'s desktop form and image upload, the VR keyboard
 * listener), the Generate Image box (`generate-image`) and the Generate
 * Model box (`generate-model`), which saves the result in the store,
 * announces it to the library and places it in the scene.
 */
module Pipeline {
  import opened Wrappers
  import opened AssetStore
  import opened Events
  import opened Scene

  /** The messages the `#error` text can show. */
  const ImageFailed: string := "Could not generate image"
  const NoImageYet: string := "Generate an image first"
  const ModelFailed: string := "Could not create model"

  /** The texts of the `#instruction` label. */
  const TypePrompt: string := "Type your prompt:"
  const ImageLabel: string := "Image Label:"

  /** A file picked in `#image-upload-input`. */
  datatype UploadedFile = UploadedFile(name: string, content: Blob)

  /** What `generate-model` keeps from the last `image-ready` event. */
  datatype Staged = Staged(prompt: string, image: Blob)

  /** A text `#error` may hold while it is shown. */
  predicate KnownError(text: string) {
    text == ImageFailed || text == NoImageYet || text == ModelFailed
  }

  class Pipeline {
    /** The `value` of `#instruction` and of `#prompt`. */
    var instruction: string
    var promptText: string
    /** Whether the Generate Image and Generate Model boxes carry `clickable`. */
    var imageEnabled: bool
    var modelEnabled: bool
    /** Visibility of `#image` and `#loading-image`. */
    var imageVisible: bool
    var loadingVisible: bool
    /** `#error`: its text and its visibility. */
    var errorText: string
    var errorVisible: bool
    /** `imageToSend` and `prompt` of `generate-model`. */
    var staged: Option<Staged>
    /** `uploadedFile` of `scene-setup`, and whether the label dialog is shown. */
    var uploaded: Option<UploadedFile>
    var modalOpen: bool

    /**
     * What every handler keeps: a shown error is one of the three
     * messages, the label dialog is open exactly while a file is held, and
     * the Generate Model box is enabled only once an image is staged.
     */
    ghost predicate Valid()
      reads this
    {
      && (errorVisible ==> KnownError(errorText))
      && (modalOpen <==> uploaded.Some?)
      && (modelEnabled ==> staged.Some?)
    }

    /**
     * `scene-setup`'s `init`: the Generate Model box is disabled. The other
     * elements start as the page declares them, taken here as: prompt and
     * error empty and hidden, Generate Image enabled, nothing staged.
     */
    constructor ()
      ensures Valid()
      ensures !modelEnabled && imageEnabled && staged == None && uploaded == None && !modalOpen
      ensures !errorVisible && !loadingVisible && !imageVisible
    {
      instruction := TypePrompt;
      promptText := "";
      imageEnabled := true;
      modelEnabled := false;
      imageVisible := false;
      loadingVisible := false;
      errorText := "";
      errorVisible := false;
      staged := None;
      uploaded := None;
      modalOpen := false;
    }

    /**
     * The desktop prompt form: a non-empty prompt replaces the shown one,
     * hides the image and the error, enables Generate Image and disables
     * Generate Model. An empty prompt changes nothing.
     */
    method DesktopSubmit(value: string)
      requires Valid()
      modifies this
      ensures Valid()
      ensures value == "" ==> unchanged(this)
      ensures value != "" ==>
                && instruction == TypePrompt && promptText == value
                && !imageVisible && errorText == "" && !errorVisible
                && imageEnabled && !modelEnabled
                && staged == old(staged) && uploaded == old(uploaded) && modalOpen == old(modalOpen)
                && loadingVisible == old(loadingVisible)
    {
      if value == "" {
        return;
      }
      instruction := TypePrompt;
      promptText := value;
      imageVisible := false;
      errorText := "";
      errorVisible := false;
      imageEnabled := true;
      modelEnabled := false;
    }

    /**
     * The VR keyboard's `superkeyboardinput`: the typed value becomes the
     * prompt, the error is cleared and Generate Image is enabled; Generate
     * Model keeps its state.
     */
    method KeyboardInput(value: string)
      requires Valid()
      modifies this`promptText, this`errorText, this`errorVisible, this`imageEnabled
      ensures Valid()
      ensures promptText == value && errorText == "" && !errorVisible && imageEnabled
    {
      promptText := value;
      errorText := "";
      errorVisible := false;
      imageEnabled := true;
    }

    /** The upload input's `change`: the first picked file is held and the label dialog opens. */
    method SelectFile(files: seq<UploadedFile>)
      requires Valid()
      modifies this`uploaded, this`modalOpen
      ensures Valid()
      ensures files == [] ==> uploaded == old(uploaded) && modalOpen == old(modalOpen)
      ensures files != [] ==> uploaded == Some(files[0]) && modalOpen
    {
      if files == [] {
        return;
      }
      uploaded := Some(files[0]);
      modalOpen := true;
    }

    /**
     * The label dialog's submit: with a label and a held file, the file is
     * announced in `image-ready` under the label (and staged for Generate
     * Model), shown as the image, and the dialog is closed; Generate Model
     * is enabled and Generate Image disabled. Without either, nothing
     * happens.
     */
    method LabelSubmit(name: string, bus: Bus)
      requires Valid()
      modifies this, bus
      ensures Valid()
      ensures name == "" || old(uploaded).None? ==> unchanged(this) && bus.log == old(bus.log)
      ensures name != "" && old(uploaded).Some? ==>
                var file := old(uploaded).value;
                && bus.log == old(bus.log) + [ImageReady(name, file.content)]
                && staged == Some(Staged(name, file.content))
                && modelEnabled && !imageEnabled
                && instruction == ImageLabel && promptText == name
                && imageVisible && !loadingVisible && errorText == "" && !errorVisible
                && uploaded == None && !modalOpen
    {
      if name == "" || uploaded.None? {
        return;
      }
      var file := uploaded.value;
      loadingVisible := false;
      modelEnabled := true;
      Announce(name, file.content, bus);
      instruction := ImageLabel;
      promptText := name;
      imageVisible := true;
      errorText := "";
      errorVisible := false;
      modalOpen := false;
      uploaded := None;
      imageEnabled := false;
    }

    /** The label dialog's Cancel: the dialog closes and the file is dropped. */
    method CancelLabel()
      requires Valid()
      modifies this`uploaded, this`modalOpen
      ensures Valid()
      ensures uploaded == None && !modalOpen
    {
      modalOpen := false;
      uploaded := None;
    }

    /**
     * `sceneEl.emit('image-ready', …)`, whose listener in `generate-model`
     * runs at once and stages the prompt and image.
     */
    method Announce(prompt: string, image: Blob, bus: Bus)
      modifies this`staged, bus
      ensures staged == Some(Staged(prompt, image))
      ensures bus.log == old(bus.log) + [ImageReady(prompt, image)]
    {
      bus.Emit(ImageReady(prompt, image));
      staged := Some(Staged(prompt, image));
    }

    /**
     * A click on Generate Image. The shown prompt is sent to the image
     * service; `response` is its answer (`None` for a failed request or a
     * status that is not ok). On success Generate Model is enabled, the
     * image is announced and shown and the error cleared; on failure the
     * error reads "Could not generate image". The loading sign is hidden
     * either way.
     */
    method GenerateImage(response: Option<Blob>, bus: Bus) returns (requested: string)
      requires Valid()
      modifies this, bus
      ensures Valid()
      ensures requested == old(promptText) && promptText == old(promptText)
      ensures !loadingVisible
      ensures response.Some? ==>
                && bus.log == old(bus.log) + [ImageReady(requested, response.value)]
                && staged == Some(Staged(requested, response.value))
                && modelEnabled && imageVisible && errorText == "" && !errorVisible
      ensures response.None? ==>
                && bus.log == old(bus.log) && staged == old(staged)
                && modelEnabled == old(modelEnabled) && !imageVisible
                && errorText == ImageFailed && errorVisible
      ensures imageEnabled == old(imageEnabled) && uploaded == old(uploaded) && modalOpen == old(modalOpen)
    {
      loadingVisible := true;
      imageVisible := false;
      requested := promptText;
      if response.None? {
        errorText := ImageFailed;
        errorVisible := true;
        loadingVisible := false;
        return;
      }
      modelEnabled := true;
      Announce(requested, response.value, bus);
      imageVisible := true;
      loadingVisible := false;
      errorText := "";
      errorVisible := false;
    }

    /**
     * A click on Generate Model. With nothing staged the error reads
     * "Generate an image first". Otherwise the staged image is sent to the
     * model service; `response` is its answer. On success the asset is
     * saved under the staged prompt, `library-updated` is emitted and the
     * asset is added to the scene, and the error is cleared; a store
     * failure is only logged. A failed request shows "Could not create
     * model". `now` stands for `Date.now()` and the asset's creation time.
     */
    method GenerateModel(response: Option<Blob>, store: Store, scene: Scene, bus: Bus, now: nat)
      returns (sent: Option<Blob>, saved: Option<int>)
      requires Valid() && store.Valid() && scene.Valid()
      modifies this`loadingVisible, this`errorText, this`errorVisible, store`records, store`nextId, scene`instances, bus
      ensures Valid() && store.Valid() && scene.Valid()
      ensures store.nextId == if saved.Some? then old(store.nextId) + 1 else old(store.nextId)
      ensures old(staged).None? ==>
                && sent == None && saved == None
                && errorText == NoImageYet && errorVisible && loadingVisible == old(loadingVisible)
                && unchanged(store) && scene.instances == old(scene.instances) && bus.log == old(bus.log)
      ensures old(staged).Some? ==> sent == Some(old(staged).value.image) && !loadingVisible
      ensures old(staged).Some? && response.None? ==>
                && saved == None && errorText == ModelFailed && errorVisible
                && unchanged(store) && scene.instances == old(scene.instances) && bus.log == old(bus.log)
      ensures old(staged).Some? && response.Some? ==>
                && errorText == "" && !errorVisible
                && (saved.Some? <==> old(store.initialized) && old(store.nextId) <= MaxGeneratedKey)
      ensures saved.None? && old(staged).Some? && response.Some? ==>
                store.records == old(store.records) && scene.instances == old(scene.instances) && bus.log == old(bus.log)
      ensures saved.Some? ==>
                && saved.value >= 1
                && saved.value == old(store.nextId) && saved.value !in old(store.records)
                && store.records == old(store.records)[saved.value :=
                     Asset(saved.value, old(staged).value.prompt, old(staged).value.image, response.value, DefaultScale, now)]
                && bus.log == old(bus.log) + [LibraryUpdated]
                && scene.instances == old(scene.instances) + [Instance(InstanceId(saved.value, now), saved.value,
                     old(staged).value.prompt, DefaultScale, InitialHeight(DefaultScale))]
    {
      if staged.None? {
        errorVisible := true;
        errorText := NoImageYet;
        return None, None;
      }
      var image := staged.value;
      sent := Some(image.image);
      loadingVisible := true;
      if response.None? {
        errorText := ModelFailed;
        errorVisible := true;
        loadingVisible := false;
        return sent, None;
      }
      var added := store.AddAsset(image.prompt, image.image, response.value, now);
      saved := None;
      if added.Ok? {
        saved := Some(added.value);
        bus.Emit(LibraryUpdated);
        var _ := scene.AddToScene(store, added.value, now);
      }
      loadingVisible := false;
      errorText := "";
      errorVisible := false;
    }
  }

  /**
   * Desktop prompt, Generate Image, Generate Model with both services and
   * an open store: the saved asset carries the typed prompt, the image the
   * image service returned and the model the model service returned.
   */
  method PromptToAsset(p: Pipeline, store: Store, scene: Scene, bus: Bus, prompt: string,
                       image: Blob, model: Blob, now: nat)
    returns (saved: Option<int>)
    requires p.Valid() && store.Valid() && scene.Valid()
    requires prompt != "" && store.initialized && store.nextId <= MaxGeneratedKey
    modifies p, store`records, store`nextId, scene`instances, bus
    ensures p.Valid() && store.Valid() && scene.Valid()
    ensures store.nextId == old(store.nextId) + 1
    ensures saved.Some? && saved.value in store.records
    ensures saved.value == old(store.nextId) && saved.value !in old(store.records)
    ensures store.records[saved.value] == Asset(saved.value, prompt, image, model, DefaultScale, now)
    ensures bus.log == old(bus.log) + [ImageReady(prompt, image), LibraryUpdated]
    ensures |scene.instances| == |old(scene.instances)| + 1
  {
    p.DesktopSubmit(prompt);
    var requested := p.GenerateImage(Some(image), bus);
    var sent;
    sent, saved := p.GenerateModel(Some(model), store, scene, bus, now);
  }

  /**
   * Upload, label, Generate Model: the saved asset carries the label as
   * its prompt and the uploaded file's bytes as its image.
   */
  method UploadToAsset(p: Pipeline, store: Store, scene: Scene, bus: Bus, file: UploadedFile,
                       name: string, model: Blob, now: nat)
    returns (saved: Option<int>)
    requires p.Valid() && store.Valid() && scene.Valid()
    requires name != "" && store.initialized && store.nextId <= MaxGeneratedKey
    modifies p, store`records, store`nextId, scene`instances, bus
    ensures p.Valid() && store.Valid() && scene.Valid()
    ensures store.nextId == old(store.nextId) + 1
    ensures saved.Some? && saved.value in store.records
    ensures saved.value == old(store.nextId) && saved.value !in old(store.records)
    ensures store.records[saved.value] == Asset(saved.value, name, file.content, model, DefaultScale, now)
    ensures bus.log == old(bus.log) + [ImageReady(name, file.content), LibraryUpdated]
  {
    p.SelectFile([file]);
    p.LabelSubmit(name, bus);
    var sent;
    sent, saved := p.GenerateModel(Some(model), store, scene, bus, now);
  }
}
