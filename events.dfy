/**
 * The custom DOM events the components exchange through the scene element:
 * `image-ready` carries the staged prompt and image, `library-updated`
 * asks the library to rebuild itself from the store.
 */
module Events {
  import opened AssetStore

  datatype Event =
    | ImageReady(prompt: string, imageBlob: Blob)
    | LibraryUpdated

  /** The scene element as an event target: the events emitted on it, in order. */
  class Bus {
    var log: seq<Event>

    constructor ()
      ensures log == []
    {
      log := [];
    }

    /** `sceneEl.emit(name, detail)`. */
    method Emit(e: Event)
      modifies this
      ensures log == old(log) + [e]
    {
      log := log + [e];
    }
  }
}
