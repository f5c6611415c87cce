/**
 * The model library of js/components.js: the `load-model-library`
 * component, which fills every desktop `.library-scroller` with a card per
 * saved asset and shows the assets page by page in VR, and the
 * `card-controls` component, which drives the buttons of one VR card.
 */
module Library {
  import opened Wrappers
  import opened Strings
  import opened TextWrap
  import opened AssetStore
  import opened Events
  import opened Scene

  /** `itemsPerPage`: VR cards on one page. */
  const ItemsPerPage: nat := 4
  /** The line width `wrapText` is given for a desktop card's name. */
  const CardLabelWidth: int := 20
  /** Horizontal distance between neighbouring VR cards. */
  const CardSpacing: real := 1.2

  // ---------------------------------------------------------------- card keys

  /**
   * `parseInt(card.getAttribute('model-id'))`: the store key a card acts on.
   * The source passes no radix; a model-id written from a key never starts
   * with `0x`, so radix 10 reads it the same way.
   */
  function CardKey(modelId: string): Option<int> {
    ParseInt(modelId)
  }

  /** A card labelled with `setAttribute('model-id', asset.id)` acts on that asset. */
  lemma CardKeyOfAsset(a: Asset)
    ensures CardKey(IntToString(a.id)) == Some(a.id)
  {
    ParseIntOfIntToString(a.id);
  }

  // ---------------------------------------------------------------- desktop cards

  /**
   * A clone of `#model-card-template` in one desktop scroller. `wired`
   * says whether the library build attached the card's click, Add,
   * Download, Delete, Cancel and Confirm listeners to it; a card without
   * them ignores every click.
   */
  datatype DesktopCard = DesktopCard(modelId: string, name: string, image: Blob, selected: bool, deleting: bool,
                                     wired: bool)

  /** The card `refreshLibrary` builds for an asset: its id, its prompt wrapped at 20, its image, its listeners. */
  function DesktopCardFor(a: Asset): DesktopCard {
    DesktopCard(IntToString(a.id), Wrapped(a.prompt, CardLabelWidth), a.imageBlob, false, false, true)
  }

  /** The cards of one scroller after `refreshLibrary`, in listing order. */
  function DesktopCards(assets: seq<Asset>): (r: seq<DesktopCard>) {
    seq(|assets|, i requires 0 <= i < |assets| => DesktopCardFor(assets[i]))
  }

  /** Listing one more asset appends one card to every scroller. */
  lemma DesktopCardsSnoc(assets: seq<Asset>, i: nat)
    requires i < |assets|
    ensures DesktopCards(assets[..i + 1]) == DesktopCards(assets[..i]) + [DesktopCardFor(assets[i])]
  {
    var l, r := DesktopCards(assets[..i + 1]), DesktopCards(assets[..i]) + [DesktopCardFor(assets[i])];
    assert |l| == |r|;
    forall k | 0 <= k < |l|
      ensures l[k] == r[k]
    {
      if k < i {
        assert assets[..i + 1][k] == assets[..i][k];
      }
    }
  }

  /**
   * After a refresh from a listing of the store, every desktop card names
   * a record of the store, and every record has a card.
   */
  lemma ListedCardsMatchRecords(assets: seq<Asset>, records: map<int, Asset>)
    requires ListsExactly(assets, records)
    ensures |DesktopCards(assets)| == |assets|
    ensures forall i :: 0 <= i < |assets| ==>
              var key := CardKey(DesktopCards(assets)[i].modelId);
              key.Some? && key.value in records && records[key.value] == assets[i]
    ensures forall k :: k in records ==>
              exists i :: 0 <= i < |assets| && CardKey(DesktopCards(assets)[i].modelId) == Some(k)
  {
    forall i | 0 <= i < |assets|
      ensures CardKey(DesktopCards(assets)[i].modelId) == Some(assets[i].id)
    {
      CardKeyOfAsset(assets[i]);
    }
    forall k | k in records
      ensures exists i :: 0 <= i < |assets| && CardKey(DesktopCards(assets)[i].modelId) == Some(k)
    {
      var i :| 0 <= i < |assets| && assets[i].id == k;
      assert CardKey(DesktopCards(assets)[i].modelId) == Some(k);
    }
  }

  /**
   * The click handler of a desktop card: every card of its scroller is
   * deselected, and the clicked one is selected unless it was selected.
   */
  function Toggled(cards: seq<DesktopCard>, c: nat): (r: seq<DesktopCard>)
    requires c < |cards|
  {
    seq(|cards|, i requires 0 <= i < |cards| => cards[i].(selected := i == c && !cards[c].selected))
  }

  /**
   * A click flips the clicked card's selection and leaves at most that one
   * card selected; nothing but the selection changes.
   */
  lemma ToggledSelectsAtMostOne(cards: seq<DesktopCard>, c: nat)
    requires c < |cards|
    ensures var r := Toggled(cards, c);
            && |r| == |cards|
            && r[c].selected == !cards[c].selected
            && (forall i :: 0 <= i < |r| && r[i].selected ==> i == c)
            && (forall i :: 0 <= i < |r| ==> r[i].(selected := cards[i].selected) == cards[i])
  {
  }

  /**
   * Two clicks on the same card leave it selected as it was and every
   * other card of the scroller deselected.
   */
  lemma ToggledTwice(cards: seq<DesktopCard>, c: nat)
    requires c < |cards|
    ensures forall i :: 0 <= i < |cards| ==> Toggled(Toggled(cards, c), c)[i].selected == (i == c && cards[c].selected)
  {
  }

  /** `card.remove()`. */
  function Without<T>(s: seq<T>, k: nat): (r: seq<T>)
    requires k < |s|
    ensures |r| == |s| - 1
    ensures forall i :: 0 <= i < k ==> r[i] == s[i]
    ensures forall i :: k <= i < |r| ==> r[i] == s[i + 1]
  {
    s[..k] + s[k + 1..]
  }

  // ---------------------------------------------------------------- VR pages

  /** `Math.min(k, n)`: where `Array.prototype.slice` clamps an index. */
  function Bound(n: nat, k: nat): (r: nat)
    ensures r <= n && r <= k && (r == n || r == k)
  {
    if k < n then k else n
  }

  /** `assets.slice(page * itemsPerPage, page * itemsPerPage + itemsPerPage)`. */
  function PageOf(assets: seq<Asset>, page: nat): seq<Asset> {
    var n := |assets|;
    assets[Bound(n, ItemsPerPage * page)..Bound(n, ItemsPerPage * page + ItemsPerPage)]
  }

  /** `Math.ceil(n / itemsPerPage) - 1`: the last page number, -1 for an empty library. */
  function MaxPage(n: nat): (r: int)
    ensures ItemsPerPage * r < n <= ItemsPerPage * (r + 1)
  {
    (n + ItemsPerPage - 1) / ItemsPerPage - 1
  }

  /** The pages a user can reach: 0 for an empty library, otherwise up to `MaxPage`. */
  function LastPage(n: nat): nat {
    if n == 0 then 0 else MaxPage(n)
  }

  /**
   * A page holds at most `itemsPerPage` assets; every reachable page of a
   * non-empty library holds at least one, and every page beyond is empty.
   */
  lemma PageSize(assets: seq<Asset>, page: nat)
    ensures |PageOf(assets, page)| <= ItemsPerPage
    ensures |assets| > 0 && page <= LastPage(|assets|) ==> |PageOf(assets, page)| >= 1
    ensures page > LastPage(|assets|) ==> PageOf(assets, page) == []
  {
  }

  /** The asset at position `i` of the listing is shown on page `i / 4` at position `i % 4`. */
  lemma PageOfIndex(assets: seq<Asset>, i: nat)
    requires i < |assets|
    ensures i / ItemsPerPage <= LastPage(|assets|)
    ensures i % ItemsPerPage < |PageOf(assets, i / ItemsPerPage)|
    ensures PageOf(assets, i / ItemsPerPage)[i % ItemsPerPage] == assets[i]
  {
  }

  /** Pages 0 to `count - 1` one after the other. */
  function PagesBefore(assets: seq<Asset>, count: nat): seq<Asset>
    decreases count
  {
    if count == 0 then [] else PagesBefore(assets, count - 1) + PageOf(assets, count - 1)
  }

  /** The first `count` pages are the first `4 * count` assets, as far as there are any. */
  lemma {:induction false} PagesBeforeIsPrefix(assets: seq<Asset>, count: nat)
    ensures PagesBefore(assets, count) == assets[..Bound(|assets|, ItemsPerPage * count)]
    decreases count
  {
    if count > 0 {
      PagesBeforeIsPrefix(assets, count - 1);
      var lo := Bound(|assets|, ItemsPerPage * (count - 1));
      var hi := Bound(|assets|, ItemsPerPage * count);
      assert assets[..lo] + assets[lo..hi] == assets[..hi];
    }
  }

  /** Paging through every reachable page shows every asset once, in listing order. */
  lemma PagesShowEveryAsset(assets: seq<Asset>)
    ensures PagesBefore(assets, LastPage(|assets|) + 1) == assets
  {
    PagesBeforeIsPrefix(assets, LastPage(|assets|) + 1);
  }

  /** The right arrow shows exactly when a later page holds an asset. */
  lemma NextShownWhenMoreAssets(n: nat, page: nat)
    ensures page < MaxPage(n) <==> ItemsPerPage * (page + 1) < n
  {
  }

  // ---------------------------------------------------------------- VR cards

  /** The interactive parts of a `#vr-card-template` clone. */
  datatype VrButton = AddButton | DownloadButton | DeleteButton | ConfirmButton | CancelButton

  /** The buttons of the overlay, and of the delete question. */
  const MainButtons: set<VrButton> := {AddButton, DownloadButton, DeleteButton}
  const QueryButtons: set<VrButton> := {ConfirmButton, CancelButton}

  /**
   * A VR card: its id and name, its image, its x position on the page,
   * whether its overlay is shown, whether the delete question is shown in
   * place of the main buttons, and which buttons carry `clickable`.
   */
  datatype VrCard = VrCard(modelId: string, name: string, image: Blob, x: real,
                           overlay: bool, asking: bool, clickable: set<VrButton>)

  /** `(index - (itemsPerPage - 1) / 2) * 1.2`: cards are centred on the panel. */
  function CardX(index: nat): real {
    (index as real - (ItemsPerPage - 1) as real / 2.0) * CardSpacing
  }

  /** The positions of a full page are symmetric about the centre and evenly spaced. */
  lemma CardsCentred(index: nat)
    requires index < ItemsPerPage
    ensures CardX(index) + CardX(ItemsPerPage - 1 - index) == 0.0
    ensures CardX(index + 1) - CardX(index) == CardSpacing
  {
  }

  /**
   * The card `renderCurrentPage` builds for the asset at `index` of the
   * page: its prompt unwrapped, at its slot's x-offset. The overlay hidden
   * and no button clickable is the template's state in the page markup,
   * which the source does not set.
   */
  function VrCardFor(a: Asset, index: nat): VrCard {
    VrCard(IntToString(a.id), a.prompt, a.imageBlob, CardX(index), false, false, {})
  }

  /** The cards of a page, left to right. */
  function VrCards(page: seq<Asset>): seq<VrCard> {
    seq(|page|, i requires 0 <= i < |page| => VrCardFor(page[i], i))
  }

  /** Rendering one more asset of the page appends its card. */
  lemma VrCardsSnoc(page: seq<Asset>, i: nat)
    requires i < |page|
    ensures VrCards(page[..i + 1]) == VrCards(page[..i]) + [VrCardFor(page[i], i)]
  {
    var l, r := VrCards(page[..i + 1]), VrCards(page[..i]) + [VrCardFor(page[i], i)];
    assert |l| == |r|;
    forall k | 0 <= k < |l|
      ensures l[k] == r[k]
    {
      if k < i {
        assert page[..i + 1][k] == page[..i][k];
      }
    }
  }

  /**
   * The consistency `card-controls` keeps: with the overlay hidden nothing
   * is clickable; with it shown exactly the visible group is clickable.
   */
  predicate ControlsConsistent(c: VrCard) {
    if !c.overlay then c.clickable == {}
    else if c.asking then c.clickable == QueryButtons
    else c.clickable == MainButtons
  }

  /**
   * A freshly rendered card acts on its asset, sits at its slot, and has
   * its overlay hidden and its buttons consistent.
   */
  lemma VrCardForShape(a: Asset, i: nat)
    ensures var c := VrCardFor(a, i);
            && CardKey(c.modelId) == Some(a.id) && c.name == a.prompt && c.x == CardX(i)
            && !c.overlay && ControlsConsistent(c)
  {
    CardKeyOfAsset(a);
  }

  /** The clicks on a VR card that only change the card itself. */
  datatype CardClick = ToggleOverlay | AskDelete | CancelDelete

  /** `resetDeleteUI()`: the main buttons shown and clickable, the question hidden. */
  function ResetDelete(c: VrCard): VrCard {
    c.(asking := false, clickable := MainButtons)
  }

  /**
   * The card click toggles the overlay (showing it resets the buttons,
   * hiding it disables them all); Delete swaps in the question; Cancel
   * resets. A button without `clickable` receives no click.
   */
  function AfterClick(c: VrCard, click: CardClick): VrCard {
    match click
    case ToggleOverlay =>
      if !c.overlay then ResetDelete(c).(overlay := true) else c.(overlay := false, clickable := {})
    case AskDelete =>
      if DeleteButton in c.clickable then c.(asking := true, clickable := QueryButtons) else c
    case CancelDelete =>
      if CancelButton in c.clickable then ResetDelete(c) else c
  }

  /** Every click keeps a card's buttons consistent with what it shows. */
  lemma AfterClickConsistent(c: VrCard, click: CardClick)
    requires ControlsConsistent(c)
    ensures ControlsConsistent(AfterClick(c, click))
    ensures AfterClick(c, click).modelId == c.modelId && AfterClick(c, click).x == c.x
  {
  }

  /**
   * Confirm becomes clickable only by a click on Delete: the delete of an
   * asset always takes two clicks on an open overlay.
   */
  lemma ConfirmOnlyAfterDelete(c: VrCard, click: CardClick)
    requires ControlsConsistent(c)
    requires ConfirmButton !in c.clickable
    requires ConfirmButton in AfterClick(c, click).clickable
    ensures click == AskDelete && c.overlay && !c.asking
  {
  }

  // ---------------------------------------------------------------- the library

  class Library {
    /** The outcome of `checkVRSupport()`. */
    const vrSupported: bool
    /** The number of `.library-scroller` elements on the page. */
    const scrollers: nat
    /** The cards of each desktop scroller. */
    var surfaces: seq<seq<DesktopCard>>
    /** `this.assets`: the last listing of the store. */
    var assets: seq<Asset>
    /** `this.currentPage`. */
    var currentPage: nat
    /** The `.native-card` children of the VR library container. */
    var vrCards: seq<VrCard>
    /** Visibility of the left and right arrows. */
    var prevVisible: bool
    var nextVisible: bool

    ghost predicate Valid()
      reads this
    {
      && |surfaces| == scrollers
      && currentPage <= LastPage(|assets|)
      && (forall i :: 0 <= i < |vrCards| ==> ControlsConsistent(vrCards[i]))
    }

    /** The component before its first refresh: every scroller and the VR page empty. */
    constructor (vr: bool, count: nat)
      ensures Valid()
      ensures vrSupported == vr && scrollers == count
      ensures surfaces == seq(count, _ => []) && assets == [] && currentPage == 0 && vrCards == []
    {
      vrSupported := vr;
      scrollers := count;
      surfaces := seq(count, _ => []);
      assets := [];
      currentPage := 0;
      vrCards := [];
      prevVisible := false;
      nextVisible := false;
    }

    /**
     * `refreshLibrary()`: empties every scroller, opens the store and lists
     * it; on success goes back to page 0, renders it in VR, and gives every
     * scroller one card per asset. A failure is logged and leaves the
     * scrollers empty and the VR page as it was.
     */
    method Refresh(store: Store, openSucceeds: bool) returns (loaded: bool)
      requires Valid() && store.Valid()
      modifies this`surfaces, this`assets, this`currentPage, this`vrCards, this`prevVisible, this`nextVisible
      modifies store`initialized
      ensures Valid() && store.Valid()
      ensures loaded == openSucceeds
      ensures !loaded ==>
                && (forall j :: 0 <= j < scrollers ==> surfaces[j] == [])
                && assets == old(assets) && currentPage == old(currentPage) && vrCards == old(vrCards)
                && prevVisible == old(prevVisible) && nextVisible == old(nextVisible)
      ensures loaded ==>
                && ListsExactly(assets, store.records)
                && currentPage == 0
                && (forall j :: 0 <= j < scrollers ==> surfaces[j] == DesktopCards(assets))
      ensures loaded && vrSupported ==>
                && vrCards == VrCards(PageOf(assets, 0))
                && !prevVisible && nextVisible == (ItemsPerPage < |assets|)
      ensures loaded && !vrSupported ==>
                vrCards == old(vrCards) && prevVisible == old(prevVisible) && nextVisible == old(nextVisible)
    {
      ClearSurfaces();
      var open := store.InitDB(openSucceeds);
      if open.Err? {
        return false;
      }
      var listed := store.GetAllAssets();
      assert listed.Ok?;
      assets := listed.value;
      currentPage := 0;
      if vrSupported {
        RenderCurrentPage();
        NextShownWhenMoreAssets(|assets|, 0);
      }
      Populate();
      loaded := true;
    }

    /** `lib.innerHTML = ''` for every scroller. */
    method ClearSurfaces()
      requires |surfaces| == scrollers
      modifies this`surfaces
      ensures |surfaces| == scrollers
      ensures forall j :: 0 <= j < scrollers ==> surfaces[j] == []
    {
      for j := 0 to |surfaces|
        invariant |surfaces| == scrollers
        invariant forall k :: 0 <= k < j ==> surfaces[k] == []
      {
        surfaces := surfaces[j := []];
      }
    }

    /** Appends a card per listed asset to every (empty) scroller. */
    method Populate()
      requires |surfaces| == scrollers
      requires forall j :: 0 <= j < scrollers ==> surfaces[j] == []
      modifies this`surfaces
      ensures |surfaces| == scrollers
      ensures forall j :: 0 <= j < scrollers ==> surfaces[j] == DesktopCards(assets)
    {
      for i := 0 to |assets|
        invariant |surfaces| == scrollers
        invariant forall j :: 0 <= j < scrollers ==> surfaces[j] == DesktopCards(assets[..i])
      {
        var name := WrapText(assets[i].prompt, CardLabelWidth);
        var card := DesktopCard(IntToString(assets[i].id), name, assets[i].imageBlob, false, false, true);
        DesktopCardsSnoc(assets, i);
        for j := 0 to |surfaces|
          invariant |surfaces| == scrollers
          invariant forall k :: 0 <= k < j ==> surfaces[k] == DesktopCards(assets[..i + 1])
          invariant forall k :: j <= k < scrollers ==> surfaces[k] == DesktopCards(assets[..i])
        {
          surfaces := surfaces[j := surfaces[j] + [card]];
        }
      }
      assert assets[..|assets|] == assets;
    }

    /**
     * `renderCurrentPage()`: replaces the VR cards by those of the current
     * page, then `updateButtonStates()`: the left arrow shows past page 0,
     * the right one before the last page.
     */
    method RenderCurrentPage()
      requires Valid()
      modifies this`vrCards, this`prevVisible, this`nextVisible
      ensures Valid()
      ensures vrCards == VrCards(PageOf(assets, currentPage))
      ensures prevVisible == (currentPage > 0) && nextVisible == (currentPage < MaxPage(|assets|))
    {
      var page := PageOf(assets, currentPage);
      vrCards := [];
      for i := 0 to |page|
        invariant vrCards == VrCards(page[..i])
      {
        VrCardsSnoc(page, i);
        vrCards := vrCards + [VrCardFor(page[i], i)];
      }
      assert page[..|page|] == page;
      forall i | 0 <= i < |vrCards|
        ensures ControlsConsistent(vrCards[i])
      {
        VrCardForShape(page[i], i);
      }
      prevVisible := currentPage > 0;
      nextVisible := currentPage < MaxPage(|assets|);
    }

    /** The left arrow: back one page, if there is one. */
    method PrevClick()
      requires Valid() && vrSupported
      modifies this`currentPage, this`vrCards, this`prevVisible, this`nextVisible
      ensures Valid()
      ensures old(currentPage) > 0 ==>
                && currentPage == old(currentPage) - 1
                && vrCards == VrCards(PageOf(assets, currentPage))
                && prevVisible == (currentPage > 0) && nextVisible
      ensures old(currentPage) == 0 ==>
                currentPage == 0 && vrCards == old(vrCards)
                && prevVisible == old(prevVisible) && nextVisible == old(nextVisible)
    {
      if currentPage > 0 {
        currentPage := currentPage - 1;
        RenderCurrentPage();
      }
    }

    /** The right arrow: on one page, if that page holds an asset. */
    method NextClick()
      requires Valid() && vrSupported
      modifies this`currentPage, this`vrCards, this`prevVisible, this`nextVisible
      ensures Valid()
      ensures old(currentPage) < MaxPage(|assets|) ==>
                && currentPage == old(currentPage) + 1
                && vrCards == VrCards(PageOf(assets, currentPage))
                && |vrCards| >= 1
                && prevVisible && nextVisible == (currentPage < MaxPage(|assets|))
      ensures old(currentPage) >= MaxPage(|assets|) ==>
                currentPage == old(currentPage) && vrCards == old(vrCards)
                && prevVisible == old(prevVisible) && nextVisible == old(nextVisible)
    {
      if currentPage < MaxPage(|assets|) {
        currentPage := currentPage + 1;
        RenderCurrentPage();
        PageSize(assets, currentPage);
      }
    }

    /** A click on card `c` of scroller `s`. */
    method ClickCard(s: nat, c: nat)
      requires Valid() && s < scrollers && c < |surfaces[s]| && surfaces[s][c].wired
      modifies this`surfaces
      ensures Valid()
      ensures surfaces == old(surfaces)[s := Toggled(old(surfaces)[s], c)]
    {
      var cards := surfaces[s];
      var wasSelected := cards[c].selected;
      var i := 0;
      while i < |cards|
        invariant 0 <= i <= |cards| && |cards| == |old(surfaces)[s]|
        invariant forall k :: 0 <= k < i ==> cards[k] == old(surfaces)[s][k].(selected := false)
        invariant forall k :: i <= k < |cards| ==> cards[k] == old(surfaces)[s][k]
      {
        cards := cards[i := cards[i].(selected := false)];
        i := i + 1;
      }
      if !wasSelected {
        cards := cards[c := cards[c].(selected := true)];
      }
      assert forall k :: 0 <= k < |cards| ==> cards[k] == Toggled(old(surfaces)[s], c)[k];
      assert cards == Toggled(old(surfaces)[s], c);
      surfaces := surfaces[s := cards];
    }

    /** The Delete button of a desktop card: the card asks for confirmation. */
    method MarkDeleting(s: nat, c: nat)
      requires Valid() && s < scrollers && c < |surfaces[s]| && surfaces[s][c].wired
      modifies this`surfaces
      ensures Valid()
      ensures surfaces == old(surfaces)[s := old(surfaces)[s][c := old(surfaces)[s][c].(deleting := true)]]
    {
      surfaces := surfaces[s := surfaces[s][c := surfaces[s][c].(deleting := true)]];
    }

    /** The Cancel button of a desktop card: the question is hidden again. */
    method CancelDeleting(s: nat, c: nat)
      requires Valid() && s < scrollers && c < |surfaces[s]| && surfaces[s][c].wired
      modifies this`surfaces
      ensures Valid()
      ensures surfaces == old(surfaces)[s := old(surfaces)[s][c := old(surfaces)[s][c].(deleting := false)]]
    {
      surfaces := surfaces[s := surfaces[s][c := surfaces[s][c].(deleting := false)]];
    }

    /**
     * Deleting the asset of card `c` of scroller `s`: on success the card
     * is removed from its own scroller, on failure its question is hidden.
     * A key that is not a number makes the store's `delete` throw, which
     * takes the failure path.
     */
    method DeleteCard(s: nat, c: nat, store: Store) returns (deleted: bool)
      requires Valid() && store.Valid() && s < scrollers && c < |surfaces[s]| && surfaces[s][c].wired
      modifies this`surfaces, store`records
      ensures Valid() && store.Valid()
      ensures var key := CardKey(old(surfaces)[s][c].modelId);
              && (deleted <==> key.Some? && store.initialized)
              && (deleted ==> store.records == old(store.records) - {key.value}
                              && surfaces == old(surfaces)[s := Without(old(surfaces)[s], c)])
              && (!deleted ==> store.records == old(store.records)
                               && surfaces == old(surfaces)[s := old(surfaces)[s][c := old(surfaces)[s][c].(deleting := false)]])
    {
      var key := CardKey(surfaces[s][c].modelId);
      var r: Result<(), StoreError> := Err(InvalidKey);
      if key.Some? {
        r := store.DeleteAsset(key.value);
      }
      if r.Ok? {
        surfaces := surfaces[s := Without(surfaces[s], c)];
        deleted := true;
      } else {
        surfaces := surfaces[s := surfaces[s][c := surfaces[s][c].(deleting := false)]];
        deleted := false;
      }
    }

    /**
     * The Confirm button of a desktop card: `DeleteCard`, then
     * `library-updated` is emitted whatever the outcome.
     */
    method ConfirmDesktopDelete(s: nat, c: nat, store: Store, bus: Bus) returns (deleted: bool)
      requires Valid() && store.Valid() && s < scrollers && c < |surfaces[s]| && surfaces[s][c].wired
      modifies this`surfaces, store`records, bus
      ensures Valid() && store.Valid()
      ensures bus.log == old(bus.log) + [LibraryUpdated]
      ensures var key := CardKey(old(surfaces)[s][c].modelId);
              && (deleted <==> key.Some? && store.initialized)
              && (deleted ==> store.records == old(store.records) - {key.value}
                              && surfaces == old(surfaces)[s := Without(old(surfaces)[s], c)])
              && (!deleted ==> store.records == old(store.records)
                               && surfaces == old(surfaces)[s := old(surfaces)[s][c := old(surfaces)[s][c].(deleting := false)]])
    {
      deleted := DeleteCard(s, c, store);
      bus.Emit(LibraryUpdated);
    }

    /** A click on VR card `k` that only changes the card (overlay, Delete, Cancel). */
    method VrCardClick(k: nat, click: CardClick)
      requires Valid() && k < |vrCards|
      modifies this`vrCards
      ensures Valid()
      ensures vrCards == old(vrCards)[k := AfterClick(old(vrCards)[k], click)]
    {
      AfterClickConsistent(vrCards[k], click);
      vrCards := vrCards[k := AfterClick(vrCards[k], click)];
    }

    /**
     * The Confirm button of VR card `k`, when clickable: the asset is
     * deleted and the card removed, or on failure the main buttons are
     * restored; `library-updated` is emitted either way.
     */
    method VrConfirmClick(k: nat, store: Store, bus: Bus) returns (deleted: bool)
      requires Valid() && store.Valid() && k < |vrCards|
      modifies this`vrCards, store`records, bus
      ensures Valid() && store.Valid()
      ensures ConfirmButton !in old(vrCards)[k].clickable ==>
                !deleted && vrCards == old(vrCards) && store.records == old(store.records) && bus.log == old(bus.log)
      ensures ConfirmButton in old(vrCards)[k].clickable ==>
                var key := CardKey(old(vrCards)[k].modelId);
                && bus.log == old(bus.log) + [LibraryUpdated]
                && (deleted <==> key.Some? && store.initialized)
                && (deleted ==> store.records == old(store.records) - {key.value}
                                && vrCards == Without(old(vrCards), k))
                && (!deleted ==> store.records == old(store.records)
                                 && vrCards == old(vrCards)[k := ResetDelete(old(vrCards)[k])])
    {
      if ConfirmButton !in vrCards[k].clickable {
        return false;
      }
      var key := CardKey(vrCards[k].modelId);
      var r: Result<(), StoreError> := Err(InvalidKey);
      if key.Some? {
        r := store.DeleteAsset(key.value);
      }
      if r.Ok? {
        vrCards := Without(vrCards, k);
        deleted := true;
      } else {
        vrCards := vrCards[k := ResetDelete(vrCards[k])];
        deleted := false;
      }
      bus.Emit(LibraryUpdated);
    }
  }

  /**
   * The Add to Scene button of a card (desktop, or a clickable VR one):
   * `addToScene(parseInt(model-id))`; a key that is not a number finds no
   * asset.
   */
  method AddFromCard(modelId: string, store: Store, scene: Scene, now: nat) returns (r: Option<string>)
    requires scene.Valid() && store.Valid()
    modifies scene`instances
    ensures scene.Valid()
    ensures var key := CardKey(modelId);
            && (key.Some? && store.initialized && key.value in store.records <==> r.Some?)
            && (r.Some? ==> scene.instances == old(scene.instances) + [Instance(r.value, key.value,
                              store.records[key.value].prompt, store.records[key.value].scale,
                              InitialHeight(store.records[key.value].scale))])
            && (r.None? ==> scene.instances == old(scene.instances))
  {
    var key := CardKey(modelId);
    if key.None? {
      return None;
    }
    r := scene.AddToScene(store, key.value, now);
  }

  /** The Download button of a card: `downloadModel(parseInt(model-id))`. */
  method DownloadFromCard(modelId: string, store: Store, browser: Browser)
    requires browser.Valid() && store.Valid()
    modifies browser
    ensures browser.Valid() && browser.liveUrls == old(browser.liveUrls)
    ensures var key := CardKey(modelId);
            && (key.Some? && store.initialized && key.value in store.records ==>
                  browser.saved == old(browser.saved) + [SavedFile(DownloadName(store.records[key.value].prompt),
                                                                   store.records[key.value].modelBlob)])
            && (!(key.Some? && store.initialized && key.value in store.records) ==> browser.saved == old(browser.saved))
  {
    var key := CardKey(modelId);
    if key.Some? {
      browser.DownloadModel(store, key.value);
    }
  }

  /**
   * A confirmed delete followed by the refresh that `library-updated`
   * triggers: no card left in any scroller names the deleted asset.
   */
  method DeleteThenRefresh(lib: Library, s: nat, c: nat, store: Store, bus: Bus, openSucceeds: bool)
    returns (deleted: bool, loaded: bool)
    requires lib.Valid() && store.Valid() && s < lib.scrollers && c < |lib.surfaces[s]| && lib.surfaces[s][c].wired
    modifies lib, store, bus
    ensures lib.Valid() && store.Valid()
    ensures deleted && loaded ==>
              forall j, i :: 0 <= j < lib.scrollers && 0 <= i < |lib.surfaces[j]| ==>
                lib.surfaces[j][i].modelId != old(lib.surfaces)[s][c].modelId
  {
    var id := lib.surfaces[s][c].modelId;
    deleted := lib.ConfirmDesktopDelete(s, c, store, bus);
    loaded := lib.Refresh(store, openSucceeds);
    if deleted && loaded {
      ListedCardsMatchRecords(lib.assets, store.records);
      assert CardKey(id).value !in store.records;
    }
  }
}
