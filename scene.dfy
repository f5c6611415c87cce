/**
 * The scene-instance helpers of js/utils.js (`addToScene`, `handleRange`,
 * `removeFromScene`, `setSizeValue`, `updateSize`, `downloadModel`) and the
 * `model-entity` click logic of js/components.js: the VR scale panel and the
 * desktop model panel.
 */
module Scene {
  import opened Wrappers
  import opened Strings
  import opened AssetStore

  // ---------------------------------------------------------------- instance ids

  /** The element id `addToScene` gives a new instance: `model-<assetId>-<Date.now()>`. */
  function InstanceId(assetId: nat, timestamp: nat): string {
    "model-" + NatToString(assetId) + "-" + NatToString(timestamp)
  }

  /** `parseInt(id.split("-")[1], 10)`: the asset id `handleRange` reads back from an element id. */
  function AssetIdOf(elementId: string): Option<int> {
    var parts := Split(elementId, '-');
    if |parts| < 2 then None else ParseInt(parts[1])
  }

  lemma DigitsHaveNoDash(s: string)
    requires AllDigits(s)
    ensures '-' !in s
  {
  }

  /** An instance id splits on `-` into the prefix, the asset id and the timestamp. */
  lemma InstanceIdPieces(assetId: nat, timestamp: nat)
    ensures Split(InstanceId(assetId, timestamp), '-') == ["model", NatToString(assetId), NatToString(timestamp)]
  {
    var a, t := NatToString(assetId), NatToString(timestamp);
    DigitsHaveNoDash(a);
    DigitsHaveNoDash(t);
    SplitWithoutSeparator(t, '-');
    SplitAtFirstSeparator(a, '-', t);
    assert InstanceId(assetId, timestamp) == "model" + ['-'] + (a + ['-'] + t);
    SplitAtFirstSeparator("model", '-', a + ['-'] + t);
  }

  /** `handleRange` recovers the asset id from any id `addToScene` builds. */
  lemma InstanceIdNamesItsAsset(assetId: nat, timestamp: nat)
    ensures AssetIdOf(InstanceId(assetId, timestamp)) == Some(assetId)
  {
    InstanceIdPieces(assetId, timestamp);
    ParseIntOfNatToString(assetId);
  }

  /** Two instance ids are equal only when both their asset ids and their timestamps are. */
  lemma InstanceIdInjective(a1: nat, t1: nat, a2: nat, t2: nat)
    requires InstanceId(a1, t1) == InstanceId(a2, t2)
    ensures a1 == a2 && t1 == t2
  {
    InstanceIdPieces(a1, t1);
    InstanceIdPieces(a2, t2);
    NatToStringInjective(a1, a2);
    NatToStringInjective(t1, t2);
  }

  // ---------------------------------------------------------------- download name

  /** `${prompt.replace(/\s/g, '_')}.glb`: the file name `downloadModel` saves under. */
  function DownloadName(prompt: string): string {
    ReplaceWhitespace(prompt, '_') + ".glb"
  }

  /**
   * The download name is the prompt with each whitespace character turned
   * into `_`, followed by `.glb`; it holds no whitespace at all.
   */
  lemma DownloadNameShape(prompt: string)
    ensures var r := DownloadName(prompt);
            && |r| == |prompt| + 4
            && r[|prompt|..] == ".glb"
            && (forall i :: 0 <= i < |prompt| ==> r[i] == if IsWhitespace(prompt[i]) then '_' else prompt[i])
            && (forall i :: 0 <= i < |r| ==> !IsWhitespace(r[i]))
  {
    var r := DownloadName(prompt);
    assert r[|prompt|..] == ".glb";
    forall i | 0 <= i < |r|
      ensures !IsWhitespace(r[i])
    {
      if i >= |prompt| {
        assert r[i] == ".glb"[i - |prompt|];
      }
    }
  }

  /**
   * A prompt of two whitespace-free words separated by one space, such as
   * "download test", is saved as the two words joined by `_` plus `.glb`.
   */
  lemma DownloadNameOfTwoWords(a: string, b: string)
    requires forall i :: 0 <= i < |a| ==> !IsWhitespace(a[i])
    requires forall i :: 0 <= i < |b| ==> !IsWhitespace(b[i])
    ensures DownloadName(a + " " + b) == a + "_" + b + ".glb"
  {
    ReplaceWhitespaceAppend(a, " " + b, '_');
    ReplaceWhitespaceAppend(" ", b, '_');
    ReplaceWhitespaceKeeps(a, '_');
    ReplaceWhitespaceKeeps(b, '_');
    assert ReplaceWhitespace(" ", '_') == "_";
  }

  // ---------------------------------------------------------------- clamping

  /** `Math.min(a, b)`. */
  function Min(a: real, b: real): real {
    if b < a then b else a
  }

  /** `Math.max(a, b)`. */
  function Max(a: real, b: real): real {
    if b > a then b else a
  }

  /** `Math.max(min, Math.min(value, max))`: the value `setSizeValue` stores. */
  function Clamp(value: real, lo: real, hi: real): (r: real)
    ensures lo <= hi ==> lo <= r <= hi
    ensures lo <= value <= hi ==> r == value
    ensures lo <= hi && value > hi ==> r == hi
    ensures value < lo ==> r == lo
  {
    Max(lo, Min(value, hi))
  }

  /** Clamping a clamped value changes nothing. */
  lemma ClampIdempotent(value: real, lo: real, hi: real)
    ensures Clamp(Clamp(value, lo, hi), lo, hi) == Clamp(value, lo, hi)
  {
  }

  // ---------------------------------------------------------------- instances

  /**
   * A `model-entity` element: its id, the asset it shows, its `name`
   * attribute, its scale (`object3D.scale.y`, equal to `model-scale`) and
   * the height of its centre (`object3D.position.y`).
   */
  datatype Instance = Instance(elementId: string, assetId: int, name: string, scale: real, y: real)

  /** `scale / 2 + 0.2`: the height `model-entity` gives a new instance, so that its base sits at 0.2. */
  function InitialHeight(scale: real): (y: real)
    ensures y - scale / 2.0 == 0.2
  {
    scale / 2.0 + 0.2
  }

  /** The height of an instance's base: its centre less half its size. */
  function Base(i: Instance): real {
    i.y - i.scale / 2.0
  }

  /** The height at which `model-entity` sets a new instance's base. */
  const StartBase: real := 0.2

  /** Every instance's base rests at `floor`. */
  predicate Grounded(instances: seq<Instance>, floor: real) {
    forall j :: 0 <= j < |instances| ==> Base(instances[j]) == floor
  }

  /** An instance appended with its base at the floor keeps the scene grounded. */
  lemma GroundedAfterAdd(instances: seq<Instance>, added: Instance, floor: real)
    requires Grounded(instances, floor) && Base(added) == floor
    ensures Grounded(instances + [added], floor)
  {
    forall j | 0 <= j < |instances| + 1
      ensures Base((instances + [added])[j]) == floor
    {
      if j < |instances| {
        assert (instances + [added])[j] == instances[j];
      }
    }
  }

  /** Removing one instance keeps the scene grounded. */
  lemma GroundedAfterRemove(instances: seq<Instance>, k: nat, floor: real)
    requires k < |instances| && Grounded(instances, floor)
    ensures Grounded(instances[..k] + instances[k + 1..], floor)
  {
    var rest := instances[..k] + instances[k + 1..];
    forall j | 0 <= j < |rest|
      ensures Base(rest[j]) == floor
    {
      if j < k {
        assert rest[j] == instances[j];
      } else {
        assert rest[j] == instances[j + 1];
      }
    }
  }

  /** `handleRange`'s edit of the element: the new scale, with the base kept where it was. */
  function Resized(i: Instance, size: real): (r: Instance)
    ensures r.scale == size && Base(r) == Base(i)
    ensures r.elementId == i.elementId && r.assetId == i.assetId && r.name == i.name
  {
    i.(scale := size, y := i.y + (size - i.scale) / 2.0)
  }

  /** Resizing one instance keeps the scene grounded: a size change never lifts a model off its floor. */
  lemma GroundedAfterResize(instances: seq<Instance>, k: nat, size: real, floor: real)
    requires k < |instances| && Grounded(instances, floor)
    ensures Grounded(instances[k := Resized(instances[k], size)], floor)
  {
    var resized := instances[k := Resized(instances[k], size)];
    forall j | 0 <= j < |resized|
      ensures Base(resized[j]) == floor
    {
      if j != k {
        assert resized[j] == instances[j];
      }
    }
  }

  /** Applying the same size twice moves the instance no further than applying it once. */
  lemma ResizedTwice(i: Instance, size: real)
    ensures Resized(Resized(i, size), size) == Resized(i, size)
  {
  }

  /** `document.getElementById(id)` among the instances: the first one with that id. */
  function FindInstance(instances: seq<Instance>, id: string): (r: Option<nat>)
    ensures r.Some? ==> r.value < |instances| && instances[r.value].elementId == id
    ensures r.Some? ==> forall j :: 0 <= j < r.value ==> instances[j].elementId != id
    ensures r.None? <==> forall j :: 0 <= j < |instances| ==> instances[j].elementId != id
    decreases |instances|
  {
    if instances == [] then None
    else if instances[0].elementId == id then Some(0)
    else
      match FindInstance(instances[1..], id)
      case None => None
      case Some(k) => Some(k + 1)
  }

  /** Whether the selected id names no instance (so the handlers that use it throw first). */
  predicate SelectionMissing(instances: seq<Instance>, selected: Option<string>) {
    selected.None? || FindInstance(instances, selected.value).None?
  }

  /**
   * What `handleRange`'s `await updateModelScale(id, size)` does to the
   * store, for the asset id parsed from the element id: the record takes
   * the new scale exactly when the store is open and holds it; an
   * unparsable id or a closed store rejects; a missing record leaves the
   * call pending forever; in every case but the first the store is as it
   * was.
   */
  predicate ScaleWritten(open: bool, before: map<int, Asset>, after: map<int, Asset>,
                         elementId: string, size: real, outcome: UpdateOutcome)
  {
    var key := AssetIdOf(elementId);
    && (outcome.Updated? <==> open && key.Some? && key.value in before)
    && (outcome.Updated? ==> after == before[key.value := before[key.value].(scale := size)])
    && (!outcome.Updated? ==> after == before)
    && (outcome.NeverSettles? <==> open && key.Some? && key.value !in before)
  }

  // ---------------------------------------------------------------- size inputs

  /** One `.size-input` fieldset: its `data-min`, `data-max`, `data-step` and `data-value`. */
  datatype SizeInput = SizeInput(min: real, max: real, step: real, value: real)

  /** The fieldsets after `setSizeValue(value)`: each stores `value` clamped to its own range. */
  function WithValue(inputs: seq<SizeInput>, value: real): seq<SizeInput>
    decreases |inputs|
  {
    if inputs == [] then []
    else
      var last := inputs[|inputs| - 1];
      WithValue(inputs[..|inputs| - 1], value) + [last.(value := Clamp(value, last.min, last.max))]
  }

  /** `setSizeValue` rewrites every fieldset's value and nothing else. */
  lemma {:induction false} WithValuePointwise(inputs: seq<SizeInput>, value: real)
    ensures |WithValue(inputs, value)| == |inputs|
    ensures forall i :: 0 <= i < |inputs| ==>
              WithValue(inputs, value)[i] == inputs[i].(value := Clamp(value, inputs[i].min, inputs[i].max))
    decreases |inputs|
  {
    if inputs != [] {
      var front := inputs[..|inputs| - 1];
      WithValuePointwise(front, value);
      forall i | 0 <= i < |front|
        ensures WithValue(inputs, value)[i] == inputs[i].(value := Clamp(value, inputs[i].min, inputs[i].max))
      {
        assert inputs[i] == front[i];
      }
    }
  }

  /** Every stored value lies within its fieldset's range, and is `value` itself when that is in range. */
  lemma WithValueInRange(inputs: seq<SizeInput>, value: real, i: nat)
    requires i < |inputs| && inputs[i].min <= inputs[i].max
    ensures |WithValue(inputs, value)| == |inputs|
    ensures inputs[i].min <= WithValue(inputs, value)[i].value <= inputs[i].max
    ensures inputs[i].min <= value <= inputs[i].max ==> WithValue(inputs, value)[i].value == value
  {
    WithValuePointwise(inputs, value);
  }

  /** A repeated `setSizeValue(value)` changes nothing. */
  lemma WithValueIdempotent(inputs: seq<SizeInput>, value: real)
    ensures WithValue(WithValue(inputs, value), value) == WithValue(inputs, value)
  {
    var once := WithValue(inputs, value);
    WithValuePointwise(inputs, value);
    WithValuePointwise(once, value);
    forall i | 0 <= i < |inputs|
      ensures WithValue(once, value)[i] == once[i]
    {
      ClampIdempotent(value, inputs[i].min, inputs[i].max);
    }
  }

  /** `currentValue + direction * step` on the desktop fieldset: the value `updateSize` computes. */
  function StepTarget(input: SizeInput, direction: real): (r: real)
    ensures direction == 0.0 ==> r == input.value
    ensures input.step > 0.0 ==> (direction > 0.0 <==> r > input.value)
  {
    input.value + direction * input.step
  }

  /**
   * At the top of a fieldset's range a step up yields a value above `max`:
   * the fieldset then shows `max`, but the stepped value is what
   * `UpdateSize` hands to `handleRange`. (For the scene's fieldset,
   * min 0.25, max 5, step 0.25 at value 5, the model is scaled to 5.25.)
   */
  lemma StepPastMaximum(input: SizeInput)
    requires input.min <= input.max && input.step > 0.0 && input.value == input.max
    ensures StepTarget(input, 1.0) > input.max
    ensures Clamp(StepTarget(input, 1.0), input.min, input.max) == input.max
  {
  }

  // ---------------------------------------------------------------- panels

  /** The VR `#active-ui-panel`: the instance it is attached to and its `currentScale`. */
  datatype Panel = Panel(attachedTo: string, currentScale: real)

  /** `parseFloat(el.getAttribute('model-scale')) || 1.0`: a zero scale reads as 1. */
  function PanelStart(scale: real): (r: real)
    ensures r != 0.0
    ensures scale != 0.0 ==> r == scale
  {
    if scale == 0.0 then 1.0 else scale
  }

  const MinPanelScale: real := 0.25
  const MaxPanelScale: real := 5.0
  const PanelStep: real := 0.25

  /** The panel's plus button: `Math.min(5.0, currentScale + 0.25)`. */
  function PanelPlus(s: real): (r: real)
    ensures r <= MaxPanelScale
    ensures s + PanelStep <= MaxPanelScale ==> r == s + PanelStep
    ensures s + PanelStep > MaxPanelScale ==> r == MaxPanelScale
    ensures MinPanelScale <= s <= MaxPanelScale ==> MinPanelScale <= r <= MaxPanelScale && r >= s
  {
    Min(MaxPanelScale, s + PanelStep)
  }

  /** The panel's minus button: `Math.max(0.25, currentScale - 0.25)`. */
  function PanelMinus(s: real): (r: real)
    ensures r >= MinPanelScale
    ensures s - PanelStep >= MinPanelScale ==> r == s - PanelStep
    ensures s - PanelStep < MinPanelScale ==> r == MinPanelScale
    ensures MinPanelScale <= s <= MaxPanelScale ==> MinPanelScale <= r <= MaxPanelScale && r <= s
  {
    Max(MinPanelScale, s - PanelStep)
  }

  /** Plus undoes minus and minus undoes plus away from the bounds. */
  lemma PanelStepsInverse(s: real)
    ensures MinPanelScale + PanelStep <= s <= MaxPanelScale ==> PanelPlus(PanelMinus(s)) == s
    ensures MinPanelScale <= s <= MaxPanelScale - PanelStep ==> PanelMinus(PanelPlus(s)) == s
  {
  }

  // ---------------------------------------------------------------- the page

  /** The parts of the page the scene helpers read and write. */
  class Scene {
    /** `checkVRSupport()`, fixed for the session. */
    const hasVR: bool
    /** Position of `#custom-size-input-desktop` among the size fieldsets. */
    const desktopInput: nat
    /** The `model-entity` elements, in document order. */
    var instances: seq<Instance>
    /** `document.body.dataset.selectedElementId`. */
    var selected: Option<string>
    /** The `#active-ui-panel` on the camera rig. */
    var panel: Option<Panel>
    /** Whether `.desktop-model-interaction` is displayed. */
    var desktopPanelShown: bool
    /** The `.size-input` fieldsets, in document order. */
    var sizeInputs: seq<SizeInput>

    /** A panel exists only in VR, and it is attached to the selected instance. */
    ghost predicate Valid()
      reads this
    {
      && desktopInput < |sizeInputs|
      && (panel.Some? ==> hasVR && selected == Some(panel.value.attachedTo))
    }

    constructor (vr: bool, inputs: seq<SizeInput>, desktop: nat)
      requires desktop < |inputs|
      ensures Valid()
      ensures hasVR == vr && desktopInput == desktop && sizeInputs == inputs
      ensures instances == [] && selected == None && panel == None && !desktopPanelShown
    {
      hasVR := vr;
      desktopInput := desktop;
      instances := [];
      selected := None;
      panel := None;
      desktopPanelShown := false;
      sizeInputs := inputs;
    }

    /**
     * `addToScene(assetId)`: looks the asset up and appends an instance
     * with a fresh timestamped id, the asset's prompt as name and its stored
     * scale; a failed lookup yields no id.
     */
    method AddToScene(store: Store, assetId: int, now: nat) returns (r: Option<string>)
      requires Valid() && store.Valid()
      modifies this`instances
      ensures Valid()
      ensures store.initialized && assetId in store.records ==>
                && assetId >= 1
                && r == Some(InstanceId(assetId, now))
                && instances == old(instances) + [Instance(r.value, assetId, store.records[assetId].prompt,
                                                          store.records[assetId].scale,
                                                          InitialHeight(store.records[assetId].scale))]
      ensures !(store.initialized && assetId in store.records) ==> r == None && instances == old(instances)
      ensures Grounded(old(instances), StartBase) ==> Grounded(instances, StartBase)
    {
      var got := store.GetAsset(assetId);
      if got.Err? || got.value.None? {
        return None;
      }
      var asset := got.value.value;
      var id := InstanceId(assetId, now);
      var added := Instance(id, assetId, asset.prompt, asset.scale, InitialHeight(asset.scale));
      if Grounded(instances, StartBase) {
        GroundedAfterAdd(instances, added, StartBase);
      }
      instances := instances + [added];
      r := Some(id);
    }

    /**
     * `removeFromScene()`: removes the selected instance and hides the
     * desktop panel; with no such instance it throws before changing
     * anything. The selection itself is left as it was.
     */
    method RemoveFromScene() returns (removed: bool)
      requires Valid()
      modifies this`instances, this`desktopPanelShown
      ensures Valid()
      ensures removed <==> !SelectionMissing(old(instances), selected)
      ensures !removed ==> instances == old(instances) && desktopPanelShown == old(desktopPanelShown)
      ensures removed ==>
                var k := FindInstance(old(instances), selected.value).value;
                instances == old(instances)[..k] + old(instances)[k + 1..] && !desktopPanelShown
      ensures forall floor :: Grounded(old(instances), floor) ==> Grounded(instances, floor)
    {
      if selected.None? {
        return false;
      }
      var found := FindInstance(instances, selected.value);
      if found.None? {
        return false;
      }
      var k := found.value;
      forall floor | Grounded(instances, floor)
        ensures Grounded(instances[..k] + instances[k + 1..], floor)
      {
        GroundedAfterRemove(instances, k, floor);
      }
      instances := instances[..k] + instances[k + 1..];
      desktopPanelShown := false;
      removed := true;
    }

    /**
     * `handleRange({value: size})`: resizes the selected instance with its
     * base kept in place, then awaits `updateModelScale` to persist the
     * size (as written, so a missing record leaves it pending). A
     * persistence failure is only logged, so the visual change stays; with
     * no selected instance it throws first.
     */
    method HandleRange(store: Store, size: real) returns (outcome: Option<UpdateOutcome>)
      requires Valid() && store.Valid()
      modifies this`instances, store`records
      ensures Valid() && store.Valid()
      ensures SelectionMissing(old(instances), selected) ==>
                instances == old(instances) && store.records == old(store.records) && outcome == None
      ensures !SelectionMissing(old(instances), selected) ==>
                var k := FindInstance(old(instances), selected.value).value;
                && instances == old(instances)[k := Resized(old(instances)[k], size)]
                && outcome.Some?
                && ScaleWritten(store.initialized, old(store.records), store.records, selected.value, size, outcome.value)
      ensures forall floor :: Grounded(old(instances), floor) ==> Grounded(instances, floor)
    {
      if selected.None? {
        return None;
      }
      var found := FindInstance(instances, selected.value);
      if found.None? {
        return None;
      }
      var k := found.value;
      forall floor | Grounded(instances, floor)
        ensures Grounded(instances[k := Resized(instances[k], size)], floor)
      {
        GroundedAfterResize(instances, k, size, floor);
      }
      instances := instances[k := Resized(instances[k], size)];
      var key := AssetIdOf(selected.value);
      if key.None? {
        outcome := Some(if store.initialized then Rejected(InvalidKey) else Rejected(NotInitialised));
      } else {
        var o := store.UpdateModelScale(key.value, size);
        outcome := Some(o);
      }
    }

    /** `setSizeValue(value)`: the `forEach` over the size fieldsets. */
    method SetSizeValue(value: real)
      requires Valid()
      modifies this`sizeInputs
      ensures Valid()
      ensures sizeInputs == WithValue(old(sizeInputs), value)
    {
      ghost var before := sizeInputs;
      for i := 0 to |sizeInputs|
        invariant |sizeInputs| == |before|
        invariant forall j :: 0 <= j < i ==> sizeInputs[j] == before[j].(value := Clamp(value, before[j].min, before[j].max))
        invariant forall j :: i <= j < |before| ==> sizeInputs[j] == before[j]
      {
        var input := sizeInputs[i];
        sizeInputs := sizeInputs[i := input.(value := Clamp(value, input.min, input.max))];
      }
      WithValuePointwise(before, value);
    }

    /**
     * `updateSize(direction)`: steps the desktop fieldset's value, stores
     * it clamped in every fieldset, and hands the unclamped value to
     * `handleRange`.
     */
    method UpdateSize(store: Store, direction: real) returns (sent: real, outcome: Option<UpdateOutcome>)
      requires Valid() && store.Valid()
      modifies this`sizeInputs, this`instances, store`records
      ensures Valid() && store.Valid()
      ensures sent == StepTarget(old(sizeInputs)[desktopInput], direction)
      ensures sizeInputs == WithValue(old(sizeInputs), sent)
      ensures SelectionMissing(old(instances), selected) ==>
                instances == old(instances) && store.records == old(store.records) && outcome == None
      ensures !SelectionMissing(old(instances), selected) ==>
                var k := FindInstance(old(instances), selected.value).value;
                && instances == old(instances)[k := Resized(old(instances)[k], sent)]
                && outcome.Some?
                && ScaleWritten(store.initialized, old(store.records), store.records, selected.value, sent, outcome.value)
    {
      var input := sizeInputs[desktopInput];
      sent := StepTarget(input, direction);
      SetSizeValue(sent);
      outcome := HandleRange(store, sent);
    }

    /**
     * `updateSize` as evidently intended: `handleRange` receives the same
     * clamped value the desktop fieldset shows.
     */
    method UpdateSizeClamped(store: Store, direction: real) returns (sent: real, outcome: Option<UpdateOutcome>)
      requires Valid() && store.Valid()
      modifies this`sizeInputs, this`instances, store`records
      ensures Valid() && store.Valid()
      ensures sizeInputs == WithValue(old(sizeInputs), StepTarget(old(sizeInputs)[desktopInput], direction))
      ensures sent == sizeInputs[desktopInput].value
      ensures old(sizeInputs)[desktopInput].min <= old(sizeInputs)[desktopInput].max ==>
                old(sizeInputs)[desktopInput].min <= sent <= old(sizeInputs)[desktopInput].max
      ensures SelectionMissing(old(instances), selected) ==>
                instances == old(instances) && store.records == old(store.records) && outcome == None
      ensures !SelectionMissing(old(instances), selected) ==>
                var k := FindInstance(old(instances), selected.value).value;
                && instances == old(instances)[k := Resized(old(instances)[k], sent)]
                && outcome.Some?
                && ScaleWritten(store.initialized, old(store.records), store.records, selected.value, sent, outcome.value)
    {
      var input := sizeInputs[desktopInput];
      var target := StepTarget(input, direction);
      SetSizeValue(target);
      WithValuePointwise(old(sizeInputs), target);
      sent := sizeInputs[desktopInput].value;
      outcome := HandleRange(store, sent);
    }

    /**
     * A click on the instance at position `k` (the `model-entity` click
     * handler): it becomes the selection. In VR the panel of that instance
     * is closed if it was open, and otherwise any panel is replaced by a
     * fresh one for it; on the desktop the model panel is shown and every
     * size fieldset takes the instance's scale.
     */
    method ClickModel(k: nat)
      requires Valid() && k < |instances|
      modifies this`selected, this`panel, this`desktopPanelShown, this`sizeInputs
      ensures Valid()
      ensures selected == Some(old(instances)[k].elementId)
      ensures hasVR ==>
                && sizeInputs == old(sizeInputs) && desktopPanelShown == old(desktopPanelShown)
                && panel == (if old(panel).Some? && old(panel).value.attachedTo == instances[k].elementId then None
                             else Some(Panel(instances[k].elementId, PanelStart(instances[k].scale))))
      ensures !hasVR ==>
                && panel == old(panel) && desktopPanelShown
                && sizeInputs == WithValue(old(sizeInputs), PanelStart(instances[k].scale))
    {
      var id := instances[k].elementId;
      selected := Some(id);
      if hasVR {
        if panel.Some? {
          var wasAttachedToThis := panel.value.attachedTo == id;
          panel := None;
          if wasAttachedToThis {
            return;
          }
        }
        panel := Some(Panel(id, PanelStart(instances[k].scale)));
      } else {
        desktopPanelShown := true;
        SetSizeValue(PanelStart(instances[k].scale));
      }
    }

    /** The panel's plus button: one step up, capped at 5, then `handleRange`. */
    method PanelPlusClick(store: Store) returns (outcome: Option<UpdateOutcome>)
      requires Valid() && store.Valid() && panel.Some?
      modifies this`panel, this`instances, store`records
      ensures Valid() && store.Valid()
      ensures panel == Some(old(panel).value.(currentScale := PanelPlus(old(panel).value.currentScale)))
      ensures SelectionMissing(old(instances), selected) ==>
                instances == old(instances) && store.records == old(store.records) && outcome == None
      ensures !SelectionMissing(old(instances), selected) ==>
                var k := FindInstance(old(instances), selected.value).value;
                && instances == old(instances)[k := Resized(old(instances)[k], panel.value.currentScale)]
                && outcome.Some?
                && ScaleWritten(store.initialized, old(store.records), store.records, selected.value,
                                panel.value.currentScale, outcome.value)
    {
      var s := PanelPlus(panel.value.currentScale);
      panel := Some(panel.value.(currentScale := s));
      outcome := HandleRange(store, s);
    }

    /** The panel's minus button: one step down, floored at 0.25, then `handleRange`. */
    method PanelMinusClick(store: Store) returns (outcome: Option<UpdateOutcome>)
      requires Valid() && store.Valid() && panel.Some?
      modifies this`panel, this`instances, store`records
      ensures Valid() && store.Valid()
      ensures panel == Some(old(panel).value.(currentScale := PanelMinus(old(panel).value.currentScale)))
      ensures SelectionMissing(old(instances), selected) ==>
                instances == old(instances) && store.records == old(store.records) && outcome == None
      ensures !SelectionMissing(old(instances), selected) ==>
                var k := FindInstance(old(instances), selected.value).value;
                && instances == old(instances)[k := Resized(old(instances)[k], panel.value.currentScale)]
                && outcome.Some?
                && ScaleWritten(store.initialized, old(store.records), store.records, selected.value,
                                panel.value.currentScale, outcome.value)
    {
      var s := PanelMinus(panel.value.currentScale);
      panel := Some(panel.value.(currentScale := s));
      outcome := HandleRange(store, s);
    }

    /**
     * The panel's remove button: `removeFromScene()`, then the panel is
     * taken off the camera rig (unless `removeFromScene` threw).
     */
    method PanelRemoveClick() returns (removed: bool)
      requires Valid() && panel.Some?
      modifies this`instances, this`desktopPanelShown, this`panel
      ensures Valid()
      ensures removed <==> !SelectionMissing(old(instances), selected)
      ensures removed ==>
                var k := FindInstance(old(instances), selected.value).value;
                && instances == old(instances)[..k] + old(instances)[k + 1..]
                && !desktopPanelShown && panel == None
      ensures !removed ==>
                panel == old(panel) && instances == old(instances) && desktopPanelShown == old(desktopPanelShown)
    {
      removed := RemoveFromScene();
      if removed {
        panel := None;
      }
    }
  }

  // ---------------------------------------------------------------- downloads

  /** A file the browser saved: its name and its bytes. */
  datatype SavedFile = SavedFile(name: string, content: Blob)

  /** The browser's object URLs and the downloads it performed. */
  class Browser {
    /** The object URLs created and not yet revoked. */
    var liveUrls: set<nat>
    /** The number the next `URL.createObjectURL` hands out. */
    var nextUrl: nat
    /** The files saved through download links, in order. */
    var saved: seq<SavedFile>

    ghost predicate Valid()
      reads this
    {
      forall u :: u in liveUrls ==> u < nextUrl
    }

    constructor ()
      ensures Valid() && liveUrls == {} && saved == []
    {
      liveUrls := {};
      nextUrl := 0;
      saved := [];
    }

    /**
     * `downloadModel(assetId)`: creates an object URL for the model blob,
     * clicks a link that saves it under `DownloadName(prompt)` and revokes
     * the URL; a failed lookup creates nothing and saves nothing.
     */
    method DownloadModel(store: Store, assetId: int)
      requires Valid() && store.Valid()
      modifies this
      ensures Valid()
      ensures liveUrls == old(liveUrls)
      ensures store.initialized && assetId in store.records ==>
                saved == old(saved) + [SavedFile(DownloadName(store.records[assetId].prompt),
                                                 store.records[assetId].modelBlob)]
      ensures !(store.initialized && assetId in store.records) ==> saved == old(saved)
    {
      var got := store.GetAsset(assetId);
      if got.Err? || got.value.None? {
        return;
      }
      var asset := got.value.value;
      var url := nextUrl;
      liveUrls := liveUrls + {url};
      nextUrl := nextUrl + 1;
      saved := saved + [SavedFile(DownloadName(asset.prompt), asset.modelBlob)];
      liveUrls := liveUrls - {url};
    }
  }
}
