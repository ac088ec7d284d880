/**
 * The sketch page (frontend/src/components/SketchCanvas.jsx): the text
 * description built from the wizard's selections, and the session state
 * whose version history the generate, refine and editor-save handlers
 * append to.
 */
module SketchCanvas {
  import opened Wrappers
  import opened Strings
  import opened Features
  import Compositor

  // ---------------------------------------------------------------------
  // The description

  /**
   * One possible part of the description: a selection shown with a noun
   * after it ("oval face shape"), or one shown as it is unless it equals
   * the value meaning "nothing to show".
   */
  datatype Slot =
    | Labelled(key: string, noun: string)
    | Verbatim(key: string, skip: string)

  /** The parts in the order they are pushed. */
  const Slots: seq<Slot> := [
    Labelled("complexion", " complexion"),
    Labelled("faceShape", " face shape"),
    Labelled("eyeShape", " eyes"),
    Labelled("noseType", " nose"),
    Labelled("mouthShape", " lips"),
    Labelled("eyebrows", " eyebrows"),
    Labelled("hairType", " hair"),
    Verbatim("facialHair", "clean shaven"),
    Verbatim("distinctiveMarks", "none")
  ]

  /** The slot's selection is present and truthy (non-empty), and is not the slot's skip value. */
  predicate Shown(features: FeatureSet, slot: Slot) {
    && slot.key in features
    && features[slot.key] != ""
    && (slot.Verbatim? ==> features[slot.key] != slot.skip)
  }

  /** The text a shown slot contributes. */
  function Text(features: FeatureSet, slot: Slot): string
    requires slot.key in features
  {
    match slot
    case Labelled(key, noun) => features[key] + noun
    case Verbatim(key, _) => features[key]
  }

  /** The texts of the shown slots among `slots`, in order. */
  function PartsOf(features: FeatureSet, slots: seq<Slot>): seq<string>
    decreases |slots|
  {
    if slots == [] then []
    else
      var last := slots[|slots| - 1];
      var init := PartsOf(features, slots[..|slots| - 1]);
      if Shown(features, last) then init + [Text(features, last)] else init
  }

  /** Each part is the text of a shown slot, each shown slot has its part, and there is at most one part per slot. */
  lemma {:induction false} PartsOfMembers(features: FeatureSet, slots: seq<Slot>)
    ensures |PartsOf(features, slots)| <= |slots|
    ensures forall p | p in PartsOf(features, slots) :: exists s | s in slots :: Shown(features, s) && p == Text(features, s)
    ensures forall s | s in slots && Shown(features, s) :: Text(features, s) in PartsOf(features, slots)
    decreases |slots|
  {
    if slots != [] {
      var init := slots[..|slots| - 1];
      PartsOfMembers(features, init);
      assert forall s | s in slots :: s in init || s == slots[|slots| - 1];
      assert forall s | s in init :: s in slots;
    }
  }

  /** The parts `buildDescription` collects. */
  function Parts(features: FeatureSet): seq<string> {
    PartsOf(features, Slots)
  }

  /** `buildDescription`'s result: the parts joined with ", ". */
  function Description(features: FeatureSet): string {
    Join(Parts(features), ", ")
  }

  /** The parts of one more slot: those of the slots before it, then its own text if it is shown. */
  lemma PartsStep(features: FeatureSet, k: int)
    requires 0 < k <= |Slots|
    ensures PartsOf(features, Slots[..k])
      == PartsOf(features, Slots[..k - 1]) + if Shown(features, Slots[k - 1]) then [Text(features, Slots[k - 1])] else []
  {
    assert Slots[..k][..k - 1] == Slots[..k - 1];
  }

  /** `PartsStep` for a slot shown with a noun. */
  lemma LabelledStep(features: FeatureSet, k: int, key: string, noun: string)
    requires 0 < k <= |Slots| && Slots[k - 1] == Labelled(key, noun)
    ensures PartsOf(features, Slots[..k])
      == PartsOf(features, Slots[..k - 1]) + if key in features && features[key] != "" then [features[key] + noun] else []
  {
    PartsStep(features, k);
  }

  /** `PartsStep` for a slot shown as it is. */
  lemma VerbatimStep(features: FeatureSet, k: int, key: string, skip: string)
    requires 0 < k <= |Slots| && Slots[k - 1] == Verbatim(key, skip)
    ensures PartsOf(features, Slots[..k])
      == PartsOf(features, Slots[..k - 1]) + if key in features && features[key] != "" && features[key] != skip then [features[key]] else []
  {
    PartsStep(features, k);
  }

  /**
   * Pushes the selection under `key` followed by `noun`, when it is present
   * and non-empty: the parts of the k-th slot's prefix become those of the
   * next prefix.
   */
  method PushLabelled(features: FeatureSet, parts: seq<string>, k: int, key: string, noun: string) returns (r: seq<string>)
    requires 0 < k <= |Slots| && Slots[k - 1] == Labelled(key, noun)
    requires parts == PartsOf(features, Slots[..k - 1])
    ensures r == PartsOf(features, Slots[..k])
  {
    r := parts;
    if key in features && features[key] != "" {
      r := r + [features[key] + noun];
    }
    LabelledStep(features, k, key, noun);
  }

  /** Pushes the selection under `key` as it is, when it is present, non-empty and not `skip`. */
  method PushVerbatim(features: FeatureSet, parts: seq<string>, k: int, key: string, skip: string) returns (r: seq<string>)
    requires 0 < k <= |Slots| && Slots[k - 1] == Verbatim(key, skip)
    requires parts == PartsOf(features, Slots[..k - 1])
    ensures r == PartsOf(features, Slots[..k])
  {
    r := parts;
    if key in features && features[key] != "" && features[key] != skip {
      r := r + [features[key]];
    }
    VerbatimStep(features, k, key, skip);
  }

  /** `buildDescription`: tests each selection in turn and pushes its part. */
  method BuildDescription(features: FeatureSet) returns (d: string)
    ensures d == Description(features)
  {
    var parts: seq<string> := [];
    assert parts == PartsOf(features, Slots[..0]);
    parts := PushLabelled(features, parts, 1, "complexion", " complexion");
    parts := PushLabelled(features, parts, 2, "faceShape", " face shape");
    parts := PushLabelled(features, parts, 3, "eyeShape", " eyes");
    parts := PushLabelled(features, parts, 4, "noseType", " nose");
    parts := PushLabelled(features, parts, 5, "mouthShape", " lips");
    parts := PushLabelled(features, parts, 6, "eyebrows", " eyebrows");
    parts := PushLabelled(features, parts, 7, "hairType", " hair");
    parts := PushVerbatim(features, parts, 8, "facialHair", "clean shaven");
    parts := PushVerbatim(features, parts, 9, "distinctiveMarks", "none");
    assert Slots[..9] == Slots;
    d := Join(parts, ", ");
  }

  /** A shown slot contributes a non-empty part. */
  lemma TextNonEmpty(features: FeatureSet, slot: Slot)
    requires Shown(features, slot) && (slot.Labelled? ==> slot.noun != "")
    ensures Text(features, slot) != ""
  {
  }

  /** There are no parts exactly when no slot is shown. */
  lemma PartsEmptyIff(features: FeatureSet)
    ensures Parts(features) == [] <==> forall s | s in Slots :: !Shown(features, s)
  {
    PartsOfMembers(features, Slots);
    var parts := Parts(features);
    if parts != [] {
      assert parts[0] in parts;
    }
  }

  /** Every part is non-empty, since every noun is. */
  lemma PartsNonEmpty(features: FeatureSet)
    ensures forall p | p in Parts(features) :: p != ""
  {
    PartsOfMembers(features, Slots);
    forall p | p in Parts(features) ensures p != "" {
      var s :| s in Slots && Shown(features, s) && p == Text(features, s);
      TextNonEmpty(features, s);
    }
  }

  /**
   * The description is empty exactly when no slot is shown: every part is
   * non-empty, so joining at least one gives a non-empty string.
   */
  lemma DescriptionEmptyIff(features: FeatureSet)
    ensures Description(features) == "" <==> forall s | s in Slots :: !Shown(features, s)
  {
    var parts := Parts(features);
    PartsEmptyIff(features);
    if parts != [] {
      PartsNonEmpty(features);
      assert parts[0] in parts;
      assert |Join(parts, ", ")| >= |parts[0]| > 0;
    }
  }

  /** An empty selection gives the empty description. */
  lemma EmptySelectionDescription()
    ensures Description(map[]) == ""
  {
    DescriptionEmptyIff(map[]);
  }

  /** Two selections that show the same slots with the same texts have the same parts. */
  lemma {:induction false} PartsOfAgree(f: FeatureSet, g: FeatureSet, slots: seq<Slot>)
    requires forall s | s in slots :: Shown(f, s) == Shown(g, s)
    requires forall s | s in slots && Shown(f, s) && Shown(g, s) :: Text(f, s) == Text(g, s)
    ensures PartsOf(f, slots) == PartsOf(g, slots)
    decreases |slots|
  {
    if slots != [] {
      var init := slots[..|slots| - 1];
      assert forall s | s in init :: s in slots;
      assert slots[|slots| - 1] in slots;
      PartsOfAgree(f, g, init);
    }
  }

  /**
   * Dropping an entry leaves the description unchanged when the entry is
   * empty, is a skip value ("clean shaven" facial hair, "none" for marks),
   * or has a key no slot reads.
   */
  lemma IgnoredEntry(features: FeatureSet, key: string)
    requires key in features
    requires
      || features[key] == ""
      || (key == "facialHair" && features[key] == "clean shaven")
      || (key == "distinctiveMarks" && features[key] == "none")
      || (forall s | s in Slots :: s.key != key)
    ensures Description(features) == Description(features - {key})
  {
    var g := features - {key};
    forall s | s in Slots ensures Shown(features, s) == Shown(g, s) && (Shown(features, s) ==> Text(features, s) == Text(g, s)) {
      if s.key == key {
        assert s == Verbatim("facialHair", "clean shaven") || s == Verbatim("distinctiveMarks", "none") || !Shown(features, s);
      }
    }
    PartsOfAgree(features, g, Slots);
  }

  /** The facial-hair and marks parts appear exactly when the compositor draws those layers: the skip values agree. */
  lemma SkipValuesAgree(features: FeatureSet)
    ensures Shown(features, Slots[7]) <==> Compositor.Renders(features, FacialHair)
    ensures Shown(features, Slots[8]) <==> Compositor.Renders(features, DistinctiveMarks)
  {
  }

  /** The selection has a non-empty value for `key`. */
  predicate Chosen(features: FeatureSet, key: string) {
    key in features && features[key] != ""
  }

  /** With every selection made and no skip value chosen, the description lists all nine parts in the fixed order. */
  lemma FullSelection(features: FeatureSet)
    requires Chosen(features, "complexion") && Chosen(features, "faceShape") && Chosen(features, "eyeShape")
    requires Chosen(features, "noseType") && Chosen(features, "mouthShape") && Chosen(features, "eyebrows")
    requires Chosen(features, "hairType") && Chosen(features, "facialHair") && Chosen(features, "distinctiveMarks")
    requires features["facialHair"] != "clean shaven" && features["distinctiveMarks"] != "none"
    ensures Parts(features) == [
      features["complexion"] + " complexion", features["faceShape"] + " face shape",
      features["eyeShape"] + " eyes", features["noseType"] + " nose", features["mouthShape"] + " lips",
      features["eyebrows"] + " eyebrows", features["hairType"] + " hair",
      features["facialHair"], features["distinctiveMarks"]]
  {
    assert PartsOf(features, Slots[..0]) == [];
    LabelledStep(features, 1, "complexion", " complexion");
    LabelledStep(features, 2, "faceShape", " face shape");
    LabelledStep(features, 3, "eyeShape", " eyes");
    LabelledStep(features, 4, "noseType", " nose");
    LabelledStep(features, 5, "mouthShape", " lips");
    LabelledStep(features, 6, "eyebrows", " eyebrows");
    LabelledStep(features, 7, "hairType", " hair");
    assert PartsOf(features, Slots[..7]) == [
      features["complexion"] + " complexion", features["faceShape"] + " face shape",
      features["eyeShape"] + " eyes", features["noseType"] + " nose", features["mouthShape"] + " lips",
      features["eyebrows"] + " eyebrows", features["hairType"] + " hair"];
    VerbatimStep(features, 8, "facialHair", "clean shaven");
    VerbatimStep(features, 9, "distinctiveMarks", "none");
    assert Slots[..9] == Slots;
  }

  // ---------------------------------------------------------------------
  // The session and its version history

  /** One version of the sketch: the image and the description it was made from. */
  datatype Sketch = Sketch(image: string, description: string)

  /** The page state the handlers read and update. */
  datatype Page = Page(
    sketchImage: Option<string>,
    description: string,
    additionalDetails: string,
    history: seq<Sketch>,
    editorOpen: bool)

  /** The page as it opens: no sketch, empty texts, empty history. */
  const Opened := Page(None, "", "", [], false)

  /** `sketchImage` is truthy: a sketch is present. */
  predicate HasSketch(p: Page) {
    p.sketchImage.Some? && p.sketchImage.value != ""
  }

  /** `description || buildDescription()`: the typed description, or the one built from the selections when none is typed. */
  function PromptFor(p: Page, features: FeatureSet): string {
    if p.description != "" then p.description else Description(features)
  }

  /**
   * `generateSketch`: on a reply the new image becomes the sketch, the
   * prompt becomes the description and one version is appended; a failed
   * request changes nothing.
   */
  function Generated(p: Page, features: FeatureSet, reply: Option<string>): (r: Page)
    ensures reply.None? ==> r == p
    ensures reply.Some? ==> r.history == p.history + [Sketch(reply.value, PromptFor(p, features))]
    ensures reply.Some? ==> r.sketchImage == reply && r.description == PromptFor(p, features)
    ensures r.additionalDetails == p.additionalDetails && r.editorOpen == p.editorOpen
  {
    match reply
    case None => p
    case Some(image) =>
      var prompt := PromptFor(p, features);
      p.(sketchImage := Some(image), description := prompt, history := p.history + [Sketch(image, prompt)])
  }

  /** A refine is refused without a sketch or with blank additional details. */
  predicate RefineRefused(p: Page) {
    !HasSketch(p) || IsBlank(p.additionalDetails)
  }

  /**
   * `refineSketch`: refused, or on a reply the refined version replaces the
   * sketch and description, is appended, and the details box is cleared; a
   * failed request changes nothing.
   */
  function Refined(p: Page, reply: Option<Sketch>): (r: Page)
    ensures RefineRefused(p) || reply.None? ==> r == p
    ensures !RefineRefused(p) && reply.Some? ==>
      && r.history == p.history + [reply.value]
      && r.sketchImage == Some(reply.value.image) && r.description == reply.value.description
      && r.additionalDetails == ""
    ensures r.editorOpen == p.editorOpen
  {
    if RefineRefused(p) then p
    else
      match reply
      case None => p
      case Some(refined) =>
        p.(sketchImage := Some(refined.image), description := refined.description,
           history := p.history + [refined], additionalDetails := "")
  }

  /** `openEditor`: the editor opens only over an existing sketch. */
  function EditorOpened(p: Page): (r: Page)
    ensures r.editorOpen == (p.editorOpen || HasSketch(p))
    ensures r.(editorOpen := p.editorOpen) == p
  {
    if HasSketch(p) then p.(editorOpen := true) else p
  }

  /** `handleEditorSave`: the edited image becomes the sketch and a version marked as manually edited is appended. */
  function EditorSaved(p: Page, edited: string): (r: Page)
    ensures r.history == p.history + [Sketch(edited, p.description + " (manually edited)")]
    ensures r.sketchImage == Some(edited) && r.description == p.description && !r.editorOpen
  {
    p.(sketchImage := Some(edited), history := p.history + [Sketch(edited, p.description + " (manually edited)")], editorOpen := false)
  }

  /** `handleEditorCancel`: the editor closes and nothing else changes. */
  function EditorCancelled(p: Page): (r: Page)
    ensures !r.editorOpen
    ensures r.(editorOpen := p.editorOpen) == p
  {
    p.(editorOpen := false)
  }

  /** Typing in the description box replaces the description and nothing else. */
  function DescriptionTyped(p: Page, text: string): (r: Page)
    ensures r.description == text
    ensures r.(description := p.description) == p
  {
    p.(description := text)
  }

  /** Typing in the additional-details box replaces the details and nothing else. */
  function DetailsTyped(p: Page, text: string): (r: Page)
    ensures r.additionalDetails == text
    ensures r.(additionalDetails := p.additionalDetails) == p
  {
    p.(additionalDetails := text)
  }

  /**
   * A description typed before generating is sent and recorded as it is;
   * with the box left empty, the description built from the selections is.
   */
  lemma TypedDescriptionWins(p: Page, features: FeatureSet, text: string, image: string)
    ensures text != "" ==>
      Generated(DescriptionTyped(p, text), features, Some(image)).history == p.history + [Sketch(image, text)]
    ensures Generated(DescriptionTyped(p, ""), features, Some(image)).history == p.history + [Sketch(image, Description(features))]
  {
  }

  /**
   * Over an existing sketch, typing non-blank details and refining appends
   * the server's version and clears the box; blank details are refused.
   */
  lemma RefineAfterTyping(p: Page, text: string, refined: Sketch)
    requires HasSketch(p)
    ensures !IsBlank(text) ==>
      && Refined(DetailsTyped(p, text), Some(refined)).history == p.history + [refined]
      && Refined(DetailsTyped(p, text), Some(refined)).additionalDetails == ""
    ensures IsBlank(text) ==> Refined(DetailsTyped(p, text), Some(refined)) == DetailsTyped(p, text)
  {
  }

  /** A user action on the page, with the server's reply where it sends a request. */
  datatype Action =
    | GenerateAction(features: FeatureSet, reply: Option<string>)
    | RefineAction(refined: Option<Sketch>)
    | OpenEditorAction
    | EditorSaveAction(edited: string)
    | EditorCancelAction
    | TypeDescriptionAction(text: string)
    | TypeDetailsAction(text: string)

  function Apply(p: Page, a: Action): Page {
    match a
    case GenerateAction(features, reply) => Generated(p, features, reply)
    case RefineAction(reply) => Refined(p, reply)
    case OpenEditorAction => EditorOpened(p)
    case EditorSaveAction(edited) => EditorSaved(p, edited)
    case EditorCancelAction => EditorCancelled(p)
    case TypeDescriptionAction(text) => DescriptionTyped(p, text)
    case TypeDetailsAction(text) => DetailsTyped(p, text)
  }

  /** The page after `actions`, in order. */
  function Replay(p: Page, actions: seq<Action>): Page
    decreases |actions|
  {
    if actions == [] then p else Apply(Replay(p, actions[..|actions| - 1]), actions[|actions| - 1])
  }

  /**
   * The version history is append-only: whatever happens, the earlier
   * versions stay, in order, and each action adds at most one.
   */
  lemma {:induction false} HistoryAppendOnly(p: Page, actions: seq<Action>)
    ensures var h := Replay(p, actions).history;
      |p.history| <= |h| <= |p.history| + |actions| && h[..|p.history|] == p.history
    decreases |actions|
  {
    if actions != [] {
      var before := Replay(p, actions[..|actions| - 1]);
      HistoryAppendOnly(p, actions[..|actions| - 1]);
      var h := Replay(p, actions).history;
      assert h == before.history || h[..|before.history|] == before.history by {
        match actions[|actions| - 1]
        case GenerateAction(_, _) =>
        case RefineAction(_) =>
        case OpenEditorAction =>
        case EditorSaveAction(_) =>
        case EditorCancelAction =>
        case TypeDescriptionAction(_) =>
        case TypeDetailsAction(_) =>
      }
      assert |h| <= |before.history| + 1;
      assert h[..|p.history|] == before.history[..|p.history|];
    }
  }

  /** The page's state, updated in place by its handlers. */
  class Session {
    var sketchImage: Option<string>
    var description: string
    var additionalDetails: string
    var history: seq<Sketch>
    var editorOpen: bool

    function State(): Page
      reads this
    {
      Page(sketchImage, description, additionalDetails, history, editorOpen)
    }

    /** The page as it opens. */
    constructor()
      ensures State() == Opened
    {
      sketchImage := None;
      description := "";
      additionalDetails := "";
      history := [];
      editorOpen := false;
    }

    /** `generateSketch`, with the server's reply (`None` when the request fails). */
    method Generate(features: FeatureSet, reply: Option<string>)
      modifies this
      ensures State() == Generated(old(State()), features, reply)
    {
      var prompt := description;
      if prompt == "" {
        prompt := BuildDescription(features);
      }
      if reply.Some? {
        sketchImage := reply;
        description := prompt;
        history := history + [Sketch(reply.value, prompt)];
      }
    }

    /** `refineSketch`, with the server's reply (`None` when the request fails). */
    method Refine(reply: Option<Sketch>)
      modifies this
      ensures State() == Refined(old(State()), reply)
    {
      if sketchImage.None? || sketchImage.value == "" || IsBlank(additionalDetails) {
        return;
      }
      if reply.Some? {
        sketchImage := Some(reply.value.image);
        description := reply.value.description;
        history := history + [reply.value];
        additionalDetails := "";
      }
    }

    /** `openEditor`. */
    method OpenEditor()
      modifies this
      ensures State() == EditorOpened(old(State()))
    {
      if sketchImage.Some? && sketchImage.value != "" {
        editorOpen := true;
      }
    }

    /** `handleEditorSave` with the image the editor returns. */
    method EditorSave(edited: string)
      modifies this
      ensures State() == EditorSaved(old(State()), edited)
    {
      sketchImage := Some(edited);
      history := history + [Sketch(edited, description + " (manually edited)")];
      editorOpen := false;
    }

    /** `handleEditorCancel`. */
    method EditorCancel()
      modifies this
      ensures State() == EditorCancelled(old(State()))
    {
      editorOpen := false;
    }

    /** The description box's change handler. */
    method TypeDescription(text: string)
      modifies this
      ensures State() == DescriptionTyped(old(State()), text)
    {
      description := text;
    }

    /** The additional-details box's change handler. */
    method TypeDetails(text: string)
      modifies this
      ensures State() == DetailsTyped(old(State()), text)
    {
      additionalDetails := text;
    }
  }
}
