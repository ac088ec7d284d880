/**
 * The nine-step feature wizard (frontend/src/components/FeatureSelector.jsx):
 * the table of categories and their options, a step index and the map of
 * selections made so far. The wizard's transitions are pure functions on
 * a state value; the `Wizard` class performs them on its fields.
 */
module FeatureSelector {
  import opened Wrappers
  import Features

  /** One wizard step: the selection key, the heading shown and the options offered. */
  datatype Feature = Feature(key: string, title: string, options: seq<string>)

  /** `FEATURE_OPTIONS`, in the order of its keys. */
  const FeatureOptions: seq<Feature> := [
    Feature("faceShape", "Face Shape", ["oval", "round", "square", "diamond", "heart", "oblong"]),
    Feature("eyeShape", "Eye Shape", ["almond", "round", "hooded", "upturned", "downturned", "monolid"]),
    Feature("noseType", "Nose Type", ["straight", "aquiline", "button", "broad", "narrow", "roman"]),
    Feature("mouthShape", "Mouth Shape", ["full", "thin", "wide", "small", "bow", "downturned"]),
    Feature("eyebrows", "Eyebrows", ["straight", "arched", "rounded", "angled", "bushy", "thin"]),
    Feature("complexion", "Complexion", ["fair", "wheatish", "dusky", "dark"]),
    Feature("hairType", "Hair Type", ["straight black", "curly", "wavy", "receding hairline", "bald"]),
    Feature("facialHair", "Facial Hair", ["clean shaven", "mustache", "beard", "goatee", "stubble"]),
    Feature("distinctiveMarks", "Distinctive Marks", ["none", "scar on face", "mole on cheek", "broken nose", "missing tooth", "birthmark"])
  ]

  /** `featureKeys`: the selection keys in step order. */
  const FeatureKeys: seq<string> := [
    "faceShape", "eyeShape", "noseType", "mouthShape", "eyebrows",
    "complexion", "hairType", "facialHair", "distinctiveMarks"
  ]

  /** The index of the last step. */
  const Last := 8

  /** The first five steps, the facial structure, are the ones previewed as a composite. */
  const PreviewSteps := 5

  /** Nine steps, one per key of the table, each offering at least one option. */
  lemma TableShape()
    ensures |FeatureOptions| == |FeatureKeys| == Last + 1
    ensures forall i | 0 <= i < |FeatureKeys| :: FeatureOptions[i].key == FeatureKeys[i] && FeatureOptions[i].options != []
    ensures FeatureKeys[..PreviewSteps] == ["faceShape", "eyeShape", "noseType", "mouthShape", "eyebrows"]
  {
  }

  /** No key appears twice, so each step owns its own entry of the selection map. */
  lemma KeysDistinct()
    ensures forall i, j | 0 <= i < j < |FeatureKeys| :: FeatureKeys[i] != FeatureKeys[j]
  {
    forall i, j | 0 <= i < j < |FeatureKeys| ensures FeatureKeys[i] != FeatureKeys[j] {
      KeyLengthsOrFirst(i, j);
    }
  }

  /** Any two keys differ in length, in their first letter or in their fourth. */
  lemma KeyLengthsOrFirst(i: int, j: int)
    requires 0 <= i < j < |FeatureKeys|
    ensures |FeatureKeys[i]| != |FeatureKeys[j]| || FeatureKeys[i][0] != FeatureKeys[j][0] || FeatureKeys[i][3] != FeatureKeys[j][3]
  {
  }

  /**
   * The wizard asks for every category the compositor draws, under the
   * same key, and for complexion besides, which only the description uses.
   */
  lemma KeysCoverCategories()
    ensures forall c: Features.Category :: Features.Key(c) in FeatureKeys
    ensures forall k | k in FeatureKeys && k != "complexion" :: exists c: Features.Category :: Features.Key(c) == k
  {
    forall k | k in FeatureKeys && k != "complexion" ensures exists c: Features.Category :: Features.Key(c) == k {
      if k == "faceShape" {
        assert Features.Key(Features.FaceShape) == k;
      } else if k == "eyeShape" {
        assert Features.Key(Features.EyeShape) == k;
      } else if k == "noseType" {
        assert Features.Key(Features.NoseType) == k;
      } else if k == "mouthShape" {
        assert Features.Key(Features.MouthShape) == k;
      } else if k == "eyebrows" {
        assert Features.Key(Features.Eyebrows) == k;
      } else if k == "hairType" {
        assert Features.Key(Features.HairType) == k;
      } else if k == "facialHair" {
        assert Features.Key(Features.FacialHair) == k;
      } else {
        assert Features.Key(Features.DistinctiveMarks) == k;
      }
    }
  }

  /** `currentFeature` and `selectedFeatures`. */
  datatype Step = Step(current: int, selected: map<string, string>)

  /** The step index stays within the table. */
  predicate Inv(w: Step) {
    0 <= w.current <= Last
  }

  /** The wizard as it opens: the first step, nothing selected. */
  const Start := Step(0, map[])

  /** `currentFeatureKey`. */
  function CurrentKey(w: Step): string
    requires Inv(w)
  {
    FeatureKeys[w.current]
  }

  /**
   * `handleSelectOption`: the option becomes the selection for the current
   * key, leaving every other selection as it was, and the wizard moves on
   * one step unless it is at the last one.
   */
  function Select(w: Step, option: string): (r: Step)
    requires Inv(w)
    ensures Inv(r)
    ensures CurrentKey(w) in r.selected && r.selected[CurrentKey(w)] == option
    ensures r.selected.Keys == w.selected.Keys + {CurrentKey(w)}
    ensures forall k | k in w.selected && k != CurrentKey(w) :: r.selected[k] == w.selected[k]
    ensures r.current == (if w.current < Last then w.current + 1 else Last)
  {
    var features := w.selected[CurrentKey(w) := option];
    Step(if w.current < |FeatureKeys| - 1 then w.current + 1 else w.current, features)
  }

  /**
   * The composite preview request `handleSelectOption` sends: the whole
   * updated selection, for the first five steps only.
   */
  function PreviewRequest(w: Step, option: string): (r: Option<map<string, string>>)
    requires Inv(w)
    ensures r.Some? <==> w.current < PreviewSteps
    ensures r.Some? ==> r.value == Select(w, option).selected
  {
    if w.current < PreviewSteps then Some(Select(w, option).selected) else None
  }

  /** `handleBack`: one step back, except at the first step. */
  function Back(w: Step): (r: Step)
    requires Inv(w)
    ensures Inv(r) && r.selected == w.selected
    ensures w.current > 0 ==> r.current == w.current - 1
    ensures w.current == 0 ==> r == w
  {
    if w.current > 0 then Step(w.current - 1, w.selected) else w
  }

  /** `isLastFeature && hasSelectedCurrentFeature`: the complete button is shown. */
  predicate CanComplete(w: Step)
    requires Inv(w)
  {
    w.current == |FeatureKeys| - 1 && CurrentKey(w) in w.selected
  }

  /** Completion is offered only at the last step, once distinctive marks have been chosen. */
  lemma CompleteOnlyAtEnd(w: Step)
    requires Inv(w)
    ensures CanComplete(w) <==> w.current == Last && "distinctiveMarks" in w.selected
  {
  }

  /** Going back after a selection returns to the same step with the selection kept. */
  lemma SelectThenBack(w: Step, option: string)
    requires Inv(w) && w.current < Last
    ensures Back(Select(w, option)) == Step(w.current, Select(w, option).selected)
  {
  }

  /** The state after selecting each of `options` in turn. */
  function Run(w: Step, options: seq<string>): (r: Step)
    requires Inv(w)
    ensures Inv(r)
    decreases |options|
  {
    if options == [] then w else Select(Run(w, options[..|options| - 1]), options[|options| - 1])
  }

  /** The selection holds exactly the i-th option under the i-th key, for each of `options`. */
  predicate Recorded(selected: map<string, string>, options: seq<string>)
    requires |options| <= |FeatureKeys|
  {
    && selected.Keys == (set i | 0 <= i < |options| :: FeatureKeys[i])
    && forall i | 0 <= i < |options| :: FeatureKeys[i] in selected && selected[FeatureKeys[i]] == options[i]
  }

  /** Recording one more option under the next key extends the record by that option. */
  lemma RecordStep(selected: map<string, string>, options: seq<string>, option: string)
    requires |options| < |FeatureKeys| && Recorded(selected, options)
    ensures Recorded(selected[FeatureKeys[|options|] := option], options + [option])
  {
    var n := |options|;
    var s := selected[FeatureKeys[n] := option];
    var more := options + [option];
    assert (set i | 0 <= i < |more| :: FeatureKeys[i]) == (set i | 0 <= i < n :: FeatureKeys[i]) + {FeatureKeys[n]};
    forall i | 0 <= i < |more| ensures FeatureKeys[i] in s && s[FeatureKeys[i]] == more[i] {
      if i < n {
        KeyLengthsOrFirst(i, n);
      }
    }
  }

  /**
   * Selecting `options` from the start visits the steps in table order:
   * the i-th option is recorded under the i-th key, nothing else is
   * selected, and the index is the number of selections so far (held at
   * the last step).
   */
  lemma {:induction false} RunFromStart(options: seq<string>)
    requires |options| <= Last + 1
    ensures Run(Start, options).current == (if |options| <= Last then |options| else Last)
    ensures Recorded(Run(Start, options).selected, options)
    decreases |options|
  {
    if options != [] {
      RunFromStart(options[..|options| - 1]);
      SelectRecords(Run(Start, options[..|options| - 1]), options);
    }
  }

  /** Selecting the last of `options` after recording the others records them all. */
  lemma SelectRecords(w: Step, options: seq<string>)
    requires 0 < |options| <= Last + 1
    requires Inv(w) && w.current == |options| - 1 && Recorded(w.selected, options[..|options| - 1])
    ensures Select(w, options[|options| - 1]).current == (if |options| <= Last then |options| else Last)
    ensures Recorded(Select(w, options[|options| - 1]).selected, options)
  {
    var n := |options| - 1;
    RecordStep(w.selected, options[..n], options[n]);
    assert options[..n] + [options[n]] == options;
  }

  /** Nine selections from the start complete the wizard with every key chosen. */
  lemma NineSelectionsComplete(options: seq<string>)
    requires |options| == Last + 1
    ensures CanComplete(Run(Start, options))
    ensures forall i | 0 <= i < |FeatureKeys| :: FeatureKeys[i] in Run(Start, options).selected
  {
    RunFromStart(options);
    var r := Run(Start, options);
    forall i | 0 <= i < |FeatureKeys| ensures FeatureKeys[i] in r.selected {
      assert FeatureKeys[i] in set i | 0 <= i < |options| :: FeatureKeys[i];
    }
    assert CurrentKey(r) == FeatureKeys[Last];
  }

  /** The wizard's state, updated in place by its handlers. */
  class Wizard {
    var current: int
    var selected: map<string, string>

    function State(): Step
      reads this
    {
      Step(current, selected)
    }

    predicate Valid()
      reads this
    {
      Inv(State())
    }

    /** The wizard opens on the first step with nothing selected. */
    constructor()
      ensures Valid() && State() == Start
    {
      current := 0;
      selected := map[];
    }

    /** `handleSelectOption`; `preview` holds the features sent for a composite preview, if any. */
    method SelectOption(option: string) returns (preview: Option<map<string, string>>)
      requires Valid()
      modifies this
      ensures Valid() && State() == Select(old(State()), option)
      ensures preview == PreviewRequest(old(State()), option)
    {
      var features := selected[FeatureKeys[current] := option];
      selected := features;
      if current < PreviewSteps {
        preview := Some(features);
      } else {
        preview := None;
      }
      if current < |FeatureKeys| - 1 {
        current := current + 1;
      }
    }

    /** `handleBack`. */
    method GoBack()
      requires Valid()
      modifies this
      ensures Valid() && State() == Back(old(State()))
    {
      if current > 0 {
        current := current - 1;
      }
    }

    /** Whether the complete button is shown. */
    function CompleteOffered(): (r: bool)
      requires Valid()
      reads this
      ensures r <==> current == Last && "distinctiveMarks" in selected
    {
      CompleteOnlyAtEnd(State());
      CanComplete(State())
    }
  }
}
