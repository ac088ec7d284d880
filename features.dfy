/**
 * The feature categories shared by the compositors, the feature wizard and
 * the description builder, with the key each one has in a feature selection
 * (a map from key to the chosen variant string).
 */
module Features {
  type FeatureSet = map<string, string>

  /** The eight categories the current compositor can draw. */
  datatype Category = FaceShape | FacialHair | HairType | Eyebrows | EyeShape | NoseType | MouthShape | DistinctiveMarks

  /** The selection key of each category. */
  function Key(c: Category): string {
    match c
    case FaceShape => "faceShape"
    case FacialHair => "facialHair"
    case HairType => "hairType"
    case Eyebrows => "eyebrows"
    case EyeShape => "eyeShape"
    case NoseType => "noseType"
    case MouthShape => "mouthShape"
    case DistinctiveMarks => "distinctiveMarks"
  }

  /** Distinct categories have distinct keys, so a selection entry belongs to at most one category. */
  lemma KeyInjective(c: Category, d: Category)
    ensures Key(c) == Key(d) ==> c == d
  {
  }

  /** One layer to draw: its category and the variant chosen for it. */
  datatype Choice = Choice(category: Category, variant: string)

  /** The categories of `choices`, in order. */
  function CategoriesOf(choices: seq<Choice>): (cs: seq<Category>)
    ensures |cs| == |choices|
  {
    seq(|choices|, k requires 0 <= k < |choices| => choices[k].category)
  }

  /** Categories distribute over concatenation. */
  lemma CategoriesOfAppend(a: seq<Choice>, b: seq<Choice>)
    ensures CategoriesOf(a + b) == CategoriesOf(a) + CategoriesOf(b)
  {
  }
}
