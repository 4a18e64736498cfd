/** The shared types of the application: the five aspect ratios, the two
    generation modes and the record kept for every generated image. */
module Types {
  import opened Base

  /** The closed enumeration of requested width:height proportions. */
  datatype AspectRatio = Square | Landscape | Portrait | StandardLandscape | StandardPortrait
  {
    /** The string value each enum member stands for. */
    function Value(): (v: string)
    {
      match this
      case Square => "1:1"
      case Landscape => "16:9"
      case Portrait => "9:16"
      case StandardLandscape => "4:3"
      case StandardPortrait => "3:4"
    }
  }

  /** `Object.values(AspectRatio)`: every member, in declaration order. */
  const AllRatios: seq<AspectRatio> :=
    [Square, Landscape, Portrait, StandardLandscape, StandardPortrait]

  /** The enumeration lists five distinct members and misses none. */
  lemma AllRatiosComplete()
    ensures |AllRatios| == 5
    ensures forall r: AspectRatio :: r in AllRatios
    ensures forall i, j :: 0 <= i < j < |AllRatios| ==> AllRatios[i] != AllRatios[j]
    ensures [AllRatios[0].Value(), AllRatios[1].Value(), AllRatios[2].Value(),
             AllRatios[3].Value(), AllRatios[4].Value()] == ["1:1", "16:9", "9:16", "4:3", "3:4"]
  {
    forall r: AspectRatio ensures r in AllRatios {
      match r
      case Square => assert AllRatios[0] == r;
      case Landscape => assert AllRatios[1] == r;
      case Portrait => assert AllRatios[2] == r;
      case StandardLandscape => assert AllRatios[3] == r;
      case StandardPortrait => assert AllRatios[4] == r;
    }
  }

  /** The member-to-string mapping is injective: no two ratios share a value. */
  lemma RatioValueInjective(a: AspectRatio, b: AspectRatio)
    ensures a.Value() == b.Value() ==> a == b
  {
    if a.Value() == b.Value() {
      // Distinct literals differ in length or in one of their first two characters.
      var v := a.Value();
      assert v[0] == b.Value()[0] && |v| == |b.Value()|;
      assert |v| == 3 ==> v[2] == b.Value()[2];
    }
  }

  /** Whether a new image is created from text or by editing a source image. */
  datatype GenerationMode = Generate | Edit
  {
    function Value(): (v: string)
    {
      match this
      case Generate => "GENERATE"
      case Edit => "EDIT"
    }
  }

  lemma ModeValuesDistinct()
    ensures Generate.Value() != Edit.Value()
  {
    assert Generate.Value()[0] != Edit.Value()[0];
  }

  /** One entry of the session history. `aspectRatio` is `null` (None) for
      an edited image; `createdAt` holds the millisecond timestamp. */
  datatype GeneratedImage = GeneratedImage(
    id: string,
    prompt: string,
    imageUrl: string,
    aspectRatio: Option<AspectRatio>,
    createdAt: int)
}
