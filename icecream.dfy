/** The ice-creams of Structural/Decorator/IceCream.h, and the description
    suffixes the two decorator headers append to them.

    An ice-cream object is a class whose state is a Base value: a simple
    ice-cream keeps its one bowl, a multi-bowl ice-cream a list of bowls that
    `eatOneBowl` shortens in place.  `describe` builds its text in a loop, so
    it is a method proved against the function Description. */
module IceCreams {

  /** What an ice-cream holds. */
  datatype Base = Simple(bowl: string) | MultiBowl(bowls: seq<string>)

  /** `SimpleIceCream::describe`. */
  function SimpleDescription(bowl: string): string
  {
    "Ice-cream with " + bowl + " bowl"
  }

  /** The bowls as `describe` lists them: each one after a space, in order. */
  function BowlsText(bowls: seq<string>): string
    decreases |bowls|
  {
    if bowls == [] then ""
    else BowlsText(bowls[..|bowls| - 1]) + " " + bowls[|bowls| - 1]
  }

  /** `MultiBowlIceCream::describe`: "Ice-cream with" followed by the bowls, or by
      " no bowls " (trailing space included) when there are none. */
  function MultiDescription(bowls: seq<string>): string
  {
    if bowls == [] then "Ice-cream with no bowls " else "Ice-cream with" + BowlsText(bowls)
  }

  function Description(b: Base): string
  {
    match b
    case Simple(bowl) => SimpleDescription(bowl)
    case MultiBowl(bowls) => MultiDescription(bowls)
  }

  /** The bowl of a simple ice-cream can be read back from its description. */
  lemma SimpleDescriptionNamesBowl(bowl: string)
    ensures var d := SimpleDescription(bowl);
      |d| == |bowl| + 20 && d[..15] == "Ice-cream with " && d[15..|d| - 5] == bowl && d[|d| - 5..] == " bowl"
  {
  }

  /** Different bowls give different simple descriptions. */
  lemma SimpleDescriptionInjective(b1: string, b2: string)
    requires SimpleDescription(b1) == SimpleDescription(b2)
    ensures b1 == b2
  {
    SimpleDescriptionNamesBowl(b1);
    SimpleDescriptionNamesBowl(b2);
  }

  /** With two bowls or more, the description is that of all bowls but the last,
      then a space and the last bowl: eating a bowl takes exactly that off. */
  lemma MultiDescriptionLast(bowls: seq<string>)
    requires |bowls| >= 2
    ensures MultiDescription(bowls) ==
      MultiDescription(bowls[..|bowls| - 1]) + " " + bowls[|bowls| - 1]
  {
    assert bowls[..|bowls| - 1] != [];
  }

  /** The empty description is also that of a single bowl named "no bowls ". */
  lemma NoBowlsLooksLikeOneBowl()
    ensures MultiDescription([]) == MultiDescription(["no bowls "])
  {
    assert BowlsText(["no bowls "]) == BowlsText([]) + " " + "no bowls ";
  }

  /** `eatOneBowl` on a list of bowls: the last one goes, nothing on an empty list. */
  function EatOne(bowls: seq<string>): (r: seq<string>)
    ensures bowls == [] ==> r == []
    ensures bowls != [] ==> r + [bowls[|bowls| - 1]] == bowls
  {
    if bowls == [] then [] else bowls[..|bowls| - 1]
  }

  class IceCream {
    var state: Base

    constructor Simple(bowl: string)
      ensures state == Base.Simple(bowl)
    {
      state := Base.Simple(bowl);
    }

    constructor MultiBowl(bowls: seq<string>)
      ensures state == Base.MultiBowl(bowls)
    {
      state := Base.MultiBowl(bowls);
    }

    /** `describe`: the multi-bowl text is built bowl by bowl. */
    method Describe() returns (out: string)
      ensures out == Description(state)
    {
      match state
      case Simple(bowl) =>
        out := "Ice-cream with " + bowl + " bowl";
      case MultiBowl(bowls) =>
        out := "Ice-cream with";
        if bowls != [] {
          var i := 0;
          while i < |bowls|
            invariant i <= |bowls| && out == "Ice-cream with" + BowlsText(bowls[..i])
          {
            assert bowls[..i + 1][..i] == bowls[..i];
            out := out + " " + bowls[i];
            i := i + 1;
          }
          assert bowls[..i] == bowls;
        } else {
          out := out + " no bowls ";
        }
    }

    /** `MultiBowlIceCream::eatOneBowl`. */
    method EatOneBowl()
      requires state.MultiBowl?
      modifies this
      ensures state == Base.MultiBowl(EatOne(old(state.bowls)))
    {
      if state.bowls != [] {
        state := Base.MultiBowl(state.bowls[..|state.bowls| - 1]);
      }
    }
  }

  // ---------------------------------------------------------------- decorations

  /** What a decorator adds: a topping, or a cone. */
  datatype Layer = Topping(topping: string) | Cone(cone: string)

  /** The text both decorator headers append for a layer. */
  function Suffix(l: Layer): string
  {
    match l
    case Topping(t) => " and " + t + " on top"
    case Cone(c) => " served in " + c + " cone"
  }

  /** A description with the layers appended, innermost first. */
  function Decorate(d: string, layers: seq<Layer>): string
    decreases |layers|
  {
    if layers == [] then d else Decorate(d, layers[..|layers| - 1]) + Suffix(layers[|layers| - 1])
  }

  /** The wrapped description is always a prefix of the decorated one. */
  lemma {:induction false} DecoratePrefix(d: string, layers: seq<Layer>)
    ensures d <= Decorate(d, layers)
    decreases |layers|
  {
    if layers != [] {
      DecoratePrefix(d, layers[..|layers| - 1]);
    }
  }

  /** The same layers over different descriptions give different texts: any
      change of the wrapped ice-cream shows in the decorated description. */
  lemma {:induction false} DecorateInjective(d1: string, d2: string, layers: seq<Layer>)
    requires Decorate(d1, layers) == Decorate(d2, layers)
    ensures d1 == d2
    decreases |layers|
  {
    if layers != [] {
      var rest := layers[..|layers| - 1];
      var s := Suffix(layers[|layers| - 1]);
      var x1 := Decorate(d1, rest);
      var x2 := Decorate(d2, rest);
      assert x1 + s == x2 + s;
      assert x1 == (x1 + s)[..|x1 + s| - |s|];
      assert x2 == (x2 + s)[..|x2 + s| - |s|];
      DecorateInjective(d1, d2, rest);
    }
  }

  /** Eating a bowl of a multi-bowl ice-cream changes what every stack of
      layers on it says.  Since a decorator describes the object it refers to
      as that object is now (DescribeDecorates), this is how a decorator over a
      multi-bowl ice-cream reflects `eatOneBowl`, and so does a static one. */
  lemma EatingShowsThroughLayers(bowls: seq<string>, layers: seq<Layer>)
    requires bowls != [] && bowls != ["no bowls "]
    ensures Decorate(MultiDescription(EatOne(bowls)), layers) != Decorate(MultiDescription(bowls), layers)
  {
    EatChangesDescription(bowls);
    if Decorate(MultiDescription(EatOne(bowls)), layers) == Decorate(MultiDescription(bowls), layers) {
      DecorateInjective(MultiDescription(EatOne(bowls)), MultiDescription(bowls), layers);
      assert false;
    }
  }

  /** Eating a bowl always changes a multi-bowl description, except that one bowl
      named "no bowls " reads like none. */
  lemma EatChangesDescription(bowls: seq<string>)
    requires bowls != [] && bowls != ["no bowls "]
    ensures MultiDescription(EatOne(bowls)) != MultiDescription(bowls)
  {
    if |bowls| >= 2 {
      MultiDescriptionLast(bowls);
      assert |MultiDescription(EatOne(bowls))| < |MultiDescription(bowls)|;
    } else {
      assert bowls == [bowls[0]];
      assert BowlsText(bowls) == BowlsText([]) + " " + bowls[0];
      assert MultiDescription(bowls) == "Ice-cream with " + bowls[0];
      assert MultiDescription(bowls)[15..] == bowls[0];
      assert MultiDescription([])[15..] == "no bowls ";
    }
  }
}
