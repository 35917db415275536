/** The inheritance-based decorators of Structural/Decorator/StaticDecorator.h.

    `IceCreamWithTopping<T>` and `IceCreamInCone<T>` derive from the ice-cream
    type T they decorate.  A decorated object is therefore one object: the
    layers named by its type, outermost first as the constructor takes their
    arguments, over the T part at the bottom, whose operations (such as
    `eatOneBowl`) it inherits. */
module StaticDecorator {
  import opened IceCreams

  /** `describe` of a decorated type: `T::describe()` followed by the outermost
      layer's text, recursively. */
  function LayeredDescription(outerFirst: seq<Layer>, base: string): string
    decreases |outerFirst|
  {
    if outerFirst == [] then base
    else LayeredDescription(outerFirst[1..], base) + Suffix(outerFirst[0])
  }

  /** The layers innermost first. */
  function Reversed(ls: seq<Layer>): (r: seq<Layer>)
    ensures |r| == |ls|
    decreases |ls|
  {
    if ls == [] then [] else Reversed(ls[1..]) + [ls[0]]
  }

  /** The static stack describes exactly like a stack of reference decorators with
      the same layers, innermost first. */
  lemma {:induction false} LayeredIsDecorated(outerFirst: seq<Layer>, base: string)
    ensures LayeredDescription(outerFirst, base) == Decorate(base, Reversed(outerFirst))
    decreases |outerFirst|
  {
    if outerFirst != [] {
      LayeredIsDecorated(outerFirst[1..], base);
      var r := Reversed(outerFirst);
      assert r[..|r| - 1] == Reversed(outerFirst[1..]);
    }
  }

  /** The base description is a prefix of the decorated one. */
  lemma LayeredPrefix(outerFirst: seq<Layer>, base: string)
    ensures base <= LayeredDescription(outerFirst, base)
  {
    LayeredIsDecorated(outerFirst, base);
    DecoratePrefix(base, Reversed(outerFirst));
  }

  /** `IceCreamInCone<IceCreamWithTopping<T>>`: T's description, then the topping's
      text, then the cone's. */
  lemma ConeOverTopping(cone: string, topping: string, base: string)
    ensures LayeredDescription([Cone(cone), Topping(topping)], base) ==
      base + Suffix(Topping(topping)) + Suffix(Cone(cone))
  {
    assert [Cone(cone), Topping(topping)][1..] == [Topping(topping)];
    assert [Topping(topping)][1..] == [];
    assert LayeredDescription([Topping(topping)], base) == base + Suffix(Topping(topping));
  }

  /** A decorated object. */
  class DecoratedIceCream {
    /** The layers of its type, outermost first. */
    const layers: seq<Layer>
    /** The T part at the bottom of the type. */
    const part: IceCream

    /** Each layer stores its topping or cone and hands the remaining arguments
        on, down to the base ice-cream's constructor. */
    constructor (layers: seq<Layer>, base: Base)
      ensures this.layers == layers && fresh(part) && part.state == base
    {
      this.layers := layers;
      if base.Simple? {
        part := new IceCream.Simple(base.bowl);
      } else {
        part := new IceCream.MultiBowl(base.bowls);
      }
    }

    function Describe(): string
      reads part
    {
      LayeredDescription(layers, Description(part.state))
    }

    /** The inherited `eatOneBowl`, on a multi-bowl base. */
    method EatOneBowl()
      requires part.state.MultiBowl?
      modifies part
      ensures part.state == Base.MultiBowl(EatOne(old(part.state.bowls)))
    {
      part.EatOneBowl();
    }
  }

  /** Eating a bowl of a decorated multi-bowl ice-cream changes its description,
      unless its one bowl is named "no bowls ". */
  lemma EatChangesLayeredDescription(outerFirst: seq<Layer>, bowls: seq<string>)
    requires bowls != [] && bowls != ["no bowls "]
    ensures LayeredDescription(outerFirst, MultiDescription(EatOne(bowls)))
      != LayeredDescription(outerFirst, MultiDescription(bowls))
  {
    LayeredIsDecorated(outerFirst, MultiDescription(EatOne(bowls)));
    LayeredIsDecorated(outerFirst, MultiDescription(bowls));
    EatingShowsThroughLayers(bowls, Reversed(outerFirst));
  }
}
