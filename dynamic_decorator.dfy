/** The reference-holding decorators of Structural/Decorator/DynamicDecorator.h.

    A decorator keeps a reference to the ice-cream it wraps, which is a plain
    ice-cream object or another decorator, and its own topping or cone.  Its
    description is computed from the wrapped object each time, so it follows
    the current state of the ice-cream at the bottom of the stack. */
module DynamicDecorator {
  import opened IceCreams

  /** The object a decorator refers to. */
  datatype Wrapped = Plain(ice: IceCream) | Layered(decorator: Decorator)

  /** `IceCreamWithTopping` (a Topping layer) or `IceCreamInCone` (a Cone layer). */
  class Decorator {
    const inner: Wrapped
    const layer: Layer
    /** The ice-cream object at the bottom of the stack. */
    const base: IceCream
    /** How many decorators this one stands on; it orders the stack. */
    ghost const depth: nat

    /** The stack below this decorator ends in `base`. */
    ghost predicate Valid()
      decreases depth
    {
      match inner
      case Plain(ice) => ice == base && depth == 0
      case Layered(d) => d.base == base && d.depth < depth && d.Valid()
    }

    /** The layers from the bottom of the stack up to this one. */
    ghost function Layers(): (ls: seq<Layer>)
      requires Valid()
      ensures |ls| > 0 && ls[|ls| - 1] == layer
      decreases depth
    {
      match inner
      case Plain(_) => [layer]
      case Layered(d) => d.Layers() + [layer]
    }

    /** `describe`: the wrapped object's description, then this layer's text. */
    function Describe(): string
      requires Valid()
      reads base
      decreases depth
    {
      match inner
      case Plain(ice) => Description(ice.state) + Suffix(layer)
      case Layered(d) => d.Describe() + Suffix(layer)
    }

    constructor (inner: Wrapped, layer: Layer)
      requires inner.Layered? ==> inner.decorator.Valid()
      ensures Valid() && this.inner == inner && this.layer == layer
      ensures base == (if inner.Plain? then inner.ice else inner.decorator.base)
      ensures Layers() == (if inner.Plain? then [layer] else inner.decorator.Layers() + [layer])
    {
      this.inner := inner;
      this.layer := layer;
      match inner
      case Plain(ice) =>
        base := ice;
        depth := 0;
      case Layered(d) =>
        base := d.base;
        depth := d.depth + 1;
    }
  }

  /** A stack of decorators describes its bottom ice-cream, as it is now, with
      every layer's text appended from the bottom up. */
  lemma {:induction false} DescribeDecorates(d: Decorator)
    requires d.Valid()
    ensures d.Describe() == Decorate(Description(d.base.state), d.Layers())
    decreases d.depth
  {
    var ls := d.Layers();
    assert ls[..|ls| - 1] == (if d.inner.Plain? then [] else d.inner.decorator.Layers());
    if d.inner.Layered? {
      DescribeDecorates(d.inner.decorator);
    }
  }

  /** The wrapped object's description is a prefix of the decorator's. */
  lemma WrappedIsPrefix(d: Decorator)
    requires d.Valid()
    ensures d.inner.Plain? ==> Description(d.base.state) <= d.Describe()
    ensures d.inner.Layered? ==> d.inner.decorator.Describe() <= d.Describe()
  {
  }

  /** A cone over a topping over an ice-cream: the ice-cream's description, then
      the topping's text, then the cone's. */
  lemma ConeOverTopping(cone: Decorator, topping: Decorator, ice: IceCream)
    requires topping.Valid() && topping.inner == Plain(ice) && topping.layer.Topping?
    requires cone.Valid() && cone.inner == Layered(topping) && cone.layer.Cone?
    ensures cone.Describe() ==
      Description(ice.state) + " and " + topping.layer.topping + " on top"
      + " served in " + cone.layer.cone + " cone"
  {
  }
}
