// octavia/api/v1/types/base.py: the request and response types of the v1 API.
// A type instance is seen through `dir(self)`: every attribute name in sorted
// order with what `getattr` returns for it. to_dict turns it into the dict the
// controllers store, rendering unset attributes as None or leaving them out.

module ApiTypes {
  import opened Values
  import DataModels

  /** What `getattr(obj, name)` gives for one name of `dir(obj)`. */
  datatype Member =
    | Unset                 // a declared attribute the request did not set (wsme's Unset)
    | Callable              // a method: always truthy
    | Nested(obj: ApiObj)   // an attribute holding another type instance (truthy)
    | Plain(v: Value)       // any other value

  /** A type instance: `dir(self)` with each name's member. */
  datatype ApiObj = ApiObj(attrs: seq<(string, Member)>)

  /** Whether to_dict writes an entry for this name and member. */
  predicate Emitted(name: string, m: Member, renderUnsets: bool)
  {
    !Private(name) && !m.Callable? && (renderUnsets || !m.Unset?)
  }

  /** `dir()` lists each name once. */
  predicate DistinctNames(attrs: seq<(string, Member)>)
  {
    forall i, j :: 0 <= i < j < |attrs| ==> attrs[i].0 != attrs[j].0
  }

  /**
   * The dict to_dict has built after the first `n` names of `dir(o)`. A
   * nested instance is rendered by its own to_dict with the default
   * render_unsets=True, whatever the outer call was given.
   */
  function RenderPrefix(o: ApiObj, n: nat, renderUnsets: bool): Dict
    requires n <= |o.attrs|
    decreases o, n
  {
    if n == 0 then map[]
    else
      var acc := RenderPrefix(o, n - 1, renderUnsets);
      var (name, m) := o.attrs[n - 1];
      if !Emitted(name, m, renderUnsets) then acc
      else match m
        case Nested(inner) => acc[name := VDict(RenderPrefix(inner, |inner.attrs|, true))]
        case Plain(v) => acc[name := v]
        case _ => acc[name := VNone]
  }

  /** BaseType.to_dict(render_unsets). */
  function Render(o: ApiObj, renderUnsets: bool): Dict
  {
    RenderPrefix(o, |o.attrs|, renderUnsets)
  }

  /** The value to_dict writes for an emitted member. */
  function Rendered(m: Member): Value
  {
    match m
    case Nested(inner) => VDict(Render(inner, true))
    case Plain(v) => v
    case _ => VNone
  }

  /**
   * BaseType.to_dict: loop over `dir(self)`, skipping private names and
   * truthy callables, replacing a nested instance by its own dict and an
   * unset value by None, or skipping it when `renderUnsets` is false.
   */
  method ToDict(o: ApiObj, renderUnsets: bool) returns (r: Dict)
    ensures r == Render(o, renderUnsets)
    decreases o
  {
    r := map[];
    var i := 0;
    while i < |o.attrs|
      invariant 0 <= i <= |o.attrs|
      invariant r == RenderPrefix(o, i, renderUnsets)
    {
      var (name, m) := o.attrs[i];
      i := i + 1;
      if Private(name) {
        continue;
      }
      if m.Callable? {
        continue;
      }
      if m.Nested? {
        var inner := ToDict(m.obj, true);
        r := r[name := VDict(inner)];
        continue;
      }
      if m.Unset? {
        if renderUnsets {
          r := r[name := VNone];
        }
        continue;
      }
      r := r[name := m.v];
    }
  }

  /** Whether `o` has an attribute called `name`. */
  predicate Declares(o: ApiObj, name: string)
  {
    exists i :: 0 <= i < |o.attrs| && o.attrs[i].0 == name
  }

  /**
   * The names to_dict emits: exactly the public, non-callable names, the
   * unset ones only when rendering unsets.
   */
  lemma {:induction false} RenderPrefixKeys(o: ApiObj, n: nat, renderUnsets: bool, name: string)
    requires n <= |o.attrs|
    ensures name in RenderPrefix(o, n, renderUnsets) <==>
      exists i :: 0 <= i < n && o.attrs[i].0 == name && Emitted(name, o.attrs[i].1, renderUnsets)
    decreases n
  {
    if n > 0 {
      RenderPrefixKeys(o, n - 1, renderUnsets, name);
    }
  }

  /** With each name listed once, every emitted name carries its member's rendered value. */
  lemma {:induction false} RenderPrefixValues(o: ApiObj, n: nat, renderUnsets: bool, name: string)
    requires n <= |o.attrs| && DistinctNames(o.attrs)
    ensures forall i :: 0 <= i < n && o.attrs[i].0 == name && Emitted(name, o.attrs[i].1, renderUnsets) ==>
      name in RenderPrefix(o, n, renderUnsets) && RenderPrefix(o, n, renderUnsets)[name] == Rendered(o.attrs[i].1)
    decreases n
  {
    if n > 0 {
      RenderPrefixValues(o, n - 1, renderUnsets, name);
    }
  }

  /** A name the type does not have is never in its dict. */
  lemma {:induction false} RenderOmitsUndeclared(o: ApiObj, renderUnsets: bool, name: string)
    requires !Declares(o, name)
    ensures name !in Render(o, renderUnsets)
  {
    RenderPrefixKeys(o, |o.attrs|, renderUnsets, name);
  }

  /** to_dict of a whole instance, stated per name. */
  lemma {:induction false} RenderMeaning(o: ApiObj, renderUnsets: bool, i: nat)
    requires DistinctNames(o.attrs) && i < |o.attrs|
    ensures var (name, m) := o.attrs[i];
      (name in Render(o, renderUnsets) <==> Emitted(name, m, renderUnsets)) &&
      (Emitted(name, m, renderUnsets) ==> Render(o, renderUnsets)[name] == Rendered(m))
  {
    RenderPrefixKeys(o, |o.attrs|, renderUnsets, o.attrs[i].0);
    RenderPrefixValues(o, |o.attrs|, renderUnsets, o.attrs[i].0);
  }

  /**
   * The render_unsets switch a partial PUT relies on: the two renderings
   * agree on every name they share, and they differ only by the unset
   * names, which the full rendering sets to None.
   */
  lemma {:induction false} PartialRenderIsRestriction(o: ApiObj, n: nat)
    requires n <= |o.attrs| && DistinctNames(o.attrs)
    ensures forall k :: k in RenderPrefix(o, n, false) ==>
      k in RenderPrefix(o, n, true) && RenderPrefix(o, n, true)[k] == RenderPrefix(o, n, false)[k]
    ensures forall k :: k in RenderPrefix(o, n, true) && k !in RenderPrefix(o, n, false) ==>
      RenderPrefix(o, n, true)[k] == VNone
    decreases n
  {
    if n > 0 {
      PartialRenderIsRestriction(o, n - 1);
      RenderPrefixKeys(o, n - 1, false, o.attrs[n - 1].0);
    }
  }

  /**
   * BaseType.from_data_model: `cls(**data_model.to_dict())`. Every name of
   * the type that the data model's dict carries is set to that value; the
   * others keep their default. A nested model is skipped by to_dict, so the
   * name keeps its default; a list of nested models is not modelled.
   */
  method FromDataModel(cls: ApiObj, dm: DataModels.DataModel) returns (r: ApiObj)
    requires forall i :: 0 <= i < |cls.attrs| && cls.attrs[i].0 in dm.attrs && !Private(cls.attrs[i].0) ==>
      !dm.attrs[cls.attrs[i].0].Children?
    ensures |r.attrs| == |cls.attrs|
    ensures forall i :: 0 <= i < |cls.attrs| ==> r.attrs[i].0 == cls.attrs[i].0
    ensures forall i :: 0 <= i < |cls.attrs| ==>
      var name := cls.attrs[i].0;
      if name in dm.attrs && !Private(name) && !dm.attrs[name].Child?
      then r.attrs[i].1 == Plain(dm.attrs[name].v)
      else r.attrs[i].1 == cls.attrs[i].1
  {
    var kwargs := dm.ToDict();
    var bound: seq<(string, Member)> := [];
    for i := 0 to |cls.attrs|
      invariant |bound| == i
      invariant forall j :: 0 <= j < i ==> bound[j].0 == cls.attrs[j].0
      invariant forall j :: 0 <= j < i ==>
        var name := cls.attrs[j].0;
        if name in kwargs then bound[j].1 == Plain(kwargs[name].v) else bound[j].1 == cls.attrs[j].1
    {
      var (name, m) := cls.attrs[i];
      if name in kwargs {
        bound := bound + [(name, Plain(kwargs[name].v))];
      } else {
        bound := bound + [(name, m)];
      }
    }
    r := ApiObj(bound);
  }
}
