/** The type-level key algebra of `src/types.ts` (`PickKeys`, `OmitKeys`,
    `FreezeKeys`, `EntangledObject`, `AsyncWrappedObject`), written as
    functions over object types: a map from property name to the property's
    type and its `readonly` and `?` modifiers. Types are computed as the
    compiler does under `strictNullChecks`, where reading an optional
    property gives its type widened by `undefined`. */
module KeyAlgebra {
  import opened Wrappers

  /** A property's type: a plain (non-function) type, a function type, a
      promise of a type, or a type widened by `undefined` (`X | undefined`). */
  datatype Ty = Plain(name: string) | Fn(params: seq<Ty>, result: Ty) | Promise(of: Ty) | OrUndefined(of: Ty)

  /** A property signature: its type and its `readonly` and `?` modifiers. */
  datatype Prop = Prop(ty: Ty, readonly: bool, optional: bool)

  /** `T[K]` for a property: its declared type, widened by `undefined` when
      the property is optional (a type that already admits `undefined` stays
      as it is). A widened type is never a function type. */
  function IndexedType(p: Prop): (r: Ty)
    ensures !p.optional ==> r == p.ty
    ensures p.optional ==> r.OrUndefined? && (r == p.ty || r == OrUndefined(p.ty))
    ensures r.Fn? <==> !p.optional && p.ty.Fn?
  {
    if p.optional && !p.ty.OrUndefined? then OrUndefined(p.ty) else p.ty
  }

  /** An object type `T`: `keyof T` is its domain. */
  type ObjectType = map<string, Prop>

  /** `PickKeys<T, K>`: `T` when no list is given, otherwise `Pick<T, K[number]>`. */
  function PickKeys(t: ObjectType, ks: Option<seq<string>>): (r: ObjectType)
    ensures ks.None? ==> r == t
    ensures ks.Some? ==> r.Keys == t.Keys * set k | k in ks.value
    ensures forall k :: k in r ==> k in t && r[k] == t[k]
  {
    match ks
    case None => t
    case Some(list) => map k | k in t && k in list :: t[k]
  }

  /** `OmitKeys<T, K>`: `T` when no list is given, otherwise `Omit<T, K[number]>`. */
  function OmitKeys(t: ObjectType, ks: Option<seq<string>>): (r: ObjectType)
    ensures ks.None? ==> r == t
    ensures ks.Some? ==> r.Keys == t.Keys - set k | k in ks.value
    ensures forall k :: k in r ==> k in t && r[k] == t[k]
  {
    match ks
    case None => t
    case Some(list) => map k | k in t && k !in list :: t[k]
  }

  /** `FreezeKeys<T, K>`: `T` when no list is given; otherwise the
      intersection of two mapped types over `Extract`/`Exclude` of `keyof T`.
      Neither is homomorphic, so both drop the modifiers of `T`: a key is
      read-only exactly when it is listed, no key stays optional, and each
      takes the type `T[P]`, widened by `undefined` for a formerly optional key. */
  function FreezeKeys(t: ObjectType, ks: Option<seq<string>>): (r: ObjectType)
    ensures r.Keys == t.Keys
    ensures forall k :: k in r ==> r[k].ty == if ks.Some? then IndexedType(t[k]) else t[k].ty
    ensures forall k :: k in r ==> r[k].readonly == if ks.Some? then k in ks.value else t[k].readonly
    ensures forall k :: k in r ==> r[k].optional == (ks.None? && t[k].optional)
  {
    match ks
    case None => t
    case Some(list) => map k | k in t :: Prop(IndexedType(t[k]), k in list, false)
  }

  /** `AsyncFunctionWrapper<F>`: a function whose result is not already a
      promise is made to return a promise of that result. */
  function AsyncFunction(ty: Ty): (r: Ty)
    requires ty.Fn?
    ensures r.Fn? && r.params == ty.params && r.result.Promise?
    ensures r.result == (if ty.result.Promise? then ty.result else Promise(ty.result))
  {
    if ty.result.Promise? then ty else Fn(ty.params, Promise(ty.result))
  }

  /** `AsyncWrappedObject<T>`: a member whose `T[K]` extends `Function`
      becomes promise-returning, other members keep their types; an optional
      method reads as `F | undefined`, which does not, so it is left as it
      is. The mapping is homomorphic, so the modifiers are kept. */
  function AsyncWrapped(t: ObjectType): (r: ObjectType)
    ensures r.Keys == t.Keys
    ensures forall k :: k in r ==> r[k].readonly == t[k].readonly && r[k].optional == t[k].optional
    ensures forall k :: k in r && !(t[k].ty.Fn? && !t[k].optional) ==> r[k] == t[k]
    ensures forall k :: k in r && t[k].ty.Fn? && !t[k].optional ==> r[k].ty == AsyncFunction(t[k].ty)
  {
    map k | k in t :: if IndexedType(t[k]).Fn? then Prop(AsyncFunction(t[k].ty), t[k].readonly, t[k].optional) else t[k]
  }

  /** `EntangledObject<T, Omitted, Picked, Readonly>`: freeze, then pick, then
      omit, then wrap the functions. */
  function EntangledObject(t: ObjectType, omitted: Option<seq<string>>, picked: Option<seq<string>>,
                           readonlyKeys: Option<seq<string>>): (r: ObjectType)
    ensures forall k :: k in r <==>
      k in t && (picked.None? || k in picked.value) && (omitted.None? || k !in omitted.value)
  {
    AsyncWrapped(OmitKeys(PickKeys(FreezeKeys(t, readonlyKeys), picked), omitted))
  }

  /** The keys of an entangled object are the picked keys of `T` minus the
      omitted ones (so an omitted key is absent even when it is picked); with
      a read-only list, exactly the listed keys are read-only and none is
      optional, without one the modifiers of `T` are kept; every required
      method returns a promise, and every other member keeps its type (`T[K]`
      when a read-only list is given, so an optional method stays the
      unwrapped `F | undefined`). */
  lemma EntangledObjectShape(t: ObjectType, omitted: Option<seq<string>>, picked: Option<seq<string>>,
                             readonlyKeys: Option<seq<string>>)
    ensures var e := EntangledObject(t, omitted, picked, readonlyKeys);
      && (forall k :: k in e <==>
            k in t && (picked.None? || k in picked.value) && (omitted.None? || k !in omitted.value))
      && (forall k :: k in e ==>
            e[k].readonly == (if readonlyKeys.Some? then k in readonlyKeys.value else t[k].readonly))
      && (forall k :: k in e ==> e[k].optional == (readonlyKeys.None? && t[k].optional))
      && (forall k :: k in e && t[k].ty.Fn? && !t[k].optional ==> e[k].ty == AsyncFunction(t[k].ty))
      && (forall k :: k in e && !(t[k].ty.Fn? && !t[k].optional) ==>
            e[k].ty == if readonlyKeys.Some? then IndexedType(t[k]) else t[k].ty)
  {
    var f := FreezeKeys(t, readonlyKeys);
    var p := PickKeys(f, picked);
    var o := OmitKeys(p, omitted);
    var e := AsyncWrapped(o);
    forall k | k in e
      ensures e[k].readonly == (if readonlyKeys.Some? then k in readonlyKeys.value else t[k].readonly)
      ensures e[k].optional == (readonlyKeys.None? && t[k].optional)
      ensures t[k].ty.Fn? && !t[k].optional ==> e[k].ty == AsyncFunction(t[k].ty)
      ensures !(t[k].ty.Fn? && !t[k].optional) ==> e[k].ty == if readonlyKeys.Some? then IndexedType(t[k]) else t[k].ty
    {
      assert o[k] == p[k] == f[k];
    }
  }

  /** Wrapping is idempotent: an already promise-returning member is left as it is. */
  lemma {:induction false} AsyncWrappedIdempotent(t: ObjectType)
    ensures AsyncWrapped(AsyncWrapped(t)) == AsyncWrapped(t)
  {
    var w := AsyncWrapped(t);
    var ww := AsyncWrapped(w);
    forall k | k in ww ensures ww[k] == w[k] {
      if IndexedType(w[k]).Fn? {
        assert IndexedType(t[k]).Fn?;
        assert w[k].ty.result.Promise?;
      }
    }
  }
}
