/** The permission resolver of `src/server.ts` (lines 27-73): the key list
    and the per-key readable/writable decision computed once when the server
    is created. */
module Permissions {
  import opened Wrappers
  import opened Seqs

  type Key = string

  /** `KeyPermission<T>` */
  datatype KeyPermission = KeyPermission(key: Key, readable: Option<bool>, writable: Option<bool>)

  /** `EntangleServerOptions<T>`; absent options are `None`. */
  datatype ServerOptions = ServerOptions(
    pickedKeys: Option<seq<Key>>,
    omittedKeys: Option<seq<Key>>,
    readonlyKeys: Option<seq<Key>>,
    clientReadonly: Option<bool>,
    permissions: Option<seq<KeyPermission>>)

  /** The decided flags of one key. */
  datatype Perm = Perm(readable: bool, writable: bool)

  /** The `reduce` at lines 44-47: keeps each key the first time it occurs. */
  function Dedup(s: seq<Key>): (r: seq<Key>)
    ensures |r| <= |s|
    ensures forall x :: x in r <==> x in s
    decreases |s|
  {
    if s == [] then []
    else
      var prefix := Dedup(s[..|s| - 1]);
      if s[|s| - 1] in prefix then prefix else prefix + [s[|s| - 1]]
  }

  /** The position of the first occurrence of `x` in `s`. */
  function FirstIndex(s: seq<Key>, x: Key): (i: nat)
    requires x in s
    ensures i < |s| && s[i] == x && x !in s[..i]
  {
    if s[0] == x then 0 else 1 + FirstIndex(s[1..], x)
  }

  lemma {:induction false} FirstIndexOfPrefix(s: seq<Key>, k: nat, x: Key)
    requires k <= |s| && x in s[..k]
    ensures FirstIndex(s, x) == FirstIndex(s[..k], x)
  {
    if s[0] != x {
      assert s[1..][..k - 1] == s[..k][1..];
      FirstIndexOfPrefix(s[1..], k - 1, x);
    }
  }

  /** `Dedup` keeps exactly the keys of its input, each once, ordered by
      where each first occurs. */
  lemma {:induction false} DedupSpec(s: seq<Key>)
    ensures forall x :: x in Dedup(s) <==> x in s
    ensures NoDuplicates(Dedup(s))
    ensures forall i, j :: 0 <= i < j < |Dedup(s)| ==> FirstIndex(s, Dedup(s)[i]) < FirstIndex(s, Dedup(s)[j])
    decreases |s|
  {
    if s != [] {
      var n := |s| - 1;
      var p := s[..n];
      var r := Dedup(s);
      DedupSpec(p);
      assert s == p + [s[n]];
      forall x | x in p ensures FirstIndex(s, x) == FirstIndex(p, x) < n {
        FirstIndexOfPrefix(s, n, x);
      }
      if s[n] !in p {
        assert FirstIndex(s, s[n]) == n;
      }
      forall i, j | 0 <= i < j < |r| ensures FirstIndex(s, r[i]) < FirstIndex(s, r[j]) {
        assert r[i] in p;
      }
    }
  }

  /** The key list of line 42-47: own property names, then the picked, omitted
      and read-only keys, without repeats. */
  function TableKeys(ownNames: seq<Key>, opts: ServerOptions): (r: seq<Key>)
    ensures NoDuplicates(r)
    ensures forall k :: k in r <==>
      k in ownNames || k in opts.pickedKeys.GetOr([]) || k in opts.omittedKeys.GetOr([]) || k in opts.readonlyKeys.GetOr([])
  {
    var all := ownNames + opts.pickedKeys.GetOr([]) + opts.omittedKeys.GetOr([]) + opts.readonlyKeys.GetOr([]);
    DedupSpec(all);
    Dedup(all)
  }

  /** `permissions?.find((i) => i.key === key)` */
  function FindPermission(perms: Option<seq<KeyPermission>>, key: Key): (r: Option<KeyPermission>)
    ensures r.Some? ==> r.value.key == key
    ensures r.None? <==> perms.None? || forall p :: p in perms.value ==> p.key != key
    decreases if perms.Some? then |perms.value| else 0
  {
    match perms
    case None => None
    case Some(ps) =>
      if ps == [] then None
      else if ps[0].key == key then Some(ps[0])
      else FindPermission(Some(ps[1..]), key)
  }

  /** Lines 50-71: the flags decided for one key. An omitted key, or one
      left out of a given pick list, is neither readable nor writable,
      whatever its permission entry says; a client-read-only server decides
      every key unwritable. */
  function Decide(key: Key, opts: ServerOptions): (r: Perm)
    ensures ((opts.omittedKeys.Some? && key in opts.omittedKeys.value)
             || (opts.pickedKeys.Some? && key !in opts.pickedKeys.value)) ==> r == Perm(false, false)
    ensures opts.clientReadonly == Some(true) ==> !r.writable
  {
    if (opts.omittedKeys.Some? && key in opts.omittedKeys.value)
       || (opts.pickedKeys.Some? && key !in opts.pickedKeys.value) then
      Perm(false, false)
    else
      var clientReadonly := opts.clientReadonly.GetOr(false);
      match FindPermission(opts.permissions, key)
      case None => Perm(true, !clientReadonly)
      case Some(KeyPermission(_, readable, writable)) =>
        Perm(readable.GetOr(true),
             if clientReadonly || key in opts.readonlyKeys.GetOr([]) then false
             else writable.GetOr(readable.GetOr(true)))
  }

  /** `readables.get(key) ?? true`: keys missing from the table are readable. */
  function LookupOr(table: map<Key, bool>, key: Key): bool {
    if key in table then table[key] else true
  }

  /** The loop at lines 49-72, filling the two tables. */
  method BuildTables(keys: seq<Key>, opts: ServerOptions)
    returns (readables: map<Key, bool>, writables: map<Key, bool>)
    ensures readables.Keys == writables.Keys == set k | k in keys
    ensures forall k :: k in readables ==> readables[k] == Decide(k, opts).readable
    ensures forall k :: k in writables ==> writables[k] == Decide(k, opts).writable
  {
    readables, writables := map[], map[];
    var i := 0;
    while i < |keys|
      invariant 0 <= i <= |keys|
      invariant readables.Keys == writables.Keys == set k | k in keys[..i]
      invariant forall k :: k in readables ==> readables[k] == Decide(k, opts).readable
      invariant forall k :: k in writables ==> writables[k] == Decide(k, opts).writable
    {
      var key := keys[i];
      var perm := Decide(key, opts);
      readables := readables[key := perm.readable];
      writables := writables[key := perm.writable];
      assert keys[..i + 1] == keys[..i] + [key];
      i := i + 1;
    }
    assert keys[..i] == keys;
  }

  /** Without an explicit permission entry, a selected key is readable and its
      writability is `!clientReadonly`; the read-only list is not consulted. */
  lemma NoEntryIgnoresReadonlyKeys(key: Key, opts: ServerOptions)
    requires !(opts.omittedKeys.Some? && key in opts.omittedKeys.value)
    requires !(opts.pickedKeys.Some? && key !in opts.pickedKeys.value)
    requires opts.permissions.None? || forall p :: p in opts.permissions.value ==> p.key != key
    ensures Decide(key, opts) == Perm(true, !opts.clientReadonly.GetOr(false))
  {
  }

  /** With an entry (the first one naming the key), readability is
      `readable ?? true`, and the key is writable exactly when neither the
      server nor the key is read-only and `writable ?? readable ?? true` holds. */
  lemma EntryDecides(key: Key, opts: ServerOptions, i: nat)
    requires !(opts.omittedKeys.Some? && key in opts.omittedKeys.value)
    requires !(opts.pickedKeys.Some? && key !in opts.pickedKeys.value)
    requires opts.permissions.Some? && i < |opts.permissions.value| && opts.permissions.value[i].key == key
    requires forall j :: 0 <= j < i ==> opts.permissions.value[j].key != key
    ensures var p := opts.permissions.value[i];
      && Decide(key, opts).readable == p.readable.GetOr(true)
      && (Decide(key, opts).writable <==>
            && !opts.clientReadonly.GetOr(false)
            && key !in opts.readonlyKeys.GetOr([])
            && p.writable.GetOr(p.readable.GetOr(true)))
  {
    FindFirst(opts.permissions.value, key, i);
  }

  /** `find` returns the first entry naming the key. */
  lemma {:induction false} FindFirst(ps: seq<KeyPermission>, key: Key, i: nat)
    requires i < |ps| && ps[i].key == key
    requires forall j :: 0 <= j < i ==> ps[j].key != key
    ensures FindPermission(Some(ps), key) == Some(ps[i])
  {
    if i > 0 {
      FindFirst(ps[1..], key, i - 1);
    }
  }
}
