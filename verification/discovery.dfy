/**
 One-time discovery of formatter assets: a walk over the GType tree
 below GESFormatter that requests an asset for every non-abstract type,
 visiting a type's subtypes before the type itself.

 `ges_asset_request` lives in ges-asset.c, which is not part of this
 model. It is modelled as a cache of assets keyed by (type, id) that
 creates the asset on the first request for a key and returns the cached
 one on every later request.
 */
module Discovery {
  import opened Wrappers
  import opened FormatterTypes

  /** A node of the type hierarchy: a GType and its direct subtypes, in `g_type_children` order. */
  datatype TypeNode = TypeNode(ty: GType, children: seq<TypeNode>)

  /** The key an asset is cached under. */
  function Key(a: Asset): (TypeId, string) {
    (a.extractable.id, a.id)
  }

  /** The key a request for type `t` with no id looks up. */
  function RequestKey(t: GType): (TypeId, string) {
    (t.id, CheckId(t.klass, None))
  }

  /** Whether the cache already holds an asset for type `t`. */
  predicate Cached(cache: seq<Asset>, t: GType) {
    exists i :: 0 <= i < |cache| && Key(cache[i]) == RequestKey(t)
  }

  /** No two cached assets share a key. */
  ghost predicate UniqueKeys(cache: seq<Asset>) {
    forall i, j :: 0 <= i < j < |cache| ==> Key(cache[i]) != Key(cache[j])
  }

  /** `t` occurs somewhere in the forest `nodes`, at any depth. */
  ghost predicate TypeBelow(nodes: seq<TypeNode>, t: GType)
    decreases nodes
  {
    exists i :: 0 <= i < |nodes| && (nodes[i].ty == t || TypeBelow(nodes[i].children, t))
  }

  /** `t` is a non-abstract type somewhere in the forest `nodes`. */
  ghost predicate ConcreteBelow(nodes: seq<TypeNode>, t: GType) {
    !t.isAbstract && TypeBelow(nodes, t)
  }

  /** An asset discovery may create: the asset of a non-abstract type of the forest. */
  ghost predicate Discovered(nodes: seq<TypeNode>, a: Asset) {
    a == MakeAsset(a.extractable) && ConcreteBelow(nodes, a.extractable)
  }

  /**
   `ges_asset_request (type, NULL, NULL)`: afterwards the type is cached;
   an asset is created and appended only if it was not cached before.
   */
  function Request(cache: seq<Asset>, t: GType): (c: seq<Asset>)
    ensures Cached(c, t)
    ensures Cached(cache, t) ==> c == cache
    ensures !Cached(cache, t) ==> c == cache + [MakeAsset(t)]
  {
    if Cached(cache, t) then cache
    else
      assert Key((cache + [MakeAsset(t)])[|cache|]) == RequestKey(t);
      cache + [MakeAsset(t)]
  }

  /**
   `_list_formatters`: for each type in turn, first its subtypes
   (recursively), then an asset request for the type unless it is
   abstract. The walk only appends: the cache it starts from is a prefix
   of the cache it ends with.
   */
  function ListFormatters(nodes: seq<TypeNode>, cache: seq<Asset>): (r: seq<Asset>)
    decreases nodes
    ensures cache <= r
  {
    if |nodes| == 0 then cache
    else
      var afterChildren := ListFormatters(nodes[0].children, cache);
      var afterNode := if nodes[0].ty.isAbstract then afterChildren else Request(afterChildren, nodes[0].ty);
      ListFormatters(nodes[1..], afterNode)
  }

  /**
   `_init_formatter_assets`: the walk over the subtypes of the root
   formatter type, which keeps every asset already cached.
   */
  function InitFormatterAssets(root: TypeNode, cache: seq<Asset>): (r: seq<Asset>)
    ensures cache <= r
  {
    ListFormatters(root.children, cache)
  }

  /** A type below a node's subtypes is below any forest holding that node. */
  lemma BelowChild(nodes: seq<TypeNode>, i: nat, t: GType)
    requires i < |nodes| && TypeBelow(nodes[i].children, t)
    ensures TypeBelow(nodes, t)
  {
  }

  /** A type below the tail of a forest is below the forest. */
  lemma BelowTail(nodes: seq<TypeNode>, t: GType)
    requires |nodes| > 0 && TypeBelow(nodes[1..], t)
    ensures TypeBelow(nodes, t)
  {
    var j :| 0 <= j < |nodes[1..]| && (nodes[1..][j].ty == t || TypeBelow(nodes[1..][j].children, t));
    assert nodes[j + 1] == nodes[1..][j];
  }

  /** A type below a forest is the head, below the head's subtypes, or below the tail. */
  lemma BelowCases(nodes: seq<TypeNode>, t: GType)
    requires TypeBelow(nodes, t)
    ensures nodes[0].ty == t || TypeBelow(nodes[0].children, t) || TypeBelow(nodes[1..], t)
  {
    var i :| 0 <= i < |nodes| && (nodes[i].ty == t || TypeBelow(nodes[i].children, t));
    if i > 0 {
      assert nodes[1..][i - 1] == nodes[i];
    }
  }

  /**
   Discovery only ever appends to the cache, and every asset it appends is
   the asset of a non-abstract type of the walked forest.
   */
  lemma {:induction false} ListFormattersSound(nodes: seq<TypeNode>, cache: seq<Asset>)
    ensures var r := ListFormatters(nodes, cache);
            && cache <= r
            && forall i :: |cache| <= i < |r| ==> Discovered(nodes, r[i])
    decreases nodes
  {
    if |nodes| > 0 {
      var n := nodes[0];
      var afterChildren := ListFormatters(n.children, cache);
      var afterNode := if n.ty.isAbstract then afterChildren else Request(afterChildren, n.ty);
      var r := ListFormatters(nodes[1..], afterNode);
      ListFormattersSound(n.children, cache);
      ListFormattersSound(nodes[1..], afterNode);
      forall i | |cache| <= i < |r|
        ensures Discovered(nodes, r[i])
      {
        if i < |afterChildren| {
          assert r[i] == afterChildren[i];
          BelowChild(nodes, 0, afterChildren[i].extractable);
        } else if i < |afterNode| {
          assert r[i] == MakeAsset(n.ty);
        } else {
          BelowTail(nodes, r[i].extractable);
        }
      }
    }
  }

  /** Discovery never drops a cached type. */
  lemma CachedStaysCached(nodes: seq<TypeNode>, cache: seq<Asset>, t: GType)
    requires Cached(cache, t)
    ensures Cached(ListFormatters(nodes, cache), t)
  {
    ListFormattersSound(nodes, cache);
    var r := ListFormatters(nodes, cache);
    var i :| 0 <= i < |cache| && Key(cache[i]) == RequestKey(t);
    assert r[i] == cache[i];
  }

  /** After discovery, every non-abstract type of the forest is cached, however deep and whatever its ancestors. */
  lemma {:induction false} ListFormattersComplete(nodes: seq<TypeNode>, cache: seq<Asset>, t: GType)
    requires ConcreteBelow(nodes, t)
    ensures Cached(ListFormatters(nodes, cache), t)
    decreases nodes
  {
    var n := nodes[0];
    var afterChildren := ListFormatters(n.children, cache);
    var afterNode := if n.ty.isAbstract then afterChildren else Request(afterChildren, n.ty);
    BelowCases(nodes, t);
    if n.ty == t {
      CachedStaysCached(nodes[1..], afterNode, t);
    } else if TypeBelow(n.children, t) {
      ListFormattersComplete(n.children, cache, t);
      CachedStaysCached(nodes[1..], afterNode, t);
    } else {
      ListFormattersComplete(nodes[1..], afterNode, t);
    }
  }

  /** When every non-abstract type of the forest is already cached, discovery changes nothing. */
  lemma {:induction false} ListFormattersNoOp(nodes: seq<TypeNode>, cache: seq<Asset>)
    requires forall t :: ConcreteBelow(nodes, t) ==> Cached(cache, t)
    ensures ListFormatters(nodes, cache) == cache
    decreases nodes
  {
    if |nodes| > 0 {
      var n := nodes[0];
      forall t | ConcreteBelow(n.children, t)
        ensures Cached(cache, t)
      {
        BelowChild(nodes, 0, t);
      }
      ListFormattersNoOp(n.children, cache);
      if !n.ty.isAbstract {
        assert ConcreteBelow(nodes, n.ty);
      }
      forall t | ConcreteBelow(nodes[1..], t)
        ensures Cached(cache, t)
      {
        BelowTail(nodes, t);
      }
      ListFormattersNoOp(nodes[1..], cache);
    }
  }

  /** Discovery never creates two assets under one key. */
  lemma {:induction false} ListFormattersKeepsKeysUnique(nodes: seq<TypeNode>, cache: seq<Asset>)
    requires UniqueKeys(cache)
    ensures UniqueKeys(ListFormatters(nodes, cache))
    decreases nodes
  {
    if |nodes| > 0 {
      var n := nodes[0];
      var afterChildren := ListFormatters(n.children, cache);
      ListFormattersKeepsKeysUnique(n.children, cache);
      var afterNode := if n.ty.isAbstract then afterChildren else Request(afterChildren, n.ty);
      if !n.ty.isAbstract && !Cached(afterChildren, n.ty) {
        assert Key(afterNode[|afterChildren|]) == RequestKey(n.ty);
        forall i | 0 <= i < |afterChildren|
          ensures Key(afterNode[i]) != Key(afterNode[|afterChildren|])
        {
          assert afterNode[i] == afterChildren[i];
        }
      }
      ListFormattersKeepsKeysUnique(nodes[1..], afterNode);
    }
  }

  /**
   The discovery pass: it keeps the cache as a prefix, requests exactly
   the non-abstract types below the root (abstract ones are skipped but
   their subtypes are visited) and keeps cache keys unique.
   */
  lemma DiscoveryRequestsConcreteSubtypes(root: TypeNode, cache: seq<Asset>)
    ensures var r := InitFormatterAssets(root, cache);
            && cache <= r
            && (forall i :: |cache| <= i < |r| ==> Discovered(root.children, r[i]))
            && (forall t :: ConcreteBelow(root.children, t) ==> Cached(r, t))
            && (UniqueKeys(cache) ==> UniqueKeys(r))
  {
    ListFormattersSound(root.children, cache);
    forall t | ConcreteBelow(root.children, t)
      ensures Cached(InitFormatterAssets(root, cache), t)
    {
      ListFormattersComplete(root.children, cache, t);
    }
    if UniqueKeys(cache) {
      ListFormattersKeepsKeysUnique(root.children, cache);
    }
  }

  /** Running discovery a second time requests nothing new. */
  lemma DiscoveryIdempotent(root: TypeNode, cache: seq<Asset>)
    ensures InitFormatterAssets(root, InitFormatterAssets(root, cache)) == InitFormatterAssets(root, cache)
  {
    var r := InitFormatterAssets(root, cache);
    forall t | ConcreteBelow(root.children, t)
      ensures Cached(r, t)
    {
      ListFormattersComplete(root.children, cache, t);
    }
    ListFormattersNoOp(root.children, r);
  }

  /**
   A non-abstract type not yet cached, whose key no subtype shares, is
   requested after all of its subtypes: its asset is the last one created.
   */
  lemma SubtypesBeforeType(n: TypeNode, cache: seq<Asset>)
    requires !n.ty.isAbstract && !Cached(cache, n.ty)
    requires forall t :: TypeBelow(n.children, t) ==> RequestKey(t) != RequestKey(n.ty)
    ensures var r := ListFormatters([n], cache);
            |r| > |cache| && r[|r| - 1] == MakeAsset(n.ty)
  {
    var afterChildren := ListFormatters(n.children, cache);
    ListFormattersSound(n.children, cache);
    assert !Cached(afterChildren, n.ty) by {
      forall i | 0 <= i < |afterChildren|
        ensures Key(afterChildren[i]) != RequestKey(n.ty)
      {
        if i < |cache| {
          assert afterChildren[i] == cache[i];
        } else {
          assert Discovered(n.children, afterChildren[i]);
          assert Key(afterChildren[i]) == RequestKey(afterChildren[i].extractable);
        }
      }
    }
    assert [n][1..] == [];
  }
}
