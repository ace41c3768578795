/**
 The formatter registry's queries over the list of registered formatter
 assets: whether some formatter can load a URI, whether a URI can be
 saved to, which asset loads a URI, and which asset is the default.

 The registry is the sequence of assets in the order `ges_list_assets`
 returns them. Every query is a pure function of that sequence, so none
 of them changes the registry.
 */
module Registry {
  import opened Wrappers
  import opened FormatterTypes
  import opened Uri

  /** Whether the class of an asset's extractable type says it can load `uri`. */
  predicate Accepts(a: Asset, uri: string) {
    a.extractable.klass.canLoadUri(uri)
  }

  /** Whether some registered asset accepts `uri`. */
  ghost predicate SomeAccepts(reg: seq<Asset>, uri: string) {
    exists i :: 0 <= i < |reg| && Accepts(reg[i], uri)
  }

  /** Why a URI is turned away before any formatter is consulted. */
  datatype Rejection = InvalidUri | UnsupportedProtocol

  /**
   The URI check shared by the load and save queries: first validity,
   then the `file` protocol.
   */
  function CheckUri(syntax: UriSyntax, uri: string): (g: Option<Rejection>)
    ensures g == Some(InvalidUri) <==> !syntax.isValid(uri)
    ensures g == Some(UnsupportedProtocol) <==> syntax.isValid(uri) && !syntax.hasProtocol(uri, FileProtocol)
    ensures g.None? <==> syntax.isValid(uri) && syntax.hasProtocol(uri, FileProtocol)
  {
    if !syntax.isValid(uri) then Some(InvalidUri)
    else if !syntax.hasProtocol(uri, FileProtocol) then Some(UnsupportedProtocol)
    else None
  }

  /** The first index at or after `k` whose asset accepts `uri`. */
  function FirstAcceptorFrom(reg: seq<Asset>, uri: string, k: nat): (r: Option<nat>)
    requires k <= |reg|
    decreases |reg| - k
    ensures r.Some? ==> k <= r.value < |reg| && Accepts(reg[r.value], uri)
                        && forall j :: k <= j < r.value ==> !Accepts(reg[j], uri)
    ensures r.None? ==> forall j :: k <= j < |reg| ==> !Accepts(reg[j], uri)
  {
    if k == |reg| then None
    else if Accepts(reg[k], uri) then Some(k)
    else FirstAcceptorFrom(reg, uri, k + 1)
  }

  /** The registry scan: the first index, in registry order, whose asset accepts `uri`. */
  function FirstAcceptor(reg: seq<Asset>, uri: string): (r: Option<nat>)
    ensures r.Some? ==> r.value < |reg| && Accepts(reg[r.value], uri)
                        && forall j :: 0 <= j < r.value ==> !Accepts(reg[j], uri)
    ensures r.None? <==> !SomeAccepts(reg, uri)
  {
    FirstAcceptorFrom(reg, uri, 0)
  }

  /**
   `ges_formatter_can_load_uri`: FALSE for an invalid or non-`file` URI
   whatever the registry holds; otherwise TRUE exactly when some
   registered formatter accepts the URI.
   */
  function CanLoadUri(syntax: UriSyntax, reg: seq<Asset>, uri: string): (r: bool)
    ensures !syntax.isValid(uri) ==> !r
    ensures !syntax.hasProtocol(uri, FileProtocol) ==> !r
    ensures syntax.isValid(uri) && syntax.hasProtocol(uri, FileProtocol) ==> (r <==> SomeAccepts(reg, uri))
  {
    CheckUri(syntax, uri).None? && FirstAcceptor(reg, uri).Some?
  }

  /**
   How many `can_load_uri` predicates one call of `CanLoadUri` invokes:
   none when the URI check fails, otherwise every asset up to and
   including the first that accepts, or all of them when none does.
   */
  function PredicatesConsulted(syntax: UriSyntax, reg: seq<Asset>, uri: string): (n: nat)
    ensures CheckUri(syntax, uri).Some? ==> n == 0
    ensures n <= |reg|
    ensures forall j :: 0 <= j < n - 1 ==> !Accepts(reg[j], uri)
    ensures CheckUri(syntax, uri).None? ==>
              if SomeAccepts(reg, uri) then 0 < n && Accepts(reg[n - 1], uri) else n == |reg|
  {
    if CheckUri(syntax, uri).Some? then 0
    else match FirstAcceptor(reg, uri)
      case Some(i) => i + 1
      case None => |reg|
  }

  /**
   `ges_formatter_can_save_uri`: TRUE exactly for valid `file` URIs; no
   formatter is consulted, so it takes no registry.
   */
  function CanSaveUri(syntax: UriSyntax, uri: string): (r: bool)
    ensures r <==> syntax.isValid(uri) && syntax.hasProtocol(uri, FileProtocol)
  {
    CheckUri(syntax, uri).None?
  }

  /**
   `_find_formatter_asset_for_uri`: the first asset in registry order that
   accepts `uri`, or nothing. It does no URI check of its own.
   */
  function FindFormatterAssetForUri(reg: seq<Asset>, uri: string): (r: Option<Asset>)
    ensures r.None? <==> !SomeAccepts(reg, uri)
    ensures r.Some? ==> exists i :: 0 <= i < |reg| && reg[i] == r.value && Accepts(reg[i], uri)
                                    && forall j :: 0 <= j < i ==> !Accepts(reg[j], uri)
  {
    match FirstAcceptor(reg, uri)
    case Some(i) => Some(reg[i])
    case None => None
  }

  /** For a URI that passes the URI check, the load query says yes exactly when the finder finds an asset. */
  lemma CanLoadIffFound(syntax: UriSyntax, reg: seq<Asset>, uri: string)
    ensures CanLoadUri(syntax, reg, uri) <==> CheckUri(syntax, uri).None? && FindFormatterAssetForUri(reg, uri).Some?
  {
  }

  /** Every URI some formatter can load can also be saved to. */
  lemma LoadableIsSavable(syntax: UriSyntax, reg: seq<Asset>, uri: string)
    ensures CanLoadUri(syntax, reg, uri) ==> CanSaveUri(syntax, uri)
  {
  }

  /** Assets whose class keeps the base `can_load_uri` are never chosen to load anything. */
  lemma BasePredicateNeverLoads(syntax: UriSyntax, reg: seq<Asset>, uri: string)
    requires forall i :: 0 <= i < |reg| ==> reg[i].extractable.klass.canLoadUri == DefaultCanLoadUri
    ensures FindFormatterAssetForUri(reg, uri).None?
    ensures !CanLoadUri(syntax, reg, uri)
  {
    forall i | 0 <= i < |reg|
      ensures !Accepts(reg[i], uri)
    {
      assert reg[i].extractable.klass.canLoadUri(uri) == DefaultCanLoadUri(uri);
    }
  }

  /** Putting more assets after the registry never changes an asset already found. */
  lemma {:induction false} FindUnaffectedByLaterAssets(reg: seq<Asset>, more: seq<Asset>, uri: string)
    requires FindFormatterAssetForUri(reg, uri).Some?
    ensures FindFormatterAssetForUri(reg + more, uri) == FindFormatterAssetForUri(reg, uri)
  {
    var i := FirstAcceptor(reg, uri).value;
    var k := FirstAcceptor(reg + more, uri);
    assert (reg + more)[i] == reg[i];
    assert k.Some? && k.value == i by {
      assert Accepts((reg + more)[i], uri);
    }
  }

  // ---------------------------------------------------------------------
  // Default selection by rank
  // ---------------------------------------------------------------------

  /**
   Index `i` is the default: its rank is above GST_RANK_NONE, strictly
   above every earlier rank and at least every rank, so that among tied
   maxima the first wins.
   */
  ghost predicate IsDefaultIndex(reg: seq<Asset>, i: nat) {
    && i < |reg|
    && RankOf(reg[i]) > RankNone
    && (forall j :: 0 <= j < i ==> RankOf(reg[j]) < RankOf(reg[i]))
    && (forall j :: 0 <= j < |reg| ==> RankOf(reg[j]) <= RankOf(reg[i]))
  }

  /** `a` is the asset at the default index. */
  ghost predicate IsDefaultAsset(reg: seq<Asset>, a: Asset) {
    exists i: nat :: IsDefaultIndex(reg, i) && reg[i] == a
  }

  /** Every registered asset reads as GST_RANK_NONE. */
  ghost predicate AllUnranked(reg: seq<Asset>) {
    forall j :: 0 <= j < |reg| ==> RankOf(reg[j]) == RankNone
  }

  /**
   The state of the maximum scan after the first `k` assets: `best` is the
   highest rank seen, and `ret` the first asset that reached it, or
   nothing while every rank seen is GST_RANK_NONE.
   */
  ghost predicate ScanState(reg: seq<Asset>, k: nat, best: Rank, ret: Option<nat>) {
    && k <= |reg|
    && (ret.None? ==> best == RankNone && forall j :: 0 <= j < k ==> RankOf(reg[j]) == RankNone)
    && (ret.Some? ==>
          && ret.value < k
          && best == RankOf(reg[ret.value]) && best > RankNone
          && (forall j :: 0 <= j < ret.value ==> RankOf(reg[j]) < best)
          && (forall j :: 0 <= j < k ==> RankOf(reg[j]) <= best))
  }

  /** The rest of the maximum scan from position `k`: an asset replaces the current choice only on a strictly greater rank. */
  function DefaultScan(reg: seq<Asset>, k: nat, best: Rank, ret: Option<nat>): (r: Option<nat>)
    requires ScanState(reg, k, best, ret)
    decreases |reg| - k
    ensures r.Some? ==> IsDefaultIndex(reg, r.value)
    ensures r.None? <==> AllUnranked(reg)
  {
    if k == |reg| then ret
    else if RankOf(reg[k]) > best then DefaultScan(reg, k + 1, RankOf(reg[k]), Some(k))
    else DefaultScan(reg, k + 1, best, ret)
  }

  /** The position of the default asset, starting the scan from GST_RANK_NONE. */
  function DefaultIndex(reg: seq<Asset>): (r: Option<nat>)
    ensures r.Some? ==> IsDefaultIndex(reg, r.value)
    ensures r.None? <==> AllUnranked(reg)
  {
    DefaultScan(reg, 0, RankNone, None)
  }

  /**
   `ges_formatter_get_default`: the first asset of greatest rank, or
   nothing when the registry is empty or every rank is GST_RANK_NONE.
   */
  function GetDefault(reg: seq<Asset>): (r: Option<Asset>)
    ensures r.None? <==> AllUnranked(reg)
    ensures r.Some? ==> RankOf(r.value) > RankNone && forall j :: 0 <= j < |reg| ==> RankOf(reg[j]) <= RankOf(r.value)
    ensures r.Some? ==> IsDefaultAsset(reg, r.value)
  {
    match DefaultIndex(reg)
    case Some(i) => Some(reg[i])
    case None => None
  }

  /** At most one index is the default. */
  lemma DefaultIndexUnique(reg: seq<Asset>, i: nat, k: nat)
    requires IsDefaultIndex(reg, i) && IsDefaultIndex(reg, k)
    ensures i == k
  {
  }

  /** Among tied maximal ranks the earliest wins: a later tied asset is never the default. */
  lemma TiedMaximaFirstWins(reg: seq<Asset>, i: nat, k: nat)
    requires i < k < |reg| && RankOf(reg[i]) == RankOf(reg[k]) > RankNone
    ensures DefaultIndex(reg) != Some(k)
  {
  }

  /**
   Appending an asset to the registry makes it the default exactly when
   its rank beats the current default's rank (or, when there is none,
   GST_RANK_NONE); otherwise the default is unchanged.
   */
  lemma DefaultIndexAppend(reg: seq<Asset>, a: Asset)
    ensures var prior := match DefaultIndex(reg) case Some(i) => RankOf(reg[i]) case None => RankNone;
            DefaultIndex(reg + [a]) == if RankOf(a) > prior then Some(|reg|) else DefaultIndex(reg)
  {
    var ext := reg + [a];
    var old_ := DefaultIndex(reg);
    var prior := match old_ case Some(i) => RankOf(reg[i]) case None => RankNone;
    assert forall j :: 0 <= j < |reg| ==> ext[j] == reg[j];
    assert forall j :: 0 <= j < |reg| ==> RankOf(reg[j]) <= prior;
    if RankOf(a) > prior {
      assert IsDefaultIndex(ext, |reg|);
      DefaultIndexUnique(ext, |reg|, DefaultIndex(ext).value);
    } else if old_.Some? {
      assert IsDefaultIndex(ext, old_.value);
      DefaultIndexUnique(ext, old_.value, DefaultIndex(ext).value);
    } else {
      assert AllUnranked(ext);
    }
  }

  /** A registry whose every class keeps the base rank has no default. */
  lemma BaseRankedHasNoDefault(reg: seq<Asset>)
    requires forall i :: 0 <= i < |reg| ==> reg[i].metas == RegisterMetas(BaseClass())
    ensures GetDefault(reg).None?
  {
  }
}
