/**
 Concrete registries and URIs, checked against the general contracts.
 */
module Scenarios {
  import opened Wrappers
  import opened FormatterTypes
  import opened Uri
  import opened Registry

  /** A formatter type whose class accepts every URI and has the given name and rank. */
  function AcceptingType(id: TypeId, name: string, rank: Rank): (t: GType)
    ensures !t.isAbstract && t.klass.name == name && t.klass.rank == rank
    ensures forall uri :: t.klass.canLoadUri(uri)
  {
    var klass := ClassRegisterMetas(BaseClass(), name, "", "", "", 0.0, rank);
    GType(id, false, klass.(canLoadUri := uri => true))
  }

  /** Two formatters ranked 5 and 10: the default is the one ranked 10, wherever it sits. */
  lemma HigherRankIsDefault()
    ensures var a5 := MakeAsset(AcceptingType(1, "five", 5));
            var a10 := MakeAsset(AcceptingType(2, "ten", 10));
            GetDefault([a5, a10]) == Some(a10) && GetDefault([a10, a5]) == Some(a10)
  {
  }

  /** Two formatters of equal rank: the one first in registry order is the default. */
  lemma TiedRanksFirstIsDefault()
    ensures var a := MakeAsset(AcceptingType(1, "first", 256));
            var b := MakeAsset(AcceptingType(2, "second", 256));
            GetDefault([a, b]) == Some(a)
  {
  }

  /** A registry holding one formatter that accepts every URI. */
  function AcceptAll(): (reg: seq<Asset>)
    ensures |reg| == 1 && forall uri :: Accepts(reg[0], uri)
  {
    [MakeAsset(AcceptingType(1, "any", 128))]
  }

  /** Under RFC 3986 an `http` URI has scheme `http`, so it does not have the `file` protocol. */
  lemma HttpIsNotFile(uri: string)
    requires uri == "http://example.org/p.xges"
    ensures Rfc3986().isValid(uri) && !Rfc3986().hasProtocol(uri, FileProtocol)
  {
    assert IsScheme("http") by {
      assert IsAlpha("http"[0]);
    }
    assert uri == "http" + ":" + "//example.org/p.xges";
    SchemeOfPrefixed("http", "//example.org/p.xges");
    assert Lower("http")[0] == 'h' && Lower(FileProtocol)[0] == 'f';
  }

  /** Under RFC 3986 a `file` URI is valid and has the `file` protocol. */
  lemma FileIsFile(uri: string)
    requires uri == "file:///tmp/p.xges"
    ensures Rfc3986().isValid(uri) && Rfc3986().hasProtocol(uri, FileProtocol)
  {
    assert IsScheme("file") by {
      assert IsAlpha("file"[0]);
    }
    assert uri == "file" + ":" + "///tmp/p.xges";
    SchemeOfPrefixed("file", "///tmp/p.xges");
  }

  /**
   With a formatter that accepts every URI registered, an `http` URI is
   still refused and no formatter is consulted, although the finder,
   which checks no protocol, would pick that formatter.
   */
  lemma HttpRefusedDespiteAcceptingFormatter()
    ensures !CanLoadUri(Rfc3986(), AcceptAll(), "http://example.org/p.xges")
    ensures PredicatesConsulted(Rfc3986(), AcceptAll(), "http://example.org/p.xges") == 0
    ensures FindFormatterAssetForUri(AcceptAll(), "http://example.org/p.xges") == Some(AcceptAll()[0])
  {
    HttpIsNotFile("http://example.org/p.xges");
  }

  /** The same registry loads a `file` URI after consulting exactly one formatter. */
  lemma FileAcceptedAfterOneProbe()
    ensures CanLoadUri(Rfc3986(), AcceptAll(), "file:///tmp/p.xges")
    ensures PredicatesConsulted(Rfc3986(), AcceptAll(), "file:///tmp/p.xges") == 1
  {
    FileIsFile("file:///tmp/p.xges");
  }

  /** A string with no scheme is not a URI: refused even on an empty registry. */
  lemma SchemelessStringRefused()
    ensures !CanLoadUri(Rfc3986(), [], "p.xges")
    ensures !CanSaveUri(Rfc3986(), "p.xges")
  {
  }
}
