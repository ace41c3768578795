/**
 The data the formatter registry works on: formatter classes (their
 metadata and their virtual methods), the GTypes that carry them, the
 assets registered for them, formatter instances and the timeline a
 formatter loads into.

 GObject machinery (class references, private structs, floating
 references, dispose chains) is not represented: a class is a plain
 value and a virtual method is a function-valued field.
 */
module FormatterTypes {
  import opened Wrappers

  /** A GstRank: an unsigned 32-bit enumeration value; larger is preferred. */
  type Rank = r: int | 0 <= r < 0x1_0000_0000

  /** GST_RANK_NONE. */
  const RankNone: Rank := 0

  /** The gdouble version field. It is only ever copied, never computed with. */
  type Version = real

  type TypeId = nat
  type TimelineId = nat
  type ProjectId = nat
  type LayerId = nat

  /** A GError: its domain, code and message are carried opaquely. */
  datatype Error = Error(domain: string, code: int, message: string)

  /**
   The part of a GESTimeline the formatter driver touches: its identity,
   whether automatic updates are enabled, and the layers a load routine
   may populate.
   */
  datatype Timeline = Timeline(id: TimelineId, updateEnabled: bool, layers: seq<LayerId>)

  /** What a concrete load routine reports: success, the timeline it produced and any error it set. */
  datatype LoadRun = LoadRun(ok: bool, timeline: Timeline, error: Option<Error>)

  /** What a concrete save routine reports: success and any error it set. */
  datatype SaveRun = SaveRun(ok: bool, error: Option<Error>)

  /** A concrete `load_from_uri` virtual method, applied to the timeline and the URI. */
  type LoadRoutine = (Timeline, string) -> LoadRun

  /** A concrete `save_to_uri` virtual method, applied to the timeline, the URI and the overwrite flag. */
  type SaveRoutine = (Timeline, string, bool) -> SaveRun

  /**
   A GESFormatterClass: the six metadata fields and the four virtual
   methods. An absent load or save routine is a NULL function pointer.
   */
  datatype FormatterClass = FormatterClass(
    name: string,
    description: string,
    extension: string,
    mimetype: string,
    version: Version,
    rank: Rank,
    canLoadUri: string -> bool,
    canSaveUri: string -> bool,
    loadFromUri: Option<LoadRoutine>,
    saveToUri: Option<SaveRoutine>)

  /** A GType below GESFormatter: its identity, whether it is abstract, and its class. */
  datatype GType = GType(id: TypeId, isAbstract: bool, klass: FormatterClass)

  /**
   The readable metadata an asset's meta container holds for a formatter.
   The rank is optional because reading it can fail, in which case the
   registry falls back to GST_RANK_NONE.
   */
  datatype Metas = Metas(
    name: string,
    description: string,
    mimetype: string,
    extension: string,
    version: Version,
    rank: Option<Rank>)

  /** A GESAsset for a formatter: its id, the extractable type and its metadata. */
  datatype Asset = Asset(id: string, extractable: GType, metas: Metas)

  /**
   A GESFormatter instance: its class, the timeline it was last bound to
   and its weak back-reference to the owning project.
   */
  datatype Formatter = Formatter(klass: FormatterClass, timeline: Option<TimelineId>, project: Option<ProjectId>)

  /** The base class's `can_load_uri`: no formatter of this class can load anything. */
  function DefaultCanLoadUri(uri: string): (r: bool)
    ensures !r
  {
    false
  }

  /** The base class's `can_save_uri`: no formatter of this class can save anything. */
  function DefaultCanSaveUri(uri: string): (r: bool)
    ensures !r
  {
    false
  }

  const BaseName: string := "base-formatter"
  const BaseExtension: string := "noextension"
  const BaseDescription: string := "Formatter base class, you should give a name to your formatter"
  const BaseMimetype: string := "No mimetype"

  /**
   The class as the base class initialiser leaves it: placeholder
   metadata, rank GST_RANK_NONE, refusing predicates and no routines.
   */
  function BaseClass(): (c: FormatterClass)
    ensures c.name == BaseName && c.rank == RankNone && c.version == 0.0
    ensures c.loadFromUri.None? && c.saveToUri.None?
    ensures forall uri :: !c.canLoadUri(uri) && !c.canSaveUri(uri)
  {
    FormatterClass(BaseName, BaseDescription, BaseExtension, BaseMimetype, 0.0, RankNone,
                   DefaultCanLoadUri, DefaultCanSaveUri, None, None)
  }

  /** A fresh formatter instance: bound to no timeline and owned by no project. */
  function NewFormatter(klass: FormatterClass): (f: Formatter)
    ensures f.klass == klass && f.timeline.None? && f.project.None?
  {
    Formatter(klass, None, None)
  }

  /**
   A subclass's static registration of its metadata: the six fields are
   overwritten and the virtual methods are left as they were.
   */
  function ClassRegisterMetas(klass: FormatterClass, name: string, description: string,
                              extension: string, mimetype: string, version: Version,
                              rank: Rank): (c: FormatterClass)
    ensures c.name == name && c.description == description && c.extension == extension
    ensures c.mimetype == mimetype && c.version == version && c.rank == rank
    ensures c.canLoadUri == klass.canLoadUri && c.canSaveUri == klass.canSaveUri
    ensures c.loadFromUri == klass.loadFromUri && c.saveToUri == klass.saveToUri
  {
    klass.(name := name, description := description, extension := extension,
           mimetype := mimetype, version := version, rank := rank)
  }

  /** The metadata registered on a new asset: each class field is copied, and the rank is present. */
  function RegisterMetas(klass: FormatterClass): (m: Metas)
    ensures m.name == klass.name && m.description == klass.description
    ensures m.mimetype == klass.mimetype && m.extension == klass.extension
    ensures m.version == klass.version && m.rank == Some(klass.rank)
  {
    Metas(klass.name, klass.description, klass.mimetype, klass.extension, klass.version, Some(klass.rank))
  }

  /** The asset id for a requested id: the id itself when given, otherwise the class name. */
  function CheckId(klass: FormatterClass, id: Option<string>): (r: string)
    ensures id.Some? ==> r == id.value
    ensures id.None? ==> r == klass.name
  {
    match id
    case Some(given) => given
    case None => klass.name
  }

  /** The asset created when a type is requested without an id. */
  function MakeAsset(t: GType): (a: Asset)
    ensures a.extractable == t
    ensures a.id == CheckId(t.klass, None)
    ensures a.metas == RegisterMetas(t.klass)
  {
    Asset(CheckId(t.klass, None), t, RegisterMetas(t.klass))
  }

  /** The rank the registry reads from an asset's metadata, GST_RANK_NONE when it is missing. */
  function RankOf(a: Asset): (r: Rank)
    ensures a.metas.rank.Some? ==> r == a.metas.rank.value
    ensures a.metas.rank.None? ==> r == RankNone
  {
    a.metas.rank.GetOr(RankNone)
  }

  /**
   Registering a class's metadata and then requesting its asset yields an
   asset whose id is the registered name and whose metadata reads back
   exactly the registered values.
   */
  lemma RegisteredMetasReadBack(t: GType, name: string, description: string, extension: string,
                                mimetype: string, version: Version, rank: Rank)
    ensures var a := MakeAsset(t.(klass := ClassRegisterMetas(t.klass, name, description, extension,
                                                               mimetype, version, rank)));
            && a.id == name
            && a.metas == Metas(name, description, mimetype, extension, version, Some(rank))
            && RankOf(a) == rank
  {
  }

  /** A type that keeps the base class's metadata gets the placeholder id and reads as unranked. */
  lemma BaseClassAssetIsUnranked(id: TypeId, isAbstract: bool)
    ensures var a := MakeAsset(GType(id, isAbstract, BaseClass()));
            a.id == BaseName && RankOf(a) == RankNone
  {
  }
}
