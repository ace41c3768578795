# GES formatter registry and driver, in Dafny

This project models the formatter core of the GStreamer Editing Services,
`ges/ges-formatter.c`. Formatters are the pluggable handlers that load a
timeline from a URI and save it back. The core has four parts:

- **URI gating and routing.** `ges_formatter_can_load_uri` turns away invalid and non-`file` URIs. Then it asks each registered formatter asset, in registry order, whether its class can load the URI. `_find_formatter_asset_for_uri` returns the first such asset. `ges_formatter_can_save_uri` only checks the URI.
- **Default selection.** `ges_formatter_get_default` scans the assets' rank metadata. It keeps an asset only on a strictly greater rank, and the scan starts from `GST_RANK_NONE`.
- **Load/save driver.** `ges_formatter_load_from_uri` binds the formatter to the timeline. It turns timeline updates off, runs the class's load routine and turns updates back on. `ges_formatter_save_to_uri` runs the save routine and passes its error on.
- **Discovery.** `_init_formatter_assets` walks the GType tree below GESFormatter, subtypes first. It requests an asset for every non-abstract type. The class metadata is copied into that asset (`_register_metas`), and the asset id is the class name (`extractable_check_id`).

Modules, one per part:

| file | module | contents |
|---|---|---|
| wrappers.dfy | `Wrappers` | `Option`, standing for a possibly-NULL pointer |
| formatter_types.dfy | `FormatterTypes` | classes (metadata and virtual methods), GTypes, assets, formatter instances, timelines; the class-level helpers |
| uri.dfy | `Uri` | the URI syntax the registry is parameterised by, and a concrete RFC 3986 scheme syntax used in scenarios |
| registry.dfy | `Registry` | can-load, can-save, find-for-URI, default-by-rank |
| lifecycle.dfy | `Lifecycle` | load, save, project back-reference, dispose |
| discovery.dfy | `Discovery` | the type-tree walk and the asset-request cache |
| scenarios.dfy | `Scenarios` | concrete registries and URIs |

A class's virtual methods (`can_load_uri`, `can_save_uri`, `load_from_uri`, `save_to_uri`) are function-valued fields of `FormatterClass`. A NULL routine is `None`. The properties therefore hold for every concrete formatter.

`gst_uri_is_valid` and `gst_uri_has_protocol` are GStreamer functions. They are the two fields of a `UriSyntax` parameter, and every registry property holds for any syntax. `Uri.Rfc3986()` is one concrete instance. It follows the scheme rule of section 3.1 of RFC 3986 and is used only for the concrete scenarios.

`ges_asset_request` and `ges_list_assets` are defined in ges-asset.c, which is not part of this model:

- Discovery models the asset request as a cache keyed by (type, id). The first request for a key appends a new asset; later requests return the cached one.
- The registry queries take the asset list as a sequence in whatever order `ges_list_assets` returns it.

### Behaviour worth noting

- On an invalid or non-`file` URI, `ges_formatter_can_load_uri` and `ges_formatter_can_save_uri` log and return FALSE (ges/ges-formatter.c:184-194, 227-237). They set no error. `Registry.CheckUri` names the reason, but the two queries return only the boolean.
- `_find_formatter_asset_for_uri` checks neither URI validity nor the protocol (ges/ges-formatter.c:412-436). `Scenarios.HttpRefusedDespiteAcceptingFormatter` shows it picking a formatter for an `http` URI that `CanLoadUri` refuses.
- `ges_formatter_save_to_uri` without a save routine returns FALSE and sets no error (ges/ges-formatter.c:303-306).
- `ges_formatter_get_default` returns NULL when the registry is empty and also when every rank is `GST_RANK_NONE`, because its comparison is strict and starts from `GST_RANK_NONE` (ges/ges-formatter.c:332-343).
- A save error reaches the caller only if the caller passed a place for it; otherwise `g_propagate_error` frees it (ges/ges-formatter.c:308-311).
- `ges_formatter_load_from_uri` hands the caller's error location to the load routine as it is (ges/ges-formatter.c:261, 272), so a caller that passes NULL gets no error back either.

## Model

| member | source | states |
|---|---|---|
| `FormatterTypes.CheckId` | ges/ges-formatter.c:54-64 | the asset id is the requested id when one is given, otherwise the class name |
| `FormatterTypes.RegisterMetas` | ges/ges-formatter.c:77-98 | a new asset's metadata holds the class's name, description, MIME type, extension, version and rank, and the rank is present |
| `FormatterTypes.BaseClass` | ges/ges-formatter.c:109-131 | the base class has rank `GST_RANK_NONE`, version 0, the placeholder name, refusing can-load/can-save predicates and no load or save routine |
| `FormatterTypes.NewFormatter` | ges/ges-formatter.c:133-139 | a new formatter has no project |
| `FormatterTypes.DefaultCanLoadUri` | ges/ges-formatter.c:147-154 | the base `can_load_uri` refuses every URI |
| `FormatterTypes.DefaultCanSaveUri` | ges/ges-formatter.c:156-163 | the base `can_save_uri` refuses every URI |
| `FormatterTypes.ClassRegisterMetas` | ges/ges-formatter.c:350-361 | the six metadata fields take the given values and the virtual methods are untouched |
| `FormatterTypes.RegisteredMetasReadBack` | ges/ges-formatter.c:84-95 | metadata registered on the class reads back unchanged from the asset requested for its type, which has the registered name as id and the registered rank |
| `FormatterTypes.BaseClassAssetIsUnranked` | ges/ges-formatter.c:124-130 | a type that keeps the base metadata gets id `base-formatter` and reads as unranked |
| `FormatterTypes.MakeAsset` | ges/ges-formatter.c:396 | the asset requested for a type with no id has that type as extractable type, the class name as id and the class's metadata |
| `FormatterTypes.RankOf` | ges/ges-formatter.c:336-338 | the rank read from an asset is its rank metadata, or `GST_RANK_NONE` when that is missing |
| `Registry.CheckUri` | ges/ges-formatter.c:184-194 | a URI is refused as invalid exactly when it is not valid, as unsupported exactly when it is valid but not `file`, and passes exactly when it is a valid `file` URI |
| `Registry.FirstAcceptorFrom` | ges/ges-formatter.c:197-207 | the scan from a position returns the first later asset whose class accepts the URI, or nothing when none does |
| `Registry.FirstAcceptor` | ges/ges-formatter.c:196-207 | the registry scan returns the first accepting asset in registry order; it returns nothing exactly when no asset accepts |
| `Registry.CanLoadUri` | ges/ges-formatter.c:177-211 | FALSE for an invalid or non-`file` URI whatever the registry holds; for a valid `file` URI, TRUE exactly when some asset accepts it |
| `Registry.PredicatesConsulted` | ges/ges-formatter.c:184-207 | no class predicate is consulted when the URI check fails; otherwise the scan stops at the first acceptor, or consults every asset when none accepts |
| `Registry.CanSaveUri` | ges/ges-formatter.c:224-244 | TRUE exactly for valid `file` URIs, with no formatter consulted |
| `Registry.FindFormatterAssetForUri` | ges/ges-formatter.c:412-436 | the first asset in registry order whose class accepts the URI, or nothing exactly when none does; no URI check |
| `Registry.CanLoadIffFound` | ges/ges-formatter.c:196-210 | can-load is TRUE exactly when the URI check passes and the finder finds an asset |
| `Registry.LoadableIsSavable` | ges/ges-formatter.c:224-244 | every URI some formatter can load can also be saved to |
| `Registry.BasePredicateNeverLoads` | ges/ges-formatter.c:147-154 | if every class keeps the base `can_load_uri`, nothing is found and nothing can be loaded |
| `Registry.FindUnaffectedByLaterAssets` | ges/ges-formatter.c:419-431 | assets after the first acceptor do not change what the finder returns |
| `Registry.DefaultScan` | ges/ges-formatter.c:335-344 | the maximum scan, continued from any consistent state, ends at the default index; it ends with nothing exactly when every rank is `GST_RANK_NONE` |
| `Registry.DefaultIndex` | ges/ges-formatter.c:330-347 | the chosen index has a rank above `GST_RANK_NONE`, strictly above every earlier rank and at least every rank; there is none exactly when all ranks are `GST_RANK_NONE` |
| `Registry.GetDefault` | ges/ges-formatter.c:327-348 | returns an asset whose rank is above `GST_RANK_NONE` and at least every registered rank, namely the one at the default index (the first of tied maxima); returns nothing exactly when the registry is empty or every rank is `GST_RANK_NONE` |
| `Registry.DefaultIndexUnique` | ges/ges-formatter.c:340-343 | at most one index meets the default characterisation |
| `Registry.TiedMaximaFirstWins` | ges/ges-formatter.c:340-343 | of two assets tied at a rank above `GST_RANK_NONE`, the later one is never the default |
| `Registry.DefaultIndexAppend` | ges/ges-formatter.c:335-344 | appending an asset makes it the default exactly when its rank beats the current default's rank, or `GST_RANK_NONE` when there is none; otherwise the default stays |
| `Registry.BaseRankedHasNoDefault` | ges/ges-formatter.c:130 | if every asset carries the base class's metadata, there is no default |
| `Lifecycle.Suspended` | ges/ges-formatter.c:270 | the load routine sees the same timeline with updates turned off |
| `Lifecycle.LoadFromUri` | ges/ges-formatter.c:259-277 | without a routine: FALSE, with formatter and timeline unchanged and no error; with one: the routine's flag, its error only when the caller gave a place for it, the formatter bound to the caller's timeline, which is still the caller's timeline afterwards (same id) with the routine's contents and updates turned on |
| `Lifecycle.LoadBindsFormatterToTimeline` | ges/ges-formatter.c:269-272 | after a load through a routine the formatter is bound to exactly the timeline the load leaves behind, the caller's own |
| `Lifecycle.LoadRestoresUpdates` | ges/ges-formatter.c:269-274 | updates are on after a load whenever a routine ran, whatever it returned, and are never turned off by a load |
| `Lifecycle.LoadIgnoresPriorUpdateState` | ges/ges-formatter.c:269-273 | with a routine, the outcome of a load does not depend on whether updates were on before |
| `Lifecycle.LoadWithoutRoutineIsNoOp` | ges/ges-formatter.c:263-276 | without a routine a load returns FALSE, and repeating it on its own result gives the same result |
| `Lifecycle.SaveToUri` | ges/ges-formatter.c:293-317 | without a routine: FALSE and no error; with one: the routine's flag, and its error when the caller gave a place for it |
| `Lifecycle.LoadErrorComesFromRoutine` | ges/ges-formatter.c:261-272 | an error a load reports is the routine's own, and only a caller that passed an error location gets one |
| `Lifecycle.SaveErrorComesFromRoutine` | ges/ges-formatter.c:297-311 | any error a save reports is the save routine's own, unchanged, and only reaches a caller that asked for it |
| `Lifecycle.BaseFormatterDoesNothing` | ges/ges-formatter.c:120-121 | a formatter of the base class loads nothing and saves nothing, leaving everything unchanged and setting no error |
| `Lifecycle.SetProject` | ges/ges-formatter.c:366-370 | the project reference becomes the given one; class and timeline binding are unchanged |
| `Lifecycle.GetProject` | ges/ges-formatter.c:372-376 | the project reference is returned |
| `Lifecycle.Dispose` | ges/ges-formatter.c:141-145 | disposing drops the project reference and nothing else |
| `Lifecycle.ProjectRoundTrip` | ges/ges-formatter.c:366-376 | getting after setting returns what was set; a second set overrides the first; setting what was read changes nothing |
| `Lifecycle.LoadKeepsProject` | ges/ges-formatter.c:269-272 | the driver itself does not touch the project reference (a routine could; see Left out) |
| `Discovery.Request` | ges/ges-formatter.c:396 | after an asset request the type is cached; an asset is appended only if none was cached under its key |
| `Discovery.ListFormatters` | ges/ges-formatter.c:378-399 | the walk keeps the cache it starts from as a prefix; what it appends, and that it caches every non-abstract type, is stated by the `ListFormatters*` lemmas below |
| `Discovery.ListFormattersSound` | ges/ges-formatter.c:378-399 | the walk only appends to the cache, and every appended asset is the asset of a non-abstract type in the walked forest |
| `Discovery.CachedStaysCached` | ges/ges-formatter.c:378-399 | the walk never drops a cached type |
| `Discovery.ListFormattersComplete` | ges/ges-formatter.c:384-397 | after the walk every non-abstract type in the forest is cached, at any depth, including subtypes of abstract types |
| `Discovery.ListFormattersNoOp` | ges/ges-formatter.c:378-399 | when every non-abstract type in the forest is already cached, the walk changes nothing |
| `Discovery.ListFormattersKeepsKeysUnique` | ges/ges-formatter.c:393-397 | the walk never creates two assets under one (type, id) key |
| `Discovery.InitFormatterAssets` | ges/ges-formatter.c:401-410 | discovery keeps the cache it starts from as a prefix; its other properties are stated by `DiscoveryRequestsConcreteSubtypes` and `DiscoveryIdempotent` |
| `Discovery.DiscoveryRequestsConcreteSubtypes` | ges/ges-formatter.c:401-410 | discovery keeps the cache as a prefix, creates assets only for non-abstract types below the root formatter type, caches all of them, and keeps keys unique |
| `Discovery.DiscoveryIdempotent` | ges/ges-formatter.c:401-410 | running discovery twice gives the same cache as running it once |
| `Discovery.SubtypesBeforeType` | ges/ges-formatter.c:384-397 | a non-abstract type is requested after all its subtypes: its asset is the last one created |
| `Scenarios.HigherRankIsDefault` | ges/ges-formatter.c:327-348 | with formatters ranked 5 and 10, the default is the one ranked 10 in either order |
| `Scenarios.TiedRanksFirstIsDefault` | ges/ges-formatter.c:340-343 | with two formatters of equal rank, the one first in registry order is the default |
| `Scenarios.HttpRefusedDespiteAcceptingFormatter` | ges/ges-formatter.c:189-194 | an `http` URI is refused with no formatter consulted, even when a registered formatter accepts every URI |
| `Scenarios.FileAcceptedAfterOneProbe` | ges/ges-formatter.c:196-205 | the same registry loads a `file` URI after consulting exactly one formatter |
| `Scenarios.SchemelessStringRefused` | ges/ges-formatter.c:184-187 | a string with no scheme is refused by both queries, even with an empty registry |

## Left out

- ges/ges-audio-track.c: it builds caps from constant strings and creates an element through GStreamer. The caps parsing and element creation are GStreamer code outside this model.
- ges/ges-timeline-layer.h: it only declares the layer. No ordering code stands behind its comment, so there is nothing to model.
- GObject machinery is not modelled: type registration, class init and ref/unref, private structs, floating references and object references. Neither are the `g_return_val_if_fail` instance checks of `ges_formatter_load_from_uri`; in a typed model they always pass.
- Logging (`GST_DEBUG`, `GST_ERROR`, `GST_WARNING`, `GST_INFO`) is not modelled.
- `extractable_get_id` (ges/ges-formatter.c:66-75): the link from an instance to its asset belongs to ges-extractable.c, which is not part of this model.
- `gst_uri_is_valid`, `gst_uri_has_protocol` and `gst_uri_get_protocol` are abstract parameters. The protocol string is only logged.
- Registry.CanLoadUri: it does not model the `GError` each class predicate receives. The model's predicates return only a boolean.
- The meta container behind `_register_metas` is not modelled. Metadata is a record of the six fields.
- The `gdouble` version is carried as a real number and only copied. No floating-point behaviour is modelled.
- Lifecycle.LoadFromUri: the load routine receives the timeline and the URI, but not the formatter instance. Changes a routine might make to its formatter, such as setting its project, are not modelled. Nor is a routine that behaves differently depending on whether it was given an error location.
- Lifecycle.SaveToUri: the save routine receives the timeline, the URI and the overwrite flag, but not the formatter instance, and its result carries no timeline. Changes a routine might make to its formatter or to the timeline it saves are not modelled.
- The concrete load and save routines do file I/O. Here they are arbitrary functions of their arguments.
- `ges_timeline_enable_update` is modelled only by its flag. The graph rebuild it triggers is GES timeline code outside this model.
- The order in which `ges_list_assets` lists the cache is not modelled. The registry queries take any asset sequence.
- Concurrency: discovery runs once and the calls are sequential, so no interleavings are modelled.
