# hardpoint, modelled in Dafny

hardpoint is a data pipeline for game vehicles. Python scripts read the
vendor's XML and JSON definition trees. They normalise them, patch
vehicle modifications into them, prune them against schema tables and
extract compact vehicle, item and loadout records. A browser front end
reads those records. It builds trees of port bindings, groups identical
bindings for display, and packs a customised loadout into a short URL
string that it can read back.

This project models the deterministic core of both halves:

- **Element trees** (`TreeStore`, `Py`). These are the dictionaries
  `read_xml_tree` builds, with `"@"` attributes, lower-cased child tags
  and optional `"#text"`. Python values are one `Json` datatype whose
  dictionaries are ordered entry lists. The runtime operations the
  scripts use (`single`, `get`, `d[k]`, `int()`, iteration) return
  Python's exceptions as values.
- **Locating and patching** (`Locator`, `Patch`). This covers the
  pre-order `@id` search and the three variants of `modify_vehicle`:
  inline overrides, then wholesale replacement from a patch tree.
- **Schema projection** (`Projection`). This is `apply_filters` as a
  class that holds the `filter_usage` counters. It prunes a tree to the
  dotted schema paths, with and without the case-normalisation pass.
- **Extraction** (`Extract`, `Hiding`, `ItemPort`, `ItemFactory`,
  `Loadout`, `VehicleWalk`, `VehicleLegacy`, `VehicleFactory`,
  `Links`). This covers:
  - `localize_key`, `read_lines_file`, `find_forge_entries` and the
    hidden-vehicle predicates;
  - both `_make_item_port`s and the structural part of `make_item`;
  - manual loadouts;
  - the `walk_parts` accumulators of both vehicle scripts;
  - `resolve_link`.
- **Loadout codec** (`Codec`, `RecordWalks`, `Storage`). This covers:
  - `hashString` with signed 32-bit truncation;
  - `encodeInt24` as base64url (sections 4 and 5 of RFC 4648);
  - the small-int characters and the B/G record grammar of `serialize`
    and `deserialize`, with their round trip;
  - the in-memory `LoadoutStorage` maps.
- **Bindings** (`Bindings`, `BindingTrees`, `Ships`). This covers:
  - port/item matching, `path`, `getDefaultItem`, `_walkBindings`,
    `sizeCategory` and `setItem`;
  - the default-filled loadout constructor;
  - the `ShipId` loadout resolution, `_findParts`, `ItemPortType`,
    `matchesType`/`matchesComponent`, attached components and merged
    components.
- **Grouping** (`Grouping`, `Controller`). This covers:
  - first-fit `makeGroups` as a partition;
  - group names, `identical` and `similarTurrets`;
  - section assignment, `filterBindings`, and the stock, equipped and
    required item counts.

Where the source mutates, the model does too. Classes with `modifies`
frames are used for the vehicle walkers, the projection counters, the
loadout store and the ship customisation. Methods with loop invariants
cover the loops that accumulate. Each of these is proved against a
function that states its result. Recursive, pure code is modelled as
functions with lemmas.

## Model

| member | source | states |
|---|---|---|
| TreeStore.ReadXmlTree | next/scripts/xml_reader.py:23-33 | the element read becomes exactly `Tree(e, withText)`: attributes copied, non-blank text kept under `"#text"` (only in this variant; the copy at next/scripts/extract.py:36-43 is `withText == false`), then each child appended |
| TreeStore.CopyAttributes | next/scripts/xml_reader.py:24 | the comprehension's dict: each attribute under `"@"` plus its lower-cased name, assigned in attribute order so a later clash wins |
| TreeStore.AppendChild | next/scripts/xml_reader.py:29-32 | the list under the child key is created when missing and the sub-tree appended to it; no other key changes |
| TreeStore.TreeChildren | next/scripts/xml_reader.py:28-32 | every child key holds the sub-trees of exactly the children whose lower-cased tag is that key, in document order |
| TreeStore.TreeAttribute | next/scripts/xml_reader.py:24 | every attribute is found under `"@"` plus its lower-cased name with its value, unless a later attribute lower-cases to the same name |
| TreeStore.TreeAttrKeys | next/scripts/xml_reader.py:24-26 | the only `@`/`#` keys are the attributes' and `"#text"`, present exactly when the text variant sees non-blank text, holding that text |
| TreeStore.TreeKeysLower | next/scripts/xml_reader.py:24-29 | every key of the dict built for one element is lower-case |
| TreeStore.TreeLowerKeys | next/scripts/xml_reader.py:23-33 | no dict at any depth of the tree has a key with an upper-case letter |
| TreeStore.TreeChildCount | next/scripts/xml_reader.py:28-32 | the child lists together hold one sub-tree per child element |
| TreeStore.TreeValid | next/scripts/xml_reader.py:23-33 | every dict in a tree read from XML has distinct keys |
| TreeStore.Single | next/scripts/xml_reader.py:5-20 | `single`: None for an absent or None entry, the first item of a list (None when empty), and `KeyError` exactly for a present non-list entry (same code at next/scripts/extract.py:18-33) |
| TreeStore.TreeValuesNotDicts | next/scripts/extract.py:36-43 | every value of a read tree is an attribute string or a list of child trees |
| TreeStore.SingleChild | next/scripts/xml_reader.py:5-33 | on a tree read from XML, `single(tag)` is the tree of the first child with that tag up to case, or None when there is none |
| TreeStore.SingleAttribute | next/scripts/xml_reader.py:11-12 | `single` of an attribute key (or `"#text"`) of a read tree raises `KeyError` |
| TreeStore.SingleOf | next/scripts/xml_reader.py:4-5 | only the dicts `read_xml_tree` builds have `single`; on any other value the call is an `AttributeError` |
| TreeStore.LowerKeysSingle | next/scripts/xml_reader.py:5-20 | what `single` returns from a tree without upper-case keys has none either |
| Py.ElementArray | scripts/extract_data.py:9-14 | None becomes `[]`, a list stays as it is, any other value is wrapped in a one-element list |
| Py.ElementArrayIdempotent | scripts/extract_data.py:9-14 | applying `element_array` to its own result changes nothing, and every element comes from the input |
| Extract.ReadLinesFile | next/scripts/extract.py:51-59 | the patterns are `KeptLines(lines)`: each line stripped, kept when non-empty and not a `#` comment, in file order (same code at scripts/extract.py:18-26) |
| Extract.KeptLinesAppend | next/scripts/extract.py:54-57 | lines are handled independently and in order: the patterns of `a + b` are those of `a` followed by those of `b` |
| Extract.KeptLine | next/scripts/extract.py:55-57 | one line yields its stripped text when that is non-empty and not a comment, and nothing otherwise |
| Extract.KeptLinesShape | next/scripts/extract.py:51-59 | at most one pattern per line, and every pattern is non-empty, not a comment and has no whitespace at either end |
| Extract.LocalizeKey | next/scripts/extract.py:90-98 | a falsy key leaves the container as it is; a truthy string key is replaced by its localization, or None when there is none or it starts with `"<="`; an unhashable key is a `TypeError`; no other key changes (same code at scripts/extract.py:57-65) |
| Extract.Selected | next/scripts/extract.py:103 | a child is yielded exactly when its tag starts with the type and its `__path` starts with one of the paths; a missing `__path` raises only when the tag matches and there are paths to test |
| Extract.ForgeEntriesSound | next/scripts/extract.py:101-104 | every yielded entry is a selected child, in document order; the generator stops early exactly when some child lacks `__path`; otherwise no selected child is missed (same code at scripts/extract.py:68-71) |
| Extract.FindForgeEntries | next/scripts/extract.py:101-104 | consuming the generator gives `ForgeEntries`: the selected children and the error it stops with |
| Hiding.FirstFragment | scripts/extract_data.py:139-141 | the loop stops at the first fragment, in list order, that occurs in the name; none before it does |
| Hiding.AnyInSubstring | scripts/extract_data.py:139-143 | the loop returns True exactly when some fragment is a substring of the name |
| Hiding.AnyInAppend | scripts/extract_data.py:138 | looking through concatenated lists finds a fragment exactly when one of the lists does |
| Hiding.AnyInSubset | scripts/extract_data.py:139-143 | looking through more fragments finds at least as much |
| Hiding.HiddenVehicleNameIff | scripts/extract_data.py:132-143 | a vehicle is hidden exactly when one of the four lists has a fragment of its name |
| Hiding.HiddenIff | scripts/acquire_data.py:50-69 | the three loops of `hidden` return True exactly when some fragment of the three lists is a substring of the name |
| Hiding.HiddenStaysHidden | scripts/extract_data.py:132-143 | every name the earlier `hidden` hides is hidden by `hidden_vehicle_name` too |
| Links.MatchUrl | scripts/download.py:7 | `re_url.match`: a match splits the link into an origin that prefixes it and an optional path that starts with `/` and holds no newline (a final newline may follow, as `$` allows) |
| Links.MatchAbsolute | scripts/download.py:7 | a scheme of `[a-zA-Z_-]`, `://`, a host without `/` and an optional newline-free path match, with exactly those groups |
| Links.ResolveAbsolute | scripts/download.py:10-16 | an absolute link without a path gains a trailing `/`; one with a path is returned unchanged |
| Links.ResolveRooted | scripts/download.py:17-20 | a link starting with `/` is prefixed by the scheme and host of the base URL |
| Links.ResolveRelative | scripts/download.py:21-26 | any other link is appended to the base, with a `/` inserted only when the base does not end with one |
| Links.ResolveLink | scripts/download.py:9-26 | fails exactly for an empty relative link (IndexError), a rooted link against a base the pattern rejects (AttributeError) or a relative link against an empty base (IndexError); an absolute link comes back as itself or with a `/` added; any other link ends the result |
| Links.ListingBase | scripts/download.py:34-39 | the parser's base is the URL with a trailing `/`, extending the URL |
| Links.ListingRelative | scripts/download.py:42-49 | a relative `href` resolves to the base plus the link, with no doubled `/` |
| Links.ListingSkipsEmpty | scripts/download.py:46-47 | an empty `href` is skipped and never reaches `resolve_link` |
| Links.HandleHref | scripts/download.py:42-49 | an empty `href` gives no link; any other succeeds exactly when `resolve_link` does, and gives its result |
| Locator.SetChild | scripts/extract_data.py:181-182 | replacing one child keeps the other children, a dict's keys and the kind of container |
| Locator.SetAtHere | scripts/extract_data.py:169 | after a node is replaced, its path leads to the new node |
| Locator.SetAtBelow | scripts/extract_data.py:181-182 | below the replaced node lies exactly the new node's content |
| Locator.SetAtElsewhere | scripts/extract_data.py:169 | a node off the replaced node's path, neither above nor below it, is unchanged |
| Locator.SetAtValid | scripts/extract_data.py:181-182 | replacing a node keeps every dict's keys distinct |
| Locator.FindElement | scripts/extract_data.py:145-159 | a found path leads to a dict whose `"@id"` equals the id |
| Locator.FindAmong | scripts/extract_data.py:155-158 | the children are searched in order from the given position; a result lies under one of them and is a truthy match |
| Locator.FindElementFirst | scripts/extract_data.py:145-159 | the search finds nothing exactly when no node matches, and otherwise the first match in pre-order (a node before its descendants, siblings in order) |
| Locator.FindAmongFirst | scripts/extract_data.py:155-158 | the same, restricted to the children from the given position on |
| Patch.FindModification | scripts/extract_data.py:162 | `next(...)` yields a member of the list whose `"@name"` is the name; `StopIteration` exactly when every member has a `"@name"` and none matches; otherwise the `KeyError` of a member without one |
| Patch.Located | scripts/extract_data.py:167-168 | a located node matches the id and is truthy, as `if element:` demands |
| Patch.Override | scripts/extract.py:95-100 | the entry's id is read first and its error escapes; only KeyError and TypeError can occur; a located node needs the entry's `@value` and a string `@name`; an id that locates nothing leaves the tree as it was and must be a string for the warning |
| Patch.Replace | scripts/extract.py:106-114 | a patch entry that is not a dict raises AttributeError; a falsy `@id` leaves the tree as it was; only AttributeError and TypeError can occur; an id that locates nothing leaves the tree and must be a string for the warning |
| Patch.OverrideEffect | scripts/extract_data.py:166-171 | an inline override sets exactly the key `"@"` + name to the value on the located node, keeps its other keys and changes no other node; an id that locates nothing changes nothing |
| Patch.ReplaceEffect | scripts/extract_data.py:177-184 | a patch entry with a truthy id that locates a node leaves that node equal to the entry (`clear` then `update`) and changes no other node; otherwise nothing changes |
| Patch.OverrideValid | scripts/extract_data.py:169 | one override keeps every dict's keys distinct |
| Patch.OverridesValid | scripts/extract_data.py:166-171 | all overrides keep every dict's keys distinct |
| Patch.ReplacementsValid | scripts/extract_data.py:176-184 | patch entries that are valid values keep every dict's keys distinct |
| Patch.ApplyOverrides | scripts/extract_data.py:166-171 | the loop over the `Elem` entries yields `Overrides`, stopping at the first error |
| Patch.ApplyReplacements | scripts/extract_data.py:176-184 | the loop over the patch entries yields `Replacements`, stopping at the first error |
| Patch.XmlModification | scripts/extract.py:90-91 | the modification found among the `modification` children carries the requested `"@name"` |
| Patch.XmlOverrides | scripts/extract.py:93-95 | without a truthy `elems` the tree is unchanged; with one, the overrides are read from the `elem` of its first child |
| Patch.ModifyNext | next/scripts/extract.py:107-146 | `modify_vehicle` as written: the error of finding the modification escapes; a result means the modification was found and its inline overrides applied; without a truthy value under the patch key the result is exactly the inline overrides |
| Patch.ModifyVehicleXml | scripts/extract.py:74-116 | the whole modification equals `ModifyXml`: the inline overrides, then every entry under every key of the patch document, with the errors of each step |
| Patch.ModifyVehicleNext | next/scripts/extract.py:107-148 | the corrected modification `ModifyNextFixed`: inline overrides, then, with the patch file name read from `"@patchfile"`, every entry of every list of the patch's `modifications` record |
| Patch.ApplyPatchRoot | scripts/extract.py:102-113 | the loop over the lists of a patch root and their entries yields `PatchRoot`, stopping at the first error |
| Patch.NextReadsModifications | next/scripts/extract.py:131-138 | with a truthy string patch file name, `modify_vehicle` as written goes on to the replacements of the `modifications` record's values |
| Patch.ReplacementsOfNonDict | next/scripts/extract.py:136 | `value.get("@id")` on a value that is not a dict raises AttributeError |
| Patch.FirstModificationsNotDict | next/scripts/extract.py:36-43 | the `modifications` record read from a patch element with content has a first value that is a list or a string, never a dict |
| Patch.KeyFixAloneFails | next/scripts/extract.py:131-138 | with only the key corrected, a patch whose `modifications` element has any attribute or child makes `modify_vehicle` raise AttributeError |
| Patch.NextFixedIsPatchRoot | scripts/extract.py:102-113 | the corrected modification applies the `modifications` record as a patch root to the tree the inline overrides leave |
| Patch.PatchRootOne | scripts/extract.py:103-110 | a patch root holding one list with one entry is that entry's replacement |
| Patch.NextFixedReplaces | next/scripts/extract.py:131-146 | with the correction, a one-entry patch succeeds: the node located by the entry's `@id` becomes the entry and every node off its path is unchanged; without a located node the tree stays as the overrides left it |
| Patch.ModifyVehicleData | scripts/extract_data.py:160-185 | the whole modification equals `ModifyData` on the JSON form: `Elem` overrides by `"@idRef"`, then the values of the patch's `Modifications` |
| Patch.LowerKeysFound | next/scripts/extract.py:124 | the modification found among records with lower-case keys has lower-case keys |
| Patch.ModificationLowerKeys | next/scripts/extract.py:123-124 | the modification record of a vehicle with lower-case keys has lower-case keys |
| Patch.NoPatchFileKey | next/scripts/extract.py:135 | a record with lower-case keys never holds `"@patchFile"` |
| Patch.NextPatchNeverApplies | next/scripts/extract.py:135-146 | for a vehicle read by `read_xml_tree`, `modify_vehicle` as written gives exactly the result of the inline overrides: the patch document is never used |
| Patch.LowerPatchFile | next/scripts/extract.py:37 | the attribute `patchFile` is stored under `"@patchfile"` |
| Patch.PatchAttributeFound | next/scripts/extract.py:37 | the `patchFile` attribute of a modification element is found under `"@patchfile"` in the record read from it |
| Projection.Target | scripts/extract_data.py:257 | a rule re-projects only under a non-empty schema name it holds |
| Projection.Increment | scripts/extract_data.py:245-247 | `filter_usage[key] += 1` succeeds exactly when the counter exists, and raises it by one |
| Projection.InitUsage | scripts/extract_data.py:433-436 | the set-up creates a zero counter for every (schema, path) pair and no other |
| Projection.Segment | scripts/extract_data.py:264 | the first dotted segment is a dot-free prefix, ended by a dot or by the end of the string |
| Projection.Available | scripts/extract_data.py:264 | the first segment below `previous` of every schema key starting with `previous` is available |
| Projection.LowerTable | scripts/extract_data.py:265 | every available name is found under its lower-cased form, holding a spelling with that lower-cased form |
| Projection.Respelling | scripts/extract_data.py:268-269 | a key is respelled only to a different, non-empty spelling with the same lower-cased form |
| Projection.NormalizeFrom | scripts/extract_data.py:267-270 | the first pass only copies values of the dict, keeps keys distinct and removes no key |
| Projection.Normalize | scripts/extract_data.py:267-270 | every value after the first pass is a value of the original dict |
| Projection.NormalizeKeepsUnwritten | scripts/extract_data.py:267-270 | a key no later respelling writes to keeps its value |
| Projection.NormalizeCopies | scripts/extract_data.py:270 | a key whose spelling differs from the schema's only in case has its value copied to the schema's spelling (the last such key wins) |
| Projection.NormalizeKeepsKeys | scripts/extract_data.py:267-270 | the first pass adds keys, removes none, and keeps keys distinct |
| Projection.Prepared | scripts/extract_data.py:264-272 | the entries the second pass walks hold only values of the original dict |
| Projection.RuleFacts | scripts/extract_data.py:433-436 | with every counter set up, a rule has a counter; in a closed table a rule names a schema of the table |
| Projection.Project | scripts/extract_data.py:249-286 | `apply_filters` never lowers or drops a counter; with every schema name resolvable and every counter set up it can only fail with `TypeError` |
| Projection.ProjectItem | scripts/extract_data.py:257-261 | one list element: counters only grow; only `TypeError` in a closed, covered table |
| Projection.ProjectItems | scripts/extract_data.py:256-261 | the list keeps its length; counters only grow; only `TypeError` in a closed, covered table |
| Projection.ProjectEntry | scripts/extract_data.py:272-285 | one key: counters only grow; only `TypeError` in a closed, covered table |
| Projection.ProjectFields | scripts/extract_data.py:272-285 | the second pass: counters only grow; only `TypeError` in a closed, covered table |
| Projection.SurvivingKeys | scripts/extract_data.py:276-285 | a key survives exactly when its path has a rule or a rule lies below it |
| Projection.EntryFate | scripts/extract_data.py:276-285 | a key stays exactly when its path survives, under the same name; a `None` rule keeps the entry untouched; a rule that fires raises its counter |
| Projection.FieldsKeys | scripts/extract_data.py:272-285 | the second pass keeps, in order, exactly the keys whose path survives |
| Projection.FieldsKept | scripts/extract_data.py:280-281 | the entries under `None` rules come out untouched |
| Projection.FieldsCount | scripts/extract_data.py:276-281 | every rule that fires on a key raises its counter |
| Projection.DictFate | scripts/extract_data.py:262-285 | a dict is projected onto the surviving keys of its normalised entries, in order, `None` rules keep their values and every firing rule counts |
| Projection.ExactKeys | scripts/acquire_data.py:135-149 | without the case normalisation the keys that stay are exactly the original keys whose path survives |
| Projection.ItemsEach | scripts/extract_data.py:256-261 | every list element is projected on its own: under the schema the `"[]"` rule names, from the root, or else under the same schema below the path |
| Projection.ItemsCount | scripts/extract_data.py:257-258 | a `"[]"` rule naming a schema counts once per element |
| Projection.ListFate | scripts/extract_data.py:252-261 | a list keeps its length, each element projected on its own, the `"[]"` rule counted once per element |
| Projection.OnlyScalarsFail | scripts/extract_data.py:249-286 | from the initial counters, in a closed table, the projection fails only by descending into a scalar (`TypeError`) |
| Projection.RespellingSettled | scripts/extract_data.py:268-269 | a respelled key is not respelled again |
| Projection.NormalizeKeys | scripts/extract_data.py:265-270 | the key-by-key first pass yields `Normalize` |
| Projection.Filtering.constructor | scripts/extract_data.py:433-436 | the counters start as `InitUsage`: zero for every (schema, path) pair |
| Projection.Filtering.Apply | scripts/extract_data.py:249-286 | the value and the counters after `apply_filters` are those of `Project`, and it fails as that does |
| Projection.Filtering.ApplyList | scripts/extract_data.py:252-261 | the list loop agrees with `ProjectItems` |
| Projection.Filtering.ApplyDict | scripts/extract_data.py:272-285 | the key loop agrees with `ProjectFields` |
| Projection.Filtering.ApplyItem | scripts/extract_data.py:257-261 | one element agrees with `ProjectItem` |
| Projection.Filtering.ApplyEntry | scripts/extract_data.py:273-285 | one key agrees with `ProjectEntry` |
| ItemPort.NonEmpty | scripts/common.py:8 | the empty tokens are dropped and no other: the same multiset less the empty strings |
| ItemPort.WithoutDollar | scripts/common.py:27 | each flag loses its `"$"` characters, position by position |
| ItemPort.FlagTokens | scripts/common.py:8 | the flags before sorting exist exactly for string `@flags` and are its non-empty space-separated tokens without `"$"` |
| ItemPort.TypeKey | scripts/common.py:35 | the sort key exists exactly when `type` is a string and `subtype` can be shown by `str`, and is `type + "_" + str(subtype)` |
| ItemPort.TypeKeys | scripts/common.py:35 | the keys are computed for all entries or the sort fails |
| ItemPort.SortTypes | scripts/common.py:35 | the sort succeeds exactly when every key can be computed, and is the stable sort by that key |
| ItemPort.AddPairs | scripts/common.py:17-20 | the assignment succeeds exactly when every connection is a dict whose key value is hashable |
| ItemPort.AddListed | scripts/common.py:17-20 | `.get(list, [])` on a holder without the list adds nothing; a holder that is not an element raises AttributeError |
| ItemPort.Connections | scripts/common.py:15-20 | a falsy `connections` element leaves `connections` empty; one that is not an element raises AttributeError; a failing `single` fails |
| ItemPort.LegacyName | scripts/common.py:6 | the name is lower-case; a non-empty override wins, lower-cased |
| ItemPort.Flags | scripts/common.py:8-34 | the flags exist exactly when `@flags` is missing or a string |
| ItemPort.Size | scripts/common.py:9-10 | a missing size is 0, a present one is `int` of it, with its `ValueError` |
| ItemPort.SplitTags | scripts/common.py:29-32 | falsy tags give no tags, string tags their non-empty whitespace-separated words, anything else fails |
| ItemPort.MakeLegacyPort | scripts/common.py:4-37 | the legacy port: a non-empty name (the lower-cased override or `@name`, or the fresh uuid when that is empty), its flags, sizes, tags, connections and sorted types each as the helpers state |
| ItemPort.PortTags | next/scripts/factory/common.py:8-15 | `""` becomes None; any other tag value is kept as read |
| ItemPort.MakePort | next/scripts/factory/common.py:1-20 | the newer port: the truthy override or else `@name` as the name, flags, sizes, tags and sorted types |
| ItemPort.FlagsNormalised | scripts/common.py:8-34 | the flags are, as a multiset, the non-empty tokens without `"$"`, sorted, none holding a space or `"$"` |
| ItemPort.LoneDollarFlag | scripts/common.py:8-27 | `"$"` alone gives the flag `""`, because `"$"` is removed after the emptiness test |
| ItemPort.LegacyRequiredTags | scripts/common.py:11-32 | the tags are the words of a truthy `@requiredTags`, else of a truthy `@porttags`, else none |
| ItemPort.TagsFromPorttags | scripts/common.py:11 | on a record with lower-case keys `@requiredTags` is never found, so the tags always come from `@porttags` |
| ItemPort.TypesOrdered | scripts/common.py:35 | the sorted types are a permutation of the input in key order, and entries with equal keys keep their order |
| ItemPort.PairsLastWins | scripts/common.py:17-20 | the last pair that names a key decides its value |
| ItemPort.PairsKeepOthers | scripts/common.py:17-20 | a key no pair names keeps what it had |
| ItemPort.PairsFailureStays | scripts/common.py:17-20 | once a pair fails the whole assignment fails with its error |
| ItemPort.AssignPairs | scripts/common.py:17-20 | the assignment loop yields `AddPairs` |
| ItemPort.FillConnections | scripts/common.py:15-20 | the loops that fill `connections` yield `Connections` |
| ItemFactory.In | next/scripts/factory/item.py:204 | `x in j` on a dict tests its keys; only dicts, lists and strings can be searched, anything else raises |
| ItemFactory.EnumValues | next/scripts/factory/item.py:304 | the `@value` of each enum element, in order; every element must be a dict |
| ItemFactory.WithoutUndefined | next/scripts/factory/item.py:305 | exactly the values other than `"UNDEFINED"` are kept |
| ItemFactory.DefSubtypes | next/scripts/factory/item.py:302-308 | at least one subtype, never `"UNDEFINED"`: the enum values other than `"UNDEFINED"`, or None alone when none remain |
| ItemFactory.DefEntries | next/scripts/factory/item.py:298-313 | one `{type, subtype}` entry per subtype of the element, in order, all with the element's `@type` |
| ItemFactory.TypesFrom | next/scripts/factory/item.py:298-313 | every entry is well formed and each element contributes at least one |
| ItemFactory.DefTypes | next/scripts/factory/item.py:298 | the types of a port are well-formed type entries |
| ItemFactory.ItemPortOf | next/scripts/factory/item.py:315-316 | a port built from an element has a name usable as a dict key |
| ItemFactory.PortEntries | next/scripts/factory/item.py:296-316 | one (name, port) pair per element, in order |
| ItemFactory.Ports | next/scripts/factory/item.py:296-316 | `baseline["ports"]` has distinct keys |
| ItemFactory.Sizes | next/scripts/factory/item.py:320 | one `"minSize-maxSize"` string per port, in dict order |
| ItemFactory.ContainerHash | next/scripts/factory/item.py:319-321 | the hash exists exactly for a string type and is type, port count and sizes joined by `"_"` |
| ItemFactory.Baseline | next/scripts/factory/item.py:266-280 | the baseline has distinct keys, the item's type, its size, no ports yet, the attachdef's subtype and tags, with `"UNDEFINED"` and `""` made None |
| ItemFactory.WithPorts | next/scripts/factory/item.py:294-321 | only `ports` and `container_hash` change, and only for a port container, where they hold the ports and their hash |
| ItemFactory.IsItemType | next/scripts/factory/item.py:338 | the dispatch test succeeds for hashable types and holds exactly for the names of `_item_type_methods` |
| ItemFactory.Prepare | next/scripts/factory/item.py:258-338 | None without truthy `components`; otherwise a built item has truthy components and attachable element, a known string type, and the baseline with its ports |
| ItemFactory.ItemOf | next/scripts/factory/item.py:258-342 | `make_item` fails with the preparation's error, or else with the type-specific maker's error; otherwise it yields None exactly when the preparation does, and else the prepared baseline updated with the maker's fields |
| ItemFactory.FillPorts | next/scripts/factory/item.py:296-316 | the port loop yields `Ports` |
| ItemFactory.FillPortsWith | next/scripts/factory/item.py:296-316 | the port loop with any port maker yields the ports `PortEntries` makes, keyed by name, or the first port's error |
| ItemFactory.PortEntriesFailureStays | next/scripts/factory/item.py:296-316 | once a port fails the whole loop fails with its error |
| ItemFactory.MakeItem | next/scripts/factory/item.py:258-342 | the step-by-step build yields `ItemOf` |
| ItemFactory.PrepareItem | next/scripts/factory/item.py:258-338 | the checks and the baseline before the dispatch yield `Prepare` |
| ItemFactory.AddPorts | next/scripts/factory/item.py:294-321 | the port loop and the container hash yield `WithPorts` |
| ItemFactory.PortsKeyed | next/scripts/factory/item.py:316 | the ports are keyed by exactly the names of the port elements |
| ItemFactory.KeyedBy | next/scripts/factory/item.py:316 | the keys of the port map are exactly the names of the ports made |
| ItemFactory.PortsLastWins | next/scripts/factory/item.py:316 | a later same-named port overwrites an earlier one: the last one with a name is the one kept |
| ItemFactory.LastWinsBy | next/scripts/factory/item.py:316 | the same for any port maker |
| ItemFactory.PortEntriesAre | next/scripts/factory/item.py:315-316 | each pair is the name and port of its element |
| ItemFactory.PreparedFields | next/scripts/factory/item.py:266-280 | a built item has the attachdef's type, subtype and tags, never `"UNDEFINED"` nor `""` |
| ItemFactory.PreparedContainerHash | next/scripts/factory/item.py:294-321 | a port container's item holds its ports and the hash of type, port count and sizes |
| ItemFactory.ItemFields | next/scripts/factory/item.py:338-340 | `update` lets the type-specific fields win on the keys they name and keeps every other baseline key |
| ItemFactory.ActionParams | next/scripts/factory/item.py:184-194 | the action parameters are read from a dict element |
| ItemFactory.SimpleAction | next/scripts/factory/item.py:203-204 | the action made from the `kind` child is of that kind |
| ItemFactory.FirstAction | next/scripts/factory/item.py:197-205 | None exactly when none of the simple kinds is present; otherwise the first present kind in list order |
| ItemFactory.WeaponAction | next/scripts/factory/item.py:196-216 | a weapon action is always of a simple kind; the first present simple kind wins over a sequence |
| ItemFactory.NoActionWithoutKinds | next/scripts/factory/item.py:196-216 | without any simple kind and without a sequence the result is None |
| ItemFactory.MakeAngleLimit | next/scripts/factory/item.py:137-146 | an angle limit carries `turretRotation` exactly when the attribute exists |
| ItemFactory.AngleLimits | next/scripts/factory/item.py:162 | one angle limit per element, in order |
| ItemFactory.MakeAxisLimit | next/scripts/factory/item.py:148-163 | both kinds are looked up; the standard limit wins, the custom list comes next, and without either the result is None |
| ItemFactory.AngleLimitsOf | next/scripts/factory/item.py:149 | the `anglelimits` element is read under the axis parameters, whose lookup's error escapes; a non-element raises AttributeError |
| Loadout.PortKey | scripts/vehicle.py:21 | the older script keys an entry by the lower-cased `@itemportname`; the newer one (next/scripts/factory/vehicle.py:19) by `@itemportname` as written |
| Loadout.ItemsUpTo | scripts/vehicle.py:13-21 | one key and entry per element processed |
| Loadout.ItemsFailureStays | scripts/vehicle.py:13-21 | once an entry fails the whole container fails with its error |
| Loadout.AddManualEntries | scripts/vehicle.py:11-21 | the loop yields `Manual` |
| Loadout.AddEntry | scripts/vehicle.py:14-21 | one loop iteration yields `ManualItem`: the item name, the children built recursively, and the key |
| Loadout.ItemsAre | scripts/vehicle.py:13-21 | each pair is what its element contributes |
| Loadout.ManualKeys | scripts/vehicle.py:11-21 | the container holds exactly the port keys of its elements |
| Loadout.ManualLastWins | scripts/vehicle.py:21 | a later entry for the same port overwrites an earlier one |
| Loadout.ManualLowerKeys | scripts/vehicle.py:21 | in the older script every key is a port name without upper-case letters |
| Loadout.ManualExactKeys | next/scripts/factory/vehicle.py:19 | in the newer script every key is an `@itemportname` exactly as written |
| Loadout.MakeLoadout | scripts/vehicle.py:34-37 | with a truthy manual-params element the loadout is exactly its manual entries |
| VehicleWalk.PartList | scripts/vehicle.py:75-77 | the parts of a container: nothing without a `parts` child, else its `part` list |
| VehicleWalk.TotalsOf | scripts/vehicle.py:62-124 | the walk of `make_vehicle` succeeds exactly when every part is read, fails with the error of the part that stops it, and returns no more ports than parts |
| VehicleWalk.FactsArePartsFacts | scripts/vehicle.py:68-122 | the walk meets exactly the parts of the pre-order, each once, and succeeds exactly when every part's own processing does |
| VehicleWalk.FactsFromArePartsFacts | scripts/vehicle.py:77-120 | the same for the siblings from a given position on |
| VehicleWalk.PortsOf | scripts/vehicle.py:110 | no more ports than parts |
| VehicleWalk.AccumulateAppend | scripts/vehicle.py:84-120 | the damage sum, ports, seat count and critical-part dict of two stretches of the walk compose |
| VehicleWalk.SeatsAtMostPorts | scripts/vehicle.py:107-118 | a seat is counted only for a part with a port, so there are no more seats than ports |
| VehicleWalk.PortsFromParts | scripts/vehicle.py:110 | every port returned is the port of one of the parts |
| VehicleWalk.CriticalPositive | scripts/vehicle.py:79-84 | parts are recorded as critical only with positive damage, so every recorded damage is positive |
| VehicleWalk.CriticalKeys | scripts/vehicle.py:84 | a key of `critical_part_damage` is one some part was recorded under, and every such key is there |
| VehicleWalk.DamageSumOf | scripts/vehicle.py:86 | the walk's damage is the plain sum of the parts' damages in walk order |
| VehicleWalk.AccumulateOne | scripts/vehicle.py:84-118 | one part adds its damage, its port, its seat and its critical entry |
| VehicleWalk.WalkEntry | scripts/vehicle.py:124 | before the first part nothing has been seen and the whole walk is ahead |
| VehicleWalk.WalkFails | scripts/vehicle.py:77-120 | a part that cannot be walked makes the whole walk fail with its error |
| VehicleWalk.WalkStep | scripts/vehicle.py:77-120 | after a part, its facts and those of the parts under it join the ones already seen |
| VehicleWalk.Walker.constructor | scripts/vehicle.py:63-66 | the accumulators start at zero with no critical part |
| VehicleWalk.Walker.Record | scripts/vehicle.py:84-118 | one part's counter updates: damage added, critical entry set, seat counted |
| VehicleWalk.Walker.WalkParts | scripts/vehicle.py:68-122 | the ports under a container in pre-order, with every part's damage added, every critical part recorded and every seat counted; the first failure otherwise |
| VehicleWalk.MinValue | scripts/vehicle.py:138 | `min` of the values: no greater than any value, and one of them |
| VehicleWalk.StrValues | scripts/vehicle.py:101 | the strings as values, position by position |
| VehicleWalk.Subtypes | scripts/vehicle.py:98-101 | at least one subtype: the comma-separated `@subtypes`, or one None when it is missing or empty |
| VehicleWalk.TypeEntries | scripts/vehicle.py:103-107 | one `{type, subtype}` dict per subtype, in order |
| VehicleWalk.TypeEntriesAre | scripts/vehicle.py:103-107 | each entry holds the element's type and its subtype under the given key |
| VehicleWalk.PortTypes | scripts/vehicle.py:94-107 | a falsy `types` child gives no types; every entry is a `{type, key}` dict; each `type` element gives at least one entry |
| VehicleWalk.WrittenEntryKey | scripts/vehicle.py:106 | an entry written under `"subtypes"` has the sort key type plus `"_None"` |
| VehicleWalk.IntendedEntryKey | scripts/common.py:35 | an entry written under `"subtype"` has the sort key type, `"_"` and its subtype |
| VehicleWalk.WrittenKeyDropsSubtype | scripts/vehicle.py:103-109 | as written, no entry's sort key sees its subtype |
| VehicleWalk.WrittenKeyKeepsOrder | scripts/vehicle.py:103-109 | as written, the sort leaves the entries of one type element in `@subtypes` order |
| VehicleWalk.IntendedKeySeesSubtype | scripts/common.py:35 | under the key the sort reads, each entry's key is its type and subtype |
| VehicleWalk.WrittenKeyPair | scripts/vehicle.py:106 | as written, two entries of one type are never reordered |
| VehicleWalk.IntendedKeyPair | scripts/common.py:35 | under the key the sort reads, a later subtype that sorts first moves to the front |
| VehicleWalk.RocketAfterGun | scripts/common.py:35 | `"Rocket"` sorts after `"Gun"` |
| VehicleWalk.MassText | scripts/vehicle.py:87 | the text `float(re.sub("[^0-9.]", "", @mass))` reads: `"0"` for a missing `@mass`, TypeError for a non-string, and otherwise the digits and dots of `@mass`, accepted exactly when they form a float (a digit, at most one dot) and ValueError when not |
| VehicleWalk.MassRejects | next/scripts/factory/vehicle.py:79 | an empty `@mass` or one with two dots makes the part fail with ValueError |
| Text.DigitsAndDots | scripts/vehicle.py:87 | `re.sub("[^0-9.]", "", s)` keeps only digits and dots, no longer than `s`, with every dot of `s` |
| Text.FloatTextRejects | scripts/vehicle.py:87 | two dots, or no digit at all, leave text `float()` rejects |
| Text.DigitsAndDotsHasNoNewDigit | scripts/vehicle.py:87 | a text without digits leaves only dots |
| VehicleWalk.AxisOf | scripts/vehicle.py:112-115 | the axis bounds are present only when the axis child is, read with 0 as default |
| VehicleWalk.AnyMutableText | scripts/vehicle.py:57 | iterating `@screensavail` gives characters, never a screen name, so the test holds exactly for a non-empty string |
| VehicleWalk.ObservablesNonEmpty | scripts/vehicle.py:55-58 | with string `@screensavail` values the search finds a seat exactly when one observable's value is non-empty |
| VehicleWalk.ObservablesFrom | scripts/vehicle.py:55-58 | true only when some observable's screens include one that can change; false exactly when every observable is read and none does |
| VehicleWalk.ControllersFrom | scripts/vehicle.py:50-58 | false exactly when no controller definition has a seat; a definition with a seat, with none before it, makes the result true whatever comes later; an error comes from one of the definitions |
| VehicleWalk.HasControlSeat | scripts/vehicle.py:49-59 | a non-element raises AttributeError; without `controllerdef` there is no seat; a seat is found only under `controllerdef` |
| VehicleLegacy.GroupsFrom | scripts/vehicle.py:82-84 | true exactly when some group is named `"Destroy"`; then the part's `@name` can be a key |
| VehicleLegacy.BehaviourDestroys | scripts/vehicle.py:82-84 | one damage behaviour destroys exactly when one of its groups is named `"Destroy"` |
| VehicleLegacy.BehavioursFrom | scripts/vehicle.py:81-84 | true exactly when some behaviour destroys |
| VehicleLegacy.CriticalKey | scripts/vehicle.py:79-84 | no key without positive damage or without `damagebehaviors`; otherwise the part's `@name` exactly when a behaviour destroys |
| VehicleLegacy.ItemPortOf | scripts/vehicle.py:91-118 | a port exactly for an `ItemPort` part with a truthy `itemport` child, built by `_make_item_port` with the part's name from the type entries written under `"subtypes"`; a seat only with a port |
| VehicleLegacy.LegacyPart | scripts/vehicle.py:78-118 | one part's damage is `int(@damagemax)`, its critical key as above (only with positive damage), its `@mass` text passes `float()`, its port is `ItemPortOf`'s and its seat only with a port |
| VehicleLegacy.VehicleOf | scripts/vehicle.py:62-145 | the record carries the definition's name, size and split tags, around the walk's results |
| VehicleLegacy.Assemble | scripts/vehicle.py:126-143 | the record: name, size, split tags, the accumulators and ports as given, `damageMin` exactly when some part is critical |
| VehicleLegacy.MakeVehicle | scripts/vehicle.py:62-145 | the walk and the record yield `VehicleOf` |
| VehicleLegacy.Finish | scripts/vehicle.py:126-145 | the record built after the walk is `Assemble` |
| VehicleLegacy.FactsOfParts | scripts/vehicle.py:68-122 | the walk's facts are those of the parts, one by one |
| VehicleLegacy.VehicleDamage | scripts/vehicle.py:78-86 | `damageMax` is the sum of `@damagemax` over every part, nested parts included |
| VehicleLegacy.VehicleCriticalParts | scripts/vehicle.py:79-84 | a name is a key of `damageCriticalPart` exactly when some part with positive damage and a `"Destroy"` group has it, holding a positive damage |
| VehicleLegacy.VehicleDamageMin | scripts/vehicle.py:137-138 | `damageMin` is present exactly when some part is critical, and is then the least recorded damage, positive |
| VehicleLegacy.VehicleSeatsAndNames | scripts/vehicle.py:117-118 | there are no more control seats than ports, and every port has a non-empty name |
| VehicleFactory.ItemPortOf | next/scripts/factory/vehicle.py:81-108 | a port exactly for an `ItemPort` part with a truthy `itemport` child, built by `_make_item_port` from the type entries written under `"subtypes"`; a seat only with a port |
| VehicleFactory.FactoryPart | next/scripts/factory/vehicle.py:78-108 | one part's damage is `int(@damagemax)`, never critical, its `@mass` text passes `float()`, its port is `ItemPortOf`'s and its seat only with a port |
| VehicleFactory.VehicleOf | next/scripts/factory/vehicle.py:64-130 | a record is built exactly when the walk and the `@name`, `@size` and `@itemporttags` lookups succeed; it carries the definition's name and size, its tags with `""` made None, and the damage, seat count and ports the walk totals |
| VehicleFactory.Assemble | next/scripts/factory/vehicle.py:116-128 | the record: name, size, the tags with `""` made None, the accumulators and ports as given |
| VehicleFactory.MakeVehicle | next/scripts/factory/vehicle.py:64-130 | the walk and the record yield `VehicleOf` |
| VehicleFactory.Finish | next/scripts/factory/vehicle.py:116-130 | the record built after the walk is `Assemble` |
| VehicleFactory.FactsOfParts | next/scripts/factory/vehicle.py:69-112 | the walk's facts are those of the parts, one by one |
| VehicleFactory.VehicleDamage | next/scripts/factory/vehicle.py:78 | `damageMax` is the sum of `@damagemax` over every part, nested parts included |
| VehicleFactory.VehicleSeatsAndNames | next/scripts/factory/vehicle.py:99-108 | no more control seats than ports, and every port belongs to an `ItemPort` part and carries its `@name` when truthy |
| Codec.Int32 | storage.js:10 | `hash |= 0` gives the signed 32-bit integer congruent to the value modulo 2^32 |
| Codec.Int32Congruent | storage.js:10 | values congruent modulo 2^32 truncate to the same hash |
| Codec.Units | storage.js:8 | a character is one or two UTF-16 code units, each below 2^16 |
| Codec.CodeUnits | storage.js:7-8 | the loop reads at least one code unit per character, each below 2^16 |
| Codec.HashOf | storage.js:7-11 | the hash after the loop is a signed 32-bit integer |
| Codec.Hash | storage.js:1-14 | an empty or missing string hashes to 0; every hash is a signed 32-bit integer |
| Codec.HashIsTruncatedPoly | storage.js:7-11 | truncating at every step gives the exact polynomial `sum c_i * 31^(n-1-i)` truncated once |
| Codec.HashString | storage.js:1-14 | the loop yields `Hash`, a signed 32-bit integer |
| Codec.Int32Bits | storage.js:10 | the bits of the truncated value read as unsigned are the value modulo 2^32 |
| Codec.Low24OfLow32 | storage.js:17-21 | the low 24 bits of the low 32 bits are the low 24 bits |
| Codec.ByteFields | storage.js:19-21 | the three masked and shifted bytes are the bytes of the low 24 bits, most significant first |
| Codec.ByteAt | storage.js:19-21 | each masked and shifted field is one byte |
| Codec.BytesAreLow24 | storage.js:19-21 | the three bytes read back as one number are the low 24 bits of the argument |
| Codec.Base64Group | storage.js:23 | three bytes encode to four characters (section 4 of RFC 4648, no padding) |
| Codec.EncodeInt24 | storage.js:17-24 | `encodeInt24` always returns four characters |
| Codec.HashAndEncode | storage.js:32-35 | `hashAndEncode` always returns four characters |
| Codec.Replaced | storage.js:23 | replacing `'+'` by `'-'` and `'/'` by `'_'` turns the base64 alphabet into the base64url alphabet (section 5 of RFC 4648) |
| Codec.UrlValue | storage.js:23 | a character's position in the base64url alphabet, when it is one |
| Codec.UrlValueOf | storage.js:23 | the base64url alphabet has 64 distinct characters |
| Codec.DecodeInt24 | storage.js:17-24 | four base64url characters read back as a 24-bit number |
| Codec.EncodeInt24Groups | storage.js:17-24 | each character of the encoding is the base64url character of one 6-bit group of the low 24 bits, most significant first |
| Codec.EncodeInt24RoundTrip | storage.js:17-24 | the encoding is four base64url characters and decodes to the argument modulo 2^24 |
| Codec.EncodeInt24Low24 | storage.js:17-21 | arguments congruent modulo 2^24 encode the same |
| Codec.EncodeSmallInt | storage.js:37-41 | a count is one character |
| Codec.DecodeSmallInt | storage.js:26-30 | an empty string gives NaN (None), any other string a number |
| Codec.SmallIntRoundTrip | storage.js:26-41 | `decodeSmallInt(encodeSmallInt(n)) == n` for every count one character can hold, the 0 to 25 the source comment names among them |
| Codec.TokensOf | storage.js:49-90 | one token per record |
| Codec.TokensWritable | storage.js:49-90 | what `serialize` writes has `'B'`/`'G'` discriminators, four-character hashes and one-character counts |
| Codec.TokensAt | storage.js:85-88 | the tokens keep the order of the records |
| Codec.WriteList | storage.js:90 | a list is its count character, then its records |
| Codec.WriteRecord | storage.js:52 | a record is its discriminator, two four-character hashes, then its children: at least ten characters |
| Codec.Serialize | storage.js:46-95 | the text starts with the version `"2"` |
| Codec.Substr | storage.js:99 | `substr` gives the characters asked for when they exist and `""` past the end |
| Codec.ReadList | storage.js:112-158 | reading a list moves the index forward |
| Codec.ReadRecords | storage.js:116-155 | reading records never moves back; no record for a count of zero |
| Codec.ReadRecord | storage.js:117-154 | reading one record and its children never moves back |
| Codec.HeaderAt | storage.js:117-120 | a record header is read as the discriminator and the two four-character hashes, and nine characters are consumed |
| Codec.SplitAt | storage.js:117-154 | two pieces written one after the other are read one after the other |
| Codec.ReadListAt | storage.js:112-158 | reading what a list was written as gives back its tokens and the index just after it |
| Codec.ReadRecordsStep | storage.js:116-155 | one step of reading: a header and the children's list, then the remaining records |
| Codec.ReadRecordsAt | storage.js:116-155 | reading the records where they were written gives them back |
| Codec.SerializeRoundTrip | storage.js:46-162 | `deserialize` reads back exactly the tokens `serialize` wrote |
| Codec.Deserialize | storage.js:97-115 | a text with nothing after its version character reads as no records |
| Storage.MakeKey | next/storage.js:216-218 | the key is the vehicle name, a `"."`, then the loadout name |
| Storage.KeyInjective | next/storage.js:216-218 | with dot-free vehicle names, a key names exactly one vehicle and loadout |
| Storage.KeyCollision | next/storage.js:216-218 | with a dot in a vehicle name, two different pairs share one key |
| Storage.LoadoutStorage.constructor | next/storage.js:177-180 | `_stored` is the parsed record map and `_loadouts` starts empty |
| Storage.LoadoutStorage.Open | next/storage.js:176-184 | `new LoadoutStorage()` succeeds exactly when every stored record deserializes, and then caches each record's loadout (a consistent storage); otherwise the error of a record `deserialize` rejects escapes and no storage is obtained |
| Storage.LoadoutStorage.Get | next/storage.js:190-192 | the cached loadout for the key; in a consistent storage it is present exactly when the key is stored and is what the stored record deserializes to |
| Storage.LoadoutStorage.Set | next/storage.js:194-212 | a loadout is stored serialized and its deserialized copy is what `get` returns; no loadout deletes the key from both maps; a throw from `serialize` changes nothing; a throw from `deserialize` leaves the new record stored beside the old cached loadout, so the storage is no longer consistent; a call that returns keeps a consistent storage consistent; every other key is unchanged |
| Codec.SubstrShift | storage.js:99 | text in front of a string moves each of its `substr` pieces by the prefix length |
| Codec.ReadListShift | storage.js:112-158 | reading a list behind a prefix gives the same records, the index moved by the prefix length |
| Codec.ReadRecordsShift | storage.js:116-155 | the same for the records of a list |
| Codec.ReadRecordShift | storage.js:117-154 | the same for one record and those after it |
| Codec.VersionOneSkipsShipId | storage.js:98-104 | a version `"1"` text with its twelve-character ship id reads exactly as the same body under version `"2"` |
| Bindings.Lookup | model.js:444 | `allItems[itemName]`: nothing for an undefined name, the catalog's entry otherwise |
| Bindings.ItemName | model.js:369-373 | a binding has an item name exactly when it holds an item |
| Bindings.PathOf | model.js:375-385 | the path has one name per binding from the root down to this one |
| Bindings.Path | model.js:375-385 | the loop that puts each parent's port name in front yields the port names from the root down |
| Bindings.PathIsReverse | next/model.js:218-228 | the path is the chain of port names read from the root end |
| Bindings.ChainToStep | model.js:375-385 | a path of two or more names continues below the binding its first name reaches |
| Bindings.KeyedAt | model.js:463 | each binding sits under its own port's name, and so do the bindings below it |
| Bindings.PathOfReached | model.js:375-385 | in a tree keyed by port names, the binding reached by a list of names has that list as its path |
| Bindings.PathAppend | model.js:380-381 | one more parent puts its port name in front of the path |
| Bindings.DefaultItem | model.js:662-675 | `getDefaultItem` fails exactly for an empty path (`entry.itemName` of undefined) |
| Bindings.EntryAtSnoc | model.js:666-671 | one more path segment looks in the children of the entry reached so far |
| Bindings.GetDefaultItem | next/model.js:356-369 | the loop over the path computes `DefaultItem` |
| Bindings.MissingStaysMissing | model.js:668-670 | once a segment is missing, the lookup gives undefined whatever follows |
| Bindings.MatchingItems | model.js:438-440 | the listed items all match and are no more than the catalog holds |
| Bindings.MatchingItemsExact | next/model.js:263-265 | an item is listed exactly when the catalog holds it and it matches the port |
| Bindings.MatchingItemsInOrder | model.js:438-440 | the items are listed in catalog order |
| Bindings.MatchingItemsV1 | model.js:401-440 | only items fitting the port under model.js's rule are listed, no more than the catalog holds |
| Bindings.MatchingItemsV2 | next/model.js:234-265 | only items fitting the port under next/model.js's rule are listed, no more than the catalog holds |
| Bindings.UnboundedPort | model.js:414-420 | a port with zero minimum and maximum sizes accepts an item whatever its size |
| Bindings.TagsBothWays | model.js:423-433 | for a port without required tags on a vehicle without tags, an item matches exactly when it requires no tag |
| Bindings.TagsExactV2 | next/model.js:256-258 | an item without required tags matches on any vehicle; one with required tags matches exactly when they equal the vehicle's tags |
| Bindings.WalkedExactly | model.js:677-686 | the callback runs exactly for the bindings of the selected type reached through item-bearing bindings |
| Bindings.WalkedExactlyAt | model.js:677-686 | the same for one binding and everything below it |
| Bindings.WalkUntypedExact | next/model.js:371-380 | next/model.js compares the type even when none is given, so an untyped walk calls back for nothing |
| Bindings.WalkUntypedExactAt | next/model.js:371-380 | the same for one binding and everything below it |
| Bindings.WalkBindings | model.js:677-686 | the recursion collects exactly what `Walked` lists, in order |
| Bindings.SizeCategory | model.js:519-530 | sizes 1-2 are Small, 3 Medium, 4-5 Large, 6 Capital; every other size has no category |
| BindingTrees.GetFromEntries | next/model.js:278 | a key read from the built object names one of the entries written |
| BindingTrees.KeysFromEntries | next/model.js:276-279 | the keys of the built object are exactly the keys written |
| BindingTrees.UnboundChildren | next/model.js:276-279 | one child per port |
| BindingTrees.UnboundChildrenAt | next/model.js:276-279 | a child key is present exactly when some port has that name, and the child under it is an unbound binding of that port |
| BindingTrees.BoundV2Shape | next/model.js:268-283 | the item is the catalog's entry for the name; no item leaves no bindings; with an item there is one unbound child per item port, under the port's name |
| BindingTrees.BoundV2Keyed | next/model.js:278 | every child sits under its own port's name |
| BindingTrees.SetItemV2 | next/model.js:268-283 | the loop that creates the children builds `BoundV2` |
| BindingTrees.BoundV1 | model.js:443-465 | an unknown name leaves an unbound binding; a successful result holds the port and the catalog's item |
| BindingTrees.ChildrenV1 | model.js:448-460 | one child per item port |
| BindingTrees.ChildV1 | model.js:450-457 | the child holds its port, and the default item exactly when that name is truthy and in the catalog |
| BindingTrees.ChildrenV1Entries | model.js:449-459 | each child sits under its port's name, in port order, made as `ChildV1` makes it |
| BindingTrees.BoundV1Shape | model.js:443-465 | no item leaves no bindings; with an item each of its ports has a child under its name, holding the parent's default item for it when that is truthy and known |
| BindingTrees.BoundV1Fuel | model.js:443-465 | more fuel never changes a result that was reached: the fuel only bounds the depth |
| BindingTrees.ChildrenV1Fuel | model.js:449-459 | the same for the list of children |
| BindingTrees.ChildV1Fuel | model.js:450-457 | the same for one child |
| BindingTrees.ChildrenV1Step | model.js:449-459 | one more port adds its child, or stops at the error that child raised |
| BindingTrees.MakeChildV1 | model.js:450-457 | one iteration of the loop computes `ChildV1` |
| BindingTrees.MakeChildrenV1 | model.js:450-459 | the loop over the item's ports yields the children `ChildrenV1` makes, keyed by port name, or the first child's error |
| BindingTrees.AssignChildV1 | model.js:451-458 | one pass makes the port's child and assigns it under the port's name, or stops with the child's error |
| BindingTrees.SetItemV1 | model.js:443-465 | the loop over the item's ports computes `BoundV1` |
| BindingTrees.FillAll | next/model.js:302-307 | filling keeps every binding's key and position |
| BindingTrees.FillAllAt | next/model.js:302-307 | each filled binding is its port set to its default entry's item, its children filled from that entry's children |
| BindingTrees.DefaultLoadoutV2Keys | next/model.js:297-299 | every vehicle port has a binding, under the port's name |
| BindingTrees.ChildrenAtGet | next/model.js:356-369 | looking a name up one level below a path is `getDefaultItem`'s lookup of the path followed by that name |
| BindingTrees.FilledItem | next/model.js:304 | a filled binding holds the item `getDefaultItem(binding.path)` names |
| BindingTrees.FilledChildren | next/model.js:305 | below a binding with a default entry, its children are filled from that entry's children |
| BindingTrees.FilledNoEntry | next/model.js:304 | without a default entry, `setItem(undefined)` leaves nothing below the binding |
| BindingTrees.FilledByPath | next/model.js:302-307 | the binding reached by a list of names below a filled list holds the default item at that path |
| BindingTrees.DefaultLoadoutV2ByPath | next/model.js:294-310 | after the constructor, the binding at every path of port names holds the item `getDefaultItem(path)` names, when the catalog has it, and nothing otherwise |
| BindingTrees.FillDefaults | next/model.js:302-307 | `setDefaultItems` on one binding computes `Filled` |
| BindingTrees.FillDefaultsAll | next/model.js:302-307 | the loop over the container's bindings computes `FillAll` |
| BindingTrees.NewVehicleLoadoutV2 | next/model.js:294-310 | the constructor builds `DefaultLoadoutV2`: one binding per vehicle port, filled from the vehicle's default items |
| Grouping.Members | controller.js:91-100 | each group lists the bindings at its positions, none of them empty |
| Grouping.FirstMatch | controller.js:92 | `groups.find`: the first group whose first member accepts the binding, or past the end when none does |
| Grouping.FirstMatchUnique | controller.js:92 | a group that accepts the binding while no earlier group does is the one `find` picks |
| Grouping.Place | controller.js:93-99 | a binding joins the matched group at its end, or opens a new last group; other groups are unchanged |
| Grouping.FirstFitUpTo | controller.js:91-100 | the groups of the first n bindings are non-empty lists of positions below n |
| Grouping.FirstFit | controller.js:91-100 | the groups are non-empty lists of positions of the input |
| Grouping.FirstFitStep | controller.js:91-100 | one more binding is placed in the first group that accepts it |
| Grouping.PlacePartition | controller.js:93-99 | placing the next position keeps every position in exactly one group |
| Grouping.PlaceOrdered | controller.js:93-99 | placing the next position keeps groups in input order, and groups ordered by their first members |
| Grouping.PlaceGreedy | controller.js:92-99 | placing a binding where `find` put it keeps the first-fit property |
| Grouping.FirstFitPartition | controller.js:91-100 | every binding is in exactly one group: the groups partition the input |
| Grouping.FirstFitOrdered | controller.js:91-100 | each group keeps input order and the groups are ordered by their first members |
| Grouping.FirstFitGreedy | next/controller.js:69-78 | each binding was refused by the first member of every earlier group and accepted by the first member of its own |
| Grouping.MembersPlace | controller.js:93-99 | `match.push(binding)` or `groups.push([binding])` on the bindings follows the placement of positions |
| Grouping.MakeGroups | controller.js:91-100 | the push loop yields the bindings grouped by the first-fit partition |
| Controller.PortNames | controller.js:29 | one port name per member, in member order |
| Controller.GroupName | controller.js:28-31 | the member count followed by the smallest port name; no name (the number NaN of `0 + undefined`) exactly for an empty group |
| Controller.SortedFirstSmallest | controller.js:30 | the first name after `sort()` is one of the names and below all of them |
| Controller.SmallestUnique | controller.js:30 | the smallest name is unique |
| Controller.GroupNameOrderFree | next/controller.js:6-9 | the name depends only on the members' port names, not on their order |
| Controller.SimilarTurretsOneSided | controller.js:56-68 | only the left item's type is tested, so similarity holds both ways exactly when the right item is a turret too; similar bindings are both bound and uneditable |
| Controller.GroupableReflexive | controller.js:71-89 | every binding is groupable with itself, so it may join the group it leads |
| Controller.GroupableMeans | next/controller.js:49-67 | groupable ports agree on sizes, types and required tags and on being uneditable; uneditable ones also hold the same item unless they are similar turrets |
| Controller.MakeBindingGroups | controller.js:70-103 | `makeGroups` yields the first-fit groups under `groupable` |
| Controller.MakeBindingGroupsSpec | controller.js:70-103 | the groups partition the bindings in input order; each binding was refused by every earlier group's first member and, unless it leads its group, accepted by its own group's first member |
| Controller.ChildrenIdentical | controller.js:45-50 | true exactly when every child key of the first member is present in the other member and identical there; a missing one throws a TypeError |
| Controller.IdenticalTo | controller.js:39-51 | true exactly when every later member matches the first; false only when one does not; a TypeError only from a missing child |
| Controller.Identical | controller.js:33-54 | an empty group is identical; true exactly when every later member matches the first member and its children |
| Controller.SingleIdentical | next/controller.js:11-32 | a group of one is identical |
| Controller.IdenticalThrows | controller.js:46-47 | a child of the first member that another member lacks makes `identical` throw a TypeError |
| Controller.SectionOf | controller.js:445-451 | the first section whose types meet one of the port's types, or none when no section does |
| Controller.SectionName | controller.js:445-451 | a binding is shown in a section whose types it meets, and in none exactly when no section's types meet its port types |
| Controller.InSection | controller.js:439-455 | a binding is listed in a section exactly when it is a loadout binding whose first meeting section has that name |
| Controller.OneSection | controller.js:449-450 | `break` shows each binding in one section at most |
| Controller.SectionTablesDisplayed | controller.js:393-409 | every section of both `sectionTypes` tables is among `sectionNames` |
| Controller.SectionBindings | next/controller.js:310-326 | the result has one list per section name, holding exactly the bindings shown in that section, in loadout order |
| Controller.FindSection | controller.js:445-451 | the inner loop finds the first section whose types meet the port's |
| Controller.InSectionSnoc | controller.js:444-453 | one more binding is appended to its section's list only |
| Controller.InSectionAppend | controller.js:444-453 | the section lists of two runs of bindings are the lists of each, one after the other |
| Controller.StockNamesAt | controller.js:289-294 | the entries of the default tree are walked in order |
| Controller.EquippedNamesAt | controller.js:303-310 | the bindings are walked in order |
| Controller.CountsOf | controller.js:286-299 | each name is present exactly when it occurs, and its count is the number of occurrences |
| Controller.TallyAppend | controller.js:291 | tallying two runs of names is tallying one after the other |
| Controller.Tally | controller.js:288-295 | the tally's keys are the keys it started with and the names tallied |
| Controller.TallyCounts | controller.js:291 | the tally adds each name's occurrences to its count |
| Controller.TallyFromEmpty | controller.js:287-298 | a tally started from `{}` counts the occurrences |
| Controller.WalkDefaults | controller.js:288-295 | the walk adds every named default entry to the tally, and skips an unnamed entry with everything below it |
| Controller.StockItems | controller.js:286-299 | `stockItems` counts the item names of the vehicle's default tree |
| Controller.WalkEquipped | controller.js:302-311 | the walk adds every bound binding on an editable port to the tally, and walks below every bound binding |
| Controller.EquippedItems | controller.js:300-315 | `equippedItems` counts the items bound to editable ports of the loadout |
| Controller.RequiredItems | controller.js:316-334 | each equipped count less the stock count, kept when positive |
| Controller.Required | controller.js:316-334 | an item is required exactly when more are equipped than the stock loadout has, by the difference, which is positive |
| Controller.RequiredItemsMeaning | controller.js:316-334 | an item is required exactly when it is equipped on editable ports more often than the stock loadout holds it, and its count is the excess |
| Controller.FilterBindings | next/controller.js:183-198 | the three filters keep exactly the children `Shown` accepts, in order |
| Controller.FilterThreeTimes | next/controller.js:188-195 | the three passes are one pass by their conjunction |
| Controller.FilterBindingsKeeps | next/controller.js:183-198 | a child is kept exactly when some type is not `Cargo` and some type is not `WeaponAttachment`; every kept child has types |
| Controller.MaxLength | next/controller.js:201 | the longest list's length, zero for none |
| Controller.Zip | next/controller.js:201 | `_.zip`: as many rows as the longest list, each with one cell per list; the `i`-th element of list `j` is in row `i`, cell `j`, and a list too short for a row leaves its cell `undefined` |
| Controller.GroupArrays | next/controller.js:177-202 | nothing below the second level; otherwise the groups of every binding's shown children, zipped row by row |
| Controller.GroupsOf | next/controller.js:183-200 | the groups of one binding are non-empty and hold only its shown children |
| Ships.BaseName | code.js:22 | `split("/").pop()`: the text after the last `/`, the whole path when it has none |
| Ships.BaseNameIsLast | code.js:22 | joining pieces at `/` and taking the last piece gives back that piece |
| Ships.Candidates | code.js:16-34 | the ids tried in order: `spec_mod` first for a modification, the specification id first otherwise; an unknown modification throws |
| Ships.FirstKnown | code.js:8-14 | the first candidate with a loadout and a non-empty id, every earlier one lacking either |
| Ships.ResolveLoadoutId | code.js:7-36 | the calls of `tryLoadoutId`, each taking an id only while `loadoutId` is still falsy, settle on `LoadoutIdOf` |
| Ships.NewShipId | code.js:1-38 | `new ShipId` computes `ShipIdOf`: the first candidate with a loadout, or an error for an unknown modification |
| Ships.BaseShipOwnLoadout | code.js:29 | a ship without a modification takes its own id when a loadout has it |
| Ships.ModificationOwnLoadout | code.js:18 | a modification with its own `spec_mod` loadout takes that one, whatever its patch file says |
| Ships.ModificationIds | code.js:57-59 | the keys of `Modifications`, none when there are none |
| Ships.ShipIdsOf | code.js:71 | one ship id per modification, each the one `new ShipId` makes |
| Ships.ModificationLoadouts | code.js:69-77 | every listed ship id has a loadout; at most one per modification plus the base ship |
| Ships.ModificationLoadoutsBaseFirst | code.js:70-74 | the base ship is listed, and listed first, exactly when it has a loadout |
| Ships.ModificationLoadoutsComplete | code.js:70-74 | no modification with a loadout is dropped |
| Ships.Kids | code.js:121-129 | the sub-parts pushed are smaller than the part |
| Ships.Size | code.js:114-130 | every visited part counts at least one |
| Ships.CollectedFromIsStacked | code.js:114-130 | the nodes visited from a part's sub-parts are those visited from the stack holding them |
| Ships.StackedAppend | code.js:124-127 | what is pushed last is visited first |
| Ships.PopStep | code.js:115-129 | popping a part visits it when its class matches and leaves its sub-parts on the stack, and the work left shrinks |
| Ships.SearchParts | code.js:113-132 | the stack loop visits exactly `Collected`, in pre-order with the last sub-part first; an undefined start throws |
| Ships.PartsRoot | code.js:105-111 | without a modification the search starts at the ship's `Parts.Part` |
| Ships.FindParts | code.js:104-133 | `_findParts` searches from the ship's or the modification's parts; a missing `Parts` or an unknown modification throws |
| Ships.CollectedCount | code.js:114-130 | without a class every part is visited exactly once |
| Ships.CollectedCountFrom | code.js:114-130 | the same for a stack of parts |
| Ships.CollectedByClass | code.js:117-119 | searching for one class gives the parts of the full search that have that class, in the same order |
| Ships.CollectedByClassFrom | code.js:117-119 | the same for a stack of parts |
| Ships.MakeItemPortType | code.js:243-266 | the type is kept; the subtypes, or their default, split at commas into at least one piece without commas that join back to them |
| Ships.DefaultSubtypeOnly | code.js:249-259 | a port type without `@subtypes` has exactly its type's default subtype: `Gun` for `WeaponGun`, `GunTurret` for `Turret`, `Default` otherwise |
| Ships.SplitWithoutSeparator | code.js:263 | text without a comma splits into itself alone |
| Ships.MatchesTypeAnySubtype | code.js:283-288 | asking for no subtype matches whenever asking for one does |
| Ships.MatchesComponentMoreTags | code.js:307-315 | more vehicle tags never make a component fit less |
| Ships.MatchesComponentSize | code.js:299-305 | a fitting component of known size lies within the bounds the port sets |
| Ships.AvailableComponents | code.js:269-271 | no more names than components |
| Ships.AvailableComponentsMeaning | code.js:269-271 | a name is offered exactly when a merged component under it fits the port |
| Ships.MergeComponents | code.js:508-516 | the merged keys are those of both tables, without repeats, dataforge first; a dataforge component wins over a ship component of the same key |
| Ships.OverrideName | code.js:493-499 | the port name alone without a parent port, `parent.port` with one |
| Ships.BeforeDot | code.js:495 | no longer than the text |
| Ships.BeforeDotJoined | code.js:495 | the text before the dot of `parent.port` is the parent, when it has no dot |
| Ships.BeforeDotNone | code.js:498 | text without a dot is all before the dot |
| Ships.OverrideNameInjective | code.js:493-499 | with dot-free names, different ports get different override names |
| Ships.FindEntry | code.js:449 | `find`: the first loadout entry naming the port, every earlier one not naming it |
| Ships.LoadoutComponentName | code.js:447-472 | a ship without a loadout throws; a top-level port takes the name from an entry naming it |
| Ships.ShipCustomization.constructor | code.js:401-405 | a new customization holds its ship id and no overrides |
| Ships.ShipCustomization.SetAttachedComponent | code.js:435-438 | the override for the port's override name is set to the component; the others are unchanged |
| Ships.ShipCustomization.GetAttachedComponent | code.js:440-476 | an override wins over the loadout and is looked up in the merged components; without one, a ship without a loadout throws |
| Ships.SetThenGet | code.js:435-476 | after setting a component the port reports it, and every port with another override name reports what it did before |
| RecordWalks.Pass | storage.js:77-83 | the loop over the groups writes only groups it has looked at; `identical` may throw |
| RecordWalks.GroupChoices | storage.js:79 | one group record per written group, in order |
| RecordWalks.BindingChoices | storage.js:85-88 | one binding record per remaining binding, in order |
| RecordWalks.Records | storage.js:71-90 | every group record names one of the list's groups |
| RecordWalks.PassErrStays | storage.js:78 | once `identical` throws, the whole walk throws |
| RecordWalks.SelectRecords | storage.js:71-90 | the two loops of `walk` choose exactly `Records`: the written groups, then the remaining bindings |
| RecordWalks.WriteGroups | storage.js:77-83 | the loop over the groups writes the chosen group records and leaves the bindings no written group covers |
| RecordWalks.FilterDistinctPorts | storage.js:81 | dropping bindings keeps port names pairwise different |
| RecordWalks.PassKeeps | storage.js:77-83 | written groups are in increasing order, each with more than one member and identical; remaining bindings come from the input and lie outside every written group |
| RecordWalks.PassCovers | storage.js:77-83 | every customized binding remains or lies in a written group |
| RecordWalks.RecordsAt | storage.js:71-90 | the records are the group records followed by the binding records |
| RecordWalks.GroupsWrittenOnce | storage.js:77-83 | no group is written twice in one list |
| RecordWalks.BindingsOutsideGroups | storage.js:81-86 | no binding record's port belongs to a group written in the same list |
| RecordWalks.BindingsWrittenOnce | storage.js:85-88 | with different ports in the list, binding records have different ports |
| RecordWalks.EveryCustomizedWritten | storage.js:74-88 | every customized binding with a projected type is written, as a binding record or within a written group |
| RecordWalks.ApplyItem | storage.js:148-152 | as many bindings as the record stands for |
| RecordWalks.ApplyItemSets | storage.js:148-152 | afterwards every binding holds the decoded item; when every binding already holds it, none is touched, children included |
| RecordWalks.ApplyItemIdempotent | storage.js:148-152 | applying the same record twice changes nothing the second time |
| Py.GetKey | scripts/common.py:18 | `d.get(k)` gives `None` for a missing key and the value otherwise; only dicts have `get` |
| Py.Lookup | scripts/common.py:18 | `get` on an element: the value under the key, `None` when missing |
| Py.Index | scripts/vehicle.py:114 | `d[k]`: the value under the key, a KeyError when a dict lacks it, a TypeError on anything else |
| Py.GetDefault | scripts/common.py:9 | `d.get(k, default)`: the default for a missing key; only dicts have `get` |
| Py.Iterate | scripts/common.py:17 | `for x in j`: the items of a list, the keys of a dict, the characters of a string; anything else raises |
| Py.KeyValues | scripts/common.py:17 | iterating a dict gives its keys, in order |
| Py.ConcatStr | scripts/common.py:35 | `prefix + x` succeeds exactly for a string and is the concatenation |
| Py.ToInt | scripts/common.py:9-10 | `int(x)`: integers unchanged, strings parsed or a ValueError, containers and `None` a TypeError |
| Py.ToIntOfText | scripts/vehicle.py:78 | `int(str(n)) == n` |
| Py.PyStr | scripts/common.py:35 | `str(x)` is defined for every scalar; `str(None)` is `"None"` and a string is itself |
| Text.Lower | next/scripts/xml_reader.py:24 | `str.lower()` lowers each letter in place |
| Text.LowerIsLower | next/scripts/xml_reader.py:29 | a lowered key has no capital letter, and lowering one without capitals changes nothing |
| Text.Split | scripts/common.py:8 | `s.split(sep)`: at least one piece, none holding the separator, and joining them back gives `s` |
| Text.SplitWhitespace | scripts/common.py:32 | `s.split()`: non-empty runs without whitespace; none exactly for an all-whitespace string |
| Text.Strip | next/scripts/extract.py:55 | `strip()` leaves a slice of the text with no whitespace at either end |
| Text.IntToString | controller.js:30 | a number joined to a string is non-empty decimal text without surrounding whitespace |
| Text.ParseIntToString | scripts/vehicle.py:78 | the text of a number parses back to that number |
| Text.ParseInt | scripts/vehicle.py:78 | a parsed text is a sign or digit followed by digits once stripped, negative only with `-`; any stripped text of digits alone parses to a non-negative number |
| Sorting.SortBy | scripts/common.py:35 | `sort(key=...)` permutes the list |
| Sorting.SortBySorted | scripts/common.py:35 | the sorted list is in key order |
| Sorting.SortByStable | scripts/common.py:35 | the sort is stable: the elements with one key keep their order |
| Sorting.Sorted | scripts/common.py:34 | `sort()` on names permutes them into order |
| Links.SchemeOf | scripts/download.py:7 | the scheme group of the pattern ends where a run of scheme characters meets `://` |
| Links.HostOf | scripts/download.py:7 | the host group runs up to the first `/` after the scheme |
| Links.PathOf | scripts/download.py:7 | the path group runs to the end of a one-line link |
| TreeStore.AddChildEffect | next/scripts/xml_reader.py:29-32 | one child step grows only the list under the child's key, by the sub-tree |

## Left out

- File, process and network I/O are not modelled: reading and writing files, ElementTree parsing, the `convert_*` drivers, unp4k, downloads, `get_json`, and all of scripts/merge.py. An element is an abstract `Element` datatype, and patch documents, localisation tables, schema tables (`filters`) and loadout catalogues are inputs.
- Storage.LoadoutStorage: `_flush` is not modelled, so the model does not show that a throw from `serialize` or `deserialize` in `set` skips writing to `localStorage`. When several stored records fail to deserialize, `Open` reports one of their errors and does not fix which one (the source takes the first in `Object.entries` order).
- Browser APIs and the UI are not modelled: `localStorage` (storage.js `LoadoutStorage`, next/storage.js `_flush`), Vue, `gtag`, ClipboardJS and WebGL. `btoa` is replaced by the base64url alphabet of RFC 4648, which the model writes out directly.
- Floating point is not modelled. This covers every `float()` coercion in next/scripts/factory/item.py, the value of the vehicle mass in scripts/vehicle.py and next/scripts/factory/vehicle.py (its ValueError and TypeError are modelled by `VehicleWalk.MassText`), `Damage`, the `*Extension(s)` getters, coverage geometry and number formatting. The type-specific fields of `make_item` are an abstract parameter.
- ItemFactory.Baseline: the record has no `maxLifetimeHours`, `power` or `heat` key (next/scripts/factory/item.py:282-292, 325-336), since their values are floats; the `single` lookups of those three elements and the ValueError of their `float()` are not modelled either.
- Printed warnings are not modelled. A warning branch continues exactly as the source does after printing.
- The `fnmatch` hiding patterns are not modelled. The substring-based `hidden_vehicle_name` and `hidden` are modelled.
- Randomness is replaced by parameters. The uuid name of a nameless port is a non-empty name given per vehicle build, so two nameless ports of one build share it. The `_.random` keys of controller.js are not modelled.
- Python's `int()` is modelled for ASCII digits with an optional sign and surrounding whitespace; underscores and non-ASCII digits are not. `str.lower()` is modelled for ASCII letters only.
- JavaScript `sort()` is modelled in code-point order; the UTF-16 code-unit order differs only above U+FFFF. `hashString` does read UTF-16 code units.
- Locator.IsMatch compares ids with the model's equality, under which two dicts with the same items in another key order differ, while Python's `==` on dicts ignores order; the two agree on every id a read tree holds, since attribute values are strings.
- Object keys are modelled as plain dictionary keys. Collisions with `Object.prototype` names (`"constructor"`, `"__proto__"`) are not modelled.
- Aliasing is not modelled: `clear()`/`update()` in `modify_vehicle`, and binding objects shared between the parent and child maps. Trees and binding trees are values, and a binding's parent pointer is the chain of its ancestors.
- BindingTrees.BoundV1: recursion of `setItem` through default children carries a fuel bound standing for the engine's stack limit; a catalogue whose items nest cyclically ends in that error instead of looping.
- Codec.Serialize: requires every list's count to fit one UTF-16 code unit below the surrogates (`'A' + n < 0xD800`, counts up to 55230); larger counts, whose `String.fromCharCode` is a surrogate or wraps, are not modelled.
- The child selection of `serializeGroup` (storage.js:58-68) is not modelled: it prefers, port by port, a customised member binding over the template's. Neither is the recursion of `walk` into the children of each record written (storage.js:51, 67): `RecordWalks.SelectRecords` chooses the records of one list, and the children are given to the codec as records.
- Py.PyStr: `str()` of a list or dict succeeds in Python, but the model gives TypeError; its callers only pass scalars.
- ItemFactory.ItemOf: the type-specific makers (`_item_type_methods`) are a parameter that may fail; their fields and errors are not modelled one by one.
- The lookup in `deserialize` of a binding by its port-name hash and of an item by its item hash (`findItem`) is not modelled. The codec reads the record grammar into hashes, and `RecordWalks.ApplyItem` applies an already decoded item to the bindings a record stands for.
- In `serialize`, the customised bindings with a shown type are given as an input list, and `identical` is the modelled `Controller.Identical`. The `_.get` reads of dotted field names are not modelled.
- The file-loadout branches of `make_loadout` are not modelled. In scripts/vehicle.py they read a loadout file, which is I/O. In next/scripts/factory/vehicle.py:21-46 the branch names `element_array`, `os` and `read_json_file`, none of which that file imports, so it cannot run. Both are represented by `None`.
- `apply_filters` is modelled only where it descends into dictionaries and lists. On a scalar where deeper paths exist, the source iterates a string's characters and then fails on `del`; the model reports that case as an error and proves nothing more about it.
- A patch root with attributes is modelled as scripts/extract.py:105-107 treats it: `Iterate` of the attribute's string gives its characters, and `entry.get` on a character raises AttributeError.
- The display-only parts of `requiredItems` are not modelled: the order of its result, and the `displayName`, `basePrice` and `available` fields. The counts are modelled.
- `getItemPortsMatchingTypes`, `_findItemPorts`, `getAttributes`, and the field getters of `DataforgeComponent`, `DataforgeItemPort` and `SpaceshipComponent` in code.js are not part of this model; they only read fields.
- scripts/acquire_data.py `apply_filters` is the same projection without the normalisation pass (the `normalize` flag of `Projection` set to false). Its per-schema `filter_usage` set-up is `Projection.InitUsage`.

## Findings

| source | as written | input that shows it | evidently intended | confidence | as-written member | corrected member |
|---|---|---|---|---|---|---|
| scripts/vehicle.py:103-107 | each port type entry is written under the key `"subtypes"`, but the sort at scripts/common.py:35 reads `"subtype"`, so every entry of one type sorts on `"None"` and keeps its order (the same in next/scripts/factory/vehicle.py:93-97) | a port type `WeaponGun` with `@subtypes` `"Rocket,Gun"`: the entries stay Rocket, Gun | the entry written under `"subtype"`, so that the entries sort as Gun, Rocket | not executed | VehicleWalk.WrittenKeyPair | VehicleWalk.IntendedKeyPair |
| next/scripts/extract.py:135 | the patch file name is read from `"@patchFile"`, but `read_xml_tree` stores attributes under lower-cased names (next/scripts/extract.py:37), so the patch file is never applied | any modification element with a `patchFile` attribute; with the key alone corrected, any `modifications` element with content, since `value.get` meets the lists `read_xml_tree` builds | `"@patchfile"`, the key scripts/extract.py:102 reads, and each list under `modifications` iterated for its entries, as scripts/extract.py:104-105 does | not executed | Patch.NextPatchNeverApplies | Patch.NextFixedReplaces |
