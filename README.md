# ATT&CK scripts: the in-memory transforms

This project models the data transforms of the MITRE ATT&CK helper scripts. Each script
downloads STIX data and then turns plain records into a layer document, CSV rows or a list.

The model covers the transform itself. Its inputs are STIX objects and relationships, and
the store is a map from STIX id to object. The model covers six scripts:

- **Bear layer.** Techniques used by intrusion sets with "bear" in an alias
  (`BearLayer` and `TechniqueUsage`).
- **Software-execution layer.** Techniques used by malware or tools, scored by how many
  pieces of software use each one (`SoftwareExecution` and `TechniqueUsage`).
- **APT3/APT29 layer.** Techniques used by APT3 and APT29, directly or through software,
  with the colour rule and comments (`AptSoftware`).
- **Relationship tables.** The module-level dicts of the data-sources visualisation script
  and the CSV lines written from them. `DataSourcesVis` holds the specification functions
  and their lemmas. `DataSourcesTables` holds a class `Tables` whose fields are the dicts
  and whose methods do the `parse_*` work in place. `DataSourcesCsv` holds the writers'
  rows.
- **Technique mappings.** The deprecation filter, the external-ID lookup, newline escaping,
  row assembly, the final stable sort and the choice of mapping (`TechniqueMappings`, with
  Python's `sorted` in `StableSort`).
- **Data-source listing.** The first-appearance accumulation of data-source names
  (`DataSourceListing`).

The shared modules are:

- `Wrappers` and `StixData` for Option, Result and the STIX records;
- `Text` for join, ASCII lower-casing, substring, first line and `str(n)`;
- `OrderedDict`, an insertion-ordered dict: a key sequence plus a map;
- `Seqs` for comprehensions, nested appends, `filter` and the order of first appearance;
- `LayerFormat` for the Navigator layer constants.

A Python dict keeps its insertion order, so it is modelled as `ODict`: the keys in order
plus a map. A crash of the script is an `Err` result:

- a dangling reference that `ms.get` resolves to None;
- an empty `external_references` list;
- an unknown mapping type;
- an unknown domain.

Two behaviours of the code are worth noting. In scripts/layers/samples/bear_APT.py:46-48,
`ms.get` returns None for a dangling technique target and the next line raises TypeError;
the model returns `Err(MissingObject)` rather than skipping the relationship. The docstring of
`makelower` promises lower-cased keys and values, but the code
(scripts/techniques_data_sources_vis.py:81-84) lowers only the keys, and so does the model.

## Model

| member | source | states |
|---|---|---|
| `StixData.RelationshipsOf` | scripts/layers/samples/bear_APT.py:42 | `ms.relationships(id)` is exactly the input relationships whose source is the object, and no more of them than the input has |
| `Text.Lower` | scripts/layers/samples/bear_APT.py:22 | case folding keeps the length and maps each character through the ASCII lower-case rule |
| `Text.FirstLine` | scripts/layers/samples/bear_APT.py:22 | the part `.*` can match is a newline-free prefix of the alias, ending just before its first newline if there is one |
| `Text.FirstLineOfLine` | scripts/layers/samples/bear_APT.py:22 | an alias without a newline is matched in full |
| `Text.JoinAppend` | scripts/layers/samples/bear_APT.py:39 | joining a non-empty list with one more element adds the separator and that element at the end |
| `Text.NatToString` | scripts/techniques_data_sources_vis.py:337 | `str(n)` of a count is a non-empty string of decimal digits |
| `OrderedDict.FirstSeen` | scripts/layers/samples/bear_APT.py:51-54 | the keys of the grouped pairs are free of repeats and are exactly the keys some pair carries |
| `OrderedDict.ValuesFor` | scripts/layers/samples/bear_APT.py:51-54 | the values of a key are empty exactly when no pair carries the key |
| `OrderedDict.AppendAllConcat` | scripts/layers/samples/bear_APT.py:51-54 | appending two batches of pairs one after the other is appending them all at once |
| `OrderedDict.GroupedSpec` | scripts/layers/samples/bear_APT.py:51-54 | grouping pairs into a dict of lists: keys in first-seen order, a key present exactly when some pair has it, and its list the values of its pairs in order, never empty |
| `Seqs.Map` | scripts/techniques_data_sources_vis.py:281-283 | a comprehension over a list has one element per input element, each the image of the one at the same place |
| `Seqs.MapMember` | scripts/techniques_data_sources_vis.py:281-283 | an element is produced by the comprehension exactly when it is the image of some input element |
| `Seqs.ConcatMapMember` | scripts/techniques_data_sources_vis.py:260-265 | nested loops that append emit an element exactly when some outer element's inner list holds it |
| `Seqs.ConcatMapLength` | scripts/techniques_data_sources_vis.py:260-265 | when every inner list has length n, the nested loops emit n elements per outer element |
| `Seqs.Filter` | scripts/techniques_data_sources_vis.py:310 | `filter` keeps exactly the elements that satisfy the predicate |
| `Seqs.FilterConcat` | scripts/techniques_data_sources_vis.py:310 | filtering a concatenation filters each part, so the kept elements keep their relative order |
| `Seqs.FilterCount` | scripts/techniques_data_sources_vis.py:310 | an element that satisfies the predicate keeps all its occurrences, any other none |
| `Seqs.DedupOrder` | scripts/techniques_from_data_source.py:19-24 | in the order of first appearance, x comes before y exactly when the first x comes before the first y |
| `Seqs.FilterDistinct` | scripts/techniques_from_data_source.py:21-24 | filtering a list free of repeats gives a list free of repeats |
| `TechniqueUsage.TechniqueIdOf` | scripts/layers/samples/bear_APT.py:45-49 | one relationship fails exactly when its attack-pattern target is missing, or is live with no external references; it yields ID k exactly when its target is a live attack-pattern whose first external ID is k; otherwise it is skipped |
| `TechniqueUsage.VisitsOf` | scripts/layers/samples/bear_APT.py:42-43 | the actor's relationships are visited in order, each under the actor's recorded name |
| `TechniqueUsage.RecordConcat` | scripts/layers/samples/bear_APT.py:42-54 | recording a + b is recording b on the result of a; a failure in a is the failure of the whole |
| `TechniqueUsage.RecordOk` | scripts/layers/samples/bear_APT.py:42-54 | recording succeeds exactly when no visited relationship is defective, and then appends each contributed (ID, name) pair in visiting order |
| `TechniqueUsage.ContributionsUses` | scripts/layers/samples/bear_APT.py:51-54 | the names grouped under ID k are the names of the visits that contribute k, in visiting order |
| `TechniqueUsage.UsesOfNonEmpty` | scripts/layers/samples/bear_APT.py:51-54 | the name list of k is non-empty exactly when some visit contributes k |
| `TechniqueUsage.RecordSpec` | scripts/layers/samples/bear_APT.py:42-54 | from an empty dict the aggregation fails exactly on a defective relationship; otherwise the keys are the contributed IDs in first-seen order, and each list holds one name per contributing relationship, in order and without deduplication |
| `TechniqueUsage.AddUsages` | scripts/layers/samples/bear_APT.py:43-54 | the loop over one actor's relationships computes the recording of its visits |
| `BearLayer.BearAliasOfLine` | scripts/layers/samples/bear_APT.py:22 | a newline-free alias matches exactly when its lower-cased text contains "bear" |
| `BearLayer.BearGroups` | scripts/layers/samples/bear_APT.py:16-24 | every selected group is neither deprecated nor revoked and has a "bear" alias |
| `BearLayer.BearGroupsSpec` | scripts/layers/samples/bear_APT.py:16-24 | a group is selected exactly when it is live and has a "bear" alias; each selected group appears as often as in the input, once per occurrence however many aliases match (order: `BearGroupsConcat`) |
| `BearLayer.BearGroupsConcat` | scripts/layers/samples/bear_APT.py:16-24 | selecting from two runs of groups is selecting from each in turn, so the selected groups keep their input order |
| `BearLayer.SelectBearGroups` | scripts/layers/samples/bear_APT.py:16-24 | the loop with its `break` computes the selection |
| `BearLayer.BearNames` | scripts/layers/samples/bear_APT.py:31-35 | the display aliases are exactly the matching aliases, there is one for every selected group, and the first is the first matching alias |
| `BearLayer.BearNamesOfFirst` | scripts/layers/samples/bear_APT.py:31-37 | the head of the list is the earliest alias that matches |
| `BearLayer.BearNamesOfConcat` | scripts/layers/samples/bear_APT.py:31-35 | the comprehension keeps alias order: the matches of a concatenation are the matches of each part in turn |
| `BearLayer.BearName` | scripts/layers/samples/bear_APT.py:37-39 | the display name is the first matching alias when only one matches, and otherwise that alias followed by " (AKA ", the others joined by ",", and ")" |
| `BearLayer.BearVisitsConcat` | scripts/layers/samples/bear_APT.py:28-43 | the visits of two runs of groups are the visits of each, one after the other |
| `BearLayer.BearVisitsFailure` | scripts/layers/samples/bear_APT.py:42-54 | once the groups up to i fail, the whole aggregation fails with the same error |
| `BearLayer.AggregateTechniques` | scripts/layers/samples/bear_APT.py:26-54 | the nested loops compute the recording of every selected group's visits under its display name |
| `BearLayer.Generate` | scripts/layers/samples/bear_APT.py:13-80 | the layer exists exactly when no relationship is defective; it has fixed name, versions 4.1/4.1, description, domain and one legend item coloured "#ff6666"; it has one entry per distinct technique ID in first-seen order, commented "used by " and the names joined by ", " |
| `SoftwareExecution.SoftwareFilters` | scripts/layers/samples/software_execution.py:15-19 | "software" queries malware then tools, "malware" and "tool" one type each, anything else nothing |
| `SoftwareExecution.OfType` | scripts/layers/samples/software_execution.py:21-23 | a type query returns exactly the objects of that type |
| `SoftwareExecution.QueryChain` | scripts/layers/samples/software_execution.py:21-23 | chaining the queries gives exactly the objects whose type is among the filters |
| `SoftwareExecution.QueryChainShort` | scripts/layers/samples/software_execution.py:21-23 | one filter is one query; two are the first query's results followed by the second's |
| `SoftwareExecution.Software` | scripts/layers/samples/software_execution.py:15-23 | "software" gives malware first and then tools, "malware" only malware, "tool" only tools, and any other subtype nothing |
| `SoftwareExecution.SoftwareVisitsConcat` | scripts/layers/samples/software_execution.py:27-30 | the visits of two runs of software are the visits of each, one after the other |
| `SoftwareExecution.SoftwareVisitsFailure` | scripts/layers/samples/software_execution.py:27-41 | once the software up to i fails, the whole aggregation fails with the same error |
| `SoftwareExecution.AggregateSoftware` | scripts/layers/samples/software_execution.py:26-41 | the nested loops compute the recording of every live piece of software's visits under its name |
| `SoftwareExecution.ExtremesStep` | scripts/layers/samples/software_execution.py:49-51 | one step of the running `max` and `min` keeps them the highest score (0 before any) and the lowest score capped at 1 |
| `SoftwareExecution.RenderTechniques` | scripts/layers/samples/software_execution.py:43-59 | one entry per technique in key order, scored by its list length and commented "executed by " and the names; `highest_usage` is the maximum score, 0 for no entries; `lowest_usage` is at most 1 and every score, and is exactly 1 when no list is empty |
| `SoftwareExecution.LayerName` | scripts/layers/samples/software_execution.py:62-68 | the name is "Software Execution" exactly for the subtype "software", and "Software (<subtype>) Execution" for every other subtype |
| `SoftwareExecution.LayerNameInjective` | scripts/layers/samples/software_execution.py:62-68 | different subtypes give different layer names |
| `SoftwareExecution.Plural` | scripts/layers/samples/software_execution.py:63 | the description says "tools" exactly for the subtype "tool", and "malware" for every other subtype |
| `SoftwareExecution.Generate` | scripts/layers/samples/software_execution.py:12-90 | the layer exists exactly when no relationship is defective; one entry per technique ID in first-seen order, scored by the number of contributing relationships (at least 1); the gradient runs from 1 to the highest score (0 with no entries); sorting code 3, versions 4.1/4.1 and domain "enterprise-attack" |
| `AptSoftware.UseTechnique` | scripts/layers/samples/apt3_apt29_software.py:20-22 | recording a technique fails exactly when it has no external references |
| `AptSoftware.UseTechniqueSpec` | scripts/layers/samples/apt3_apt29_software.py:20-36 | a new ID is appended with both flags false, no software and no data sources; then the current group's flag is set; data sources are replaced only by a non-empty list; the software name is added when software is given; other entries are unchanged |
| `AptSoftware.SoftwareWalkFailure` | scripts/layers/samples/apt3_apt29_software.py:50-56 | a failure among a software's first j relationships is the failure of its whole walk |
| `AptSoftware.GroupWalkFailure` | scripts/layers/samples/apt3_apt29_software.py:39-56 | a failure among a group's first j relationships is the failure of its whole walk |
| `AptSoftware.AptWalkFailure` | scripts/layers/samples/apt3_apt29_software.py:18-56 | a failure while walking the first j groups is the failure of the whole traversal |
| `AptSoftware.VisitSoftwareRelationship` | scripts/layers/samples/apt3_apt29_software.py:51-56 | one software relationship: a missing target fails, a deprecated or revoked one is skipped, and an attack-pattern is recorded with the software |
| `AptSoftware.TraverseSoftware` | scripts/layers/samples/apt3_apt29_software.py:50-56 | the loop over a software's relationships computes its walk |
| `AptSoftware.VisitGroupRelationship` | scripts/layers/samples/apt3_apt29_software.py:40-56 | one group relationship: a missing target fails, a deprecated or revoked one is skipped, an attack-pattern is recorded, and malware or a tool is walked in turn |
| `AptSoftware.TraverseGroup` | scripts/layers/samples/apt3_apt29_software.py:39-56 | the loop over a group's relationships computes its walk |
| `AptSoftware.TraverseGroups` | scripts/layers/samples/apt3_apt29_software.py:18-56 | the loop over the two groups computes the traversal from an empty dict |
| `AptSoftware.Traverse` | scripts/layers/samples/apt3_apt29_software.py:13-56 | the whole traversal of APT3 then APT29, a missing group included, computes `Traversal` |
| `AptSoftware.UseTechniqueKeeps` | scripts/layers/samples/apt3_apt29_software.py:20-36 | a live technique is recorded without failure; keys are only appended, flags are never reset, software is never removed and non-empty data sources stay non-empty |
| `AptSoftware.SoftwareVisitKeeps` | scripts/layers/samples/apt3_apt29_software.py:51-56 | one software relationship keeps every earlier entry in that sense |
| `AptSoftware.SoftwareWalkKeeps` | scripts/layers/samples/apt3_apt29_software.py:50-56 | a software's walk keeps every earlier entry in that sense |
| `AptSoftware.GroupVisitKeeps` | scripts/layers/samples/apt3_apt29_software.py:40-56 | one group relationship keeps every earlier entry in that sense |
| `AptSoftware.GroupWalkKeeps` | scripts/layers/samples/apt3_apt29_software.py:39-56 | a group's walk keeps every earlier entry in that sense |
| `AptSoftware.AptWalkKeeps` | scripts/layers/samples/apt3_apt29_software.py:18-56 | the walk over the groups keeps every earlier entry; when each group is named "APT3" or "APT29", every entry carries a group flag |
| `AptSoftware.TraversalEntries` | scripts/layers/samples/apt3_apt29_software.py:13-56 | when the two groups carry their names, every recorded technique is used by APT3 or APT29 and is the first external ID of a live technique |
| `AptSoftware.ColorLookup` | scripts/layers/samples/apt3_apt29_software.py:61-67 | with nodetect and no data sources the colour is "#fc3b3b"; otherwise green exactly for both groups, blue for APT3 only, yellow for APT29 only, and none for neither |
| `AptSoftware.TraversalColoured` | scripts/layers/samples/apt3_apt29_software.py:61-67 | every technique of the traversal gets a colour |
| `AptSoftware.Comment` | scripts/layers/samples/apt3_apt29_software.py:71-82 | with nodetect: the undetectable text exactly when the technique has no data sources, otherwise the detectable prefix and the joined data sources; without: "used by " and the joined names |
| `AptSoftware.UsedBy` | scripts/layers/samples/apt3_apt29_software.py:78-81 | the names are "APT3" first if set, then "APT29" if set, then the software names in enumeration order, and nothing else |
| `AptSoftware.Enumerate` | scripts/layers/samples/apt3_apt29_software.py:81 | `list(s)` holds each element of the set exactly once |
| `AptSoftware.RenderEntry` | scripts/layers/samples/apt3_apt29_software.py:70-87 | the entry of one technique carries its ID, its `color_lookup` colour and its comment for some enumeration of its software set |
| `AptSoftware.RenderTechniques` | scripts/layers/samples/apt3_apt29_software.py:69-88 | one entry per technique in first-seen order, with its colour and its comment for some enumeration of its software set |
| `AptSoftware.Legend` | scripts/layers/samples/apt3_apt29_software.py:94-115 | three items coloured blue, yellow and green, plus a fourth red item with nodetect |
| `AptSoftware.LayerName` | scripts/layers/samples/apt3_apt29_software.py:92-110 | the base name, extended exactly when nodetect is shown |
| `AptSoftware.Description` | scripts/layers/samples/apt3_apt29_software.py:93-111 | the base description, extended exactly when nodetect is shown |
| `AptSoftware.Generate` | scripts/layers/samples/apt3_apt29_software.py:11-128 | the layer fails exactly when the traversal does, with its failure; otherwise name, versions, description, domain and legend as above and one entry per recorded technique in first-seen order |
| `DataSourcesVis.ExtendUnique` | scripts/techniques_data_sources_vis.py:212-215 | appending the missing elements keeps the old list as a prefix, holds exactly the old and new elements, and stays free of repeats (order: `ExtendUniqueDedup`) |
| `DataSourcesVis.ExtendUniqueConcat` | scripts/techniques_data_sources_vis.py:212-215 | extending by a concatenation is extending by each part in turn |
| `DataSourcesVis.ExtendUniqueDedup` | scripts/techniques_data_sources_vis.py:212-215 | extending a list free of repeats gives the order of first appearance of the old list followed by the new values: new values are appended in the order they are first met |
| `DataSourcesVis.PhaseNames` | scripts/techniques_data_sources_vis.py:205-208 | the tactics read are exactly the phase names of the kill-chain phases that have one |
| `DataSourcesVis.PhaseNamesConcat` | scripts/techniques_data_sources_vis.py:205-208 | the phase names of a concatenation are those of each part, in phase order |
| `DataSourcesVis.AddMissing` | scripts/techniques_data_sources_vis.py:213-215 | the `if x not in l: l.append(x)` loop computes that extension |
| `DataSourcesVis.AddPhases` | scripts/techniques_data_sources_vis.py:205-210 | the kill-chain loop extends the tactic list by the phase names |
| `DataSourcesVis.LinkSide` | scripts/techniques_data_sources_vis.py:61-78 | one side of `add_link`: x gets a list at the end of the key order if new, the list then holds y, and every other entry is unchanged |
| `DataSourcesVis.LinkSideListAt` | scripts/techniques_data_sources_vis.py:61-78 | after one side, z is listed under k exactly when it was before or (k, z) is (x, y) |
| `DataSourcesVis.AddLinkLinks` | scripts/techniques_data_sources_vis.py:61-78 | after `add_link` both keys exist, beta is listed under alpha and alpha under beta |
| `DataSourcesVis.LinkSideIdempotent` | scripts/techniques_data_sources_vis.py:61-78 | one side done twice is done once |
| `DataSourcesVis.AddLinkIdempotent` | scripts/techniques_data_sources_vis.py:61-78 | `add_link` done twice is done once |
| `DataSourcesVis.LinkSideNoDup` | scripts/techniques_data_sources_vis.py:61-78 | one side keeps every list free of repeats |
| `DataSourcesVis.AddLinkNoDup` | scripts/techniques_data_sources_vis.py:61-78 | `add_link` keeps every list of both dicts free of repeats |
| `DataSourcesVis.AddLinkSymmetric` | scripts/techniques_data_sources_vis.py:61-78 | two dicts that mirror each other still do after `add_link` |
| `DataSourcesVis.AddLinkTo` | scripts/techniques_data_sources_vis.py:61-78 | the four in-place updates of `add_link` compute both sides |
| `DataSourcesVis.LowerIdempotent` | scripts/techniques_data_sources_vis.py:84 | lower-casing twice is lower-casing once |
| `DataSourcesVis.LowerAll` | scripts/techniques_data_sources_vis.py:84 | each key is lower-cased in place |
| `DataSourcesVis.MakeLowerOfKeys` | scripts/techniques_data_sources_vis.py:81-84 | the keys of the result are exactly the lower-cased keys |
| `DataSourcesVis.MakeLowerOfLastWins` | scripts/techniques_data_sources_vis.py:81-84 | the value under a lowered key is that of the last key lowering to it |
| `DataSourcesVis.MakeLowerKeys` | scripts/techniques_data_sources_vis.py:81-84 | every key of the result is lower-case and comes from some key of the input |
| `DataSourcesVis.MakeLowerValues` | scripts/techniques_data_sources_vis.py:81-84 | a key that no other key collides with keeps its value, not lower-cased |
| `DataSourcesVis.AddField` | scripts/techniques_data_sources_vis.py:190-230 | one technique's field: the name gets a list if new, which grows by exactly the missing values and stays free of repeats; other entries are unchanged (order: `AddFieldAt`) |
| `DataSourcesVis.AddFieldAt` | scripts/techniques_data_sources_vis.py:190-230 | one technique's field touches only the list under its name, and a list free of repeats becomes the first-appearance order of its old contents followed by the field's values |
| `DataSourcesVis.ParseTechniqueField` | scripts/techniques_data_sources_vis.py:185-230 | one technique updates each of the five dicts by its own field |
| `DataSourcesVis.ParseAllDict` | scripts/techniques_data_sources_vis.py:185-230 | the loop over techniques updates each dict by its field alone |
| `DataSourcesVis.FieldWalkKeys` | scripts/techniques_data_sources_vis.py:185-199 | a name has a list exactly when it had one or some technique has that name |
| `DataSourcesVis.FieldWalkGrows` | scripts/techniques_data_sources_vis.py:185-230 | lists only grow at their end and stay free of repeats |
| `DataSourcesVis.FieldWalkMembers` | scripts/techniques_data_sources_vis.py:185-230 | a value is listed under a name exactly when it was or some technique of that name lists it |
| `DataSourcesVis.FieldWalkList` | scripts/techniques_data_sources_vis.py:185-230 | after the loop a name's list is its old list extended by the values of the records with that name, in record order |
| `DataSourcesVis.ParseAllSpec` | scripts/techniques_data_sources_vis.py:185-230 | every technique name gets a list in the dict, old lists are prefixes of the new ones, no list has a repeat, and each list is the first-appearance order of its old contents followed by the values of the records with that name |
| `DataSourcesVis.UserOnlySpec` | scripts/techniques_data_sources_vis.py:235-237 | a permission list holding "User" becomes exactly ["User"], and other lists are unchanged |
| `DataSourcesVis.UserOnlyLists` | scripts/techniques_data_sources_vis.py:235-237 | the closing loop over every key keeps lists free of repeats and applies the 'User' rule to each list |
| `DataSourcesVis.ParsedTechniquesField` | scripts/techniques_data_sources_vis.py:177-237 | after `parse_techniques` every technique name has a list free of repeats in each dict, and each list is the first-appearance order of the values of the records with that name (after any earlier contents), reduced to ['User'] for a permission list that holds 'User' |
| `DataSourcesVis.ParsedTechniquesUser` | scripts/techniques_data_sources_vis.py:235-237 | after `parse_techniques` a permission list that held "User" is ["User"] and the others are as parsed, in the same key order |
| `DataSourcesVis.ParsedTechniquesKeys` | scripts/techniques_data_sources_vis.py:190-195 | `tech_to_tac` and `tech_to_perm` end with the same techniques, as `parse_tactics` needs |
| `DataSourcesVis.RecordNames` | scripts/techniques_data_sources_vis.py:127-132 | every id recorded is an old one or the id of some entry |
| `DataSourcesVis.RecordNamesKeys` | scripts/techniques_data_sources_vis.py:127-132 | a name is recorded exactly when it was or some entry has it, and old names keep their id |
| `DataSourcesVis.RecordNamesFirstWins` | scripts/techniques_data_sources_vis.py:127-132 | a new name keeps the id of its first entry |
| `DataSourcesVis.RecordNamesInverse` | scripts/techniques_data_sources_vis.py:120-147 | with fresh distinct ids, `id_to_x[x_to_id[n]] == n` for every recorded name |
| `DataSourcesVis.CountPermissionsSpec` | scripts/techniques_data_sources_vis.py:114-117 | each listed permission's counter goes up by one, others stay |
| `DataSourcesVis.CountTacticSpec` | scripts/techniques_data_sources_vis.py:109-117 | one tactic gets a counter row, and counts its technique's permissions once each |
| `DataSourcesVis.CountTacticsSpec` | scripts/techniques_data_sources_vis.py:109-117 | a technique adds one to (tac, perm) exactly when it lists both |
| `DataSourcesVis.CountAllKeys` | scripts/techniques_data_sources_vis.py:103-117 | the counter rows are the tactics some technique lists |
| `DataSourcesVis.CountAllSpec` | scripts/techniques_data_sources_vis.py:103-117 | each count grows by the number of techniques that list both the tactic and the permission |
| `DataSourcesVis.AddLinkKeeps` | scripts/techniques_data_sources_vis.py:61-78 | linking two resolved names keeps a pair of dicts mirrored, free of repeats and resolved |
| `DataSourcesVis.LinkCasePair` | scripts/techniques_data_sources_vis.py:163-174 | one case keeps every pair of opposite dicts mirrored, free of repeats and resolved |
| `DataSourcesVis.LinkCaseKeeps` | scripts/techniques_data_sources_vis.py:163-174 | one case keeps the table invariant |
| `DataSourcesVis.LinkRelationshipKeeps` | scripts/techniques_data_sources_vis.py:158-174 | one relationship keeps the table invariant |
| `DataSourcesVis.LinkAllKeeps` | scripts/techniques_data_sources_vis.py:150-174 | `parse_relationships` keeps the six dicts pairwise mirrored, free of repeats and linking only names resolved through the `id_to_*` dicts |
| `DataSourcesVis.LinkCaseGrows` | scripts/techniques_data_sources_vis.py:163-174 | one case removes no link |
| `DataSourcesVis.LinkCaseLinks` | scripts/techniques_data_sources_vis.py:163-174 | the case for roles (a, b) makes the link; others keep it |
| `DataSourcesVis.LinkRelationshipGrows` | scripts/techniques_data_sources_vis.py:158-174 | one relationship removes no link |
| `DataSourcesVis.LinkRelationshipLinks` | scripts/techniques_data_sources_vis.py:158-174 | a relationship from a resolved id of one role to a resolved id of another links their names |
| `DataSourcesVis.LinkAllLinks` | scripts/techniques_data_sources_vis.py:150-174 | every resolved relationship is linked at the end |
| `DataSourcesVis.LinkAllComplete` | scripts/techniques_data_sources_vis.py:150-174 | every resolved relationship is linked on both sides at the end |
| `DataSourcesTables.CountRow` | scripts/techniques_data_sources_vis.py:114-117 | the permission loop computes the counters of one tactic |
| `DataSourcesTables.CountTechnique` | scripts/techniques_data_sources_vis.py:109-117 | the tactic loop computes one technique's counts |
| `DataSourcesTables.AddFieldTo` | scripts/techniques_data_sources_vis.py:212-230 | one list field of one technique, as `AddField` |
| `DataSourcesTables.AddTacticsTo` | scripts/techniques_data_sources_vis.py:205-210 | the tactics of one technique, as `AddField` over its phase names |
| `DataSourcesTables.LinkCaseTo` | scripts/techniques_data_sources_vis.py:163-174 | one case of the relationship loop |
| `DataSourcesTables.ParseTechniqueTo` | scripts/techniques_data_sources_vis.py:186-230 | one technique's body of the loop |
| `DataSourcesTables.ParseAllTo` | scripts/techniques_data_sources_vis.py:185-230 | the loop over techniques |
| `DataSourcesTables.KeepUserOnly` | scripts/techniques_data_sources_vis.py:235-237 | the "User" loop |
| `DataSourcesTables.ParseRelationshipTo` | scripts/techniques_data_sources_vis.py:158-174 | one relationship, all six cases |
| `DataSourcesTables.LinkAllTo` | scripts/techniques_data_sources_vis.py:158-174 | the loop over relationships |
| `DataSourcesTables.Tables.constructor` | scripts/techniques_data_sources_vis.py:14-58 | every module-level dict starts empty |
| `DataSourcesTables.Tables.ParseTechniques` | scripts/techniques_data_sources_vis.py:177-237 | the seven technique dicts become the parsed technique tables, and nothing else changes |
| `DataSourcesTables.Tables.ParseSoftware` | scripts/techniques_data_sources_vis.py:120-132 | `software_to_id` and `id_to_software` record each new name with its first id |
| `DataSourcesTables.Tables.ParseGroups` | scripts/techniques_data_sources_vis.py:135-147 | `group_to_id` and `id_to_group` record each new name with its first id |
| `DataSourcesTables.Tables.ParseRelationships` | scripts/techniques_data_sources_vis.py:150-174 | the six link dicts become the links of all the relationships |
| `DataSourcesTables.Tables.ParseTactics` | scripts/techniques_data_sources_vis.py:103-117 | `tactics_to_permission` becomes the count over the techniques of `tech_to_tac` |
| `DataSourcesCsv.DptLines` | scripts/techniques_data_sources_vis.py:240-265 | the header, then one lower-cased "tech,defense,permission" line per visited triple |
| `DataSourcesCsv.DptTriplesMember` | scripts/techniques_data_sources_vis.py:260-265 | a triple is written exactly when the technique bypasses that defense and requires that permission |
| `DataSourcesCsv.DptTechniqueRows` | scripts/techniques_data_sources_vis.py:262-265 | a technique gives one line per (defense, permission) pair |
| `DataSourcesCsv.TacticsLines` | scripts/techniques_data_sources_vis.py:268-283 | the header, then one lower-cased "technique,tactic" line per pair |
| `DataSourcesCsv.TacticPairsMember` | scripts/techniques_data_sources_vis.py:280-283 | a pair is written exactly when the technique lists the tactic |
| `DataSourcesCsv.TsgLines` | scripts/techniques_data_sources_vis.py:286-317 | the header, then one lower-cased "tech,software,group" line per triple |
| `DataSourcesCsv.TsgTriplesMember` | scripts/techniques_data_sources_vis.py:310-317 | a triple is written exactly when the technique is desired (all when no list is given), has that software, and the software, present in `software_to_group`, is used by the group |
| `DataSourcesCsv.SelectTechniques` | scripts/techniques_data_sources_vis.py:419-423 | the loop selects, in order, the techniques of `tech_to_tac` that share a tactic with the requested ones |
| `DataSourcesCsv.TsgSubsetMember` | scripts/techniques_data_sources_vis.py:419-425 | the subset file holds exactly the lines of the full file whose technique has a requested tactic |
| `DataSourcesCsv.TacticPermissionLines` | scripts/techniques_data_sources_vis.py:320-339 | the header, then one line per counted (tactic, permission) with its count |
| `DataSourcesCsv.CountPairsMember` | scripts/techniques_data_sources_vis.py:333-337 | a pair is written exactly when it has a counter |
| `DataSourcesCsv.TacticPermissionCount` | scripts/techniques_data_sources_vis.py:320-339 | after `parse_tactics` from empty, each line's count is the number of techniques listing both the tactic and the permission |
| `DataSourcesCsv.DataSourceLines` | scripts/techniques_data_sources_vis.py:342-360 | the header, then one lower-cased "technique,data source" line per pair |
| `DataSourcesCsv.DataSourcePairsMember` | scripts/techniques_data_sources_vis.py:355-360 | a pair is written exactly when the technique lists the data source and its lower-cased name is requested |
| `StableSort.KeyLtOrder` | scripts/technique_mappings_to_csv.py:126 | tuple-of-strings `<` is irreflexive, transitive and total |
| `StableSort.Insert` | scripts/technique_mappings_to_csv.py:126 | insertion adds exactly one element and keeps the others |
| `StableSort.SortBy` | scripts/technique_mappings_to_csv.py:126 | the sort is a permutation of its input |
| `StableSort.InsertSorted` | scripts/technique_mappings_to_csv.py:126 | inserting into a sorted list keeps it sorted |
| `StableSort.SortBySorted` | scripts/technique_mappings_to_csv.py:126 | the result is sorted ascending by key |
| `StableSort.InsertWithKey` | scripts/technique_mappings_to_csv.py:126 | an inserted element comes after every element of equal key |
| `StableSort.SortByStable` | scripts/technique_mappings_to_csv.py:126 | the elements of any one key come out in input order |
| `TechniqueMappings.RemoveDeprecated` | scripts/technique_mappings_to_csv.py:73-82 | keeps exactly the objects whose deprecated and revoked flags are absent or identically False |
| `TechniqueMappings.RemoveDeprecatedConcat` | scripts/technique_mappings_to_csv.py:73-82 | the filter keeps order: filtering a + b is filtering a, then b |
| `TechniqueMappings.RemoveDeprecatedIdempotent` | scripts/technique_mappings_to_csv.py:73-82 | filtering twice is filtering once |
| `TechniqueMappings.OtherFalsyDropped` | scripts/technique_mappings_to_csv.py:79 | a flag that is falsy but not False, such as None, drops the object |
| `TechniqueMappings.GrabExternalId` | scripts/technique_mappings_to_csv.py:66-70 | None exactly when no reference has the source name, else the external ID of the first one that has it |
| `TechniqueMappings.GrabExternalIdFirst` | scripts/technique_mappings_to_csv.py:66-70 | references after a match do not change the result |
| `TechniqueMappings.EscapeChars` | scripts/technique_mappings_to_csv.py:85-89 | the result has no newline and two more characters per newline |
| `TechniqueMappings.EscapeCharsConcat` | scripts/technique_mappings_to_csv.py:85-89 | escaping works character by character |
| `TechniqueMappings.EscapeCharsUnchanged` | scripts/technique_mappings_to_csv.py:85-89 | text without a newline is unchanged |
| `TechniqueMappings.Zip` | scripts/technique_mappings_to_csv.py:124 | `dict(zip(...))` has a key for each field name that has a value |
| `TechniqueMappings.ZipPositional` | scripts/technique_mappings_to_csv.py:124 | with distinct field names, field i holds value i |
| `TechniqueMappings.RowValues` | scripts/technique_mappings_to_csv.py:115-122 | a row has six values |
| `TechniqueMappings.RelationshipRows` | scripts/technique_mappings_to_csv.py:112-124 | a relationship emits at most one row |
| `TechniqueMappings.TechniqueRowsMember` | scripts/technique_mappings_to_csv.py:111-124 | a row is emitted for a technique exactly when one of its relationships emits it from the first live object of the lookup |
| `TechniqueMappings.CollectedRowsMember` | scripts/technique_mappings_to_csv.py:104-124 | a row is collected exactly when some live technique has a live relationship that emits it |
| `TechniqueMappings.AppendTechniqueRows` | scripts/technique_mappings_to_csv.py:111-124 | the relationship loop appends that technique's rows |
| `TechniqueMappings.DoMapping` | scripts/technique_mappings_to_csv.py:102-126 | the result is the stable sort of the collected rows: a permutation of them, sorted by the two keys |
| `TechniqueMappings.DoMappingStable` | scripts/technique_mappings_to_csv.py:126 | rows with equal keys keep the order in which they were collected |
| `TechniqueMappings.SourceName` | scripts/technique_mappings_to_csv.py:133-137 | "enterprise_attack" gives "mitre-attack", "mobile_attack" gives "mitre-mobile-attack", and any other domain fails |
| `TechniqueMappings.MappingFor` | scripts/technique_mappings_to_csv.py:139-161 | groups, mitigations and software are configured, anything else is the unknown-option error; six distinct field names starting "TID", "Technique Name"; third field "GID", "MID" or "SID" by mapping type; sort keys fields 0 and 2, so ("TID", "GID"), ("TID", "MID") or ("TID", "SID"); "mitigates" only for mitigations; the object type per mapping; the file name |
| `TechniqueMappings.Setup` | scripts/technique_mappings_to_csv.py:133-161 | the domain is checked before the mapping type |
| `TechniqueMappings.MappingRowColumns` | scripts/technique_mappings_to_csv.py:115-124 | a configured row has both sort columns; "TID" is the technique's ID, "Technique Name" its name, and the second sort column the related object's ID |
| `DataSourceListing.NewSources` | scripts/techniques_from_data_source.py:21-24 | the comprehension keeps exactly the sources not already listed |
| `DataSourceListing.NewSourcesCount` | scripts/techniques_from_data_source.py:21-24 | a source not already listed keeps every one of its occurrences in the technique's list, a listed one none |
| `DataSourceListing.NewSourcesDedup` | scripts/techniques_from_data_source.py:21-24 | adding one technique's fresh sources to the list gives the first-appearance order of the list followed by all of that technique's sources |
| `DataSourceListing.Listing` | scripts/techniques_from_data_source.py:19-24 | the result holds exactly the sources that occur in some technique's list |
| `DataSourceListing.DataSources` | scripts/techniques_from_data_source.py:10-26 | the loop computes the listing |
| `DataSourceListing.ListingMember` | scripts/techniques_from_data_source.py:19-24 | the result holds exactly the sources some technique with the field lists |
| `DataSourceListing.ListingPrefix` | scripts/techniques_from_data_source.py:19-24 | the list only grows at its end: the result after some techniques is a prefix of the final result |
| `DataSourceListing.ListingDedup` | scripts/techniques_from_data_source.py:19-24 | dropping the repeats from the result gives all listed sources in order of first appearance |
| `DataSourceListing.ListingOrder` | scripts/techniques_from_data_source.py:19-24 | source d comes before source e in the result exactly when d's first occurrence in the techniques' lists, read in order, comes before e's |
| `DataSourceListing.ListingFirstAppearance` | scripts/techniques_from_data_source.py:19-24 | when no technique lists a source twice, the result is exactly the order of first appearance |
| `DataSourceListing.ListingNoReappend` | scripts/techniques_from_data_source.py:21-24 | a source present after some technique is never appended again |
| `DataSourceListing.NewSourcesDistinct` | scripts/techniques_from_data_source.py:21-24 | a technique's own list free of repeats adds no repeat |
| `DataSourceListing.ListingDistinct` | scripts/techniques_from_data_source.py:19-24 | the result has no repeats when every technique's own list has none |
| `DataSourceListing.DuplicatesWithinOneTechniqueKept` | scripts/techniques_from_data_source.py:21-24 | a source a technique lists twice is kept twice |

## Left out

- Network and store construction. This covers `requests.get`, the TAXII collection, building the `MemoryStore`, `establish_connection`, `build_taxii_source` and the module-level connection of scripts/techniques_from_data_source.py:6-8. All of it is I/O. The query results are inputs.
- stix2 query semantics. `Filter`, `query`, `relationships` and `get` are library code. Query results are given sequences, and `ms.get` is a lookup in the store.
- `ms.relationships(id)` is modelled as the relationships whose source is the object. stix2 also returns relationships that target the object. Their target is the object itself, which is never an attack-pattern or a dangling reference, so they contribute nothing.
- The `techniques()` query of scripts/techniques_from_data_source.py:28-36. It is only a query.
- The `tactic` filter of `get_all_techniques`. It is part of the query, so the technique list is an input.
- Unicode case folding. `Text.Lower` lowers ASCII letters only and keeps the length. It stands for the `re.IGNORECASE` match of bear_APT.py:22 and 33, for `str.lower()` in `makelower` (`DataSourcesVis.MakeLower`), for every CSV line (`DataSourcesCsv.Row2` and `Row3`, scripts/techniques_data_sources_vis.py:265, 283, 317, 337, 360) and for the `data.lower() in data_sources` filter of `DataSourcePairs` (line 359). Python lowers non-ASCII letters too, and can change the length; the model leaves them unchanged. Apart from case, the match is "bear" in the alias before the first newline.
- The order of Python's set iteration (scripts/layers/samples/apt3_apt29_software.py:81). The comment is stated for some enumeration of the software set, and `Enumerate` promises only that each element occurs once.
- File writing, `os.makedirs`, `json.dumps` and csv quoting. The writers are modelled by their lines, without the trailing newline. `csv.DictWriter` is not modelled; `DoMapping` returns the rows it would write.
- `argparse`, `tqdm`, `tabulate`, `print` and the `verbose` flag. These are presentation.
- Python's TypeError when sorting rows whose sort columns hold None. `DoMapping` requires that every collected row has both sort columns set.
- The KeyError of `external_reference["external_id"]`. Every external reference is assumed to carry an ID.
- The KeyError of `group["aliases"]` (scripts/layers/samples/bear_APT.py:21 and 33). Every intrusion set is assumed to carry `aliases`; the model has no missing-key case, so a group without the key behaves as one with no aliases.
- The AttributeError of `relationship.description` and `stix_results[0].description`. Every relationship and related object is assumed to have a description.
- The driver `generate_content` of scripts/techniques_data_sources_vis.py:363-430. Its parse order and writer calls are not composed into one member. Each step is modelled, including the tactic-subset selection.
- The TSG file name choice (scripts/techniques_data_sources_vis.py:300). Only the lines are modelled.
- The KeyError in `write_DPT` for a technique missing from `tech_to_perm`. `DptLines` requires every technique of `tech_to_def` to have a permission list; `parse_techniques` guarantees this.
- add_link aliasing. The two dicts are passed as values and returned, because the callers always pass two different dicts.
- Text.NatToString: states only that `str(n)` is a non-empty string of digits, not its value.
- AptSoftware.LayerName: states only that the base name is extended exactly with nodetect, not the suffix text.
- AptSoftware.Description: states only that the base description is extended exactly with nodetect, not the added text.
- TechniqueMappings.RowValues: states only that a row has six values. `MappingRowColumns` states which values the key columns hold.
- TechniqueMappings.Zip: states only which keys are present. `ZipPositional` states the values for distinct field names.
- DataSourcesVis.RecordNames: states only where the recorded ids come from. The `RecordNames*` lemmas state the rest.
- StableSort.Insert: states only that exactly one element is added. `InsertSorted` and `InsertWithKey` state where it goes.
- AptSoftware.SetFlag: `techniques_used[techniqueID][apt["name"]] = True` (scripts/layers/samples/apt3_apt29_software.py:32) would overwrite the "software" or "datasources" entry for a group of that name. The two groups are assumed to have other names.
- The specification functions `Traversal`, `AptWalk`, `GroupWalk`, `SoftwareWalk`, `Record`, `AddLink`, `MakeLower`, `ParseAll`, `ParsedTechniques`, `CountAll` and `LinkAll` state in their own contracts only that the dict stays well formed. Their meaning is stated by the lemmas and methods listed in the table.
