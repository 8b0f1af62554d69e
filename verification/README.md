# Verification of elastic-package's dotted-key algorithms

elastic-package handles Elasticsearch documents, field definitions, mappings and saved objects. All of them are
nested maps or trees that are addressed by dotted keys: `a.b.c` may be spelled as one key, as three nested ones, or
anything in between. This project models the parts of elastic-package that work on such trees, in Dafny, and proves
what they are for.

`dafny verify dfyconfig.toml` verifies everything.

## Structure

Each algorithm has a specification on values (functions on immutable trees), the code as methods with the loops and
the updates in place that the program has, each proved to compute what the specification says, and theorems about
the specification.

| subject | specification | code | theorems |
|---|---|---|---|
| expanding dotted YAML keys | YamlTree | YamlNodes, YamlFormatter | YamlMeaning, YamlTheorems, YamlOrder |
| appending at a YAML path | AppendElements | AppendNodes | AppendElements |
| comparing mappings with the preview | Mappings, MappingsRuns | MappingsCode | MappingsSoundness, MappingsOverlooked, MappingsPruning, MappingsTheorems |
| matching and finding field definitions | KeyMatch, FieldLookup | KeyMatch.CompareKeys, FieldLookup.FindAncestor | KeyMatch, FieldLookup |
| validating documents | DocValidation | DocValidation.ValidateMapElement | DocValidation |
| expanding flat documents | DocExpand, MapStr | DocExpand.CreateDocExpandingObjects | DocExpand |
| nested maps with dotted access | MapStr, DeepUpdate | MapNodes | MapStr, MapPlaces, DeepUpdate |
| encoding and decoding saved objects | Dashboards | DashboardCode | DashboardTheorems |
| injecting external fields | FieldInjection | FieldInjection.InjectFieldsWithOptions | InjectionTheorems |
| exporting nested pipelines | Pipelines | PipelineExport | Pipelines, PipelineExport |

DottedKeys, Sequences, Json and Options hold what they share. Lemmas whose parameters Dafny would do an induction over
switch that off with `{:induction false}`: those that are by induction call themselves.

Three pieces of code that change linked structures in place are modelled on the heap. YAML nodes are objects of the
class `YamlNode`; a ghost `Shape` says how the nodes of a tree are linked and that none occurs twice, and `View` is
the tree they form. Maps are objects of the class `MapRef`, with a `Shape` of their own. Files are the field of a
`Disk`.

### How things are read

- YAML. `Count` says how often something is found at a path of keys and list positions, where a plain key with dots
  stands for the path of its segments and a quoted key for itself. Two trees mean the same when they have the same
  groups and equal counts of everything else. A tree is without conflicts when nothing but groups is found twice at a
  path and no path leads to different things. `Extend` is `None` for a mapping whose content is of odd length, where
  the program indexes past a slice, and for a plain key with dots that is a mapping or has content of its own, which
  no parser makes.
- Mappings. Errors are sets of a path and a reason; a path is names with dots between them. `Panics` among the reasons
  stands for a run that panics instead. `CompareErrors` is what there is to report. The program keeps new definitions
  in a map by path, so where two have one path the order of iteration decides which is looked at: `MayCompare` relates
  a mapping to what a run may report, `CompareMappings` is proved to report such a set, and `CompareRun` says how the
  two are related. `Unmet` says that no two definitions have one path. `Stopping` leads to the places where the
  comparison accepts or rejects what is there in one go, `Justified` says for which reasons it accepts, `Due` for
  which it rejects, and `Blamed` that a place is rejected, with the path and the reason of the error. What a
  dynamic template matches is a parameter that depends on the path, and the families of fields that are skipped are a
  field of the validator, whose value in the program is `SKIPPED_FAMILIES`.
- Nested maps. `Walk` follows names one by one, `IsReading` says which names a dotted key is read as, and `Changed`
  that one map has something else than another at one place and nowhere else.
- JSON values. `Text(v, n)` is a string that is JSON text of `v`, the one that is printed for `v` when `n` is 0. Every
  text has one value, and printing always gives the same text.
- Dashboards. `Layout` lists the fields kept as text; `KIBANA` is the program's list.
- Pipelines. A parameter says which files cannot be written. The server is a map from names to pipelines.
- Maps are iterated in any order.

### Where the program surprises

- `DeepUpdateNoOverwrite` is documented not to overwrite what is there (internal/common/mapstr.go:67-69). It does
  replace a value that is no map when a map comes in (lines 108-112). `NotOverwritingKeeps` gives the exact
  condition.
- An external field that declares fields of its own keeps them without injection
  (internal/fields/dependency_manager.go:225-249): references among them stay, and empty groups are not skipped.
  `InjectingTwice` and `InjectedThroughout` give the exact conditions.
- In memory, injected fields are lists of a Go type that a second injection does not accept
  (internal/fields/dependency_manager.go:253). Injecting again is meant on definitions written out and read back.
- Indexing a list in `appendElements` always ends in an error or a panic, because its bound is compared the wrong way
  round (internal/builder/dynamic_mappings.go:219-223). On the way through a scalar it silently does nothing.
- Decoding panics on a field that is there but is no string (internal/export/transform_decode.go:45); the model fails
  there. A null panel can be decoded but not encoded.
- In a map of new fields that are not in the preview, bare values are not looked at, and neither are the parameters
  beside `properties` (internal/fields/mappings.go:370-407, 469-497), so an object is accepted where the preview has
  a nested object (`TypeOfAnObjectIsNotCompared`). `Followed` says which leaves are looked at; the others either can
  have any other value (`OverlookedDoesNotMatter`) or are parameters that decide how an object is compared.
- Of two new properties that have one path, `a.b` and `b` below `a`, only one is looked at
  (internal/fields/mappings.go:400-402, 602). `MeetingFieldsHideErrors` has a run that reports nothing.
- Comparing two lists panics (internal/fields/mappings.go:680), even when a mapping is compared with itself.
  `OwnPreviewIsAccepted` gives the exact condition.
- Below a field of the top level without a name the search falls back to parents too early
  (internal/fields/validate.go:935-966): `UnnamedHidesField`.
- Exporting pipelines that refer to one another in a loop does not end (internal/export/ingest_pipelines.go:68-91),
  though fetching them does.

## Model

| member | source | states |
|---|---|---|
| `YamlTheorems.ExpandsExactlyWithoutConflicts` | internal/formatter/yaml.go:64-134 | On a well-formed tree, expanding dotted keys yields a tree with the same contents at every path, no plain key with a dot and no key twice in a mapping, if and only if the tree has no conflicts (no path that is both value and group, no value twice at a path) |
| `YamlTheorems.ExpandingTwice` | internal/formatter/yaml.go:64-134 | Expanding again changes nothing, on every well-formed tree without conflicts |
| `YamlOrder.ExpandingKeepsOrder` | internal/formatter/yaml.go:64-134 | At every path of the expanded tree, the keys are in the order in which they first appear in the original, each with the style of its first appearance, where a plain key gives its style to each of its segments and a quoted key keeps its own; and the mapping there has the style of the first that stood there, where a mapping made on the way counts with the style of the one it was split in |
| `YamlTheorems.ValueBesideDottedKey` | internal/formatter/yaml.go:64-134 | A key with a value that is no mapping, beside a dotted key that starts with it, is never expanded faithfully |
| `YamlMeaning.Expands` | internal/formatter/yaml.go:64-134 | Without conflicts expanding succeeds, and the result is normal and means the same |
| `YamlMeaning.PairsExpand` | internal/formatter/yaml.go:74-108 | The loop over pairs keeps the meaning of a mapping and leaves keys without dots and normal values |
| `YamlMeaning.SplitKeepsCount` | internal/formatter/yaml.go:81-105 | Splitting one dotted key keeps how often everything is found at every path |
| `YamlMeaning.RepeatedAreMappings` | internal/formatter/yaml.go:122-130 | Without conflicts, a key that comes again has mappings under it both times |
| `YamlMeaning.MergeOneSame` | internal/formatter/yaml.go:122-130 | Merging one more pair keeps the meaning |
| `YamlMeaning.MergeFromSame` | internal/formatter/yaml.go:114-134 | Merging equal keys keeps the meaning and leaves each key once |
| `YamlMeaning.EntriesExpand` | internal/formatter/yaml.go:68-70 | The second pass over freshly created and merged children leaves them normal, with the same meaning |
| `YamlTheorems.NormalFindsOne` | internal/formatter/yaml.go:64-134 | In a normal tree at most one thing is found at a path |
| `YamlTheorems.NormalIsConflictFree` | internal/formatter/yaml.go:64-134 | Normal trees have no conflicts |
| `YamlTheorems.NormalStays` | internal/formatter/yaml.go:64-134 | Expanding leaves a normal tree as it is |
| `YamlOrder.SplitKeepsKeys` | internal/formatter/yaml.go:81-105 | Splitting a key keeps the keys and mappings found at every path, with their styles, order and repetitions |
| `YamlOrder.MergedPairKeys` | internal/formatter/yaml.go:122-130 | Merging one pair keeps what appears first at every path, with its style, and the order of first appearance |
| `YamlOrder.MergeFromOrder` | internal/formatter/yaml.go:114-134 | So does merging all pairs |
| `YamlOrder.PairsOrder` | internal/formatter/yaml.go:74-108 | So does the loop over pairs |
| `YamlOrder.SecondPassOrder` | internal/formatter/yaml.go:68-70 | So does the second pass over the children |
| `YamlTree.SplitWeight` | internal/formatter/yaml.go:81-105 | Every split strictly lowers the number of nodes plus three times the dots in plain keys |
| `YamlTree.MergeFrom` | internal/formatter/yaml.go:114-134 | Merging does not raise that measure |
| `YamlTree.Extend` | internal/formatter/yaml.go:64-71 | Expanding a node does not raise the measure and keeps its kind, style and value; the doubly recursive expansion ends |
| `YamlTree.ExtendMap` | internal/formatter/yaml.go:73-111 | Expanding a mapping does not raise the measure and changes only the content |
| `YamlTree.ExtendPairs` | internal/formatter/yaml.go:74-108 | Expanding the pairs keeps their number and does not raise the measure |
| `YamlTree.ExtendEach` | internal/formatter/yaml.go:68-70 | Expanding the children keeps their number and does not raise the measure |
| `YamlNodes.ExtendNestedObjects` | internal/formatter/yaml.go:64-71 | In place, on linked nodes: the nodes end up as the tree that `Extend` gives for the tree they formed, with no node shared |
| `YamlNodes.ExtendChildren` | internal/formatter/yaml.go:68-70 | The loop over children leaves each as its expansion, whatever the others become |
| `YamlNodes.ExtendMapNode` | internal/formatter/yaml.go:73-111 | Splitting, expanding and merging in place gives the tree of `ExtendMap` |
| `YamlNodes.ExtendContent` | internal/formatter/yaml.go:74-108 | The loop that overwrites keys and values in place gives the pairs of `ExtendPairs` |
| `YamlNodes.ExtendPair` | internal/formatter/yaml.go:74-108 | One turn: outer key and expanded outer value replace the pair, the pairs before and after stay |
| `YamlNodes.SplitKey` | internal/formatter/yaml.go:78-105 | Replacing key and value by the copies made from key and parent gives the split pair |
| `YamlNodes.MergeNodes` | internal/formatter/yaml.go:114-134 | Compacting the content slice in place with two indices and a map of kept values gives the merged pairs |
| `YamlNodes.MergePairs` | internal/formatter/yaml.go:117-131 | The loop over pairs keeps what merging all of them gives |
| `YamlNodes.MergePair` | internal/formatter/yaml.go:117-131 | One turn keeps what merging the pairs to come into those kept will give |
| `YamlNodes.KeepPair` | internal/formatter/yaml.go:122-127 | A pair with a new key moves down to the pairs kept; none to come is lost |
| `YamlNodes.AppendContent` | internal/formatter/yaml.go:130 | The content of a repeated key is appended to the value kept, and only that value changes |
| `YamlNodes.Cut` | internal/formatter/yaml.go:133 | What compaction leaves behind is cut off |
| `YamlFormatter.ApplyActionOnKeysWithDots` | internal/formatter/yaml.go:55-62 | On the heap: nesting keeps the meaning and leaves a normal tree if and only if there are no conflicts, and then keeps order and styles and is stable; the other action changes nothing |
| `MappingsTheorems.RunReportsExactly` | internal/fields/mappings.go:446-705 | Where no two flattened definitions have one path, a run reports an error if and only if the comparison ends at some place that nothing accounts for, the path of the error is that of the place, and its reason is the one due there: what is missing in the preview, a value that differs, two lists, another constant_keyword, templates that cannot be read or panic, or what the ECS schema says of the field |
| `MappingsSoundness.ErrorsExactly` | internal/fields/mappings.go:446-705 | There is an error to report if and only if such a place is to blame for it, for all mappings |
| `MappingsSoundness.NewErrorsExactly` | internal/fields/mappings.go:589-636 | The same for a definition that is not in the preview: its flattened children are judged one by one |
| `MappingsTheorems.AcceptingRunExactly` | internal/fields/mappings.go:446-705 | Where no two flattened definitions have one path, a run reports nothing if and only if every place where the comparison ends is accounted for: a compatible entry or null, the constant_keyword rule, an exception or fully dynamic object of the preview, a skipped family on the way, or, for a new definition that is not flattened further, emptiness, an exception, the first template that is not passed over, or the ECS schema when no template panics |
| `MappingsSoundness.AcceptedExactly` | internal/fields/mappings.go:446-705 | There is nothing to report if and only if every such place is accounted for, for all mappings |
| `MappingsSoundness.NewAcceptedExactly` | internal/fields/mappings.go:589-636 | The same for a definition that is not in the preview |
| `MappingsTheorems.AcceptingRunExplains` | internal/fields/mappings.go:446-705 | Where no two flattened definitions have one path, a run that reports nothing accounts for every leaf that is followed, itself or with something on the way to it |
| `MappingsSoundness.AcceptedIsExplained` | internal/fields/mappings.go:446-705 | So it is for all mappings when there is nothing to report |
| `MappingsSoundness.NewIsExplained` | internal/fields/mappings.go:589-636 | The same for every leaf that is followed below a definition that is not in the preview |
| `MappingsSoundness.TemplateMeaning` | internal/fields/mappings.go:640-662 | A template that matches accepts a definition, or panics, exactly if nothing in the definition is unexplained beside the mapping of the template, or something there is a reason to panic |
| `Mappings.SkippedPaths` | internal/fields/validate.go:838-846 | The paths never validated are seven names and all that goes on from them with a dot |
| `MappingsSoundness.MatchedTemplate` | internal/fields/mappings.go:640-662 | A definition is accepted by templates if and only if one accepts it and all before are passed over, not matching or rejecting it; and trying them panics if and only if one panics after such |
| `MappingsOverlooked.LookedAtOrOverlooked` | internal/fields/mappings.go:370-407 | A leaf that is not followed is either overlooked or one of the parameters beside `properties` that decide how the object is compared, never both |
| `MappingsOverlooked.OverlookedDoesNotMatter` | internal/fields/mappings.go:446-585 | Any other value that is no object in place of an overlooked leaf leaves what there is to report the same |
| `MappingsOverlooked.OverlookedIsNotFlattened` | internal/fields/mappings.go:370-407 | The same for the definitions that a new definition is flattened into |
| `MappingsOverlooked.SamePropertiesSameErrors` | internal/fields/mappings.go:469-497 | Objects with the same properties are reported alike, whatever their parameters, if neither is a constant keyword or fully dynamic |
| `MappingsOverlooked.TypeOfAnObjectIsNotCompared` | internal/fields/mappings.go:469-497 | An object is accepted in place of a nested object with the same properties, unless those compare lists, though nothing accounts for its type |
| `MappingsRuns.CompareRun` | internal/fields/mappings.go:446-534 | Whatever order keys are taken in, a run reports nothing but what there is to report, unless there is a panic; where no two flattened definitions have one path it reports exactly that |
| `MappingsRuns.NewRun` | internal/fields/mappings.go:589-636 | The same for a definition that is not in the preview |
| `MappingsRuns.MatchRun` | internal/fields/mappings.go:640-662 | The same for trying templates: none that accepts is missed, and where no paths meet the verdict is the specified one |
| `MappingsRuns.PathsDoNotMeet` | internal/fields/mappings.go:370-407 | With names that are not empty and have no dots, no two definitions that a new one is flattened into have one path, so none is lost |
| `MappingsRuns.CleanFieldsAreUnmet` | internal/fields/mappings.go:370-407 | So with such names no two definitions have one path, at any depth, which is what the theorems about runs ask for |
| `MappingsRuns.MeetingFieldsHideErrors` | internal/fields/mappings.go:370-407 | Of new properties `a.b` and `b` below `a` one run reports the error of the first, another reports nothing |
| `MappingsTheorems.OwnPreviewIsAccepted` | internal/fields/mappings.go:446-705 | A run on a mapping that is its own preview reports nothing, with any templates, exceptions and schema, if and only if it compares no list; otherwise it panics |
| `MappingsTheorems.ListParameterPanics` | internal/fields/mappings.go:676-682 | A keyword field with a list as parameter is such a mapping |
| `Mappings.CompareWithItself` | internal/fields/mappings.go:446-705 | There is nothing to report for a mapping compared with itself if and only if that compares no list |
| `MappingsTheorems.PrunedRunsReportNoMore` | internal/fields/mappings.go:446-705 | Unless a run panics, removing fields from the properties and multi-fields of a definition, at any depth, brings no run a new error, where no two flattened definitions have one path |
| `MappingsTheorems.PrunedFieldsRunsReportNoMore` | internal/fields/mappings.go:166-166 | The same for the map of fields that the program starts with |
| `MappingsPruning.PrunedDefinitionErrors` | internal/fields/mappings.go:446-705 | There is nothing new to report after such removals, unless there was a panic |
| `MappingsPruning.PrunedIsAccepted` | internal/fields/mappings.go:446-705 | Removing fields from an accepted mapping keeps it accepted |
| `MappingsPruning.PrunedFieldsErrors` | internal/fields/mappings.go:446-585 | The same for a map of fields; where it has a bare string named `type`, the entries stay that decide how it is compared |
| `MappingsPruning.RemovingObjects` | internal/fields/mappings.go:446-585 | In particular when only objects are removed, and not the multi-fields of a map with such a string |
| `MappingsPruning.RemovingMultiFields` | internal/fields/mappings.go:508-513 | Removing those can bring a new error |
| `MappingsPruning.PrunedNotInPreview` | internal/fields/mappings.go:589-636 | The same for definitions that are not in the preview |
| `MappingsPruning.PrunedMatchesTemplate` | internal/fields/mappings.go:640-662 | Templates that accept a definition accept it with fields removed, and those that reject it do not panic |
| `MappingsPruning.RemovingABareType` | internal/fields/mappings.go:446-585 | Removing a bare string named `type` from a map of fields can lose acceptance |
| `MappingsTheorems.OverlookedInRuns` | internal/fields/mappings.go:446-705 | Unless a run panics, another value for an overlooked leaf brings no run a new error, where no two flattened definitions have one path |
| `MappingsCode.FlattenMappings` | internal/fields/mappings.go:370-407 | The merging loops keep, for every path among the flattened definitions, one that has it |
| `MappingsCode.MatchingWithDynamicTemplates` | internal/fields/mappings.go:640-662 | The loop over templates comes to a verdict that a run may come to; it ends although the check restarts on an undiminished definition |
| `MappingsCode.ValidateMappingsNotInPreview` | internal/fields/mappings.go:589-636 | In any order of the definitions kept, what is reported is what a run may report |
| `MappingsCode.CompareMappings` | internal/fields/mappings.go:446-534 | The comparison with its early exits reports what a run may report, and the mutual recursion ends |
| `MappingsCode.ValidateObjectProperties` | internal/fields/mappings.go:536-585 | In any order of the keys, what is reported is what a run may report |
| `MappingsCode.ValidateMappingObject` | internal/fields/mappings.go:664-674 | What a run may report for two values compared as objects |
| `KeyMatch.CompareKeys` | internal/fields/validate.go:1001-1045 | The greedy byte loop accepts exactly when the segments match one by one (equal, or `prefix*` and something more), or do so without a last `.lat` or `.lon` of a geo_point, `.values` or `.counts` of a histogram, or any of the four of another external field |
| `KeyMatch.ScanSegments` | internal/fields/validate.go:1001-1045 | Scanning uses up the searched key exactly when the segments match one by one |
| `KeyMatch.ScanUpTo` | internal/fields/validate.go:1001-1045 | What follows from a dot on does not change how the text before it is scanned |
| `KeyMatch.ScanDecides` | internal/fields/validate.go:1001-1094 | The outcome of the scan decides the match, with and without a permitted sub-field |
| `KeyMatch.MatchesSubField` | internal/fields/validate.go:1062-1094 | A key that goes on from that of a definition with a dot matches exactly if it adds a sub-field that the type has |
| `FieldLookup.SubFieldsFound` | internal/fields/validate.go:935-966 | Below a sole field the search finds the field itself exactly for lat and lon of a geo_point, values and counts of a histogram, and all four of another external field; otherwise it finds what an object gives its fields, or nothing |
| `FieldLookup.FindIsFlatLookUp` | internal/fields/validate.go:935-981 | The search over the tree, with its fallback that searches again, is the search over the flat pre-order list: the first match, or what the first match of the parent passes on, if no object type is passed on below top-level names that are empty or only dots |
| `FieldLookup.UnnamedHidesField` | internal/fields/validate.go:935-966 | Below a top-level field without a name, an object with an object type is taken for the parent of a field that is defined further on |
| `FieldLookup.NestedFindIsFlat` | internal/fields/validate.go:935-953 | Below the top level, or where no object type is passed on, the search finds the first match of the flat list |
| `FieldLookup.FirstMatch` | internal/fields/validate.go:935-953 | The first definition of the list that matches, none only if none does |
| `FieldLookup.InheritanceDoesNotChain` | internal/fields/validate.go:953-963 | A definition inherited from a parent is not inherited again by its children |
| `FieldLookup.FindAncestor` | internal/fields/validate.go:983-997 | The loop finds the nearest ancestor whose definition meets the condition, none only if there is none |
| `FieldLookup.Parent` | internal/fields/validate.go:973-981 | The part before the last dot, if there is a dot |
| `DocValidation.SpellingsAreEquallyValid` | internal/fields/validate.go:652-728 | From version 3.0.1, and outside flattened objects, two spellings of one document, nested or dotted in any mixture, have the same errors, if the document has one value for the event type |
| `DocValidation.SpellingDoesNotMatter` | internal/fields/validate.go:652-691 | The same for a given event type |
| `DocValidation.ErrorsAreThoseOfLeaves` | internal/fields/validate.go:652-691 | For every version, the errors are exactly those of the leaves under their full keys, except below flattened objects and for skipped leaves |
| `DocValidation.OlderVersionsSkipDottedNames` | internal/fields/validate.go:850-877 | Before 3.0.1 the spelling matters: a dotted name below a defined object is not checked, the nested one is |
| `DocValidation.SameValueAt` | internal/fields/validate.go:1399-1401 | Two spellings of a document with one value under a key of two parts, such as the event type, agree on it, unless it is an object in one of them |
| `DocValidation.ValidateMapElement` | internal/fields/validate.go:652-691 | In any order of the entries, the errors are those of the specification |
| `DocValidation.SkipLeafOfObject` | internal/fields/validate.go:850-877 | A leaf is skipped exactly when, in older versions, its name has a dot and some ancestor, not shorter than the root, is a group, an object, nested or flattened |
| `DocExpand.CreateDocExpandingObjects` | internal/fields/validate.go:794-833 | Of a flat document exactly the keys without another key as proper dotted prefix are found in the result, each with its value, with objects where these keys need them and nothing else; exactly the others are reported, as multi-fields or as warnings with the type of the value in the way |
| `DocExpand.ExpansionIsUnique` | internal/fields/validate.go:794-833 | No other map without dotted names has these values and objects: the result is determined |
| `DocExpand.ExpandStep` | internal/fields/validate.go:802-831 | When a key comes after its prefixes, putting it succeeds exactly if it is kept, and no kept value is lost |
| `DocExpand.ReportStep` | internal/fields/validate.go:809-829 | When a key comes after its prefixes, a warning about it is due exactly if putting it fails, with the type of what is in the way |
| `DocExpand.BelowFieldExactly` | internal/fields/validate.go:888-900 | A key could be a multi-field exactly if what comes before its last dot is defined with a type, and none that holds fields |
| `DocExpand.BeforeExactly` | internal/fields/validate.go:799 | Sorted order is lexicographic: up to some place the keys agree, and there one has ended or has the smaller character |
| `DocExpand.PrefixSortsFirst` | internal/fields/validate.go:799 | A proper prefix sorts first |
| `DocExpand.SortedKeys` | internal/fields/validate.go:795-799 | All keys of the document, in sorted order |
| `DocExpand.PrefixesAreDone` | internal/fields/validate.go:799-801 | When the turn of a key comes, all its prefixes have had theirs, and no key that it prefixes has |
| `DocExpand.BlockedBelowValue` | internal/common/mapstr.go:187-225 | Below a value that is no object nothing can be put and nothing is found |
| `DocExpand.BlockedByValue` | internal/common/mapstr.go:187-225 | A Put that fails has such a value at a proper prefix of its key |
| `DocExpand.PutMakesObjects` | internal/common/mapstr.go:47-56 | After a Put there are objects at all proper prefixes of its key |
| `MapStr.PutThenGet` | internal/common/mapstr.go:29-56 | After a successful Put, GetValue finds the value |
| `MapStr.PutFrame` | internal/common/mapstr.go:47-56 | GetValue is unchanged for every key that is neither dotted prefix nor extension of the key put |
| `MapStr.PutFails` | internal/common/mapstr.go:47-56 | Put fails exactly where GetValue meets something that is no map |
| `MapStr.PutSame` | internal/common/mapstr.go:47-56 | Putting back what is there changes nothing |
| `MapStr.PutTwice` | internal/common/mapstr.go:47-56 | Of two values put under one key the last stays, as if it were the only one |
| `MapStr.PutsCommute` | internal/common/mapstr.go:47-56 | Puts under unrelated keys can be made in either order |
| `MapStr.DeleteFrame` | internal/common/mapstr.go:117-128 | Delete leaves what unrelated keys find |
| `MapStr.DeleteFindsWhatGetFinds` | internal/common/mapstr.go:117-128 | Delete succeeds exactly where GetValue does, and fails with the same error |
| `MapStr.DeleteThenPut` | internal/common/mapstr.go:117-128 | Without dotted names, a deleted key is gone, and putting its value back restores the map |
| `MapPlaces.GetExactly` | internal/common/mapstr.go:29-38 | GetValue finds a value if and only if the names that the key is read as lead to it, one by one |
| `MapPlaces.InTheWayExactly` | internal/common/mapstr.go:187-225 | It meets something that is no map if and only if the key cannot be read at all |
| `MapPlaces.PutExactly` | internal/common/mapstr.go:47-56 | For all maps: Put gives a map if and only if in it the value stands where the key leads, with maps on the way there, and the same as before stands at every place that does not lead there or go on from there |
| `MapPlaces.DeleteExactly` | internal/common/mapstr.go:117-128 | For all maps: Delete gives a map if and only if nothing stands any more where the key led, with the maps on the way still there, and the same as before stands at every other place that does not go on from there; a key present as it is is gone |
| `MapPlaces.ChangedOnce` | internal/common/mapstr.go:47-56 | Only one map has the value at the place and is the same otherwise |
| `MapNodes.MapFind` | internal/common/mapstr.go:187-225 | The loop, on maps by reference: it ends where GetValue, Put and Delete on the nested value act; if it fails, no map has been changed or created, even when it was to create missing ones |
| `MapNodes.CreateMissing` | internal/common/mapstr.go:209-213 | The new map is empty and hangs where the key leads |
| `MapNodes.GetValue` | internal/common/mapstr.go:29-38 | On maps by reference, GetValue finds what it finds in the nested value they stand for |
| `MapNodes.PutIn` | internal/common/mapstr.go:47-56 | In place: afterwards the maps stand for the nested value with the new value where the key leads and the same everywhere else, with no map shared, and the value that was there is returned; a failing Put leaves every map untouched |
| `MapNodes.DeleteIn` | internal/common/mapstr.go:117-128 | In place: afterwards the maps stand for the nested value with nothing where the key led and the same everywhere else; a failing Delete leaves every map untouched |
| `MapNodes.BuildIsShaped` | internal/common/mapstr.go:187-225 | Changing the map at the end of a way changes the whole tree there and nowhere else |
| `MapNodes.DeepUpdateMap` | internal/common/mapstr.go:74-89 | In place, with the keys in any order: afterwards the maps stand for the pure recursive merge; the other tree is only read, though parts of it become part of the result |
| `MapNodes.UpdateKey` | internal/common/mapstr.go:75-88 | One key: merged, replaced or left, and no other key changes |
| `MapNodes.UpdateWithMap` | internal/common/mapstr.go:75-80 | A map under a key is merged with a map that is there, or takes its place |
| `MapNodes.UpdateSub` | internal/common/mapstr.go:91-107 | Merging below one key changes the map under that key only |
| `DeepUpdate.MergedAt` | internal/common/mapstr.go:74-114 | At every depth: what only one of the maps has is kept or added, two maps are merged, and of two other values the one stays that overwriting says, but a map always takes the place of a value |
| `DeepUpdate.OverwritingTakesAll` | internal/common/mapstr.go:63-65 | Merging with overwriting keeps all that is merged in |
| `DeepUpdate.NotOverwritingKeeps` | internal/common/mapstr.go:70-72 | Merging without overwriting keeps all that was there if and only if nowhere a map meets a value that is no map |
| `DeepUpdate.MapReplacesValue` | internal/common/mapstr.go:74-89 | Without overwriting, a map still takes the place of a value |
| `DeepUpdate.NotOverwritingIsDual` | internal/common/mapstr.go:63-72 | Not overwriting is overwriting the other way round, under the same condition, if and only if |
| `DeepUpdate.UpdateIsIdempotent` | internal/common/mapstr.go:74-114 | Merging the same map in again changes nothing |
| `DashboardTheorems.DecodeEncodeExactly` | internal/builder/dashboards.go:78-157 | decode(encode(m)) is m, at every depth of panels, if and only if m is fully decoded |
| `DashboardTheorems.EncodeDecodeExactly` | internal/export/transform_decode.go:32-100 | encode(decode(m)) is m, at every depth of panels, if and only if m is fully encoded in the text that encoding writes |
| `DashboardTheorems.DecodeEncodeIff` | internal/builder/dashboards.go:78-157 | The same for any list of fields that do not overlap and have the panels among them |
| `DashboardTheorems.EncodeDecodeIff` | internal/export/transform_decode.go:32-100 | The same for any such list |
| `DashboardTheorems.EncodeTwice` | internal/builder/dashboards.go:78-157 | Encoding what has been encoded returns it unchanged and reports no change |
| `DashboardTheorems.EncodeUnchanged` | internal/builder/dashboards.go:78-109 | Encoding succeeds and reports no change exactly when no field is to be encoded, and then returns its input |
| `DashboardTheorems.EncodeThenDecode` | internal/builder/dashboards.go:78-157 | A fully decoded object can be encoded, and decoding gives it back |
| `DashboardTheorems.DecodeThenEncode` | internal/export/transform_decode.go:32-100 | A fully encoded object can be decoded, and encoding gives it back |
| `DashboardTheorems.ReencodedIsDecoded` | internal/builder/dashboards.go:78-157 | Only fully decoded objects survive encoding and decoding |
| `DashboardTheorems.RedecodedIsEncoded` | internal/export/transform_decode.go:32-100 | Only fully encoded objects survive decoding and encoding |
| `DashboardTheorems.EncodeFieldsChanged` | internal/builder/dashboards.go:84-107 | The changed flag is set exactly if some field is there and is no string, and otherwise nothing changes |
| `Dashboards.EncodeFieldsAt` | internal/builder/dashboards.go:84-107 | After the loop every listed field that is there holds text, and none influences another |
| `Dashboards.DecodeFieldsAt` | internal/export/transform_decode.go:33-58 | After a successful loop every listed field holds the value of its text |
| `DashboardTheorems.EncodesExactly` | internal/builder/dashboards.go:111-157 | Encoding succeeds exactly if the panels, unless missing or text, are a list of objects and what these embed is an object that can be encoded |
| `DashboardTheorems.DecodesExactly` | internal/export/transform_decode.go:32-100 | Decoding succeeds exactly if every field is missing or text of a map or of maps, the panels are a list, and what these embed is an object that can be decoded |
| `DashboardTheorems.KibanaFieldsChange` | internal/builder/dashboards.go:17-32 | Each of the eight listed fields other than the panels holds what its text stood for once decoded, and the text of its value once encoded |
| `Dashboards.KibanaFields` | internal/builder/dashboards.go:17-32 | These nine fields are the ones kept as text, and panels embed their object under `embeddableConfig` |
| `Dashboards.FieldsAreApart` | internal/builder/dashboards.go:17-32 | No listed field is a dotted prefix of another, and the panels are among them |
| `Dashboards.DecodedPanelsAreInside` | internal/export/transform_decode.go:32-65 | The panels that decoding goes on with lie inside the object, so the recursion ends |
| `DashboardCode.EncodeObjectMapStr` | internal/builder/dashboards.go:78-109 | The loop over fields gives the specified object and flag |
| `DashboardCode.EncodeEmbeddedPanels` | internal/builder/dashboards.go:111-157 | The loop that assigns panels in place gives the specified panels and flag |
| `DashboardCode.DecodeObjectMapStr` | internal/export/transform_decode.go:32-66 | The loop over fields, then the panels, give the specified object |
| `DashboardCode.DecodeEmbeddedPanels` | internal/export/transform_decode.go:68-100 | Decoding the panels gives the specified object, and fails where that fails |
| `DashboardCode.DecodeEmbeddedList` | internal/export/transform_decode.go:80-96 | The loop that assigns panels in place gives the specified panels |
| `InjectionTheorems.InjectingTwice` | internal/fields/dependency_manager.go:218-279 | When references are dropped, injecting the result again changes nothing, and says so, if and only if the fields that external fields declare themselves are settled; in particular when they declare none |
| `InjectionTheorems.OwnFieldsAreNotInjected` | internal/fields/dependency_manager.go:218-279 | An external field with an external field among its own fields is not settled |
| `InjectionTheorems.InjectingAgain` | internal/fields/dependency_manager.go:218-279 | When references are kept, injecting the result again succeeds and gives the same definitions, for all fields |
| `InjectionTheorems.InjectedThroughout` | internal/fields/dependency_manager.go:218-306 | With skipping no empty group is left at any depth, whether references are kept or dropped, if and only if none is among the fields that external fields declare themselves; and likewise nothing external when references are dropped |
| `InjectionTheorems.InjectingStandsFor` | internal/fields/dependency_manager.go:218-306 | At every depth an imported field has the imported type or an allowed override, the package's own entries and otherwise the imported ones; other definitions keep all but their fields; and nothing is left out but groups without fields, when those are skipped |
| `InjectionTheorems.SettledStay` | internal/fields/dependency_manager.go:218-279 | Injecting returns its input and reports no change exactly for settled definitions |
| `InjectionTheorems.UnchangedIsSame` | internal/fields/dependency_manager.go:218-279 | When no change is reported, the definitions are as before |
| `InjectionTheorems.InjectingKeepsNames` | internal/fields/dependency_manager.go:218-279 | Without skipping, all names and their order are the same at every depth |
| `InjectionTheorems.ImportKeeps` | internal/fields/dependency_manager.go:232-243 | One imported field keeps what the package declares, except the type, and otherwise has the entries that describe the imported definition; its type is the imported one, unless the package has constant_keyword for keyword or the other way round, or group or nested for object; the reference is gone unless it is to be kept |
| `InjectionTheorems.TransformDescribes` | internal/fields/dependency_manager.go:369-420 | An imported definition has name and type, each other entry exactly if the schema has it (object_type, description, pattern, index, doc_values, multi_fields at every depth; normalize, allowed_values and expected_values only for validation) with the value of the schema, and nothing else |
| `InjectionTheorems.InjectFails` | internal/fields/dependency_manager.go:218-279 | Injecting fails exactly if some definition has no string as its name, refers to what is not found or not allowed at the top level, or, without a reference, has fields that are no list or at fault themselves |
| `FieldInjection.InjectFieldsWithOptions` | internal/fields/dependency_manager.go:218-279 | The loop with its recursion gives the specified definitions and flag, or fails where it fails |
| `PipelineExport.IngestPipelines` | internal/export/ingest_pipelines.go:41-66 | Fetching and writing together: for references without loops, success writes exactly the pairs of location and pipeline reachable on the server from a root assigned to that location; failure writes some of them and only if one of them cannot be written |
| `PipelineExport.WritePipelinesToFiles` | internal/export/ingest_pipelines.go:68-91 | The recursive writing ends without loops and writes exactly the reachable pairs; other files stay as they are |
| `PipelineExport.CreateWriteAssignments` | internal/export/ingest_pipelines.go:129-136 | Every name gets the location |
| `PipelineExport.WritePipelineToFile` | internal/export/ingest_pipelines.go:93-127 | The file has exactly the keys of the pipeline other than `_meta` and `version`, with the same values, and no other file changes |
| `Pipelines.EndsExactlyWithoutLoops` | internal/export/ingest_pipelines.go:68-91 | Following references from the assigned pipelines ends if and only if no way through existing pipelines comes by one twice |
| `Pipelines.SelfReferenceNeverEnds` | internal/export/ingest_pipelines.go:68-91 | Following references from a pipeline that refers to itself does not end within any number of levels |
| `PipelineExport.GetRemotePipelinesWithNested` | internal/elasticsearch/ingest/pipeline.go:203-218 | The rounds of requests end, also around loops, and fetch exactly the existing pipelines that can be reached |
| `PipelineExport.PendingNestedPipelines` | internal/elasticsearch/ingest/pipeline.go:220-239 | Exactly the names referred to and not yet asked for, each once |
| `PipelineExport.GetProcessorPipelineNames` | internal/elasticsearch/ingest/pipeline.go:99-112 | Exactly the names that processors refer to, each once |
| `PipelineExport.FetchedReachesAll` | internal/export/ingest_pipelines.go:54-59 | From an assigned pipeline, the same can be reached among the fetched pipelines as on the server |
| `PipelineExport.NestedFiles` | internal/export/ingest_pipelines.go:72-88 | What is reachable from a pipeline is the pipeline and what is reachable from the names it refers to |
| `AppendElements.AppendsAtPath` | internal/builder/dynamic_mappings.go:187-228 | If only mappings are on the way and the rest can be created, the node at the path ends up holding its old contents and then the values; otherwise the tree is unchanged or it fails |
| `AppendElements.AppendsNowhereElse` | internal/builder/dynamic_mappings.go:187-228 | What is found at every path that is neither prefix nor extension is what was found there |
| `AppendElements.KeysOnTheWay` | internal/builder/dynamic_mappings.go:204-214 | Mappings on the way keep their key nodes and their order; a missing key comes last, unquoted |
| `AppendElements.AppendsTwice` | internal/builder/dynamic_mappings.go:187-228 | Appending twice at one path is appending once, one after the other |
| `AppendElements.StopsExactly` | internal/builder/dynamic_mappings.go:187-228 | Where the way is not open, nothing happens if it comes to a scalar or an alias, and otherwise it fails |
| `AppendElements.CreatedNode` | internal/builder/dynamic_mappings.go:230-241 | A node that is created, at the path or on the way, bears its name, unquoted key and all, and is a list if that is `dynamic_templates` and a mapping otherwise |
| `AppendElements.CreatesAtPath` | internal/builder/dynamic_mappings.go:211-214 | Missing nodes are created down to the path, or it fails where a list would have to hold a key |
| `AppendElements.LeftBySuccess` | internal/builder/dynamic_mappings.go:187-228 | What is left behind after a success is the tree that appending gives |
| `AppendElements.LeavesTheRest` | internal/builder/dynamic_mappings.go:187-228 | Also after a failure, what is found at every path that is neither prefix nor extension is what was found there |
| `AppendNodes.AppendValues` | internal/builder/dynamic_mappings.go:187-228 | In place, on linked nodes: it fails where `Append` does, and the nodes end up as the tree that is left behind, also when it fails, with the missing nodes created by then |
| `AppendNodes.AppendToMapping` | internal/builder/dynamic_mappings.go:204-214 | The same for a mapping, whose key is looked for two by two |
| `AppendNodes.AddChild` | internal/builder/dynamic_mappings.go:211-213 | A new key and an empty child of the right kind are linked in last |

## Left out

- YAML and JSON syntax: parsed trees are given. Comments, anchors and tags of YAML nodes are dropped.
- Bytes: characters stand for bytes, also in `compareKeys`, which goes byte by byte.
- The regular expressions and patterns of dynamic templates: whether a template matches a path is a parameter.
- Checks of single values (types, patterns, allowed values, IP addresses): a parameter of the document validator, a
  function of key, value and event type.
- Documents with Go lists of maps, `[]map[string]any`: decoded JSON has none; lists are values here.
- Error texts. Errors are a path and a reason, a failure, or the kind of failure where the program tells them apart.
- Commands, prompts, reports, clients, certificates, zip and file names: user interface and input/output.
- How a server answers, other than with the pipelines that exist among those asked for.
- Package filters, link maps, README rendering, id adjustment and tag filtering: short filters and look-ups, whose
  bodies say what they do.
- Maps updated in place by dashboards, document expansion and field injection: there the maps are local values, and what
  else refers to them is not modelled. MapNodes models the updates in place of Put, Delete and DeepUpdate themselves.
- Nil maps: an absent map and an empty one are the same.
- FieldInjection.InjectFieldsWithOptions: errors and panics are one failure, and importing from a schema is a
  parameter, the outcome of FieldLookup's search.
- DashboardCode.DecodeObjectMapStr: errors and the panic over a field that is no string are one failure.
- FieldLookup.FindIsFlatLookUp: objects with an object type below top-level names that are empty or only dots are
  excluded, because the search falls back to them too early; `UnnamedHidesField` is such an input. For which searched
  keys the two agree all the same is not stated.
- MappingsPruning.PrunedFieldsErrors: a map of fields that reads as a field, with a bare string named `type`, keeps the
  entries that decide how it is compared. That is enough; that it is necessary is shown for `type` and for multi-fields
  only, by `RemovingABareType` and `RemovingMultiFields`.
- MappingsRuns.CompareRun: where paths meet it bounds what runs report and does not say which sets occur, except for
  two properties that meet.
