# smelly-python code smells, modelled in Dafny

This project models the core of smelly-python. That core turns the JSON report
of the pylint linter into `CodeSmell` objects and collects them in a `Report`.
All of it is in `smelly_python/code_smell.py`.

- A pylint record is a flat dictionary, modelled as a `map<string, Value>`:
  - `Location(data)` copies six keys into a location;
  - `CodeSmell(data)` resolves `type` to a `Priority`, builds the location and copies `symbol`, `message` and `message-id`.
- A missing key or an unknown `type` raises a KeyError in the source. The model returns a `Failure` whose `Fault` names the key or the name, and reports the first failure in reading order, as the source does.
- `Priority.get_priority` looks a member up by its lower-case name. `severity()` ranks CONVENTION 0, REFACTOR 1, WARNING 2 and ERROR 3.
- `get_readable_symbol()` turns hyphens into spaces.
- `jsonify()` is modelled as the structure handed to the JSON encoder:
  - dictionaries are ordered key/value sequences, and `d[k] = v` has Python's semantics;
  - the encoder's `default` hook runs on the smell and again on its nested location.
- `Report(json_content, grade)` runs `convert_dict`, a loop that converts every record and fails on the first failure, followed by a stable sort by descending severity. The grade is stored unchanged.
- `group_by_file()` cuts the sorted smells into maximal runs of adjacent smells with the same `path`, like `itertools.groupby`.

Modules:
- `Wrappers`: Option and Result.
- `Records`: records, values, faults.
- `Priorities`.
- `Locations`.
- `JsonValues`: ordered dictionaries.
- `CodeSmells`.
- `StableSort`: the sort, generic over its integer key.
- `Reports`.

The `type` lookup is case-sensitive: `"ERROR"` is rejected (`Priorities.UpperCaseNamesRejected`).

## Model

| member | source | states |
|---|---|---|
| Records.FirstMissing | smelly_python/code_smell.py:19-24 | the key reported missing is the first absent key in reading order; there is none exactly when all keys are present |
| Records.FirstMissingAppend | smelly_python/code_smell.py:57-62 | reading two groups of keys one after the other reports a missing key of the second group only when the first group is complete |
| Locations.LocationKeysInOrder | smelly_python/code_smell.py:19-24 | the location's keys are read in the order module, obj, line, column, endLine, path, and the first absent one is reported |
| Locations.ParseLocation | smelly_python/code_smell.py:18-24 | construction succeeds exactly when all six keys are present; each attribute equals its record value; a failure names the first missing key |
| Priorities.EveryMemberListed | smelly_python/code_smell.py:33-40 | iterating over the enum visits all four members |
| Priorities.Lower | smelly_python/code_smell.py:49 | lower-casing keeps the length, turns each upper-case letter into its lower-case letter, leaves no upper-case letter, and keeps every other character |
| Priorities.LowerIdempotent | smelly_python/code_smell.py:49 | lower-casing twice is the same as lower-casing once |
| Priorities.KnownNameOf | smelly_python/code_smell.py:37-40 | each member's lower-cased name is one of `error`, `warning`, `refactor`, `convention` |
| Priorities.LowerNameInjective | smelly_python/code_smell.py:49 | distinct members have distinct lower-case names, so the comprehension loses no member |
| Priorities.TableOf | smelly_python/code_smell.py:49 | the dictionary comprehension maps every member's lower-case name back to a member with that name, and has no other keys |
| Priorities.Table | smelly_python/code_smell.py:49 | `{prio.name.lower(): prio for prio in Priority}`: every key maps to a member whose lower-case name it is, and every member's lower-case name is a key; `TableHasEveryMember` and `TableKeys` pin the table down |
| Priorities.TableHasEveryMember | smelly_python/code_smell.py:49 | every member's lower-case name is a key of the table and maps to that member |
| Priorities.TableKeys | smelly_python/code_smell.py:49 | the table's keys are exactly the four lower-case names |
| Priorities.GetPriority | smelly_python/code_smell.py:42-49 | the lookup succeeds exactly when the name is a string among the four lower-case names; the result's lower-case name is the input; anything else is a KeyError carrying the name |
| Priorities.GetPriorityRoundTrip | smelly_python/code_smell.py:49 | looking a member up by its own lower-case name returns that member |
| Priorities.UpperCaseNamesRejected | smelly_python/code_smell.py:49 | the lookup is case-sensitive: each member's upper-case enum name is rejected |
| Priorities.OtherLinterTypesRejected | smelly_python/code_smell.py:49 | pylint's other message types, `fatal` and `info`, are rejected with a KeyError |
| Priorities.IndexOf | smelly_python/code_smell.py:82 | `list.index` gives the position of the first occurrence |
| Priorities.Severity | smelly_python/code_smell.py:81-82 | `types.index(...) if ... in types else -1`: the result is -1 exactly when the member is not ranked, and otherwise a position of Ranked holding the member; `SeverityIsRank` shows the -1 branch is dead |
| Priorities.SeverityIsRank | smelly_python/code_smell.py:81-82 | every member is in the rank list, so the `-1` fallback is never taken, and the severity indexes back to the member |
| Priorities.SeverityTable | smelly_python/code_smell.py:81-82 | CONVENTION ranks 0, REFACTOR 1, WARNING 2, ERROR 3 |
| Priorities.SeverityInjective | smelly_python/code_smell.py:81-82 | distinct members have distinct severities |
| CodeSmells.CodeSmell.Severity | smelly_python/code_smell.py:70-82 | a smell's severity is in 0..3 and is 3, 2, 1 or 0 exactly when its type is ERROR, WARNING, REFACTOR or CONVENTION |
| CodeSmells.SmellKeysInOrder | smelly_python/code_smell.py:57-62 | the constructor reads `type`, then the six location keys, then `symbol`, `message` and `message-id` |
| CodeSmells.ParseCodeSmell | smelly_python/code_smell.py:57-62 | construction succeeds exactly when `type` is present and resolves, the location builds, and `symbol`, `message` and `message-id` are present; on success the type's lower-case name is the record's `type`, the location is the one built from the same record, and the other fields are the record values |
| CodeSmells.ParseCodeSmellError | smelly_python/code_smell.py:57-62 | a failed construction raises for an unknown type when `type` is present but does not resolve; otherwise it names the first missing key of all ten in reading order |
| CodeSmells.ReplaceHyphens | smelly_python/code_smell.py:89 | `replace('-', ' ')` keeps the length, turns each hyphen into a space and keeps every other character |
| CodeSmells.ReplaceHyphensRemovesAll | smelly_python/code_smell.py:89 | no hyphen is left |
| CodeSmells.ReplaceHyphensIdempotent | smelly_python/code_smell.py:89 | replacing twice is the same as replacing once |
| CodeSmells.ReplaceHyphensHyphenFree | smelly_python/code_smell.py:89 | a symbol without hyphens is returned as it is |
| CodeSmells.ReadableSymbol | smelly_python/code_smell.py:84-89 | a string symbol gives a string of the same length, without hyphens, where each hyphen became a space and every other character is unchanged; a non-string symbol raises |
| JsonValues.Lookup | smelly_python/code_smell.py:97-101 | a dictionary lookup finds a value exactly when the key is present, and the value is one stored under that key |
| JsonValues.Put | smelly_python/code_smell.py:97-101 | assigning to an existing key keeps the key order; a new key is appended |
| JsonValues.PutThenLookup | smelly_python/code_smell.py:97-101 | after `d[k] = v`, `d[k]` is `v` |
| JsonValues.PutLeavesOthers | smelly_python/code_smell.py:97-101 | `d[k] = v` leaves every other key's value as it was |
| JsonValues.PutKeepsKeysDistinct | smelly_python/code_smell.py:97-101 | assignment never duplicates a key |
| JsonValues.LookupAt | smelly_python/code_smell.py:97-101 | in a dictionary, looking up the i-th key gives the i-th value |
| CodeSmells.LocationFields | smelly_python/code_smell.py:18-24 | a Location's `__dict__`; its keys, distinctness and values are stated by `LocationFieldsKeys`, `LocationFieldsDistinct`, `LocationFieldsLackHookKeys` and `LocationFieldsValues` |
| CodeSmells.SmellFields | smelly_python/code_smell.py:57-62 | a CodeSmell's `__dict__` with the encoded location; its keys and values are stated by `SmellFieldsKeys`, `SmellFieldsHookKeys` and `SmellFieldsValues` |
| CodeSmells.Hook | smelly_python/code_smell.py:97-101 | the `default` lambda; what it sets and keeps is stated by `HookLookup`, `HookKeys` and `HookKeysAppend` |
| CodeSmells.EncodeLocation | smelly_python/code_smell.py:96-101 | the hook applied to the nested Location; stated by `EncodeLocationKeys`, `EncodeLocationOverrides`, `EncodeLocationKeepsAttributes` and `EncodeLocationAttributes` |
| CodeSmells.Jsonify | smelly_python/code_smell.py:91-101 | `jsonify()` as the structure handed to the encoder; stated by `JsonifyKeys`, `JsonifyOverrides`, `JsonifyKeepsAttributes` and `JsonifyAttributes` |
| CodeSmells.HookLookup | smelly_python/code_smell.py:97-101 | the `default` hook sets `severity` to the smell's rank and `type` to its lower-case name, and leaves every other attribute as it was |
| CodeSmells.HookKeys | smelly_python/code_smell.py:97-101 | on an object that has a `type` attribute, the hook keeps the attribute order and appends only `severity` |
| CodeSmells.HookKeysAppend | smelly_python/code_smell.py:97-101 | on an object without `type` or `severity`, the hook appends `severity` and then `type` |
| CodeSmells.SmellFieldsKeys | smelly_python/code_smell.py:57-62 | a smell's attributes are `type`, `location`, `symbol`, `message`, `message_id`, in that order, each once |
| CodeSmells.SmellFieldsHookKeys | smelly_python/code_smell.py:57-62 | a smell has a `type` attribute and no `severity` attribute |
| CodeSmells.SmellFieldsValues | smelly_python/code_smell.py:57-62 | a smell's attributes hold its location and its record values |
| CodeSmells.JsonifyKeys | smelly_python/code_smell.py:96-101 | the top-level object has the keys `type`, `location`, `symbol`, `message`, `message_id`, `severity`, in that order |
| CodeSmells.JsonifyOverrides | smelly_python/code_smell.py:96-101 | at the top level, `severity` is the smell's rank and `type` is its lower-case name |
| CodeSmells.JsonifyKeepsAttributes | smelly_python/code_smell.py:96-101 | every top-level key other than `type` and `severity` has the value of the smell's attribute |
| CodeSmells.JsonifyAttributes | smelly_python/code_smell.py:96-101 | `location` is the nested encoded object, and `symbol`, `message` and `message_id` are the record values |
| CodeSmells.LocationFieldsKeys | smelly_python/code_smell.py:18-24 | a location's attributes are `module`, `python_object`, `line`, `column`, `end_line`, `path`, in that order |
| CodeSmells.LocationFieldsDistinct | smelly_python/code_smell.py:18-24 | no location attribute name occurs twice |
| CodeSmells.LocationFieldsLackHookKeys | smelly_python/code_smell.py:18-24 | a location has neither a `type` nor a `severity` attribute |
| CodeSmells.LocationFieldsValues | smelly_python/code_smell.py:18-24 | a location's attributes hold the six record values |
| CodeSmells.EncodeLocationKeys | smelly_python/code_smell.py:96-101 | the nested `location` object has the six location keys followed by `severity` and `type`, because the hook runs on it too |
| CodeSmells.EncodeLocationOverrides | smelly_python/code_smell.py:96-101 | the nested `location` object carries the smell's rank and lower-case type |
| CodeSmells.EncodeLocationKeepsAttributes | smelly_python/code_smell.py:96-101 | every nested key other than `type` and `severity` has the value of the location's attribute |
| CodeSmells.EncodeLocationAttributes | smelly_python/code_smell.py:96-101 | the nested `location` object exposes the six location values unchanged |
| StableSort.InsertPermutes | smelly_python/code_smell.py:135 | inserting one element adds exactly that element |
| StableSort.InsertKeepsSorted | smelly_python/code_smell.py:135 | inserting into a list with non-increasing keys keeps the keys non-increasing |
| StableSort.SortDesc | smelly_python/code_smell.py:135 | `sorted(..., reverse=True)` keeps the length |
| StableSort.SortPermutes | smelly_python/code_smell.py:135 | the sorted list is a permutation of the input |
| StableSort.SortIsSorted | smelly_python/code_smell.py:135 | the keys never increase along the sorted list |
| StableSort.InsertIntoClass | smelly_python/code_smell.py:135 | an inserted element goes in front of the elements with an equal key and changes no other key class |
| StableSort.SortIsStable | smelly_python/code_smell.py:135 | elements with equal keys keep their input order |
| StableSort.SortedIsClasses | smelly_python/code_smell.py:135 | for keys in 0..3, a list with non-increasing keys consists of its key-3, key-2, key-1 and key-0 elements, one class after the other |
| StableSort.SortIsClasses | smelly_python/code_smell.py:135 | for keys in 0..3, the sorted list equals an independent definition: the input's key-3, key-2, key-1 and key-0 elements, each class in input order |
| Reports.ConvertEach | smelly_python/code_smell.py:132-134 | converting a list succeeds exactly when every record converts; the result has one converted element per record, in order; a failure is the error of the first failing record |
| Reports.ParseAll | smelly_python/code_smell.py:132-134 | the loop's list of smells: it exists exactly when every record builds a CodeSmell, and then holds one smell per record, in record order; otherwise the error is the first failing record's |
| Reports.PrefixFailure | smelly_python/code_smell.py:133-134 | once a prefix fails, the whole conversion fails with the same error, so the loop may stop there |
| Reports.ConvertStep | smelly_python/code_smell.py:133-134 | one loop step appends the converted record, or ends the conversion with that record's error |
| Reports.ConvertDict | smelly_python/code_smell.py:125-135 | `convert_dict` succeeds exactly when every record converts; its result is the converted list sorted by descending severity; a failure is the first failing record's error |
| Reports.SeverityOf | smelly_python/code_smell.py:135 | the sort key `lambda s: s.severity()` is always in 0..3 |
| Reports.SeverityKeyInRange | smelly_python/code_smell.py:81-82 | every smell's sort key is in 0..3 |
| Reports.NewReport | smelly_python/code_smell.py:109-111 | construction is all-or-nothing and fails with the first failing record's error; on success the grade is stored unchanged, and the smells are the converted records in stable non-increasing severity order: same length, a permutation, sorted, and each severity class in record order |
| Reports.ReportIsSeverityClasses | smelly_python/code_smell.py:109-110 | a report's smells are its ERROR smells, then WARNING, REFACTOR and CONVENTION, each class in record order |
| Reports.PathOf | smelly_python/code_smell.py:120-121 | the grouping key `location.path`; `GroupByPath` and `GroupingIsUnique` state the groups it gives |
| Reports.GroupByPath | smelly_python/code_smell.py:113-123 | the groups concatenate back to the smells; every group is non-empty and has one path; neighbouring groups differ in path; the first group starts with the first smell |
| Reports.Report.GroupByFile | smelly_python/code_smell.py:113-123 | a report's groups concatenate back to its sorted smells, each group is non-empty with one path, and neighbouring groups differ in path |
| Reports.GroupCount | smelly_python/code_smell.py:123 | there is one group more than there are path changes between neighbouring smells |
| Reports.GroupingIsUnique | smelly_python/code_smell.py:123 | any cutting into non-empty, single-path groups whose neighbours differ in path, with the same concatenation, is the grouping itself |
| Reports.AdjacentSamePathMerged | smelly_python/code_smell.py:120-123 | paths A, A, B give the groups [[A, A], [B]] |
| Reports.SeparatedSamePathSplit | smelly_python/code_smell.py:120-123 | paths A, B, A give three groups [[A], [B], [A]]: grouping merges only neighbours |

## Left out

- The JSON text that `json.dumps` produces (line 96). `Jsonify` returns the structure the encoder receives, with ordered dictionaries, not the string.
- The `type` attribute's value before the hook overwrites it. In `SmellFields` it is shown as the enum's name, because the enum object itself is never encoded: the hook replaces it in place (`CodeSmells.JsonifyOverrides`).
- `__repr__` and `__str__` of Location and CodeSmell (lines 26-30, 64-68). They only render text for display. Location's two bodies are identical. CodeSmell's differ only in rendering the location with `repr` instead of `str`, which give the same text, so `repr` and `str` agree.
- The emoji glyph values of the Priority members (lines 37-40). No modelled operation reads them.
- The `multiprocessing.dummy.Array` import (line 5). It only annotates `convert_dict`'s return type, and the function returns a list.
- The meaning of `grade`: it is a type parameter, stored unchanged.
- Priorities.Lower: lower-cases the ASCII letters A-Z only. Python's `str.lower` covers all of Unicode, but it is applied only to the enum's ASCII names.
- Record values other than strings, integers and null (floats, booleans, lists, objects) are not modelled. pylint's records do not use them for the keys read here.
- The text of the KeyError and AttributeError exceptions. A `Fault` keeps only the missing key, the rejected name, or the field that was not a string.
- Python's `sorted` is Timsort; the model sorts by stable insertion. For keys in 0..3, every sorted, stable permutation equals `Classes` (`StableSort.SortedIsClasses`, `StableSort.SortIsStable`), so the two agree.
