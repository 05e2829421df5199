# tparse in Dafny

tparse turns short natural-language notes into to-dos and projects for the Things
task manager. A note is a blob of text. Paragraphs are separated by blank lines, and each line
carries its fields behind sigils: `#` tags, `[` project, `[[` new project, `::` notes,
`==` heading, `>` deadline, `*` checklist items. A paragraph that holds a region between two
double-backtick delimiters is a block. Its first line is a template whose values fill the empty
values of the lines after it. The parser builds one dictionary per line. The adapter turns
each dictionary into a record of the Things JSON coder: a project for a new-project line,
otherwise a to-do. The container then exports all records as a list.

The model covers two files: `tparse/naturalThingsParser.py` (the delimiter table, `Parser`,
`Block`, `Line` and `ThingsAdapter`) and `tparse/thingsJSONCoder.py` (the container, the
operation enum, the four record kinds and their whitelists, and `InvalidParams`).

- Python dictionaries are ordered association lists (`PyDict.Dict`). Insertion order, "an
  existing key keeps its place" and "last write wins" are therefore faithful.
- Exceptions are `Result` values. Where an exception ends a loop that has already appended
  to a list, an `Outcome` records both what was appended and the exception.
- Objects the source mutates are classes whose methods are proved against specification
  functions:
  - `Parsing.Parser` and its `items` list;
  - `Blocks.Block` with `lines`, and `Blocks.Line` with `params`;
  - `Sigils.DelimiterTable`, the module-level table that `Parser.__init__` pops `block` from;
  - `Coder.Item` and `Coder.Container`;
  - `Adapter.ThingsAdapter`, whose `create` rewrites the lines' dictionaries in place and
    appends to `data`.
- The date library and the wall clock enter as function parameters (`DateParser`,
  `DateReader`). `None` stands for "the library raised". `str()` of a record enters as the
  parameter `show`.

Modules, in dependency order:
- `Base`: `Option`, `Result`, `Outcome`, `Error`.
- `PyStr`: strip, lower, find, split and join.
- `PyDict`.
- `Sigils`: the table and `__split_before`.
- `LineExtract`: what `parse_line` computes.
- `LineProperties`: lemmas about `parse_line`.
- `Blocks`: `fill_array`.
- `Document`: what `parse` appends.
- `Parsing`: the `Parser` class.
- `Coder`.
- `Adapter`.

Where the code and the project's own description disagree, the model follows the code:
- Only `*` and `@` accumulate lists. A second `#` overwrites the first (`LineProperties.LastTagWins`).
- `[` precedes `[[` in the table, so the splitter always matches `[` first. `[[X` is therefore
  a project named `X`, never a new project (`LineProperties.DoubleBracketIsProject`).
- `'false'` is coerced with `bool(value)` and becomes `True` (`Coder.FalseBecomesTrue`).
- A non-empty fragment before the first sigil raises `Exception("Impossible error.")`
  (`LineProperties.PlainStartRaises`).
- The adapter tests the key `checklist-item`, while the parser produces `checklist-items`.
  Both behaviours are modelled as written.

## Model

| member | source | states |
|---|---|---|
| Sigils.DelimiterTable.constructor | tparse/naturalThingsParser.py:10-20 | the module table holds the nine field/sigil pairs in declaration order |
| Sigils.DelimitersWellFormed | tparse/naturalThingsParser.py:10-20 | the table's field names are distinct and every sigil is non-empty |
| Sigils.PoppedTable | tparse/naturalThingsParser.py:78 | `block` is a key; popping it leaves the first eight entries, whose sigils are the line sigils in order; `block` is gone and the table stays well formed |
| Sigils.FirstSigilFromSpec | tparse/naturalThingsParser.py:197 | the alternation picks a branch that occurs at the position, and no earlier branch of the table occurs there |
| Sigils.MatchLenSpec | tparse/naturalThingsParser.py:197 | the pattern matches at a position iff some sigil occurs there, and the matched text is the first such sigil in table order |
| Sigils.MatchStartsSpec | tparse/naturalThingsParser.py:90 | every start `finditer` reports is a match at or after the scan position, and the starts strictly increase |
| Sigils.SplitBefore | tparse/naturalThingsParser.py:83-93 | the generator loop with its `prev` cursor yields exactly `Fragments(sigils, text)` |
| Sigils.FragmentsSpec | tparse/naturalThingsParser.py:89-93 | the fragments concatenate back to the text; there is one more fragment than matches; fragment j (j ≥ 1) starts at match j-1 |
| Sigils.ScanConcat | tparse/naturalThingsParser.py:89-93 | the fragments from any scan state concatenate to the text from `prev` on |
| Sigils.ScanCount | tparse/naturalThingsParser.py:89-93 | a scan yields one fragment per remaining match plus one |
| Sigils.ScanOffsets | tparse/naturalThingsParser.py:91-92 | each fragment after the first begins where the corresponding match starts |
| Sigils.BracketMatch | tparse/naturalThingsParser.py:12-13 | with the parser's table, a `[` is always matched as the one-character sigil |
| Sigils.PlainCharNoMatch | tparse/naturalThingsParser.py:197 | a character that begins no sigil is never matched |
| Sigils.NoFragmentStartsWithDoubleBracket | tparse/naturalThingsParser.py:197-198 | no fragment of any line begins with `[[`, so that branch of line 203 is dead |
| Parsing.NewParser | tparse/naturalThingsParser.py:76-80 | construction succeeds iff the caller's table has `block`; on success the parser shares the table object, whose entries lose `block`, and `items` is empty; otherwise `KeyError` and the table is unchanged |
| Parsing.Parser.constructor | tparse/naturalThingsParser.py:76-80 | the parser keeps the caller's table object, pops `block` from it, keeps the escapes, and starts with no items |
| Parsing.Parser.ConvertToNames | tparse/naturalThingsParser.py:95-104 | the loop's result is `Renamed(table, parsed)`, whose meaning `LineProperties.RenamedGet` and `RenamedSpec` state |
| Parsing.Parser.FinishLine | tparse/naturalThingsParser.py:217-231 | the flattening, renaming and date step equal `Finish` |
| Parsing.Parser.ParseLine | tparse/naturalThingsParser.py:189-232 | the method's result, exceptions included, equals `Parsed(table, text, date)` |
| Parsing.Parser.ParseAll | tparse/naturalThingsParser.py:181-184 | the block's later lines are parsed in order; the first exception ends the loop (`ParsedAll`) |
| Parsing.Parser.ParseFlat | tparse/naturalThingsParser.py:160-166 | `items` only grows: fresh, distinct lines are appended, one per sentence with its text and dictionary, up to the first line that raises, which is not appended |
| Parsing.Parser.ParseBlockLines | tparse/naturalThingsParser.py:171-187 | what a block appends equals `BlockEntries`: first the template line, then the merged lines, only if every parse and merge succeeded |
| Parsing.Parser.ParseBlock | tparse/naturalThingsParser.py:168-187 | the block content split on newlines is handled as `BlockEntries` states; earlier items are untouched |
| Parsing.Parser.ParseTail | tparse/naturalThingsParser.py:181-187 | after the template line: nothing when a later line or a merge raises, otherwise the merged lines without text |
| Parsing.Parser.ParseParagraph | tparse/naturalThingsParser.py:159-187 | a paragraph is a block iff the backtick pattern matches it, and appends what `ParagraphEntries` gives |
| Parsing.Parser.Parse | tparse/naturalThingsParser.py:151-187 | paragraphs in order; `items` keeps its old prefix and gains exactly `TextEntries(text)` as fresh distinct lines; the first exception is returned |
| LineProperties.ParsedSpec | tparse/naturalThingsParser.py:189-232 | an exception of the fragment loop propagates unchanged; otherwise the result is the flattening, renaming and date step of the loop's dictionary, which has the loop's shape |
| LineProperties.FinishSpec | tparse/naturalThingsParser.py:217-231 | the line fails iff the date parser rejects the `>` value, with its error. Otherwise the keys are distinct field names; `checklist-items` is the flattened `*` value and `@` stays `[]`. `tags`, `project`, `notes` and `heading` carry the `#`, `[`, `::` and `==` values, and `deadline` is the parsed `>` value |
| LineProperties.RenamedSpec | tparse/naturalThingsParser.py:101-104 | with the parser's table each sigil's value moves to its field name and no sigil key survives |
| LineProperties.RenamedGet | tparse/naturalThingsParser.py:101-104 | for any table: a name holds its sigil's value unless an earlier entry claimed that sigil, a sigil key is gone, other keys are untouched |
| LineProperties.RenamedKeys | tparse/naturalThingsParser.py:101-104 | renaming keeps keys distinct and adds only names of the table |
| LineProperties.NoNewProject | tparse/naturalThingsParser.py:13 | `new-project` never appears in a parsed line |
| LineProperties.NoDue | tparse/naturalThingsParser.py:16-18 | `due` never appears: the `deadline` entry has already popped `>` |
| LineProperties.ApplyDatesSpec | tparse/naturalThingsParser.py:227-231 | without `deadline` the dictionary is unchanged; a rejected deadline raises the parser's error; otherwise `deadline` is replaced by the parsed date |
| LineProperties.EmptyLine | tparse/naturalThingsParser.py:195-232 | an empty line parses to `{'@': [], 'checklist-items': []}` |
| LineProperties.DoubleBracketIsProject | tparse/naturalThingsParser.py:197-210 | `[[X` parses to a project `X`, not a new project |
| LineProperties.LastTagWins | tparse/naturalThingsParser.py:209-210 | after the loop, the tag is the stripped rest of the last `#` fragment |
| LineProperties.ExtractStars | tparse/naturalThingsParser.py:207-208 | without a bare `*` fragment, `*` collects one stripped item per `*` fragment, in line order |
| LineProperties.BareStarKeepsText | tparse/naturalThingsParser.py:203-204 | after a bare `*` fragment the `*` value is a string for the rest of the line |
| LineProperties.BareStarRaises | tparse/naturalThingsParser.py:203-208 | a bare `*` followed later by a `*x` item raises (append on a string) |
| LineProperties.PlainStartRaises | tparse/naturalThingsParser.py:213-215 | a non-empty line that does not start with a sigil raises the impossible-error exception |
| LineProperties.ExtractErrSticks | tparse/naturalThingsParser.py:200-215 | once the loop has raised, the remaining fragments do not matter |
| Blocks.MergeValue | tparse/naturalThingsParser.py:57-61 | fails iff the child value is `''`/`[]` and the template lacks the key; a non-empty child value is kept, an empty one takes the template's |
| Blocks.MergedEntries | tparse/naturalThingsParser.py:55-62 | a merged line has exactly the child's keys in the child's order, each with the child's or template's value as `MergeValue` says |
| Blocks.MergedFails | tparse/naturalThingsParser.py:57-58 | the merge raises iff some empty child value has no template key, and the error is `KeyError` |
| Blocks.MergeAllSpec | tparse/naturalThingsParser.py:51-64 | one merged line per child, in order, up to the first child whose merge raises; with no failure every child is merged |
| Blocks.MergeAllSticks | tparse/naturalThingsParser.py:51-64 | after a child has raised, later children are not merged |
| Blocks.Block.MergeLine | tparse/naturalThingsParser.py:53-61 | the inner loop equals `Merged(params, child)` |
| Blocks.Block.AddLine | tparse/naturalThingsParser.py:52-64 | a fresh line holding `temp` and no text is appended to `lines` |
| Blocks.Block.FillArray | tparse/naturalThingsParser.py:49-64 | `lines` keeps its old prefix and gains fresh distinct lines carrying `MergeAll(params, parsed).done`; the failure is that of `MergeAll` |
| Blocks.Line.constructor | tparse/naturalThingsParser.py:67-69 | a new line has no dictionary entries and no text |
| Blocks.Block.constructor | tparse/naturalThingsParser.py:42-44 | a new block has no lines |
| Document.BlockContentSpec | tparse/naturalThingsParser.py:159-168 | a block exists iff some delimiter ends at or before the start of some delimiter; its content starts at the first such end and ends at the start of the last delimiter |
| Document.FlatEntriesSpec | tparse/naturalThingsParser.py:160-166 | one entry per sentence, with its text and dictionary, up to the first sentence whose parse raises |
| Document.ParsedAllSpec | tparse/naturalThingsParser.py:181-184 | the later lines all parse iff each one does, and then there is one dictionary per line in order |
| Document.BlockEntriesHead | tparse/naturalThingsParser.py:173-178 | a block appends something iff its first line parses, and the first entry is the template; any later failure leaves at most that entry |
| Document.BlockEntriesTail | tparse/naturalThingsParser.py:181-187 | a successful block appends, after the template, one merged line per remaining line, in order |
| Document.BlockFirstFails | tparse/naturalThingsParser.py:173-174 | a block whose first line raises appends nothing |
| Document.BlockRestFails | tparse/naturalThingsParser.py:177-184 | a block whose later line raises appends only the template line |
| Document.DocPrefix | tparse/naturalThingsParser.py:156-157 | the items of the first paragraphs are a prefix of the whole, and stay as they are once a paragraph raised |
| Document.FlatSticks | tparse/naturalThingsParser.py:161-166 | after a line has raised, later lines are not parsed |
| PyStr.Strip | tparse/naturalThingsParser.py:204 | the result is a slice `s[i..j]` of the input with only whitespace before `i` and after `j`; it is empty iff the input is all whitespace, has no whitespace at either end, and is the input when that already holds |
| PyStr.Find | tparse/thingsJSONCoder.py:88 | the first occurrence at or after `start`, or none at all |
| PyStr.SplitJoin | tparse/naturalThingsParser.py:156-160 | joining the split parts with the separator gives back the text, and no part contains the separator |
| PyDict.Set | tparse/naturalThingsParser.py:204 | the key holds the new value, other keys are unchanged, and a new key goes to the end |
| PyDict.SetKeepsOrder | tparse/naturalThingsParser.py:208 | assigning to an existing key keeps every key in place |
| PyDict.Pop | tparse/naturalThingsParser.py:103 | other keys are unchanged and the key is removed |
| Coder.OperationStr | tparse/thingsJSONCoder.py:50-51 | as written: `"create"` for both members (see Findings) |
| Coder.OperationStrConfuses | tparse/thingsJSONCoder.py:50-51 | as written, `UPDATE` prints as `create`, like `CREATE` |
| Coder.OperationName | tparse/thingsJSONCoder.py:50-51 | corrected: `create` iff CREATE, `update` iff UPDATE |
| Coder.OperationNameInjective | tparse/thingsJSONCoder.py:50-51 | corrected names differ for different members |
| Coder.Coerce | tparse/thingsJSONCoder.py:86-89 | a true/false-looking value becomes `bool(value)`; only otherwise does a date key go through the date reader; a non-date, non-bool value is kept; only a date key can fail |
| Coder.CoerceBoolLike | tparse/thingsJSONCoder.py:86-87 | any `true`/`false` string in any case becomes `True`; booleans stay as they are |
| Coder.FalseBecomesTrue | tparse/thingsJSONCoder.py:86-87 | `'false'` is stored as `True` |
| Coder.Attributes | tparse/thingsJSONCoder.py:84-90 | every stored key is whitelisted, and the loop never raises `InvalidParams` |
| Coder.AttributesKeys | tparse/thingsJSONCoder.py:85-90 | the stored keys are exactly the lowered argument keys that are whitelisted |
| Coder.AttributesGet | tparse/thingsJSONCoder.py:84-90 | a whitelisted argument with no later argument of the same lowered key leaves its coerced value under its lowered key: a later argument overwrites an earlier one |
| Coder.AttributesStops | tparse/thingsJSONCoder.py:84-90 | an argument whose coercion raises ends the constructor with that error |
| Coder.Constructed | tparse/thingsJSONCoder.py:92-93 | a constructed record has at least one attribute |
| Coder.InvalidParamsIff | tparse/thingsJSONCoder.py:92-93 | `InvalidParams` is raised iff the loop succeeded and no lowered key is whitelisted |
| Coder.HeaderWithUnknownKey | tparse/thingsJSONCoder.py:130-144 | `TJSHeader(CREATE, james='blue')` raises `InvalidParams` |
| Coder.TypeTagsDistinct | tparse/thingsJSONCoder.py:83-159 | each kind has its own type tag |
| Coder.TitleWhitelisted | tparse/thingsJSONCoder.py:77-157 | every kind accepts `title` |
| Coder.TitleOnly | tparse/thingsJSONCoder.py:84-93 | a lone title is always accepted and stored as its coercion |
| Coder.Item.constructor | tparse/thingsJSONCoder.py:56-60 | a new item has empty id, the given operation, its kind and no attributes |
| Coder.Item.StoreArgument | tparse/thingsJSONCoder.py:85-90 | one loop turn equals `Store`: coerce and store a whitelisted argument under its lowered key, skip any other |
| Coder.Item.FillAttributes | tparse/thingsJSONCoder.py:84-90 | the loop leaves `attributes == Attributes(...)` or returns its exception; identity fields unchanged |
| Coder.NewItem | tparse/thingsJSONCoder.py:75-93 | construction succeeds iff `Constructed` does, with the same error otherwise; the fresh item has empty id, the operation, the kind and those attributes |
| Coder.Without | tparse/thingsJSONCoder.py:40 | with nothing to remove, the comprehension gives the dictionary back |
| Coder.WithoutGet | tparse/thingsJSONCoder.py:40 | the comprehension drops exactly the removed keys and keeps every other value |
| Coder.Exported | tparse/thingsJSONCoder.py:28-42 | one record per item, in the items' order |
| Coder.ExportedSpec | tparse/thingsJSONCoder.py:30-41 | each record has the item's tag and attributes; operation and id appear iff the item is an update, with its values; `reveal` iff the flag is set |
| Coder.Container.constructor | tparse/thingsJSONCoder.py:11-13 | holds the items, reveal flag off |
| Coder.Container.SetReveal | tparse/thingsJSONCoder.py:18-22 | the flag is negated and the items are unchanged |
| Coder.Container.Export | tparse/thingsJSONCoder.py:24-43 | the loop's list equals `Exported(items, reveal)` |
| Adapter.TitleItem | tparse/naturalThingsParser.py:258-268 | a `Kind(CREATE, title=v)` record is constructed with exactly its attributes, empty id and CREATE |
| Adapter.Checklist | tparse/naturalThingsParser.py:263-266 | one printed checklist item per element |
| Adapter.ChecklistTitles | tparse/naturalThingsParser.py:263-265 | the loop builds `arr` as `Checklist` |
| Adapter.ChecklistTitle | tparse/naturalThingsParser.py:265 | one element becomes the printed title-only checklist item |
| Adapter.NewProjectItem | tparse/naturalThingsParser.py:257-259 | a line whose `new-project` is present and not `''` adds a CREATE project whose only attribute is its title, coerced |
| Adapter.EmptyTodoDropped | tparse/naturalThingsParser.py:271-274 | a line of only empty, non-date values (no new project, heading or checklist) adds nothing: it is skipped or raises `InvalidParams` |
| Adapter.EmptyConstructed | tparse/thingsJSONCoder.py:84-93 | empty non-date arguments construct only empty values or raise `InvalidParams` |
| Adapter.EmptyLineDropped | tparse/naturalThingsParser.py:271-274 | the dictionary of an empty line adds no record |
| Adapter.TodoLine | tparse/naturalThingsParser.py:271-277 | without new project, heading or checklist a line adds its to-do as constructed, nothing when all values are empty, or raises the constructor's error |
| Adapter.CollectedPrefix | tparse/naturalThingsParser.py:252 | records of the first k lines come first, in line order, and a raised exception fixes the result |
| Adapter.CollectedStep | tparse/naturalThingsParser.py:252-277 | one more line appends what that line adds, or records its exception |
| Adapter.RewrittenUpToAt | tparse/naturalThingsParser.py:252-271 | while the loop is at line k, the lines before k hold their rewritten dictionaries and the others their own |
| Adapter.RewrittenAll | tparse/naturalThingsParser.py:252-277 | when no line raised, every line is rewritten |
| Adapter.RewrittenAfterFailure | tparse/naturalThingsParser.py:262-271 | when line k raises, lines up to k are rewritten, the later lines are untouched, and the loop's outcome is that of the first k+1 lines |
| Adapter.ThingsAdapter.constructor | tparse/naturalThingsParser.py:246-248 | holds the lines, with no data |
| Adapter.ThingsAdapter.ConvertLine | tparse/naturalThingsParser.py:262-268 | the line's dictionary becomes `Converted`: checklist values are replaced by printed checklist items, the heading by a printed header; its text is unchanged |
| Adapter.ThingsAdapter.AddProject | tparse/naturalThingsParser.py:257-259 | `data` gains the title-only project |
| Adapter.ThingsAdapter.AddTodo | tparse/naturalThingsParser.py:271-277 | the constructor's error leaves `data` unchanged; otherwise `data` gains the to-do unless all its values are empty |
| Adapter.ThingsAdapter.CreateLine | tparse/naturalThingsParser.py:252-277 | one loop turn: the line is rewritten to `NewParams` and keeps its text; `data` gains `Added` of `LineItem`, and its exception is returned |
| Adapter.ThingsAdapter.RewriteAt | tparse/naturalThingsParser.py:253-277 | the loop body on line k: line k is rewritten to `NewParams`, every other line keeps its dictionary, no line's text changes, and `data` gains `Added` of `LineItem` |
| Adapter.ThingsAdapter.Advance | tparse/naturalThingsParser.py:252-277 | one loop turn keeps the loop invariant: `data` is the collected records of lines up to k, exactly those lines are rewritten (`RewrittenUpTo`), and no line's text changes |
| Adapter.ThingsAdapter.CollectAll | tparse/naturalThingsParser.py:252-277 | `data` gains `Collected(lines).done`, and the exception is the first one raised; the lines are rewritten up to and including the one that raised; no line's text changes |
| Adapter.ThingsAdapter.Finish | tparse/naturalThingsParser.py:278-279 | the container of `data` is exported with the reveal flag off |
| Adapter.ThingsAdapter.Create | tparse/naturalThingsParser.py:250-279 | the lines are processed in order; `data` gains their records; the first exception is returned, otherwise `Exported(data, false)`; the lines' texts are unchanged |

## Left out

- The date library and `datetime.now()` are function parameters. `None` stands for "the library raised".
- `__split_title_date` is left out: `parse_line` never calls it.
- `send_to_things`, `CallbackURL` and the URL it would open are left out. They are I/O.
- `print` and `pprint` are left out. They only write to the console.
- The JSON text that `json.dumps` produces is left out. `Coder.Container.Export` returns the list of records that it serialises. The model also does not capture that `json.dumps` would raise on an `UPDATE` record, whose `operation` holds an enum member.
- In a block, the template line shares the block's `params` dictionary object. The model copies the value instead. Nothing reads `block.params` after `parse`, so no observable result differs.
- `__str__` of records and containers enters as the parameter `show`, because its text is Python's `repr`.
- `TJSModelItem.add_id` is left out: no code in the core calls it, and it refers to `Operation.update`, which does not exist.
- The `escapes` table is left out: the parser stores it and never reads it.
- `is ''` is modelled as equality with `''`, which is what CPython's interned empty string gives.
- `type(line) is dict` is left out: a line is never a dict, so the `continue` is dead.
- `PyStr.Lower` folds ASCII letters only.
- `Adapter.ThingsAdapter.Create`: requires the lines to be distinct objects. The same `Line` listed twice would be rewritten twice, and that aliasing is not modelled.
- `Coder.Container.Export`: the loop's reassignment `item.attributes = {…}` is not performed. The set of keys to remove is always empty, so the value it would write back equals the old one (`Coder.Without`, `Coder.WithoutGet`).
- The `make_checklist` helpers in `tests/test_encoder.py` are left out. Their names lack the `test_` prefix, so pytest never collects them. Their assertions that each stored value `is` the argument contradict the coercion (`'false'` is stored as `True`). `check_exception` is modelled as `Coder.HeaderWithUnknownKey`.

## Findings

| source | as written | input that shows it | evidently intended | confidence | as-written member | corrected member |
|---|---|---|---|---|---|---|
| tparse/thingsJSONCoder.py:50-51 | `"create" if self.CREATE else "update"` tests the member `CREATE`, which is always truthy | `str(Operation.UPDATE)` gives `"create"` | `"create"` for CREATE and `"update"` for UPDATE | high; not executed | Coder.OperationStr (Coder.OperationStrConfuses) | Coder.OperationName (Coder.OperationNameInjective) |
