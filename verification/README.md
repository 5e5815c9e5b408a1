# Content manager: scenario and template helpers

The content manager is a small desktop tool for editing the scenario and template
files of a customer-support training app. Its window is a thin shell. The work is
done by module-level helpers in `tools/content-manager-mac/content_manager_mac.py`,
and this project models those helpers:

- **Counting** the scenarios and templates in a loaded JSON payload, and flattening
  a scenario container into a list (`Shapes`).
- **Normalising text lists**: string arrays, case-insensitive de-duplication, message
  media, and list-like cell text (`StringLists`).
- **Normalising guideline categories**: heading-to-key slugging and classification
  (`CategoryKeys`), and the two note readers (`Notes`).
- **Rewriting a scenario record** into its storage form (`Records`).
- **Merging** incoming scenarios into existing ones by id (`Merge`).
- **Converting** a CSV export row into a scenario (`CsvImport`).

JSON values are the datatype `JsonValues.Json`. A Python dict is an association list
in insertion order (`Dicts`). Two host facilities are parameters of every operation
that needs them, bundled in `JsonValues.Runtime`:

- Unicode NFKC normalisation (`nfkc`);
- `json.loads` (`loads`), which may fail.

The loops of the source that build a result step by step are `method`s. Each method is
proved equal to a fold function, and the properties are lemmas about those functions.
Two kinds of loop are modelled as expressions instead, because they only compute a value:
the search over aliases in `get_obj_prop_value` is the recursive function
`Shapes.GetObjPropValue`, and the `all(...)` tests of `get_scenario_count` are quantifiers.

## Model

| member | source | states |
|---|---|---|
| JsonValues.ParseJsonText | tools/content-manager-mac/content_manager_mac.py:19-28 | blank text parses to null (no value) |
| JsonValues.PyStr | tools/content-manager-mac/content_manager_mac.py:13-16 | `str()` of an empty list is `[]` and of an empty dict is `{}`, the two texts the string-array filter drops |
| Shapes.ScenarioContainerToList | tools/content-manager-mac/content_manager_mac.py:297-308 | a list is returned as it is; a `scenarios` list is returned as it is; a `scenarios` dict gives its values in key order; anything else gives the empty list |
| Shapes.IsMessageLike | tools/content-manager-mac/content_manager_mac.py:44-48 | a value is message-like when it is a dict having any of `message_text`, `message_type`, `content` or `role` |
| Shapes.MessageLikeKeys | tools/content-manager-mac/content_manager_mac.py:44-48 | a value is message-like exactly when it is a dict and one of its keys is `message_text`, `message_type`, `content` or `role` |
| Shapes.ScenarioCount | tools/content-manager-mac/content_manager_mac.py:51-70 | None counts 0; a list made only of messages counts as one conversation, otherwise the count is the container's length; the count is 0 exactly when the container list is empty |
| Shapes.TemplateCount | tools/content-manager-mac/content_manager_mac.py:73-80 | a list counts its length, a dict its `templates` list's length, and a positive count implies one of these two shapes |
| Shapes.GetObjPropValue | tools/content-manager-mac/content_manager_mac.py:342-348 | the value of the first alias present in the dict; None for a non-dict or when no alias is present |
| StringLists.StringArray | tools/content-manager-mac/content_manager_mac.py:94-110 | at most one text per item, and no text kept is empty, `{}` or `[]` |
| StringLists.ConvertToStringArray | tools/content-manager-mac/content_manager_mac.py:94-110 | the loop returns exactly the specification's list of kept texts |
| StringLists.KeptTextsTrimmed | tools/content-manager-mac/content_manager_mac.py:106-109 | every kept text has no surrounding whitespace |
| StringLists.StringArrayIdempotent | tools/content-manager-mac/content_manager_mac.py:94-110 | converting an already converted list gives it back unchanged |
| StringLists.KeptTextsOfCleanStrings | tools/content-manager-mac/content_manager_mac.py:94-110 | a list of clean kept texts is a fixed point of the conversion |
| StringLists.Dedup | tools/content-manager-mac/content_manager_mac.py:113-125 | no output text is empty and no two output texts are equal ignoring case |
| StringLists.DedupKeys | tools/content-manager-mac/content_manager_mac.py:113-125 | the lower-cased output texts are exactly the lower-cased non-empty inputs, so nothing is lost but duplicates |
| StringLists.DedupIsFirstOccurrences | tools/content-manager-mac/content_manager_mac.py:113-125 | the output is the inputs that are the first of their case-insensitive class, in input order |
| StringLists.DedupFromInput | tools/content-manager-mac/content_manager_mac.py:113-125 | every output text is one of the inputs |
| StringLists.DedupOfUnique | tools/content-manager-mac/content_manager_mac.py:113-125 | input already free of blanks and case duplicates is returned unchanged |
| StringLists.UniqueTrimmedStringArray | tools/content-manager-mac/content_manager_mac.py:113-125 | the loop with its `seen` set returns exactly the de-duplicated cleaned string array |
| StringLists.UniqueTrimmedTrimmed | tools/content-manager-mac/content_manager_mac.py:113-125 | every returned text has no surrounding whitespace |
| StringLists.UniqueTrimmedIdempotent | tools/content-manager-mac/content_manager_mac.py:113-125 | applying the operation to its own output changes nothing |
| StringLists.UniqueTrimmedFromStringArray | tools/content-manager-mac/content_manager_mac.py:113-125 | every returned text comes from the plain string array of the same value |
| StringLists.UniqueTrimmedOfCleanKeeps | tools/content-manager-mac/content_manager_mac.py:113-125 | a kept clean input text survives, up to case |
| StringLists.MessageMedia | tools/content-manager-mac/content_manager_mac.py:351-369 | no media text is empty |
| StringLists.NormalizeMessageMedia | tools/content-manager-mac/content_manager_mac.py:351-369 | the loop returns exactly the specified media list |
| StringLists.NonBlankItems | tools/content-manager-mac/content_manager_mac.py:363-366 | the inner loop over a nested list returns exactly its non-blank cleaned texts |
| StringLists.MediaOfTrimmed | tools/content-manager-mac/content_manager_mac.py:356-368 | every media text has no surrounding whitespace |
| StringLists.PlainMediaPassThrough | tools/content-manager-mac/content_manager_mac.py:356-368 | when no item looks like a bracketed list, the media are just the non-blank cleaned items |
| StringLists.TrimmedNonBlank | tools/content-manager-mac/content_manager_mac.py:139-144 | no quoted group kept is blank |
| StringLists.SplitParts | tools/content-manager-mac/content_manager_mac.py:146-150 | no fallback part kept is empty |
| StringLists.ListLikeText | tools/content-manager-mac/content_manager_mac.py:128-150 | blank text or `[]` gives no items, and no item is ever empty |
| StringLists.ParseListLikeText | tools/content-manager-mac/content_manager_mac.py:128-150 | the method returns exactly the specified list |
| CategoryKeys.DropNonAlnumPrefix | tools/content-manager-mac/content_manager_mac.py:157 | the result is a suffix of the input that starts with a letter or digit (or is empty) and is shorter whenever the input starts with anything else |
| CategoryKeys.DropKeepsAlnums | tools/content-manager-mac/content_manager_mac.py:157 | every character dropped is neither a letter nor a digit, so the letters and digits of the key are all kept, in order |
| CategoryKeys.ReplaceAmp | tools/content-manager-mac/content_manager_mac.py:158 | no `&` is left; text without `&` is unchanged; a lone `&` becomes `and`; a first character that is not `&` stays first |
| CategoryKeys.ReplaceAmpAppend | tools/content-manager-mac/content_manager_mac.py:158 | the replacement works character by character: replacing in a concatenation is concatenating the replacements |
| CategoryKeys.Collapse | tools/content-manager-mac/content_manager_mac.py:159 | only letters, digits and single underscores remain, and a leading letter or digit is kept |
| CategoryKeys.DropRun | tools/content-manager-mac/content_manager_mac.py:157 | a whole leading run of characters other than letters and digits is dropped, up to the first letter or digit |
| CategoryKeys.CollapseSeparates | tools/content-manager-mac/content_manager_mac.py:159 | where the underscores go: a word, a maximal run of other characters, then the rest become the word, exactly one `_`, and the collapsed rest |
| CategoryKeys.CollapseKeepsAlnums | tools/content-manager-mac/content_manager_mac.py:159 | the letters and digits survive in order; the result is no longer than the input and empty exactly when the input is |
| CategoryKeys.StripAlnums | tools/content-manager-mac/content_manager_mac.py:159 | stripping the outer underscores removes no letter or digit |
| CategoryKeys.SlugOfKeepsAlnums | tools/content-manager-mac/content_manager_mac.py:157-159 | the slug of a key has exactly the letters and digits of the key after `&` is replaced, and exactly the key's own when it has no `&` |
| CategoryKeys.Slug | tools/content-manager-mac/content_manager_mac.py:156-159 | the slug is empty or a run of lower-case words joined by single underscores |
| CategoryKeys.SlugKeepsAlnums | tools/content-manager-mac/content_manager_mac.py:156-159 | for a heading without `&`, the slug has exactly the letters and digits of the lower-cased normalised heading, in order |
| CategoryKeys.SlugOfKeepsWords | tools/content-manager-mac/content_manager_mac.py:157-159 | words (lower-case letters and digits) that occur in order in a key still occur in that order in its slug |
| CategoryKeys.SlugKeepsWords | tools/content-manager-mac/content_manager_mac.py:156-159 | words that occur in order in the lower-cased normalised heading occur in that order in its slug, so the search patterns see them |
| CategoryKeys.Classify | tools/content-manager-mac/content_manager_mac.py:160-174 | the key is never empty, and it is either the slug itself or one of the eight canonical categories |
| CategoryKeys.CategoryKey | tools/content-manager-mac/content_manager_mac.py:153-174 | a blank heading gives `important`; any heading gives a canonical category or a well-formed slug |
| CategoryKeys.ClassifyFirstMatch | tools/content-manager-mac/content_manager_mac.py:160-173 | the patterns are tried in order: each rule gives its category when it matches and every earlier rule fails (`send.*cs`, `escalat`, `^tone$`, `template`, the four don'ts patterns, `drive.*purchase`, `promo`) |
| CategoryKeys.ClassifyImportantIff | tools/content-manager-mac/content_manager_mac.py:160-174 | the key is `important` exactly when the slug is empty or is `important` itself |
| CategoryKeys.CategoryKeySendToCs | tools/content-manager-mac/content_manager_mac.py:153-161 | an ASCII heading whose lower-cased text has `send` followed later by `cs` gets `send_to_cs` |
| CategoryKeys.SendBeforeEscalate | tools/content-manager-mac/content_manager_mac.py:153-163 | when such a heading also mentions `escalat`, its slug still matches `escalat`, yet `send_to_cs` wins because that rule comes first |
| CategoryKeys.SendEscalationsToCs | tools/content-manager-mac/content_manager_mac.py:153-163 | the heading "Send escalations to CS" gets `send_to_cs`, although its slug also matches the escalation pattern |
| CategoryKeys.ClassifyNoPattern | tools/content-manager-mac/content_manager_mac.py:160-174 | a slug that no pattern matches is kept as the key |
| CategoryKeys.ClassifyCanonical | tools/content-manager-mac/content_manager_mac.py:160-174 | each canonical category classifies to itself |
| CategoryKeys.CanonicalIsSlug | tools/content-manager-mac/content_manager_mac.py:160-173 | each canonical category is a well-formed slug |
| CategoryKeys.SlugOfSlug | tools/content-manager-mac/content_manager_mac.py:156-159 | slugging a slug gives it back |
| CategoryKeys.CategoryKeyIdempotent | tools/content-manager-mac/content_manager_mac.py:153-174 | normalising a normalised key changes nothing |
| Notes.NonEmpty | tools/content-manager-mac/content_manager_mac.py:206 | the filter drops exactly the empty categories and keeps every category that has notes |
| Notes.CompanyNotes | tools/content-manager-mac/content_manager_mac.py:183-206 | blank notes give no categories, and no category returned is empty |
| Notes.ParseCompanyNotesToCategories | tools/content-manager-mac/content_manager_mac.py:183-206 | the line loop returns exactly the specified categories |
| Notes.ReadOne | tools/content-manager-mac/content_manager_mac.py:190-205 | one iteration of the line loop reads the line exactly as specified: blank lines skipped, a `#` heading opens its category, a bullet is filed under the current one |
| Notes.ReadLinesKeys | tools/content-manager-mac/content_manager_mac.py:187-205 | while reading lines, the keys stay distinct and well formed and the current heading is always a key |
| Notes.CompanyNotesShape | tools/content-manager-mac/content_manager_mac.py:183-206 | the categories are non-empty, have distinct keys, and every key is canonical or a slug |
| Notes.HeadingOf | tools/content-manager-mac/content_manager_mac.py:226-228 | a heading captured from a note is non-empty and spans one line |
| Notes.ScenarioNotes | tools/content-manager-mac/content_manager_mac.py:209-213 | notes that are not a dict give no categories |
| Notes.FileItemHeading | tools/content-manager-mac/content_manager_mac.py:226-232 | a `# heading` item files nothing: every category keeps its notes, the current one included, and the heading's category is opened, added last when new |
| Notes.FileItemNote | tools/content-manager-mac/content_manager_mac.py:233 | any other non-blank item is appended to the current category, and no other category changes |
| Notes.FileEntriesNoHeadings | tools/content-manager-mac/content_manager_mac.py:217-233 | no note filed by the first pass is a `# heading` |
| Notes.SortImportantNoHeadings | tools/content-manager-mac/content_manager_mac.py:235-248 | sorting the clean `important` notes brings in no heading |
| Notes.ScenarioNotesNoHeadings | tools/content-manager-mac/content_manager_mac.py:209-257 | no note in the result is a `# heading`: headings only open categories |
| Notes.FileItemsInto | tools/content-manager-mac/content_manager_mac.py:222-233 | the item loop files exactly as specified and keeps the key order list equal to the dict's keys |
| Notes.SortOne | tools/content-manager-mac/content_manager_mac.py:237-247 | one important note is moved, dropped or kept as specified, and the key order still matches the dict |
| Notes.SortImportantNotes | tools/content-manager-mac/content_manager_mac.py:235-248 | the sorting loop returns exactly the specified notes, keeping the key order list in step |
| Notes.CleanCategories | tools/content-manager-mac/content_manager_mac.py:250-257 | the clean pass returns exactly the specified categories |
| Notes.NormalizeScenarioNotes | tools/content-manager-mac/content_manager_mac.py:209-257 | the whole routine returns exactly the specified categories |
| Notes.AppendToGet | tools/content-manager-mac/content_manager_mac.py:233 | appending a note extends that category by it and leaves every other category alone |
| Notes.FileEntriesKeys | tools/content-manager-mac/content_manager_mac.py:217-233 | every category key filed is canonical or a slug |
| Notes.FileEntriesClean | tools/content-manager-mac/content_manager_mac.py:217-233 | every filed note is clean |
| Notes.SortItemsKeep | tools/content-manager-mac/content_manager_mac.py:244-247 | no kept important note is `**` or a customer-support note |
| Notes.SortItemKeep | tools/content-manager-mac/content_manager_mac.py:237-247 | one step keeps the kept notes as they were, or adds the cleaned note when it is neither `**` nor for customer support |
| Notes.SortItemClean | tools/content-manager-mac/content_manager_mac.py:237-247 | under a stable cleaning, one step keeps every category's notes clean |
| Notes.SortItemsSends | tools/content-manager-mac/content_manager_mac.py:239-243 | every customer-support note is filed under `send_to_cs` |
| Notes.SortImportantImportant | tools/content-manager-mac/content_manager_mac.py:235-248 | after sorting, `important` holds no `**` and no customer-support note |
| Notes.SortImportantSends | tools/content-manager-mac/content_manager_mac.py:235-248 | every customer-support note from `important` ends up under `send_to_cs` |
| Notes.CleanKeysDistinct | tools/content-manager-mac/content_manager_mac.py:250-257 | the cleaned categories have distinct keys |
| Notes.CleanKeysHas | tools/content-manager-mac/content_manager_mac.py:250-257 | a key appears after cleaning if and only if it is in the key order, in the notes, and its de-duplicated list is non-empty |
| Notes.CleanKeysGet | tools/content-manager-mac/content_manager_mac.py:250-257 | a cleaned category holds the de-duplicated notes of that key |
| Notes.ScenarioNotesShape | tools/content-manager-mac/content_manager_mac.py:209-257 | the result has non-empty categories, distinct well-formed keys, and note lists free of blanks and case duplicates |
| Notes.ImportantCleared | tools/content-manager-mac/content_manager_mac.py:235-257 | the final `important` category holds no `**` and no customer-support note |
| Notes.SentToCs | tools/content-manager-mac/content_manager_mac.py:217-257 | a customer-support note filed under `important` reaches `send_to_cs` in the result, up to case |
| Notes.CustomerSupportKept | tools/content-manager-mac/content_manager_mac.py:239-243 | a customer-support note is never a text the string-array filter drops |
| Records.NotesJson | tools/content-manager-mac/content_manager_mac.py:291 | the notes object keeps the categories' keys in order |
| Records.WithPanel | tools/content-manager-mac/content_manager_mac.py:279-280 | `rightPanel` is set to the collected panel only when that panel is non-empty; other fields are untouched |
| Records.Rekey | tools/content-manager-mac/content_manager_mac.py:282-292 | the new key holds the value, the legacy key is gone, and all other fields are unchanged |
| Records.StorageForm | tools/content-manager-mac/content_manager_mac.py:260-294 | the storage form is always a dict, and the empty dict for a non-dict input |
| Records.MoveLegacyFields | tools/content-manager-mac/content_manager_mac.py:265-278 | the five moves produce exactly the specified record and panel |
| Records.NormalizeScenarioRecordForStorage | tools/content-manager-mac/content_manager_mac.py:260-294 | the method returns exactly the specified storage form |
| Records.MoveSlotEffect | tools/content-manager-mac/content_manager_mac.py:269-278 | a move fills an empty panel slot from the record and removes the record field; an occupied slot leaves both as they were |
| Records.MoveLegacyKeeps | tools/content-manager-mac/content_manager_mac.py:265-278 | panel entries already present are never overwritten, and fields that are not legacy are never touched |
| Records.MoveLegacySource | tools/content-manager-mac/content_manager_mac.py:269-270 | `source` moves into the panel unless the panel already has it |
| Records.MoveLegacyBrowsing | tools/content-manager-mac/content_manager_mac.py:271-274 | `browsingHistory` comes from the panel, else the camel-case field, else the snake-case field |
| Records.MoveLegacyOrders | tools/content-manager-mac/content_manager_mac.py:275-276 | `orders` moves into the panel unless the panel already has it |
| Records.MoveLegacyTemplates | tools/content-manager-mac/content_manager_mac.py:277-278 | `templatesUsed` becomes the panel's `templates` unless the panel already has it |
| Records.CleanFieldsKeeps | tools/content-manager-mac/content_manager_mac.py:282-292 | the list and notes rewrites touch no other field |
| Records.CleanFieldsDrops | tools/content-manager-mac/content_manager_mac.py:282-292 | the legacy names `blocklistedWords`, `escalationPreferences` and `guidelines` are removed |
| Records.CleanFieldsValues | tools/content-manager-mac/content_manager_mac.py:282-292 | each rewritten list is the de-duplicated list of its new key or else its legacy key, and the notes are the normalised notes or else guidelines |
| Records.StorageKeepsOtherFields | tools/content-manager-mac/content_manager_mac.py:260-294 | every field that is neither legacy nor rewritten keeps its value |
| Records.StorageDropsLegacyNames | tools/content-manager-mac/content_manager_mac.py:282-292 | the stored record carries no legacy list or guideline field |
| Records.StorageLists | tools/content-manager-mac/content_manager_mac.py:282-291 | the stored lists and notes are the normalised forms of their sources |
| Records.StoragePanelWins | tools/content-manager-mac/content_manager_mac.py:265-280 | an entry of the record's own panel survives into the stored panel unchanged |
| Records.NothingCollected | tools/content-manager-mac/content_manager_mac.py:279-280 | when nothing is collected, the input had no panel entries and its `rightPanel` is left as it was |
| Records.StoredPanel | tools/content-manager-mac/content_manager_mac.py:265-280 | the stored panel holds exactly the collected entries |
| Records.StorageLeavesLegacy | tools/content-manager-mac/content_manager_mac.py:265-278 | a legacy field stays at the top level of the stored record exactly when its panel slot was already taken, and is gone otherwise |
| Records.StorageMovesIntoPanel | tools/content-manager-mac/content_manager_mac.py:265-280 | the stored panel's source, orders, templates and browsing history come from the panel first, then from the legacy fields |
| Merge.IdList | tools/content-manager-mac/content_manager_mac.py:314-315 | one id per record, in order |
| Merge.IndexOf | tools/content-manager-mac/content_manager_mac.py:313-317 | every indexed id points at a position holding that id |
| Merge.IndexOfFirst | tools/content-manager-mac/content_manager_mac.py:313-317 | an id is indexed if and only if it is non-empty and present, and it points at its first occurrence |
| Merge.IndexById | tools/content-manager-mac/content_manager_mac.py:313-317 | the index loop builds exactly the first-occurrence index |
| Merge.SpreadPanel | tools/content-manager-mac/content_manager_mac.py:330 | spreading a panel fails exactly for a truthy non-dict, and otherwise gives the dict's entries |
| Merge.Combined | tools/content-manager-mac/content_manager_mac.py:328-330 | the combination fails exactly when one of the panels cannot be spread, and otherwise is a dict |
| Merge.CombinedFields | tools/content-manager-mac/content_manager_mac.py:328 | outside the panel, the incoming record's value wins over the base's |
| Merge.CombinedPanel | tools/content-manager-mac/content_manager_mac.py:329-330 | inside the panel, the incoming entry wins over the base's |
| Merge.StoredMergeFields | tools/content-manager-mac/content_manager_mac.py:327-331 | after normalising the merge, plain fields take the incoming value, else the base's |
| Merge.StoredMergePanel | tools/content-manager-mac/content_manager_mac.py:327-331 | after normalising the merge, panel entries take the incoming value, else the base's |
| Merge.Updated | tools/content-manager-mac/content_manager_mac.py:331-332 | a replacement keeps the result length and adds one to the update count |
| Merge.Appended | tools/content-manager-mac/content_manager_mac.py:334-337 | an append grows the result by one and adds one to the added count |
| Merge.Step | tools/content-manager-mac/content_manager_mac.py:322-337 | each incoming record adds one to exactly one of the two counters |
| Merge.Start | tools/content-manager-mac/content_manager_mac.py:312-317 | the result starts as the normalised existing records, correctly indexed, with zero counts |
| Merge.StorageKeepsIds | tools/content-manager-mac/content_manager_mac.py:312 | storage normalisation never changes a record's id |
| Merge.MergedKeepsId | tools/content-manager-mac/content_manager_mac.py:324-331 | a merged record keeps the id it was found under |
| Merge.StepIndexed | tools/content-manager-mac/content_manager_mac.py:322-337 | after each step the index still maps each id to its first position |
| Merge.MergeIndexed | tools/content-manager-mac/content_manager_mac.py:322-337 | the index stays correct across the whole loop |
| Merge.MergeCounts | tools/content-manager-mac/content_manager_mac.py:319-337 | updated plus added grows by the number of incoming records, and the result grows by the added count |
| Merge.StepMergesFirst | tools/content-manager-mac/content_manager_mac.py:324-333 | an incoming record whose id is held merges into the first record with that id, and only there |
| Merge.StepAppends | tools/content-manager-mac/content_manager_mac.py:334-337 | an incoming record with an empty or unknown id is appended in its normalised form |
| Merge.HeldIds | tools/content-manager-mac/content_manager_mac.py:313-317 | an id is held exactly when it is non-empty and belongs to an existing record |
| Merge.NewIds | tools/content-manager-mac/content_manager_mac.py:334-337 | the ids appended, in order: each is blank or was not held before, and no non-blank id is appended twice |
| Merge.StepLayout | tools/content-manager-mac/content_manager_mac.py:322-337 | a merge leaves the ids, the index and the added count alone; an append adds the id at the end, indexes it when non-blank and adds one |
| Merge.MergeLayout | tools/content-manager-mac/content_manager_mac.py:322-337 | across the loop, the result's ids are the starting ids followed by the ids of the records appended, in incoming order, and the added count is their number |
| Merge.MergeByIdLayout | tools/content-manager-mac/content_manager_mac.py:311-339 | the result's ids are the existing ids followed by the incoming ids that were blank or new, in incoming order; the added count is their number |
| Merge.MergeByIdPositions | tools/content-manager-mac/content_manager_mac.py:311-339 | every existing record keeps its position and its id, and the positions after them hold the appended ids in incoming order |
| Merge.NoIdIsBlank | tools/content-manager-mac/content_manager_mac.py:324 | a record with no `id` field has the blank id |
| Merge.IdlessAppended | tools/content-manager-mac/content_manager_mac.py:322-337 | a record with no `id` is always appended in its storage form, and the index and update count are unchanged |
| Merge.MergeByIdTotals | tools/content-manager-mac/content_manager_mac.py:311-339 | updated plus added equals the number of incoming records, the result grows by the added count, and the index is correct |
| Merge.NormalizeAll | tools/content-manager-mac/content_manager_mac.py:312 | each existing record is replaced by its normalised form |
| Merge.MergeRecords | tools/content-manager-mac/content_manager_mac.py:327-331 | the method returns exactly the specified merged record |
| Merge.MergeInto | tools/content-manager-mac/content_manager_mac.py:326-333 | the merge branch replaces the indexed record with the merge, or fails as specified |
| Merge.MergeOne | tools/content-manager-mac/content_manager_mac.py:322-337 | one loop iteration performs exactly the specified step |
| Merge.MergeLoop | tools/content-manager-mac/content_manager_mac.py:322-337 | the loop performs exactly the specified fold |
| Merge.MergeScenariosById | tools/content-manager-mac/content_manager_mac.py:311-339 | the report is the specified result and counts, and the routine fails exactly when the specification does |
| CsvImport.DictItems | tools/content-manager-mac/content_manager_mac.py:377-379 | only dict entries are visited |
| CsvImport.OverDictsIsMap | tools/content-manager-mac/content_manager_mac.py:377-394 | one output per dict entry of the input, in order, each converted by the per-entry function |
| CsvImport.LowerIsLowerCase | tools/content-manager-mac/content_manager_mac.py:386 | a lower-cased message type has no upper-case letter |
| CsvImport.MediaListClean | tools/content-manager-mac/content_manager_mac.py:384 | the message media are a list of non-blank trimmed texts |
| CsvImport.MessageShape | tools/content-manager-mac/content_manager_mac.py:380-393 | a message has media, text and a lower-case type first; `date_time` and `message_id` appear exactly when non-blank, trimmed |
| CsvImport.ConvertConversation | tools/content-manager-mac/content_manager_mac.py:373-394 | the conversation loop returns exactly the specified messages |
| CsvImport.Browsing | tools/content-manager-mac/content_manager_mac.py:396-412 | at most one entry per product viewed |
| CsvImport.ViewedShape | tools/content-manager-mac/content_manager_mac.py:402-411 | a product is skipped exactly when both its name and link are blank; the item is the name, else the link; link and time are added only when non-blank |
| CsvImport.BrowsingShown | tools/content-manager-mac/content_manager_mac.py:396-412 | every browsing entry is a dict whose first field is a non-empty `item` |
| CsvImport.ConvertBrowsing | tools/content-manager-mac/content_manager_mac.py:396-412 | the browsing loop returns exactly the specified history |
| CsvImport.PriceAlias | tools/content-manager-mac/content_manager_mac.py:426 | the price is `product_price` when present, else `price` |
| CsvImport.ProductShape | tools/content-manager-mac/content_manager_mac.py:425-431 | a product has its name first, the raw price only when its text is non-blank, and the link only when non-blank |
| CsvImport.OrderShape | tools/content-manager-mac/content_manager_mac.py:433-442 | an order has number, date and one item per dict product; link and raw total appear only when non-blank |
| CsvImport.ConvertProducts | tools/content-manager-mac/content_manager_mac.py:420-432 | the product loop returns exactly the specified items |
| CsvImport.ConvertOrders | tools/content-manager-mac/content_manager_mac.py:414-443 | the order loop returns exactly the specified orders |
| CsvImport.PanelShape | tools/content-manager-mac/content_manager_mac.py:445-455 | the panel has the website source first; browsing history and orders appear only when non-empty |
| CsvImport.ScenarioKeys | tools/content-manager-mac/content_manager_mac.py:459-470 | a scenario has exactly the ten fields, in the source's order |
| CsvImport.ListCellClean | tools/content-manager-mac/content_manager_mac.py:468-469 | escalation topics and blocklisted words are lists of kept texts |
| CsvImport.CsvScenarioShape | tools/content-manager-mac/content_manager_mac.py:372-470 | a row gives a ten-field scenario with the trimmed send id, the built panel, and text lists for escalations and blocklisted words |
| CsvImport.BuildPanel | tools/content-manager-mac/content_manager_mac.py:445-455 | the method builds exactly the specified panel |
| CsvImport.ConvertListCell | tools/content-manager-mac/content_manager_mac.py:468-469 | the method returns exactly the specified list |
| CsvImport.ConvertCsvRowToScenario | tools/content-manager-mac/content_manager_mac.py:372-470 | the method returns exactly the specified scenario |
| Text.LowerTrim | tools/content-manager-mac/content_manager_mac.py:156 | lower-casing and stripping commute, so `.strip().lower()` is the same in either order |
| Dicts.Overlay | tools/content-manager-mac/content_manager_mac.py:328 | in `{**a, **b}`, every key reads from `b` when present, else from `a`, and `a`'s keys keep their order first |
| Dicts.Put | tools/content-manager-mac/content_manager_mac.py:283 | assignment sets the key, keeps an existing key's place, and appends a new key |
| Dicts.Del | tools/content-manager-mac/content_manager_mac.py:284 | `pop` removes the key and changes no other |
| Dicts.SetDefault | tools/content-manager-mac/content_manager_mac.py:240 | `setdefault` adds a missing key last and leaves a present one alone |

## Left out

- The Tk application class and `main`. They are GUI and process code: dialogs, file pickers, message boxes.
- `read_json_object`, `write_json_object` and `resolve_default_working_folder`. They are file-system I/O.
- Unicode NFKC and `json.loads` are not modelled. Each operation takes them as the functions `nfkc` and `loads` of a `Runtime` value.
- Floating-point JSON numbers are not modelled. Numbers are integers.
- The text of `str()` is only approximated by `PyRepr` for nested lists and dicts. Python's escaping rules are not modelled.
- `.lower()` and the `re.I` flag are modelled on ASCII letters only.
- `strip()` uses Python's whitespace set for the characters modelled. Other Unicode spaces are not modelled.
- `convert_to_string_array` on an arbitrary object (the `vars(value)` branch) is not modelled. JSON values never take it.
- `deepcopy` has no counterpart. Values are immutable, so the copy is implicit.
- JSON objects with a repeated key are outside the modelled domain. `json.loads` keeps one entry per key, while the association lists keep every occurrence. So for such an object the entry counts and lists of `Shapes.ScenarioCount`, `Shapes.ScenarioContainerToList`, `StringLists.ItemsOf` and `Notes.FileEntries` can differ from Python's. For example, a `scenarios` object with the key `a` twice counts 2 here and 1 in Python. Lookups read the last occurrence, as `json.loads` does.
- JsonValues.ParseJsonText: it returns no value for blank text, a failed parse and the literal `null` alike. The source cannot tell these apart either.
- Merge.MergeById: existing and incoming are sequences. A `None` argument, which the source reads as `[]`, is passed as `[]`.
- Merge.MergeById: a truthy `rightPanel` that is not a dict makes the source raise `TypeError`. The model returns no result (`None`) for that case.
- Merge.StoredMergeFields: the merge is stated for any normaliser function value. The storage-specific properties are proved for the storage form `Storage(rt)`.
- CsvImport.CsvScenarioShape: it does not state the length of the conversation. That is stated for any fold over dicts by `OverDictsIsMap`.
- StringLists.StringArrayIdempotent: it holds only for runtimes whose cleaning is stable (`CleanIsStable`). The same premise applies to `UniqueTrimmedIdempotent`, `SortItemsClean`, `ImportantCleared`, `SentToCs` and `ScenarioNotesNoHeadings`. Real NFKC has this property, but the model takes it as a premise because NFKC itself is a parameter.
- CategoryKeys.CategoryKeyIdempotent: it assumes the runtime's normalisation leaves ASCII text alone (`KeepsAscii`), which real NFKC does.
- Notes.HeadingOf: it is exact only for text with no surrounding whitespace. That is the only text the source matches the heading pattern against.
