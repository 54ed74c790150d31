# ru-minetools: a verified model of the translation core

ru-minetools translates Minecraft mods into Russian. It opens a mod archive
(`.jar`) and finds the English language files (`assets/<mod>/lang/en_us.json`)
and the Patchouli guide books (`patchouli_books/.../en_us/...`). It picks the
strings worth translating and sends them, batched, to a machine translation
service. Translations are remembered in a cache. The Russian files
(`ru_ru.json`, `.../ru_ru/...`) are written back into the archive. Around this
pipeline sit a self-updater that downloads newer releases, a bot
configuration file checked for its required fields, a resource-path helper,
and a release script that bumps the version constant.

This project models that core in Dafny and proves what each part promises:

- `simple_jar.dfy` (`SimpleJar`): the JSON side of `translate_json_file` in
  `src/translate_jar_simple.py`. It covers the string filter, the string
  count, and the walks that collect the strings and write them back.
- `simple_batch.dfy` (`SimpleBatch`): `translate_batch` with its
  process-wide cache, `translate_to`, and the batch loop of
  `translate_json_file`.
- `simple_archive.dfy` (`SimpleArchive`): `analyze_jar_files`, which sorts
  archives into four lists. It also covers the entry-name tests and the
  output names of `translate_jar`.
- `optimized_jar.dfy` (`OptimizedJar`): `src/translate_jar_optimized.py`. It
  covers the prefilter, the length-bounded batches, the two-level cache (a
  memory dict over a table) and `batch_translate_optimized`.
- `optimized_json.dfy` (`OptimizedJson`): the string sweep, the dictionary
  translation of lang and Patchouli files, and their Russian paths.
- `enhanced.dfy` (`Enhanced`): `src/enhanced_translator.py`. It covers the
  stricter filter, the mod context, the terminology dictionary, and single
  and batch translation with the context prefix.
- `updater.dfy` (`Updater`): the decisions of `src/modern_updater.py`. These
  are the version comparison, the asset choice, the file names, and the two
  flags that guard the update process and the update dialog.
- `config.dfy` (`Config`): `SimpleConfig` in `src/simple_config.py`. It
  covers validation, lazy loading and caching, and the status report.
- `resource_paths.dfy` (`ResourcePaths`): `src/utils.py`. It covers the walk
  up to the project root and the choice between the two candidate paths.
- `releases.dfy` (`Releases`): `update_version` in
  `scripts/create_releases.py`.
- Shared definitions:
  - `base.dfy` (`Base`): option and reply types, and the scatter and selection
    helpers on sequences.
  - `strings.dfy` (`Strings`): Python's `strip`, `split`, `join`, `find`,
    `replace`, `lower` and `upper`.
  - `json.dfy` (`JsonTree`): JSON values as in section 3 of RFC 8259 (an
    object is its list of members in file order).

The translation service is a function from a request and a language to an
answer or a failure (`Base.Provider`). A raised exception is the failure.
The md5 key function is a parameter. The SQLite table is a map. The
filesystem is a map or a presence predicate. Code that loops or updates
state in place is written as methods with loop invariants and as classes.
Each method is proved equal to a specification function, and the
properties are proved about that function.

## Model

| member | source | states |
|---|---|---|
| SimpleJar.Clean | src/translate_jar_simple.py:310 | a cleaned translation holds no `"` (each is replaced by `''`) |
| SimpleJar.CountStringsBound | src/translate_jar_simple.py:397-415 | `count_strings_in_json` of an object never exceeds its number of string leaves, and equals it when no array sits directly in an array |
| SimpleJar.CountMembersBound | src/translate_jar_simple.py:403-413 | the same bound for the members of one object |
| SimpleJar.CountListItemsBound | src/translate_jar_simple.py:408-413 | the same bound for the items of one array |
| SimpleJar.NestedArrayIgnored | src/translate_jar_simple.py:408-413 | a string in an array inside an array is a leaf but is not counted |
| SimpleJar.CollectTextsAreLeaves | src/translate_jar_simple.py:426-446 | `collect_strings` of an object or array gathers exactly its string leaves, in document order |
| SimpleJar.CollectMembersTexts | src/translate_jar_simple.py:428-435 | the same for the members of one object |
| SimpleJar.CollectItemsTexts | src/translate_jar_simple.py:436-443 | the same for the items of one array |
| SimpleJar.FirstIndex | src/translate_jar_simple.py:506 | `string_paths.index(p)` is the first position holding `p` |
| SimpleJar.Lookup | src/translate_jar_simple.py:505-509 | a path that was not collected keeps its text; otherwise the output at the path's first position is written |
| SimpleJar.ApplySameShape | src/translate_jar_simple.py:497-532 | `apply_translations` keeps the document's shape: same keys, same array lengths, same non-string values |
| SimpleJar.ApplyMembersSameShape | src/translate_jar_simple.py:499-514 | the same for the members of one object |
| SimpleJar.ApplyItemsSameShape | src/translate_jar_simple.py:515-530 | the same for the items of one array |
| SimpleJar.ApplyCollect | src/translate_jar_simple.py:426-532 | walking the translated document finds the same paths, each carrying the text written for it |
| SimpleJar.ApplyMembersCollect | src/translate_jar_simple.py:499-514 | the same for the members of one object |
| SimpleJar.ApplyItemsCollect | src/translate_jar_simple.py:515-530 | the same for the items of one array |
| SimpleJar.DistinctPathsOwnOutput | src/translate_jar_simple.py:497-534 | with distinct paths, the k-th string becomes the k-th output, or keeps its text when the run stopped before producing it |
| SimpleJar.CollidingPathsShareOutput | src/translate_jar_simple.py:430-506 | key `"a.b"` and key `"b"` inside `"a"` share the path `a.b`, so both receive the first one's output |
| SimpleJar.LookupAsWritten | src/translate_jar_simple.py:505-509 | as written, the lookup fails (an `IndexError` that the `except ValueError` does not catch) exactly when the path's first position has no output |
| SimpleJar.AsWrittenAgrees | src/translate_jar_simple.py:497-532 | with an output for every collected path, the code as written and the corrected walk give the same document |
| SimpleJar.MembersAsWrittenAgree | src/translate_jar_simple.py:499-514 | the same for the members of one object |
| SimpleJar.ItemsAsWrittenAgree | src/translate_jar_simple.py:515-530 | the same for the items of one array |
| SimpleJar.StopBeforeFirstBatchRaises | src/translate_jar_simple.py:462-509 | a stop before the first batch leaves no outputs; the code as written then raises on the first string, while the corrected walk keeps the document |
| SimpleJar.ChangedCount | src/translate_jar_simple.py:537 | the number of changed strings is at most the length of either list, and is 0 exactly when the compared prefixes agree |
| SimpleBatch.WarningIgnoresCase | src/translate_jar_simple.py:315-328 | the warning kind depends only on the lower-cased message; only the generic warning carries the message text |
| SimpleBatch.KindOf | src/translate_jar_simple.py:246-274 | a string is passed back exactly when it is blank, Cyrillic or technical; it is a hit exactly when it is not skipped and its key is cached, and a hit carries the cached value |
| SimpleBatch.KindsNonBlank | src/translate_jar_simple.py:247-249 | only non-blank strings are hits or misses |
| SimpleBatch.Pre | src/translate_jar_simple.py:248-272 | after the scan each position holds the cached value on a hit and the string itself otherwise |
| SimpleBatch.Misses | src/translate_jar_simple.py:274 | `uncached_indices` is increasing, in range, and holds only misses |
| SimpleBatch.MissTexts | src/translate_jar_simple.py:273 | `uncached_texts` holds the text at each uncached index |
| SimpleBatch.MissesExactly | src/translate_jar_simple.py:270-274 | every miss position is recorded in `uncached_indices`, and nothing else is |
| SimpleBatch.CountsBounded | src/translate_jar_simple.py:269-342 | hits plus misses never exceed the number of non-blank strings |
| SimpleBatch.PerString | src/translate_jar_simple.py:297-305 | the fallback translates each string on its own and keeps the ones whose call raises |
| SimpleBatch.AskBatch | src/translate_jar_simple.py:286-305 | an answered request gives exactly one part per uncached string |
| SimpleBatch.Request | src/translate_jar_simple.py:286-305 | the joined request with its per-string fallback answers `AskBatch` |
| SimpleBatch.RunBatch | src/translate_jar_simple.py:238-356 | `translate_batch` returns one result per input |
| SimpleBatch.NonMissKeepsScan | src/translate_jar_simple.py:308-336 | positions that are not misses keep what the scan wrote |
| SimpleBatch.SkippedUnchanged | src/translate_jar_simple.py:247-263 | blank, Cyrillic and technical strings come back unchanged |
| SimpleBatch.HitFromCache | src/translate_jar_simple.py:266-269 | a cache hit yields exactly the stored value |
| SimpleBatch.MissFilled | src/translate_jar_simple.py:308-312 | after an answered request, the j-th miss receives the cleaned j-th answer, which holds no `"` |
| SimpleBatch.MissCached | src/translate_jar_simple.py:308-311 | after an answered request, the cache maps the j-th miss's key to its cleaned answer, unless a later miss has the same key |
| SimpleBatch.RunBatchAnswered | src/translate_jar_simple.py:286-356 | an answered request scatters the cleaned answers to the miss positions, caches them, and reports the hits, the misses as new translations and no error |
| SimpleBatch.RunBatchRaised | src/translate_jar_simple.py:314-346 | a raised request keeps the scan's results and the cache, and reports 0 new translations with the classified warning |
| SimpleBatch.FailureKeepsOriginals | src/translate_jar_simple.py:334-346 | when the request raises, every uncached string comes back as it was, nothing is cached and the error is reported |
| SimpleBatch.StatsBounded | src/translate_jar_simple.py:339-356 | `total_strings` is the number of non-blank inputs and `cache_hits + new_translations <= total_strings`; a warning is given exactly on an error |
| SimpleBatch.MissKeysFresh | src/translate_jar_simple.py:265-274 | no miss key is already cached |
| SimpleBatch.CacheOnlyGrows | src/translate_jar_simple.py:308-311 | a batch only adds keys; every cached entry keeps its value |
| SimpleBatch.RepeatNeedsNoRequest | src/translate_jar_simple.py:265-312 | after an answered request, the same batch again has no misses |
| SimpleBatch.NoMissesIffNoneMissing | src/translate_jar_simple.py:277 | nothing is sent exactly when no string is a miss |
| SimpleBatch.TranslateOneOutcomes | src/translate_jar_simple.py:359-395 | `translate_to` answers the string itself, a cached value, or a fresh translation without `"` that it caches under a free key; nothing else in the cache changes |
| SimpleBatch.BatchesKeep | src/translate_jar_simple.py:468-472 | each batch gives one output per input and keeps skipped strings |
| SimpleBatch.RunFileLength | src/translate_jar_simple.py:462-472 | the batch loop extends the outputs, at most one per input, and exactly one per input when no stop is requested |
| SimpleBatch.RunFileSkipped | src/translate_jar_simple.py:462-472 | skipped strings come out of the loop unchanged |
| SimpleBatch.FileSkippedUnchanged | src/translate_jar_simple.py:455-494 | blank, Cyrillic and technical strings come out of `translate_json_file`'s loop unchanged, stopped or not |
| SimpleBatch.FileOutputsFit | src/translate_jar_simple.py:455-494 | the loop gives one output per input unless it was stopped |
| SimpleBatch.SimpleTranslator.constructor | src/translate_jar_simple.py:21-25 | starts with an empty cache and an empty `lru_cache` |
| SimpleBatch.SimpleTranslator.LoadCache | src/translate_jar_simple.py:27-38 | a readable file is merged over the cache, no file keeps it, a failed read empties it |
| SimpleBatch.SimpleTranslator.Scan | src/translate_jar_simple.py:240-274 | the scan loop produces the scan's results, uncached texts, indices and hit count |
| SimpleBatch.SimpleTranslator.Store | src/translate_jar_simple.py:308-312 | the store loop caches each cleaned answer under its key and writes it at its index |
| SimpleBatch.SimpleTranslator.TranslateBatch | src/translate_jar_simple.py:238-356 | results, new cache and statistics are those of `RunBatch` |
| SimpleBatch.SimpleTranslator.TranslateTo | src/translate_jar_simple.py:358-395 | a pair seen before is answered from the `lru_cache` with no effect; otherwise the answer is computed and remembered |
| SimpleBatch.SimpleTranslator.TranslateJsonFile | src/translate_jar_simple.py:417-539 | a non-object or a document without strings comes back unchanged with zero counts; otherwise the translated document, the changed count and the summed statistics of the batch loop, with the corrected lookup of `SimpleJar.Lookup` (see Findings) where the source raises on a stop before the last batch |
| SimpleArchive.CyrillicCount | src/translate_jar_simple.py:124-130 | the number of Cyrillic strings never exceeds the number of strings |
| SimpleArchive.CyrillicCountAppend | src/translate_jar_simple.py:120-134 | the Cyrillic count of a concatenation is the sum of the counts |
| SimpleArchive.CyrillicCountFull | src/translate_jar_simple.py:182 | the count equals the length exactly when every string is Cyrillic |
| SimpleArchive.CyrillicCountNone | src/translate_jar_simple.py:189 | the count is 0 exactly when no string is Cyrillic |
| SimpleArchive.CountCyrillicIsLeaves | src/translate_jar_simple.py:120-134 | `count_translated_strings` as written counts the Cyrillic strings among all string leaves of a dict or list, lists inside lists too |
| SimpleArchive.CyrillicMembersAreLeaves | src/translate_jar_simple.py:122-127 | the same for the values of one dict |
| SimpleArchive.CyrillicItemsAreLeaves | src/translate_jar_simple.py:128-133 | the same for the items of one list |
| SimpleArchive.CountedIsCount | src/translate_jar_simple.py:397-415 | the strings `count_strings_in_json` visits are as many as it counts |
| SimpleArchive.CountedMembersIsCount | src/translate_jar_simple.py:403-413 | the same for the members of one object |
| SimpleArchive.CountedItemsIsCount | src/translate_jar_simple.py:408-413 | the same for the items of one list |
| SimpleArchive.CountTranslated | src/translate_jar_simple.py:147-151 | the corrected count of already translated strings never exceeds the string count of the same file |
| SimpleArchive.CountsAgreeWithoutNestedLists | src/translate_jar_simple.py:120-134 | in an object with no list directly inside a list, the count as written and the corrected count agree |
| SimpleArchive.CountedIsLeaves | src/translate_jar_simple.py:397-415 | in such an object, the counted strings are exactly the string leaves |
| SimpleArchive.CountedMembersAreLeaves | src/translate_jar_simple.py:403-413 | the same for the members of one object |
| SimpleArchive.CountedItemsAreLeaves | src/translate_jar_simple.py:408-413 | the same for the items of one list |
| SimpleArchive.TallyCounted | src/translate_jar_simple.py:142-174 | over the files that load, the summed string count is the number of counted strings and the summed corrected count is the number of Cyrillic ones among them |
| SimpleArchive.SortedSizes | src/translate_jar_simple.py:71-82 | every archive lands in exactly one of the four lists, and `total_files` is the number of archives |
| SimpleArchive.SortedLists | src/translate_jar_simple.py:113-231 | each list holds exactly the archives of its status, in input order; errors are filed with `no_files` |
| SimpleArchive.AnalyzePartition | src/translate_jar_simple.py:53-236 | an archive is in the list of its status and in no other |
| SimpleArchive.ClassifyBounded | src/translate_jar_simple.py:137-174 | with the corrected count, an archive's already-translated count never exceeds its string count |
| SimpleArchive.SortedPendingNonNegative | src/translate_jar_simple.py:211-222 | when no archive counts more translated than total strings, the total still to translate is not negative |
| SimpleArchive.PendingNonNegative | src/translate_jar_simple.py:211-222 | with the corrected count, the total of strings still to translate is never negative |
| SimpleArchive.AlreadyMeansTranslated | src/translate_jar_simple.py:176-208 | with the corrected count, an archive is reported as translated only when every counted string is Cyrillic, or when none is and each kind of file present has its ru_ru counterpart |
| SimpleArchive.FindLangFiles | src/translate_jar_simple.py:541-553 | the loop keeps exactly the entries with `/lang/` in the name and a `.json` ending, in archive order |
| SimpleArchive.FindPatchouliFiles | src/translate_jar_simple.py:555-572 | the loop keeps exactly the patchouli source files, in archive order |
| SimpleArchive.HasRussianLang | src/translate_jar_simple.py:609-615 | true exactly when some entry name holds `/lang/ru_ru.json` |
| SimpleArchive.HasRussianPatchouli | src/translate_jar_simple.py:617-628 | true exactly when some entry is a ru_ru patchouli file |
| SimpleArchive.CountFiles | src/translate_jar_simple.py:142-154 | the per-file loop sums the string counts and the corrected counts of the files that load, and the second never exceeds the first |
| SimpleArchive.InspectJar | src/translate_jar_simple.py:89-231 | one archive is classified as `Classify` with the corrected count says |
| SimpleArchive.AnalyzeJarFiles | src/translate_jar_simple.py:53-236 | the result is `Analyze` with the corrected count |
| SimpleArchive.SampleCounted | src/translate_jar_simple.py:397-415 | in the sample file only the English string is counted; the nested list is skipped |
| SimpleArchive.SampleCyrillic | src/translate_jar_simple.py:120-134 | `count_translated_strings` counts every Cyrillic string of the nested list |
| SimpleArchive.SampleListing | src/translate_jar_simple.py:104-111 | the sample archive has one en_us lang file, no patchouli file and no ru_ru file |
| SimpleArchive.SampleTallies | src/translate_jar_simple.py:137-174 | the sample archive's tallies are those of its one lang file |
| SimpleArchive.SampleClassified | src/translate_jar_simple.py:177-222 | the sample archive, filed alone with a count of n other than 1, adds 1 - n to the total |
| SimpleArchive.NestedListMisjudged | src/translate_jar_simple.py:120-185 | as written, an archive whose lang file still holds an English string is reported as already translated; the corrected count reports that it needs translation |
| SimpleArchive.NestedListNegativeTotal | src/translate_jar_simple.py:120-222 | as written, the total of strings still to translate goes to -1; the corrected count leaves 1 |
| SimpleArchive.Stem | src/translate_jar_simple.py:653 | `Path.stem` is a prefix of the name, and is the name or stops at a final `.` with a non-empty suffix after it |
| SimpleArchive.StemOfJar | src/translate_jar_simple.py:653 | the stem of `x.jar` is `x` |
| SimpleArchive.OutputJarName | src/translate_jar_simple.py:649-653 | when replacing, the output keeps the input's name; otherwise it is the stem followed by `_ru.jar` |
| SimpleArchive.OutputJarNameFresh | src/translate_jar_simple.py:649-653 | a translated copy never takes the original's name, and the copy of `x.jar` is `x_ru.jar` |
| SimpleArchive.RuLangPath | src/translate_jar_simple.py:759-760 | the written lang file is named `ru_ru.json` |
| SimpleArchive.RuLangPathSibling | src/translate_jar_simple.py:760 | the file written for `<dir>/lang/<file>` is `<dir>/lang/ru_ru.json`, which `has_russian_lang` then finds |
| SimpleArchive.RuPatchouliPathRewrites | src/translate_jar_simple.py:883 | the rewrite keeps the length, leaves a path without `/en_us/` alone, keeps the text before the first `/en_us/` and puts `/ru_ru/` exactly where it was |
| SimpleArchive.RuPatchouliFound | src/translate_jar_simple.py:555-628 | the ru_ru file written for a path that `find_patchouli_files` keeps is one that `has_russian_patchouli` then finds: `assets/`, `/patchouli_books/` and `.json` survive the rewrite |
| OptimizedJar.NamespacedIdRejected | src/translate_jar_optimized.py:38-142 | a registry id `ns:name` of `[a-z_]` characters, with or without one trailing newline, is never sent for translation |
| OptimizedJar.CyrillicRejected | src/translate_jar_optimized.py:40-144 | text already holding Cyrillic is never sent again |
| OptimizedJar.PlainTextAccepted | src/translate_jar_optimized.py:136-148 | ordinary English text (ASCII letters and spaces, three or more characters, at least one letter, such as `Iron Sword`) is sent |
| OptimizedJar.PackConcat | src/translate_jar_optimized.py:159-168 | the closed batches and the current one hold the texts in order |
| OptimizedJar.PackOpen | src/translate_jar_optimized.py:159-168 | the current batch is non-empty once a text was read, and nothing is closed before |
| OptimizedJar.PackLength | src/translate_jar_optimized.py:160-168 | the running length is the weight of the current batch (its lengths plus 15 per text) |
| OptimizedJar.PackNonEmpty | src/translate_jar_optimized.py:162-163 | no closed batch is empty |
| OptimizedJar.PackWithin | src/translate_jar_optimized.py:162-168 | a batch of more than one text stays within the maximum length |
| OptimizedJar.PackGreedy | src/translate_jar_optimized.py:162-165 | a batch is closed only when the next batch's first text would take it over the maximum |
| OptimizedJar.SmartBatchesCover | src/translate_jar_optimized.py:150-173 | no batch is empty, empty input gives no batch, and the batches laid end to end give back the texts in order |
| OptimizedJar.SmartBatchesFit | src/translate_jar_optimized.py:150-173 | each batch of more than one text fits the maximum, and each batch but the first began because its first text did not fit the one before |
| OptimizedJar.CreateSmartBatches | src/translate_jar_optimized.py:150-173 | the loop yields `SmartBatches`: a cover of the texts in order by non-empty batches, each of more than one text within the maximum |
| OptimizedJar.Cached | src/translate_jar_optimized.py:83-107 | a key is found when memory or the table holds it; memory answers first, then the table |
| OptimizedJar.PromoteAdds | src/translate_jar_optimized.py:103-107 | the memory gains exactly the table hits among the queried keys that it lacked, each with the table's value, and nothing else changes |
| OptimizedJar.PromoteSkipsHeld | src/translate_jar_optimized.py:82-88 | asking the table only for the keys memory lacks promotes the same as asking for all |
| OptimizedJar.SavedThenFound | src/translate_jar_optimized.py:115-131 | a text saved by `save_batch` is found by the next `get_batch` with its last saved translation |
| OptimizedJar.ResolveResults | src/translate_jar_optimized.py:103-109 | after j turns of the table pass, the first j pending positions hold what the cache finds and the others are as the memory pass left them |
| OptimizedJar.ResolveKeepsLength | src/translate_jar_optimized.py:103-109 | the table pass keeps the number of results |
| OptimizedJar.ResolveMissedOrder | src/translate_jar_optimized.py:108-111 | the positions still missing are ascending and none lies beyond the last pending position handled |
| OptimizedJar.ResolveMissed | src/translate_jar_optimized.py:103-111 | the positions still missing are exactly the handled pending positions the cache does not hold |
| OptimizedJar.ResolveMemory | src/translate_jar_optimized.py:107 | the memory after the table pass is the promotion of the queried keys |
| OptimizedJar.ScannedQueued | src/translate_jar_optimized.py:82-88 | every position the memory pass sets aside is a key memory lacks, queried under that key, with its result still empty |
| OptimizedJar.ResolveFetched | src/translate_jar_optimized.py:91-111 | after the whole table pass every position holds what memory or the table holds for its key |
| OptimizedJar.ResolveAll | src/translate_jar_optimized.py:91-113 | after the whole table pass every key has what the cache holds, memory gains the table hits, and the missing positions are ascending and exactly those nothing holds |
| OptimizedJar.TranslationCache.constructor | src/translate_jar_optimized.py:46-64 | a new cache opens over the table already on disk, with an empty memory |
| OptimizedJar.TranslationCache.GetBatch | src/translate_jar_optimized.py:70-113 | results are what the cache holds, memory gains the table hits, the table is untouched, and the misses are exactly the ascending positions without a result |
| OptimizedJar.TranslationCache.ScanMemory | src/translate_jar_optimized.py:82-88 | the memory pass fills memory hits and sets aside, in order, exactly the positions memory lacks, with their keys |
| OptimizedJar.TranslationCache.QueryTable | src/translate_jar_optimized.py:91-111 | the table pass is `Resolve`, and leaves the table alone |
| OptimizedJar.TranslationCache.SaveBatch | src/translate_jar_optimized.py:115-131 | nothing changes unless both lists are non-empty and of equal length; otherwise every pair is stored in memory and in the table, a later duplicate overwriting an earlier |
| OptimizedJar.HitCount | src/translate_jar_optimized.py:201 | the hits and the misses together are all the filtered texts |
| OptimizedJar.Filled | src/translate_jar_optimized.py:206-209 | one entry per filtered text |
| OptimizedJar.BatchOutput | src/translate_jar_optimized.py:223-260 | each smart batch contributes one output per text |
| OptimizedJar.Translations | src/translate_jar_optimized.py:221-260 | `translated_texts` has one output per uncached text |
| OptimizedJar.TranslationsAllFailed | src/translate_jar_optimized.py:257-260 | when every request raises, each text comes back as it was sent |
| OptimizedJar.NewTranslations | src/translate_jar_optimized.py:214-260 | one new translation per uncached text |
| OptimizedJar.FilterTexts | src/translate_jar_optimized.py:183-189 | the loop keeps exactly the texts the prefilter accepts and their positions, in order |
| OptimizedJar.ApplyHits | src/translate_jar_optimized.py:206-209 | each cache hit is written at its text's position, and nothing else changes |
| OptimizedJar.TranslateBatches | src/translate_jar_optimized.py:223-260 | the batch loop yields `Translations` |
| OptimizedJar.ApplyTranslations | src/translate_jar_optimized.py:267-271 | each new translation is written at its text's position |
| OptimizedJar.BatchTranslateOptimized | src/translate_jar_optimized.py:175-281 | results, memory, table and statistics are those the specification functions give for the cache's old state |
| OptimizedJar.TranslateNew | src/translate_jar_optimized.py:214-264 | the uncached texts are translated batch by batch, one output each, and saved to memory and table under their keys |
| OptimizedJar.PickedIncreasing | src/translate_jar_optimized.py:212-270 | positions picked in order from an ascending list stay ascending |
| OptimizedJar.ScatterPicked | src/translate_jar_optimized.py:267-271 | writing through positions picked from an ascending list puts each value at its own position |
| OptimizedJar.OptimizedCounts | src/translate_jar_optimized.py:194-279 | one result per text; `total_strings` counts every text, and every filtered text is either a cache hit or a new translation |
| OptimizedJar.OptimizedSkipsRejected | src/translate_jar_optimized.py:186-194 | a text the prefilter rejects is returned as it was |
| OptimizedJar.SelectedAt | src/translate_jar_optimized.py:183-200 | an accepted text has its position among the filtered texts, where `get_batch` finds what the cache holds for it |
| OptimizedJar.OptimizedUsesCache | src/translate_jar_optimized.py:200-209 | a text the cache holds is answered from the cache |
| OptimizedJar.OptimizedTranslatesNew | src/translate_jar_optimized.py:212-271 | an accepted text the cache lacks gets the translation made for it in the smart batches |
| OptimizedJar.OptimizedCachesAll | src/translate_jar_optimized.py:200-264 | after the call every accepted text is cached |
| OptimizedJar.OptimizedRepeatIsCached | src/translate_jar_optimized.py:200-264 | asking again for the same texts leaves nothing uncached |
| OptimizedJar.OptimizedNothingNew | src/translate_jar_optimized.py:214-279 | with nothing uncached there are no new translations, `api_batches` is 0 or absent, and the results are the same whatever the translation service answers, so no request is made |
| OptimizedJar.OptimizedAllFailedTranslations | src/translate_jar_optimized.py:257-260 | when every request raises, the new translations are the uncached texts themselves |
| OptimizedJar.OptimizedAllFailedKeeps | src/translate_jar_optimized.py:257-271 | when every request raises, the texts the cache lacked come back unchanged |
| OptimizedJar.OptimizedAllFailedSaves | src/translate_jar_optimized.py:257-264 | when every request raises, `save_batch` still stores each untranslated text as its own translation |
| OptimizedJson.ExtractStrings | src/translate_jar_optimized.py:315-328 | the sweep adds to the set exactly the string leaves of the value, at any depth |
| OptimizedJson.DictTranslateShape | src/translate_jar_optimized.py:494-504 | `translate_json_recursive` keeps the shape of the tree and maps its string leaves one by one, in order |
| OptimizedJson.DictMembersShape | src/translate_jar_optimized.py:495-496 | the same for the members of one dict |
| OptimizedJson.DictItemsShape | src/translate_jar_optimized.py:497-498 | the same for the items of one list |
| OptimizedJson.Moved | src/translate_jar_optimized.py:440-442 | the number of values the dictionary changes is at most the number of values |
| OptimizedJson.MovedNone | src/translate_jar_optimized.py:440-442 | nothing is counted exactly when the dictionary changes no value |
| OptimizedJson.MovedAppend | src/translate_jar_optimized.py:438-442 | the changed count of a concatenation is the sum of the counts |
| OptimizedJson.DictMembersAppend | src/translate_jar_optimized.py:437-439 | translating a concatenation of members translates each part |
| OptimizedJson.FirstContainer | src/translate_jar_optimized.py:438-439 | the first dict or list value: none before it is one, and it is one unless it is the end |
| OptimizedJson.FirstContainerAt | src/translate_jar_optimized.py:438-439 | the first container is where no earlier value is one and this one is, or the end |
| OptimizedJson.TranslateLangFile | src/translate_jar_optimized.py:428-466 | a non-dict is passed over; otherwise the values up to the first unhashable one are counted when the dictionary changes them, and the file is written, translated value by value, exactly when no value is a dict or list |
| OptimizedJson.LangStep | src/translate_jar_optimized.py:438-442 | one more scalar member: one more translated member, counted when the dictionary changes it |
| OptimizedJson.RuLangFile | src/translate_jar_optimized.py:421-457 | the Russian lang file is the English file's sibling `ru_ru.json`, which the English search never picks up |
| OptimizedJson.RuPatchouliFile | src/translate_jar_optimized.py:478-510 | the Russian Patchouli file swaps the `en_us` directory for `ru_ru`, which the English search never picks up |
| OptimizedJson.ProcessPatchouliFile | src/translate_jar_optimized.py:484-517 | the copy goes to `RuPatchouliFile`; it is dictionary-translated, with the same shape and its leaves mapped, when the dictionary is non-empty, and the file itself otherwise; the count is the number of distinct strings |
| Enhanced.StripCodes | src/enhanced_translator.py:103 | removing the `§` codes never lengthens the text nor adds a character, and a text without `§` is left as it is |
| Enhanced.DigitRun | src/enhanced_translator.py:140 | the leading run of digits that `\d+` matches: all digits, and the next character is not one |
| Enhanced.WordRun | src/enhanced_translator.py:132 | a run of non-space characters counts as one word of `split()` |
| Enhanced.TwoWords | src/enhanced_translator.py:132 | a word, a space and a non-blank rest make a name of several words |
| Enhanced.NoSpaceOneWord | src/enhanced_translator.py:132 | a text without whitespace splits into at most one word |
| Enhanced.SingleWordHoldsNoName | src/enhanced_translator.py:126-133 | for a cleaned text without whitespace, the mod-name test holds exactly when the text is a listed name |
| Enhanced.NameInsideKept | src/enhanced_translator.py:130-133 | a listed name of several words inside the cleaned text makes it a mod name, whatever surrounds it |
| Enhanced.PlainWordClean | src/enhanced_translator.py:103 | a word of ASCII letters is its own stripped text, its cleaned text is its lower-case form, and that holds no whitespace |
| Enhanced.PlainWordNotTechnical | src/enhanced_translator.py:136-151 | a word of ASCII letters with a lower-case letter matches none of the ten technical patterns |
| Enhanced.PlainWordAccepted | src/enhanced_translator.py:76-161 | an English word of three or more letters, not all capitals and not a listed mod name, is translated under any key without `itemgroup` |
| Enhanced.PlainWordFlags | src/enhanced_translator.py:78-158 | such a word is not blank, holds no Cyrillic letter and no blue or style code, and holds an ASCII letter |
| Enhanced.DottedKeyTechnical | src/enhanced_translator.py:137-151 | two runs of `[a-z_]` joined by a dot are never translated |
| Enhanced.RegistryIdTechnical | src/enhanced_translator.py:143-151 | `namespace:name` with a lower-case namespace is never translated |
| Enhanced.ColourDoesNotHideName | src/enhanced_translator.py:101-127 | a colour code in front of a text changes neither its cleaned text nor the mod-name verdict |
| Enhanced.PaddingIgnored | src/enhanced_translator.py:76-161 | a leading space never changes whether a text is translated |
| Enhanced.PaddingSameClean | src/enhanced_translator.py:103-150 | a leading space changes neither the stripped nor the cleaned text |
| Enhanced.StripCodesSpace | src/enhanced_translator.py:103 | a space passes through the code removal |
| Enhanced.PaddingSameFlags | src/enhanced_translator.py:78-158 | a leading space changes none of the blank, Cyrillic, code and ASCII-letter tests |
| Enhanced.PaddingSameLetters | src/enhanced_translator.py:82-158 | a leading space adds no Cyrillic and no ASCII letter |
| Enhanced.PaddingSameCodes | src/enhanced_translator.py:88-93 | a leading space adds no blue and no style code |
| Enhanced.ItemGroupKeyRejected | src/enhanced_translator.py:98-99 | no value under a key starting with `itemgroup` (in any case) is translated |
| Enhanced.MinecraftIdIsRegistryId | src/enhanced_translator.py:142-143 | every `minecraft:` id also matches the registry-id pattern |
| Enhanced.FirstContext | src/enhanced_translator.py:70-72 | the answer is the first fragment in list order that occurs in the name, and none exactly when no fragment occurs |
| Enhanced.DetectedContext | src/enhanced_translator.py:44-74 | `minecraft mod` exactly when no fragment occurs in the lower-cased archive name; otherwise the context of the first listed fragment that occurs |
| Enhanced.ContextsNotDefault | src/enhanced_translator.py:49-74 | no listed context is the default one, so the default reports that nothing matched |
| Enhanced.ListOrderDecides | src/enhanced_translator.py:70-72 | an archive named after two mods gets the context of the one listed first, not of the one first in the name |
| Enhanced.SubFromAbsent | src/enhanced_translator.py:34-35 | from a position on, a scan that finds no whole-word match of a non-empty term leaves the rest of the text as it is |
| Enhanced.ReplaceWordAbsent | src/enhanced_translator.py:34-35 | `re.sub` of a non-empty term that never occurs as a whole word returns the text unchanged |
| Enhanced.SubFromAvoids | src/enhanced_translator.py:35 | a character in neither the text nor the replacement is not in the result |
| Enhanced.InsideWordKept | src/enhanced_translator.py:34 | the `\b` anchors leave a term inside a longer word alone (`Ironwood` keeps its `Iron`) |
| Enhanced.CapitalisedReplaced | src/enhanced_translator.py:35 | under `re.IGNORECASE` a term in capitals is replaced too |
| Enhanced.ApplyTerminology | src/enhanced_translator.py:27-42 | the two loops give the game's terms applied in table order, then the mod-specific ones |
| Enhanced.ApplyTermsAbsent | src/enhanced_translator.py:32-35 | terms that occur nowhere as whole words (an empty table in particular) leave the text as it is |
| Enhanced.TerminologyAbsent | src/enhanced_translator.py:27-42 | the same for both tables together |
| Enhanced.ApplyTermsAvoids | src/enhanced_translator.py:32-35 | a character in neither the text nor any Russian form of a table is not in the result |
| Enhanced.TerminologyAvoids | src/enhanced_translator.py:27-42 | the dictionary brings in no character that its Russian forms lack |
| Enhanced.StripContext | src/enhanced_translator.py:175-179 | removing the echoed prefix never lengthens the answer |
| Enhanced.FindClosingBracket | src/enhanced_translator.py:170-177 | in a prefixed request whose context holds no `]`, the first `]` is the one closing the prefix |
| Enhanced.ContextRoundTrip | src/enhanced_translator.py:170-179 | an answer that echoes the request as sent gives back the stripped text: the prefix is removed exactly |
| Enhanced.TranslateWithContext | src/enhanced_translator.py:163-191 | `translate_with_context` computes `WithContext`: the filter, the prefixed request, the prefix removed, the dictionary and the doubled quotes |
| Enhanced.Request | src/enhanced_translator.py:168-191 | the part after the filter computes `Answered`: the text itself when the service raises |
| Enhanced.WithContextOutcome | src/enhanced_translator.py:163-191 | the text comes back unchanged when it is not worth translating or the service raises, and every text the service translated comes back without a `"` |
| Enhanced.BatchParts | src/enhanced_translator.py:210-242 | there is one finished string per text sent, whichever branch is taken |
| Enhanced.EnhancedBatch | src/enhanced_translator.py:193-244 | the list returned has one entry per input text |
| Enhanced.Placeholders | src/enhanced_translator.py:201-207 | the list after the filtering loop has one entry per text |
| Enhanced.Select | src/enhanced_translator.py:201-207 | the filtering loop collects, in order, the indices of the texts the filter accepts and those texts, with a placeholder at each such index and the text everywhere else |
| Enhanced.TranslateEach | src/enhanced_translator.py:226-229 | the fallback loop computes the one-by-one translations |
| Enhanced.PlaceFinished | src/enhanced_translator.py:232-235 | the writing loop puts each finished part at its text's index and changes nothing else |
| Enhanced.PlaceEach | src/enhanced_translator.py:237-242 | the loop after a raising joined request puts each one-by-one translation at its text's index and changes nothing else |
| Enhanced.PlacedAll | src/enhanced_translator.py:205-242 | writing one part per selected index fills every placeholder: no `None` is left |
| Enhanced.TranslateBatchEnhanced | src/enhanced_translator.py:193-244 | `translate_batch_enhanced` returns `EnhancedBatch`, every entry filled |
| Enhanced.BatchKeepsUntranslatable | src/enhanced_translator.py:206-207 | a text not worth translating keeps its place and its value |
| Enhanced.WithContextAllFailing | src/enhanced_translator.py:189-191 | each text sent to a service that raises comes back as it was |
| Enhanced.BatchPartsFailing | src/enhanced_translator.py:237-242 | when the joined request and every single request raise, the texts come back as they were |
| Enhanced.JoinedRequestFailing | src/enhanced_translator.py:237-242 | when the joined request raises, the parts are the one-by-one translations |
| Enhanced.ScatterPickedSelf | src/enhanced_translator.py:240-242 | writing back the values read from the written positions changes nothing |
| Enhanced.BatchAllFailing | src/enhanced_translator.py:193-244 | a service that always raises leaves the whole list as it was |
| Enhanced.BatchAnsweredUnquoted | src/enhanced_translator.py:223-235 | when the joined answer splits into one part per text and no Russian form holds a `"`, no translated text holds one |
| Updater.ParseInt | src/modern_updater.py:644 | `int()` rejects a blank part |
| Updater.ParseAll | src/modern_updater.py:644-645 | the list comprehension succeeds exactly when every part parses, and then holds each part's value in order |
| Updater.Pad | src/modern_updater.py:648-649 | the padded list has the common length |
| Updater.PaddedGreater | src/modern_updater.py:647-651 | comparing the zero-padded lists as Python lists is comparing the versions with infinitely many trailing zeros |
| Updater.ZeroPaddedIrreflexive | src/modern_updater.py:651 | that order is irreflexive |
| Updater.ZeroPaddedAsymmetric | src/modern_updater.py:651 | and asymmetric |
| Updater.ZeroPaddedTransitive | src/modern_updater.py:651 | and transitive |
| Updater.ZeroPaddedTrailingZeros | src/modern_updater.py:647-651 | trailing zeros make a version neither greater nor smaller |
| Updater.NewerIsZeroPaddedGreater | src/modern_updater.py:641-653 | for two versions that parse, `is_newer_version` is that order on their components |
| Updater.NotNewerThanItself | src/modern_updater.py:641-653 | no version is newer than itself, parsing or not |
| Updater.NewerAsymmetric | src/modern_updater.py:641-653 | of two versions at most one is newer than the other |
| Updater.NewerTransitive | src/modern_updater.py:641-653 | newer-than is transitive |
| Updater.EmptyVersionNeverNewer | src/modern_updater.py:614-653 | the empty version of a release without `tag_name` is never newer: `int('')` raises and the answer is `False` |
| Updater.DecValueOfText | src/modern_updater.py:644 | the digits of `str(n)` have the value `n` |
| Updater.ParseNatText | src/modern_updater.py:644 | `int(str(n)) == n` |
| Updater.VersionTextParses | src/modern_updater.py:644-645 | a dotted version written from natural numbers parses back to them |
| Updater.NewerVersionText | src/modern_updater.py:641-653 | such versions compare as their numbers with trailing zeros |
| Updater.TrailingZerosIgnored | src/modern_updater.py:647-651 | `1.0` and `1.0.0` are the same version: neither is newer |
| Updater.DropLeadingV | src/modern_updater.py:614 | `.replace('v', '')` drops a leading `v` together with every other one |
| Updater.MissingTagNoUpdate | src/modern_updater.py:614-621 | a release without a tag never reports an update |
| Updater.TaggedReleaseOffered | src/modern_updater.py:614-617 | a release tagged `v` plus a dotted version is offered exactly when that version is greater than the running one |
| Updater.NoLetterInVersionText | src/modern_updater.py:614 | a dotted version of numbers holds no `v`, so the replace leaves it alone |
| Updater.FirstExe | src/modern_updater.py:1200-1205 | the first asset whose name ends in `.exe`, or none exactly when there is none |
| Updater.LastZip | src/modern_updater.py:1206-1211 | the last asset whose name ends in `.zip`, or none exactly when there is none |
| Updater.SelectAsset | src/modern_updater.py:1196-1211 | the asset loop, with its `break` on `.exe`, settles on `ChosenAsset` |
| Updater.ChosenAssetSpec | src/modern_updater.py:1196-1229 | the download is the first `.exe` when there is one; a `.zip` only when no `.exe` is offered, and then the last one; nothing only when neither kind is offered |
| Updater.FileNameRoundTrip | src/modern_updater.py:76-79 | the version can be read back from the name of the downloaded file |
| Updater.FileNameKind | src/modern_updater.py:76-79 | an executable download is named `.exe`, an archive `.zip` |
| Updater.ScriptVersion | src/modern_updater.py:216-218 | the version in the update script never holds a `v` |
| Updater.DownloadAndInstalledNames | src/modern_updater.py:77 | the worker gets the tag with its `v`, so a tag `v1.1.0` downloads to `ru-minetools-vv1.1.0.exe` and is installed as `ru-minetools-v1.1.0.exe` |
| Updater.StartStepSpec | src/modern_updater.py:1185-1234 | a worker starts exactly when no process is active and an asset with a URL is chosen, with that asset's URL and kind, and leaves the flag set; every other outcome leaves the flag as it was |
| Updater.NoSecondWorker | src/modern_updater.py:1185-1234 | two starts without a cleanup between them never start two workers |
| Updater.CleanupAllowsRestart | src/modern_updater.py:1301-1305 | after the cleanup the same release starts again just as before |
| Updater.DialogStepSpec | src/modern_updater.py:707-745 | while a dialog is active a second one is never shown and `False` is returned; after the call the flag is set exactly when it was set before, whatever the dialog returns or raises |
| Updater.UpdateHost.StartUpdateProcess | src/modern_updater.py:1178-1262 | the attribute and the outcome are those of `StartStep`; the dialog attribute is untouched |
| Updater.UpdateHost.CleanupUpdateProcess | src/modern_updater.py:1301-1305 | the process attribute is cleared when it exists; nothing else changes |
| Updater.UpdateHost.ShowUpdateAvailableDialog | src/modern_updater.py:707-745 | the attribute and the answer are those of `DialogStep`; the process attribute is untouched |
| Config.ExampleBeside | src/simple_config.py:32 | the example lies in the configuration file's directory and its name ends with `.example.json` |
| Config.ExampleOfJson | src/simple_config.py:32 | the stem of `name.json` is `name`, so its example is `name.example.json` |
| Config.ExampleIsNotConfig | src/simple_config.py:32 | the example is never the configuration file itself |
| Config.Lookup | src/simple_config.py:89-92 | a key is found exactly when some member has it, and its value is that of the last such member, as `json.load` keeps the last duplicate |
| Config.LookupOtherKey | src/simple_config.py:89-92 | a member appended under another key leaves the lookup of a key unchanged |
| Config.ValidateConfig | src/simple_config.py:75-105 | the loop over `REQUIRED_FIELDS` and the two raises compute `VerdictOf`: a `TypeError`, the missing labels, the placeholder labels, or acceptance |
| Config.ScanRaises | src/simple_config.py:88-92 | the loop raises exactly when some field's check raises |
| Config.ScanMissing | src/simple_config.py:88-90 | nothing is reported missing exactly when every field is present |
| Config.ScanPlaceholders | src/simple_config.py:91-99 | no placeholder is reported exactly when no present field holds one |
| Config.ScanStaysRaised | src/simple_config.py:88-99 | once a field raises, the whole loop has raised |
| Config.ScanSameChecks | src/simple_config.py:88-99 | the loop depends on the document only through the checks of the required names |
| Config.AcceptedIff | src/simple_config.py:75-105 | a configuration is accepted exactly when it is an object holding both required fields and neither value is a placeholder |
| Config.MissingReportedFirst | src/simple_config.py:89-102 | a missing field makes the missing-fields error, raised before any placeholder error, and that error names it |
| Config.MissingListed | src/simple_config.py:89-90 | each absent field's label is in the missing list |
| Config.NonObjectRejected | src/simple_config.py:75-105 | a document that is no object is never accepted |
| Config.ExtraKeyIgnored | src/simple_config.py:88-99 | a key that is not required never changes the verdict |
| Config.LoadStepSpec | src/simple_config.py:41-136 | only an accepted object is loaded, and it is what the file holds; an existing configuration file is never written; a missing one is written only as a copy of the example |
| Config.NonObjectRejectedContra | src/simple_config.py:75-105 | an accepted document is an object |
| Config.FreshInstallCopiesExample | src/simple_config.py:41-131 | on a fresh install the example is copied and the copy is then judged like any configuration |
| Config.AcceptedFieldsOk | src/simple_config.py:94-193 | a loaded configuration always reports its required fields filled in |
| Config.StatusConfiguredIffLoaded | src/simple_config.py:170-197 | `is_configured` is true exactly when loading succeeds; then the fields are reported filled in and no error is given, otherwise an error is given |
| Config.FreshInstallStatus | src/simple_config.py:177-188 | on a fresh install with a filled-in example the status says the file did not exist and yet is configured |
| Config.SimpleConfig.constructor | src/simple_config.py:30-33 | the example path is derived from the configuration path, and nothing is cached yet |
| Config.SimpleConfig.CreateConfigFromExample | src/simple_config.py:41-73 | the files afterwards are those of `CreateFromExample`, and `false` stands for the `ConfigError` |
| Config.SimpleConfig.LoadConfig | src/simple_config.py:107-136 | the files and the outcome are those of `LoadStep`; the data is cached only when loaded, and only an accepted configuration is ever cached |
| Config.SimpleConfig.Get | src/simple_config.py:138-155 | cached data answers without touching the files; otherwise the configuration is loaded and cached and answers, or the default is returned and nothing is cached |
| Config.SimpleConfig.IsConfigured | src/simple_config.py:157-168 | true exactly when loading succeeds, with the files and the cache as loading leaves them |
| Config.SimpleConfig.GetConfigStatus | src/simple_config.py:170-197 | the files and the status are those of `StatusStep`, the cache as loading leaves it |
| ResourcePaths.ParentFixedIffRoot | src/utils.py:28 | only the filesystem root is its own parent, so the walk's guard fails exactly there |
| ResourcePaths.NearestRoot | src/utils.py:26-33 | the base directory is an ancestor of the start, is a project root (with `src` and `assets`) or the filesystem root, and no directory strictly between it and the start is a project root |
| ResourcePaths.NearestRootUnique | src/utils.py:24-33 | those three properties determine the directory the walk stops at |
| ResourcePaths.FindProjectRoot | src/utils.py:24-33 | the walk from the module's directory stops at `NearestRoot` |
| ResourcePaths.Resolve | src/utils.py:35-47 | the path is one of the two candidates; it exists exactly when one of them does; the typed path is chosen whenever it exists or the flat one does not |
| ResourcePaths.GetResourcePath | src/utils.py:11-47 | the bundle directory when frozen, the nearest project root otherwise, then `Resolve` |
| ResourcePaths.GetConfigPath | src/utils.py:49-51 | `get_resource_path` with the kind `config` |
| ResourcePaths.GetAssetPath | src/utils.py:53-55 | `get_resource_path` with the kind `assets` |
| Releases.FirstVersionLine | scripts/create_releases.py:51-54 | the index found holds a line starting with `CURRENT_VERSION = ` and no line before it does; none exactly when no line does |
| Releases.Rewritten | scripts/create_releases.py:50-54 | the line count is kept; only the first version line can change, and it becomes `CURRENT_VERSION = "<version>"` |
| Releases.ReplaceVersionLine | scripts/create_releases.py:51-54 | the loop with its `break` computes `Rewritten` |
| Releases.NoVersionLineUnchanged | scripts/create_releases.py:47-57 | a text without a version line is written back exactly as it was read |
| Releases.VersionLineShape | scripts/create_releases.py:53 | the written line is itself a version line and holds no line break when the version holds none |
| Releases.SplitRewritten | scripts/create_releases.py:50-57 | splitting the written text on `\n` gives back the rewritten lines |
| Releases.LineCountKept | scripts/create_releases.py:50-57 | the file keeps its number of lines |
| Releases.LastBumpWins | scripts/create_releases.py:38-59 | bumping to one version and then to another gives the text of a single bump to the second |
| Releases.FirstIsLeast | scripts/create_releases.py:51-54 | a version line with none before it is the one the loop stops at |
| Releases.UpdateConfigFile.UpdateVersion | scripts/create_releases.py:38-59 | `False` and nothing written when the file is missing; otherwise the rewritten text is written and the answer is `True` |

## Left out

- Archive I/O: zip extraction and repacking, temporary directories and the directory search (`rglob`). An archive is modelled as its list of entries with their parsed contents.
- File I/O: reading and writing JSON files, the pickle file of the simple cache, the SQLite connection, and the file mode set by `os.chmod`. Files are a map from paths to parsed contents.
- Network, UI and threads: the HTTP request for releases, the download, the Qt dialogs and their event loops, the update worker thread and its cancellation, and the thread pool of the parallel translator. The updater's choices are modelled up to the point where a worker would start.
- The translation service: it is a parameter. It answers the same request the same way, and any exception is one failure value. The response time and its speed warning are not modelled.
- md5: it is an uninterpreted function of `text + ":" + lang`, given as a parameter. Key collisions are therefore possible in the model, just as they are in the source.
- Progress and stop callbacks: the stop callback is a function from the batch number to its answer. Progress percentages (floating point) and log output are not modelled.
- Regular expressions: each pattern the code uses is a hand-written predicate. `\w`, `\d` and `re.IGNORECASE` are modelled on ASCII and the Russian alphabet. The full Unicode classes are not modelled.
- Enhanced.ApplyTerminology: the escapes that `re.sub` interprets in a replacement string are not modelled; each Russian form is inserted literally.
- Case mapping: `lower()`, `upper()` and `isdigit()` act on ASCII only. `strip()` and `split()` use Python's full whitespace set.
- Updater.ParseInt: `int()` is modelled on ASCII digits. The other Unicode decimal digits that Python accepts are not.
- Python's `str()` of numbers, booleans and `null` is modelled only as far as the placeholder test needs it (its first character).
- Config.SimpleConfig.LoadConfig: `json.load` is `Unparsable` or a parsed document. Each `ConfigError` is reduced to its reason, and a rejection keeps the labels of the fields it names.
- SimpleBatch.SimpleTranslator.TranslateTo: the `lru_cache` is unbounded in the model; its 5000-entry limit and the eviction of the least recently used pairs are not modelled, so an evicted pair that the source would compute again is answered from the memo.
- SimpleBatch.SimpleTranslator.TranslateJsonFile: its contract uses the corrected lookup of `SimpleJar.Lookup`; when a stop comes before the last batch the source raises `IndexError` in `apply_translations` instead (see Findings and `SimpleJar.LookupAsWritten`).
- Repeated keys in a JSON object: `JsonTree.Json` keeps every member, while the dict `json.load` builds keeps one entry per key with the last value. `Config.Lookup` reads the last value as Python does; the walks over all members (`SimpleJar.Collect`, `SimpleJar.Apply`, the counts) match the source on objects whose keys are distinct.
- OptimizedJson.TranslateLangFile: only the branch with a non-empty dictionary is modelled. The branch without one calls `batch_translate_optimized`, which is modelled on its own as `OptimizedJar.BatchTranslateOptimized`.
- The loading of `config/minecraft_terms.json` in `load_terms` is file I/O. The dictionary is a parameter (`Enhanced.Terms`) in file order.
- Updater.IsNewerVersion: it is a function. The `extend` calls that pad the two local lists have no effect outside the comparison.
- Updater: the version compared against is a parameter. `CURRENT_VERSION` lives in a file that is not part of this model.
- ResourcePaths: `Path.resolve()` and symbolic links are not modelled. A file name holding a separator or an absolute path is not modelled either: each name is one path segment.
- Releases.LastBumpWins and Releases.LineCountKept require a version without a line break: a version holding `\n` would add lines to the file.
- The functions that `src/modern_updater.py` defines twice (`install_zip_update`, `show_legacy_update_dialog`, `cleanup_update_process` and the `on_*` handlers) are modelled from their last definition, the one Python keeps.

## Findings

| source | as written | input that shows it | evidently intended | confidence | as-written member | corrected member |
|---|---|---|---|---|---|---|
| src/translate_jar_simple.py:462-509 | `apply_translations` indexes `translated_strings` at the collected position of each string. A stop requested before the first batch leaves that list empty, and the `IndexError` escapes the `except ValueError` | `{"a": "hello world"}` with the stop callback true at once | a string with no translation keeps its text | not executed | SimpleJar.StopBeforeFirstBatchRaises | SimpleJar.DistinctPathsOwnOutput |
| src/translate_jar_simple.py:120-222 | `count_translated_strings` also counts Cyrillic strings in lists nested directly in lists, which `count_strings_in_json` skips. An archive can then have more translated strings than strings, and the `total_strings` statistic can go down or below zero | a lang file `{"a": "hi", "b": [["да", "да"]]}` | the translated strings counted among the counted strings, so the pending total is never negative | not executed | SimpleArchive.NestedListNegativeTotal | SimpleArchive.PendingNonNegative |
