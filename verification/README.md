# EPG splitter core, modelled in Dafny

This project models the core of an electronic-programme-guide splitter. The splitter
reads an XMLTV document and works in these steps:

- It cuts out the `<channel>` and `<programme>` fragments (`EPGProcessor.process`).
- It cleans each channel's display name (`cleanChannelName`).
- It keeps the first channel per cleaned name (`extractChannelFragments`).
- It classifies every channel by a prioritised rule table (`categories.js`).
- It buckets the channels into per-province and per-category groups, with a catch-all
  其他 ("other") bucket (`separateChannels`, `getAllUniversalChannels`).
- It decides which id lists, programme sets and counts each output file and the index
  summary get (`generateProvinceFiles`, `generateUniversalFiles`,
  `filterProgrammesByChannels`, `generateIndexFile`).
- It lays every fragment out with `formatXmlFragment`.

The modules follow the source's steps:

| file | module | what it models |
|---|---|---|
| `wrappers.dfy` | `Wrappers` | `Option` |
| `text.dfy` | `Text` | JavaScript string primitives: the `\s`/`trim` white-space set, `trim`, `indexOf`, `split('\n')`/`join('\n')`, ASCII `toUpperCase` |
| `cleaner.dfy` | `Cleaner` | `cleanChannelName`: both global `replace` passes as left-to-right scans, with the regex's backtracking made explicit, then `trim` and the memo cache |
| `categories.dfy` | `Categories` | the rule table and the two pinyin maps |
| `classifier.dfy` | `Classifier` | the stable priority sort and the first-match loop, against an independent "best rule" definition |
| `dedup.dfy` | `Dedup` | the dedup loop of `extractChannelFragments` as a method with invariants, the channel statistics, `extractChannelInfo` |
| `partition.dfy` | `Partition` | `separateChannels` and `getAllUniversalChannels`, with JavaScript's insertion-ordered objects as association lists |
| `bundles.dfy` | `Bundles` | `filterProgrammesByChannels`, the id lists and counts of the province and category files, the index summary |
| `processor.dfy` | `Processor` | the two `indexOf` cursor loops of `EPGProcessor.process` |
| `formatter.dfy` | `Formatter` | `formatXmlFragment` |
| `cleaner_examples.dfy`, `classifier_examples.dfy` | | what the cleaner and the classifier do on concrete names |

## Where the code departs from what one might expect

The model follows the code in three places where a reader might expect something else:

- One might expect cleaning a name twice to change nothing. It does not hold. `"H D"`
  cleans to `"HD"`, which cleans to `""`. `"频频道道"` cleans to `"频道"`, which cleans
  to `""`. See `CleanerExamples.CleanNotIdempotent`.
- The second pass's pattern ends in the look-ahead `(?!欧洲|美洲)` (splitter.js:23), which
  reads as sparing continent qualifiers. It never fires, because 欧, 洲 and 美 are
  themselves in the range `[一-龥]`. The greedy run has already eaten the qualifier, and
  no backtracking changes the match. So `"CCTV4欧洲"` cleans to `"CCTV4"`. See
  `Cleaner.ContinentExemptionNeverFires` and `CleanerExamples.CctvFourEurope`.
- The second bucketing round (splitter.js:274-280) is keyed by channel id, not by whether
  this channel matched. An unmatched channel that shares its id with a matched one lands
  in no bucket. See `Partition.CollisionDropped`.

## Model

| member | source | states |
|---|---|---|
| Text.IndexOf | processor.js:12-13 | `indexOf(p, from)` is -1 exactly when `p` occurs nowhere at or after `from`; otherwise it is the first such position |
| Text.TrimStart | splitter.js:53 | what `trim` removes in front is all white space, and what is left starts with a non-space character |
| Text.TrimEnd | splitter.js:53 | what `trim` removes at the back is all white space, and what is left ends with a non-space character |
| Text.TrimKeepsSolidSuffix | splitter.js:69 | trimming keeps a suffix that begins and ends with non-space characters |
| Text.Lines | splitter.js:65 | `split('\n')` gives at least one piece, and no piece holds a newline |
| Text.JoinLinesOfLines | splitter.js:65-71 | joining the pieces of `split('\n')` with newlines gives back the text |
| Text.LinesOfJoinLines | splitter.js:65-71 | splitting newline-free lines joined with newlines gives back the lines |
| Text.Upper | splitter.js:26 | `toUpperCase` maps each ASCII lower-case letter to its capital and keeps every other character |
| Cleaner.FilmAheadMeans | splitter.js:22 | the look-ahead `(?![^()（）]*[电影])` sees a 电 or 影 exactly when one occurs before the first bracket |
| Cleaner.StripIsClean | splitter.js:22 | after the first pass no white space and no character of `[()（）－_—·•-]` remains |
| Cleaner.HighDefinitionRule | splitter.js:22 | 高清 is kept exactly when 电 or 影 follows before a bracket, and removed otherwise |
| Cleaner.TokenRemoved | splitter.js:22 | 频道, 超清 and HD in any ASCII case are removed wherever the scan meets them |
| Cleaner.StripPlainPrefix | splitter.js:22 | characters the first pass cannot match at are copied through unchanged |
| Cleaner.CollapseKeepsClean | splitter.js:23 | the second pass brings back no white space or decoration character |
| Cleaner.ContinentExemptionNeverFires | splitter.js:23 | the backtracking match of `(CCTV)(\d+)(\+?)[一-龥]+(?!欧洲\|美洲)` equals the plain greedy reading, so the continent exemption never fires |
| Cleaner.DigitsBacktrackFails | splitter.js:23 | giving back digits never yields a match the greedy reading missed |
| Cleaner.CctvQualifierDropped | splitter.js:23 | "CCTV" in any case, digits, an optional '+' and a CJK run match as one, keeping "CCTV", the digits and the '+' |
| Cleaner.CollapseNoCPrefix | splitter.js:23 | text without 'C' or 'c' passes the second pass unchanged |
| Cleaner.Clean | splitter.js:21-24 | the cleaned name is no longer than the raw one and holds no white space or decoration character |
| Cleaner.TrimIsIdle | splitter.js:24 | the final `trim` changes nothing, since the first pass already removed all white space |
| Cleaner.CleanCached | splitter.js:18-29 | with a coherent cache the result is the record for `name` (original, cleaned, upper-cased), the cache stays coherent and only grows |
| CleanerExamples.CctvQualifierRemoved | splitter.js:23 | "CCTV", a number, an optional '+' and a Chinese qualifier clean to "CCTV", the number and the '+' |
| CleanerExamples.BareCctvNumberKept | splitter.js:21-24 | "CCTV" and a number with nothing after them clean to themselves |
| CleanerExamples.QualityBeforeBracketedWordRemoved | splitter.js:22 | a bracket ends the 高清 look-ahead, so "高清(w)" cleans to `w` |
| CleanerExamples.QualityBeforeFilmKept | splitter.js:22 | 高清 followed by 电 or 影 before any bracket is kept |
| CleanerExamples.DecorationDropped | splitter.js:22 | a decoration character is removed on its own |
| CleanerExamples.CctvFourEurope | splitter.js:23 | "CCTV4欧洲" cleans to "CCTV4", although 欧洲 is the text the look-ahead names |
| CleanerExamples.CctvFivePlusSport | splitter.js:23 | "CCTV5+体育" cleans to "CCTV5+" |
| CleanerExamples.CleanNotIdempotent | splitter.js:21-24 | some name cleans to something that cleans to something else again |
| Categories.ContainsIgnoreCaseMeans | categories.js:5-7 | a `/a\|b/i` alternative matches exactly when it occurs at some position, ignoring ASCII case |
| Categories.PrioritiesAscend | categories.js:2-8 | the table's priorities are 1 to 4 in table order |
| Categories.RuleNamesMapped | categories.js:2-29 | every universal rule's name has a category pinyin, and every province rule's name has a province pinyin |
| Categories.OtherHasNoRuleAndNoFile | categories.js:2-29 | no rule is called 其他, and 其他 has no category pinyin |
| Classifier.Insert | splitter.js:234 | inserting a rule adds exactly that rule to the multiset |
| Classifier.SortByPriority | splitter.js:234 | the sorted rules are a permutation of the input |
| Classifier.SortSorts | splitter.js:234 | the sorted rules ascend by priority |
| Classifier.SortIsStable | splitter.js:234 | rules of equal priority keep their relative order |
| Classifier.SortKeepsTable | splitter.js:234 | the table, already in order, sorts to itself |
| Classifier.FirstMatch | splitter.js:236-269 | the first rule found matches the name; none is found exactly when no rule matches |
| Classifier.BestMeans | splitter.js:234-269 | the reference choice is a matching rule of least priority, the earliest among equals, and none exists exactly when nothing matches |
| Classifier.FirstMatchOfSortedIsBest | splitter.js:234-269 | the first match over the stably sorted rules is exactly the reference choice |
| Classifier.Classify | splitter.js:236-269 | a name matches exactly when some rule matches it, and then it takes that rule's name and universality; otherwise it gets the 其他 fallback |
| Classifier.ClassifyPicksBest | splitter.js:234-269 | the classification is the one of the best rule |
| Classifier.MatchedIsNotOther | splitter.js:250-253 | for a table without a 其他 rule, a channel is matched exactly when its category is not 其他 |
| ClassifierExamples.CctvNumberIsCentral | categories.js:4 | a whole name of "CCTV" and one or two digits is 央视 |
| ClassifierExamples.SatelliteBeatsProvince | categories.js:5-7 | a name with 卫视 is 卫视 even when it also names a province |
| ClassifierExamples.CentralPatternExamples | categories.js:4 | the 央视 pattern is anchored and takes one or two digits: "CCTV5+" and "CCTV123" fail it |
| ClassifierExamples.CctvPlusFallsThrough | splitter.js:229-280 | "CCTV5+" matches no rule and so falls through to 其他 |
| Dedup.ExtractChannelFragments | splitter.js:85-110 | the loop keeps exactly the first match for each cleaned name, with the fragment list and the map in step |
| Dedup.Step | splitter.js:91-109 | one turn extends the kept candidates exactly as the first-per-key reference does |
| Dedup.KeptDistinct | splitter.js:95 | no two kept channels share a cleaned name |
| Dedup.KeptCoversKeys | splitter.js:95 | every cleaned name of the input has a kept channel |
| Dedup.KeptAreFirsts | splitter.js:95-109 | every kept channel is the first occurrence of its cleaned name |
| Dedup.FirstsAreKept | splitter.js:95-109 | every first occurrence of a cleaned name is kept |
| Dedup.KeptExtends | splitter.js:85-110 | more input only appends to what was kept |
| Dedup.DuplicateRemovedAlwaysZero | splitter.js:194-198 | as written, `duplicateRemoved` is 0 for every input |
| Dedup.DuplicateRemovedMissesRepeat | splitter.js:194-198 | as written, two matches with one cleaned name keep one channel and still report 0 removed |
| Dedup.Stats | splitter.js:194-198 | the corrected count is positive exactly when two matches share a cleaned name, and 0 exactly when nothing was dropped |
| Dedup.DuplicatesCounted | splitter.js:194-198 | fewer channels are kept than matched exactly when two matches share a cleaned name |
| Dedup.FirstNonEmpty | splitter.js:205 | the first non-empty display-name text, or none when every one is empty |
| Dedup.ChannelInfo | splitter.js:202-212 | the name is the rewritten display name, else the first later non-empty one, else 未知频道; the id is the `id` attribute or "" |
| Dedup.ExtractChannelInfo | splitter.js:202-212 | one channel per fragment, in order |
| Dedup.InfoOfKept | splitter.js:97-100 | a rewritten fragment reads back its cleaned name, or a later display name when the cleaned name is empty |
| Dedup.AtMostOneEmptyName | splitter.js:95 | at most one kept channel has an empty cleaned name |
| Partition.Get | splitter.js:256 | a key is absent exactly when no entry has it |
| Partition.Push | splitter.js:256-264 | pushing appends to the array under the key, creating it when missing, and leaves every other key alone |
| Partition.Put | splitter.js:284 | storing sets the array under the key and leaves every other key alone |
| Partition.PushFlatten | splitter.js:256-264 | a push adds exactly one channel to the flattened object |
| Partition.PushGrouped | splitter.js:250-264 | a push keeps the keys distinct, free of 其他, and each array holding only its own category |
| Partition.MatchedIdsAre | splitter.js:226-253 | an id is remembered exactly when some channel with that id matched a rule |
| Partition.Round1Grouped | splitter.js:229-271 | after round 1 both objects have distinct keys, none of them 其他, and every array holds channels of its own category and universality |
| Partition.Round1Holds | splitter.js:229-271 | round 1 places exactly the matched channels, as a multiset |
| Partition.Round1Buckets | splitter.js:229-271 | the array under each category is the matched channels of that category and universality, in input order |
| Partition.OthersMembers | splitter.js:274-280 | round 2 collects exactly the channels whose id round 1 did not remember, as universal 其他 |
| Partition.OthersMeans | splitter.js:274-280 | a channel is 其他 exactly when no channel with its id matched a rule |
| Partition.OtherBucket | splitter.js:283-285 | the universal object has a 其他 key exactly when the 其他 list is non-empty, and then holds that list; other keys are round 1's |
| Partition.AllUniversalSplits | splitter.js:294-304 | the universal pool is round 1's universal channels in key order, then the 其他 ones |
| Partition.OthersWhenIdsDistinct | splitter.js:274-280 | with distinct ids, 其他 is exactly the unmatched channels in input order |
| Partition.EveryChannelOnce | splitter.js:215-304 | with distinct ids, every channel lands in exactly one bucket, and the buckets hold nothing else |
| Partition.CollisionDropped | splitter.js:226-280 | an unmatched channel sharing its id with a matched one lands in no bucket |
| Partition.BucketsCount | splitter.js:215-304 | the buckets hold at most as many channels as the input, and exactly as many when ids are distinct |
| Partition.TableConsistent | categories.js:2-8 | the table's judgement gives a matched name a category other than 其他, and an unmatched one 其他, universal |
| Bundles.AttrFrom | splitter.js:314 | the first `channel="…"` with a non-empty quote-free value at or after a position, or none when there is no such attribute |
| Bundles.FilterProgrammes | splitter.js:307-317 | empty input gives `[]`; a programme is kept exactly when its first `channel` value is one of the ids |
| Bundles.FilterAppend | splitter.js:313-316 | the filter works programme by programme, so the result is the order-preserving subsequence of wanted programmes |
| Bundles.FilterOne | splitter.js:313-316 | one programme is kept exactly when it is wanted |
| Bundles.ProvinceFilesSkipUnmapped | splitter.js:333-338 | the province files are exactly the provinces with a pinyin, in object order |
| Bundles.ProvinceFileIds | splitter.js:340-377 | a province file's ids are its local ids, then the non-其他 pool ids, then the 其他 ids; its total is their count and the sum of its three counts; its programme count is the filtered programmes' count |
| Bundles.SameSharedPart | splitter.js:359-363 | every province file has the same shared tail after its local ids |
| Bundles.PoolSplits | splitter.js:341-342 | split out of the universal pool, the non-其他 part is round 1's universal channels and the 其他 part is the 其他 list |
| Bundles.ProvinceIdsFromPartition | splitter.js:333-377 | a province file's ids are its province array's ids, then round 1's universal ids, then the 其他 ids |
| Bundles.UniversalFilesSkip | splitter.js:487-494 | the category files are exactly the non-empty categories with a pinyin, in object order |
| Bundles.UniversalFileCounts | splitter.js:487-539 | a category file counts its category's channels and the programmes of their ids |
| Bundles.NoOtherFile | splitter.js:487-494 | 其他 never gets a category file |
| Bundles.SumLengthsFlatten | splitter.js:600-603 | summing array lengths gives the length of the flattened object |
| Bundles.SummaryCounts | splitter.js:597-608 | the summary's province and universal counts add up to at most the channel total, exactly when ids are distinct; the universal count includes the 其他 channels |
| Processor.NextTags | processor.js:12-13 | when both tags are found, the opening tag is at or after the cursor, the closing tag is not before it, and the whole closing tag fits in the text |
| Processor.Collect | processor.js:10-18 | the cursor loop returns exactly the reference scan |
| Processor.Process | processor.js:5-36 | as written: channel slices end at `end + 10`, programme slices at `end + 11` |
| Processor.ProcessFixed | processor.js:21-30 | the corrected programme loop slices to `end + 12` |
| Processor.SpansInOrder | processor.js:12-29 | the slices lie after the cursor, are non-empty, and do not overlap, in document order |
| Processor.SpansCutAt | processor.js:12-29 | each slice starts at the first opening tag after the previous slice, and runs to the first closing tag after that |
| Processor.SpansStop | processor.js:12-14 | the scan stops when no opening tag remains, or at the first opening tag with no closing tag after it |
| Processor.ScanFragments | processor.js:12-29 | each fragment is the slice of its span, starts with the opening tag and ends with the first `width` characters of the closing tag |
| Processor.ChannelFragmentsWhole | processor.js:12-17 | every channel fragment starts with `<channel` and ends with `</channel>` |
| Processor.ProgrammeFragmentsCutShort | processor.js:24-29 | as written, every programme fragment ends with `</programme` and never with `</programme>` |
| Processor.ProgrammeCutExample | processor.js:24-29 | as written, `<programme>x</programme>` gives the fragment `<programme>x</programme` |
| Processor.ProgrammeFragmentsWhole | processor.js:24-29 | with the corrected width, every programme fragment ends with `</programme>` |
| Formatter.Spaces | splitter.js:64 | `' '.repeat(n)` is `n` spaces |
| Formatter.Repair | splitter.js:56-61 | a `<programme` fragment ends with `>` after the repair; anything else, or one already ending with `>`, is unchanged; at most one `>` is added |
| Formatter.IndentLinesIndented | splitter.js:68-71 | every kept line is the indent, then non-blank text that begins and ends with a non-space character |
| Formatter.IndentLinesEmpty | splitter.js:68-71 | nothing is kept exactly when every line is blank |
| Formatter.FormatEmpty | splitter.js:51-72 | the output is empty exactly when the fragment is all white space |
| Formatter.FormatIndented | splitter.js:51-72 | every output line is non-empty and starts with the indent, followed by a non-space character |
| Formatter.LayoutKeepsEnding | splitter.js:64-71 | a text ending with a newline-free, solid `v` still ends with `v` after the layout |
| Formatter.ProgrammeRepaired | splitter.js:51-72 | a programme fragment ending with `</programme` or `</programme>` is formatted to end with `</programme>` |
| Formatter.ProcessorProgrammesRepaired | splitter.js:56-61 | if a programme fragment the processor cuts short were passed to `formatXmlFragment`, it would come out ending with `</programme>` again |

## Left out

- The channel regular expression (splitter.js:15) is not modelled. Its matches enter
  `Dedup.ExtractChannelFragments` as a sequence of `(id, display name, later display
  names)` captures. The same goes for the `<programme` regex of `extractProgrammeFragments`
  (splitter.js:125): the programme fragments enter the bundles as strings.
- Dedup.ChannelInfo: a fragment is abstracted to its `id` attribute, the text of its
  rewritten `display-name` and the texts of the later ones. The regex's `\b` before `id=`
  and the `[^>]*` attribute runs are not modelled.
- `$`-substitution in the rewrite (splitter.js:97-100) is not modelled. A cleaned name
  containing `$&`, `` $` `` or `$'` would be expanded by JavaScript. The model inserts the
  cleaned name literally.
- Text.Upper: `toUpperCase` is modelled on ASCII letters only. Other letters keep their
  case. The `/i` flag likewise folds ASCII case only.
- Strings are sequences of Unicode scalar values. JavaScript works on UTF-16 code units.
  This differs only for characters outside the Basic Multilingual Plane, which none of
  the patterns mention.
- A `null` or `undefined` input is not modelled.
- The JavaScript-object corner cases are not modelled: integer-like keys are ordered first,
  and inherited names such as `constructor` are visible to `provincePinyinMap[...]`. The
  category names in the table are neither.
- The Partition lemmas are stated for any judgement that is `Consistent`. The source's
  table is one by `Partition.TableConsistent`.
- File I/O, the output directory, the clock (`getChineseTime`, `updateTime`), file sizes,
  `formatFileSizeMB` and the console logging are left out. They depend on the file system
  or the clock and decide no channel's placement.
- The XML assembly of `generateProvinceXml`, `generateUniversalFiles` and
  `generateCompleteFile` (headers, comments, concatenation) is left out. The model keeps
  which channels and programmes each file gets, and their counts.
- downloader.js and index.js are not part of this model. In particular, index.js hands
  the processor's `{ channelFragments, programmeFragments }` object to `split`, whose
  regexes then run on the text `"[object Object]"`. That hand-over is not modelled: the
  processor and the splitter are modelled each on its own XML text.

## Findings

| source | as written | input that shows it | evidently intended | confidence | as-written member | corrected member |
|---|---|---|---|---|---|---|
| splitter.js:194-198 | `duplicateRemoved` is `channelMap.size - channelFragments.length`, but both grow under the same `if`, so it is always 0 | two matches whose names clean to the same text: one channel is kept, 0 reported removed | the number of matches dropped as duplicates | not executed | Dedup.StatsAsWritten, Dedup.DuplicateRemovedAlwaysZero, Dedup.DuplicateRemovedMissesRepeat | Dedup.Stats, Dedup.DuplicatesCounted |
| processor.js:28-29 | the programme slice stops at `end + 11`, one character short of the 12-character `</programme>` | `<programme>x</programme>` gives `<programme>x</programme` | slice to `end + 12`, keeping the whole closing tag | not executed | Processor.Process, Processor.ProgrammeFragmentsCutShort, Processor.ProgrammeCutExample | Processor.ProcessFixed, Processor.ProgrammeFragmentsWhole |

The second finding is not repaired anywhere in the program: no fragment the processor
cuts reaches `formatXmlFragment`. If the processor's programme fragments were passed to
`formatXmlFragment`, it would append the missing `>` to each
(`Formatter.ProcessorProgrammesRepaired`).
