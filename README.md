# Plate canonicalisation of compvis-backend, in Dafny

This project models the text side of the licence-plate reader in `utils.py`.
It covers what happens to the strings the OCR engine returns:

- **cleanup** (`limpar_placa`);
- **digit/letter confusion repair** (`change_char_in_position`,
  `change_number_in_position`);
- **format correction** (`correct_plate`), which accepts only the two Brazilian
  formats LLLNNNN (legacy) and LLLNLNN (current, Mercosul);
- **fragment selection** in `extract_plate_from_image`: the `BRASIL` marker, then
  single tokens, then ordered pairs of tokens;
- **the per-video tally** of accepted plates in `analyze_video`;
- **near-duplicate grouping** by Hamming distance (`hamming_distance`,
  `agrupar_placas_por_hamming_completo`);
- **the final merge** of each group into one report entry.

## Modules

One module per file:

| module | file | models |
|---|---|---|
| `Wrappers` | `wrappers.dfy` | `Option` and `Result` |
| `Seqs` | `seqs.dfy` | shared facts about sequences |
| `Text` | `text.dfy` | `limpar_placa` |
| `Confusion` | `confusion.dfy` | the 8/B, 1/I, 0/O, 5/S, 6/G, 3/J table and the two position helpers |
| `Corrector` | `corrector.dfy` | `correct_plate` |
| `Fragments` | `fragments.dfy` | the token loop and the two candidate loops of `extract_plate_from_image` |
| `Aggregation` | `aggregation.dfy` | the `plates` dictionary, as a class with the dictionary and its key order |
| `Hamming` | `hamming.dfy` | `hamming_distance` |
| `Clustering` | `clustering.dfy` | graph construction, depth-first search, outer grouping loop |
| `Merge` | `merge.dfy` | the `grouped_plates` loop |
| `Pipeline` | `pipeline.dfy` | the post-OCR part of `analyze_video`, composed end to end |

## How each piece is modelled

The imperative parts of the source are Dafny methods with loops. Each method
below has an `ensures` that equates its result with the specification function
named after it:

- `correct_plate` becomes `Corrector.CorrectPlate`, against `Correct`.
- The token selection becomes `Fragments.DetectWords`, `TryWords`, `TryPairs`
  and `SelectPlate`, against `Words`, `FirstSuccess`, `Pairs` and `Select`.
- The adjacency-list construction has two methods:
  - `Clustering.LinkRow` is the inner loop, against `RowPart`;
  - `Clustering.BuildGraph` is the outer loop, against `RowsDone`.
- The depth-first search `Clustering.Dfs` is a recursive method over the
  visited set, against `Search`. `Search` fixes the order in which a group
  lists its plates: depth first, in the order of the adjacency lists.
- The outer grouping loop `Clustering.Components` is against `GroupedFrom`.
  `Clustering.GroupPlates` composes both loops and returns `Grouping`.
- The merge loop is `Merge.MergeGroups`, against `Merged`.
- `Pipeline.Analyze` returns `Report`, the merge of `Grouping` over the tally.

The properties the source promises are then lemmas about these functions, such
as `Clustering.SearchMeaning`, `Clustering.GroupingMeaning` and
`Pipeline.ReportMeaning`.

The `plates` dictionary becomes the class `Aggregation.Aggregator`. It is not
tied to a function of its inputs in the same way:

- its fields are the map and its insertion order;
- a ghost log of the sightings so far ties them to `Tally` and `KeyOrder`;
- `Pipeline.Aggregate` proves that the log is `Accepted` of the crops.

The pure helpers are functions, with lemmas for the properties the code relies
on: `Clean`, `ChangeChar`, `ChangeNumber` and `HammingDistance`.

Raising and early returns are modelled explicitly:

- `hamming_distance` raises on strings of different lengths. It returns `Err`
  in that case.
- The grouping propagates that error. It is not made a precondition.
- `Pipeline.NeverRaises` proves that the error cannot occur on plates that
  `correct_plate` accepted, since all of them have seven characters.

### Behaviour worth noting

- **Unequal lengths.** `agrupar_placas_por_hamming_completo` calls
  `hamming_distance` on every pair, with no length guard (utils.py:212). Two
  plates of different lengths therefore raise. The model returns the error
  rather than treating them as not close.
- **Frame of a merged group.** The merged record takes its `frame` from the
  first plate of the group, `all_group_plates[0]` (utils.py:330). It does not
  take the frame of the most frequent plate. The image does come from the most
  frequent plate (utils.py:331). `Merge.ExampleFrameFromFirst` shows a group
  where the two differ.
- **Ties for the winner.** Of equally frequent plates, `max` keeps the first
  in group order. `Merge.WinnerIndex` states this, and `Merge.ExampleTie`
  shows it. Group order is the depth-first order of `Clustering.Search`, so
  which plate wins a tie depends on the adjacency lists.
  `Clustering.ExampleSearchOrder` shows a group listed in depth-first rather
  than input order. `Merge.ExampleTieFollowsOrder` shows that reordering a
  group can change its winner.

## Model

| member | source | states |
|---|---|---|
| Text.Clean | utils.py:104-106 | the result consists only of characters of `[A-Z0-9]` and is no longer than the input |
| Text.CleanKeepsClean | utils.py:104-106 | a string already made of `A-Z0-9` is returned unchanged |
| Text.CleanIdempotent | utils.py:104-106 | cleaning twice equals cleaning once |
| Text.CleanAppend | utils.py:104-106 | cleaning distributes over concatenation, so it works character by character |
| Text.CleanIgnoresSpaces | utils.py:153-154 | removing spaces before cleaning changes nothing, because a space never survives the cleanup |
| Text.CleanCounts | utils.py:104-106 | the output holds each upper-case letter as often as the input held it in either case, each digit as often as the input did, and nothing else |
| Text.CleanBrasil | utils.py:156 | on a cleaned token, `text.lower() == "brasil"` holds exactly when the token is `BRASIL` |
| Text.Lower | utils.py:156 | lower-casing keeps the length and lower-cases each character |
| Text.RemoveSpaces | utils.py:153 | the result holds no space and is no longer than the input |
| Text.RemoveSpacesChar | utils.py:153 | a space is dropped and any other character is kept |
| Text.RemoveSpacesAppend | utils.py:153 | removing spaces distributes over concatenation, so the remaining characters keep their order |
| Text.RemoveSpacesCounts | utils.py:153 | every character other than the space occurs in the result exactly as often as in the input |
| Text.RemoveSpacesKeeps | utils.py:153 | a text without spaces is returned unchanged |
| Confusion.LetterFor | utils.py:51-67 | a digit of the table maps to its confusable letter, and anything else maps to itself |
| Confusion.DigitFor | utils.py:69-85 | a letter of the table maps to its confusable digit, and anything else maps to itself |
| Confusion.ConfusableIsBijection | utils.py:51-85 | the six pairs join digits to upper-case letters one to one, and each direction inverts the other |
| Confusion.ChangeChar | utils.py:51-67 | length is kept; only the given index can change; it changes exactly when it holds a digit of the table, into its letter; an index past the end leaves the word unchanged |
| Confusion.ChangeNumber | utils.py:69-85 | the same for letters of the table, which become their digits |
| Confusion.ChangeCharAt | utils.py:52-53 | the `isdigit` guard plus the replacement equals replacing the character by `ToLetter` in place |
| Confusion.ChangeNumberAt | utils.py:70-71 | the `isalpha` guard plus the replacement equals replacing the character by `ToDigit` in place |
| Confusion.ChangeNumberUndoesChangeChar | utils.py:51-85 | on a table digit, `change_char_in_position` changes the word and `change_number_in_position` restores it |
| Confusion.ChangeCharUndoesChangeNumber | utils.py:51-85 | on a table letter, `change_number_in_position` changes the word and `change_char_in_position` restores it |
| Confusion.ChangeCharIdempotent | utils.py:51-67 | applying `change_char_in_position` twice at one index equals applying it once |
| Confusion.ChangeNumberIdempotent | utils.py:69-85 | applying `change_number_in_position` twice at one index equals applying it once |
| Corrector.FormatsAreExclusive | utils.py:130 | no string matches both accepted patterns |
| Corrector.Correct | utils.py:108-133 | every accepted result has seven characters and matches `^[A-Z]{3}\d{4}$` or `^[A-Z]{3}\d[A-Z]\d{2}$` |
| Corrector.CorrectPlate | utils.py:108-133 | the loops over the letter positions, the digit positions and the era position, followed by the pattern test, compute `Correct` |
| Corrector.LetterStep | utils.py:118-120 | one round of the letter loop moves its invariant on by one position |
| Corrector.DigitStep | utils.py:122-124 | one round of the digit loop moves its invariant on by one position |
| Corrector.EraStep | utils.py:126-133 | after both loops, the era step plus the pattern test yield `Correct` |
| Corrector.CorrectRejectsLength | utils.py:109-110 | a candidate shorter than 7 or longer than 8 is rejected; the second case is because it always fails the anchored match |
| Corrector.CorrectDropsNoise | utils.py:111-113 | an 8-character candidate is corrected exactly as its last seven characters |
| Corrector.CorrectOnlySubstitutes | utils.py:115-127 | an accepted plate equals the trimmed candidate except at confusable characters, each replaced by its partner |
| Corrector.HintOnlyAffectsEraSlot | utils.py:126-127 | the hint never decides acceptance; the two results agree everywhere except index 4 |
| Corrector.CorrectIdempotent | utils.py:108-133 | correcting an accepted plate again gives the same plate |
| Corrector.CurrentPlateIsFixed | utils.py:115-131 | a current-format plate is returned unchanged, whatever the hint |
| Corrector.LegacyPlateUnderHint | utils.py:126-131 | a legacy plate is unchanged without the hint; with the hint its era digit becomes a letter; when that digit is in the table the result is a current-format plate |
| Corrector.CorrectSeven | utils.py:108-133 | a 7-character candidate is accepted exactly when its corrected form matches a pattern |
| Corrector.ExampleLetterSlot | utils.py:118-120 | `8AA1234` becomes `BAA1234` |
| Corrector.ExampleNoise | utils.py:111-113 | `XABC1234` becomes `ABC1234` |
| Corrector.CurrentOrLegacyExample | utils.py:130-131 | `ABC1234` is accepted unchanged |
| Corrector.ExampleEraHint | utils.py:126-127 | `ABC1034` becomes `ABC1O34` with the hint and stays as it is without it |
| Fragments.Token | utils.py:153-154 | a detected token, spaces removed and cleaned, is made only of `A-Z0-9` |
| Fragments.HasMarkerMeaning | utils.py:156-157 | the hint is switched on exactly when some token is the marker |
| Fragments.Words | utils.py:150-160 | `detected_words` is no longer than the OCR output and holds clean tokens, none of them the marker |
| Fragments.WordsStep | utils.py:152-160 | one more OCR text appends its token unless it is the marker, and switches the hint on if it is |
| Fragments.WordsAppend | utils.py:150-160 | the detected words of two runs of OCR text are those of each run, concatenated |
| Fragments.WordsAreTokens | utils.py:153-160 | each detected word is the token of some OCR text |
| Fragments.FirstSuccessMeaning | utils.py:164-176 | no candidate succeeds exactly when all fail; otherwise the result is the correction of some candidate, and every earlier candidate fails |
| Fragments.FirstIndexMeaning | utils.py:164-176 | the first successful candidate is at `FirstIndex`, and every candidate before it fails |
| Fragments.FirstSuccessAppend | utils.py:164-176 | trying `a` then `b` returns the first success of `a`, or, if `a` has none, the first success of `b` |
| Fragments.SelectIsPlate | utils.py:141-178 | a selected plate has seven characters and one of the two formats |
| Fragments.DetectWords | utils.py:150-160 | the token loop computes `Words`, and its hint is the given hint or the marker's presence |
| Fragments.TryWords | utils.py:164-167 | the single-word loop returns the first successful correction of the words in order |
| Fragments.TryPairs | utils.py:170-178 | the pair loop returns the first successful correction over `Pairs`, in the order of the nested loops |
| Fragments.SelectPlate | utils.py:141-178 | the whole selection computes `Select` |
| Fragments.PairsAreOrderedConcatenations | utils.py:170-173 | the pair candidates are exactly the concatenations `ws[i] + ws[j]` with i < j |
| Fragments.PairAt | utils.py:170-173 | the pair (i, j) stands at position `PairIndex(n, i, j)` of the pair candidates |
| Fragments.PairIndexIsLexicographic | utils.py:170-171 | the pairs are tried in lexicographic order of (i, j) |
| Fragments.WordsBeforePairs | utils.py:164-176 | every single word is tried before every pair |
| Fragments.SingleWordWins | utils.py:164-167 | if some single word corrects, the pair loop is never reached |
| Fragments.CandidatesComeFromTokens | utils.py:150-173 | every candidate is a non-marker token or the concatenation of two, in order |
| Fragments.MarkerAnywhere | utils.py:156-157 | a marker token, wherever it stands, contributes no candidate and puts the hint on for every attempt |
| Fragments.NoMarkerKeepsHint | utils.py:143-157 | without a marker token, the blue-strip hint is used as it was given |
| Fragments.WordsOfOne | utils.py:152-160 | one OCR text yields its token, or nothing when it is the marker |
| Fragments.TokenOfClean | utils.py:153-154 | a clean text is its own token |
| Fragments.ExampleWords | utils.py:150-160 | the texts `AB` and `C1234` yield the words `AB` and `C1234` and no marker |
| Fragments.ExampleCandidates | utils.py:164-173 | their candidates are `AB`, `C1234` and `ABC1234`, in that order |
| Fragments.ExampleSplitFragments | utils.py:164-176 | a plate split over two fragments is found by the pair loop, with the same result as correcting the concatenation |
| Aggregation.TallyMeaning | utils.py:286-298 | a plate has a record exactly when it was sighted; its frequency is its number of sightings; its frame and image are those of its first sighting |
| Aggregation.KeyOrderMeaning | utils.py:315 | `list(plates.keys())` lists every recorded plate once, in the order of first sightings |
| Aggregation.RepeatedPlate | utils.py:286-298 | recording one plate N times gives one key, frequency N, and the frame and image of the first recording |
| Aggregation.Aggregator.constructor | utils.py:266 | `plates = {}` starts with no record and no key |
| Aggregation.Aggregator.Observe | utils.py:284-298 | a new plate is inserted with frequency 1 and its frame and image, and appended to the key order; a known plate has only its frequency increased by one; an empty or missing plate changes nothing |
| Aggregation.Aggregator.Keys | utils.py:315 | the keys come without repetition, are exactly the recorded plates, and are in insertion order |
| Hamming.HammingDistance | utils.py:183-197 | the strings must have equal lengths, and this is the only error; the distance never exceeds the length |
| Hamming.DistanceWithin | utils.py:212 | the test `hamming_distance(...) <= max_dist` is the predicate `Close` |
| Hamming.MismatchesZero | utils.py:197 | the distance is 0 exactly when the strings are equal |
| Hamming.MismatchesSymmetric | utils.py:197 | the distance is symmetric |
| Hamming.MismatchesTriangle | utils.py:197 | the distance satisfies the triangle inequality |
| Hamming.MismatchesOne | utils.py:197 | the distance is 1 exactly when the strings differ at one position |
| Hamming.Examples | utils.py:183-197 | `ABC1234` and `ABC1235` are at distance 1; `ABC1234` and `ABD1235` are at distance 2; strings of different length raise |
| Clustering.PartnersMeaning | utils.py:210-214 | the list the two loops give to a plate holds exactly the other plates close to it |
| Clustering.AddPairStep | utils.py:212-214 | handling pair (i, j) adds each plate to the other's list exactly when they are close |
| Clustering.RowPartMeaning | utils.py:211-214 | part way through row i, every list holds exactly the close partners compared so far, in loop order |
| Clustering.BuiltIsGraph | utils.py:208-214 | after both loops, every plate's list holds its close partners in increasing input order, and nothing else has a list |
| Clustering.LinkRow | utils.py:211-214 | the inner loop raises exactly when a later plate differs in length from `placas[i]`, and otherwise performs row i |
| Clustering.BuildGraph | utils.py:208-214 | the construction raises exactly when two plates differ in length, and otherwise builds `RowsDone`, the graph of close pairs |
| Clustering.NeighbourMeaning | utils.py:208-214 | two plates are neighbours exactly when they are distinct input plates within the bound, so the graph is undirected |
| Clustering.Search | utils.py:222-227 | the marks only grow, and the start plate is marked |
| Clustering.Dfs | utils.py:222-227 | the recursive search returns the marks and the group of `Search`: the start plate, then depth first through each unvisited neighbour in adjacency-list order |
| Clustering.SearchMeaning | utils.py:222-227 | the search appends the start plate and then new plates only, each a neighbour of an earlier group member; it marks exactly the plates it appends and leaves every neighbour of them marked |
| Clustering.SearchFromMeaning | utils.py:225-227 | the neighbour loop keeps that invariant from each position of the adjacency list to its end |
| Clustering.ExampleSearchOrder | utils.py:222-227 | on the graph A-B, A-C, B-D the search from A lists A, B, D, C, so D, reached through B, comes before C |
| Clustering.GroupedFromMeaning | utils.py:229-233 | the outer loop keeps its invariant from each plate to the end: the marked plates are exactly the grouped ones and include every plate looked at; each group is repeat-free and reached plate by plate; the groups are disjoint and closed under neighbours; each opens with its earliest plate, and they open in input order |
| Clustering.Components | utils.py:216-235 | the outer loop and its calls of `Dfs` return the groups of `GroupedFrom` on the graph |
| Clustering.GroupingMeaning | utils.py:199-235 | the groups partition the plates; close plates share a group; each member after the first is close to an earlier member; each group opens with its earliest plate, and the groups come in input order |
| Clustering.GroupPlates | utils.py:199-235 | the grouping raises exactly when two plates differ in length, and otherwise returns `Grouping`, with the properties of `GroupingMeaning` |
| Merge.WinnerIndex | utils.py:326 | `max(grupo, key=frequency)` picks a member of highest frequency and, among equals, the first one |
| Merge.WinnerInGroup | utils.py:326 | the winner is a member of its group |
| Merge.SingletonAgrees | utils.py:321-323 | a group of one plate keeps that plate's record unchanged |
| Merge.GroupFrequency | utils.py:329 | a merged record's frequency is the sum of its members' frequencies |
| Merge.Merged | utils.py:319-333 | the report's keys are exactly the groups' winners |
| Merge.Winners | utils.py:326 | there is one winner per group, in group order |
| Merge.MergeGroups | utils.py:319-333 | the loop computes `Merged`, and the keys it inserts are the winners in order |
| Merge.MergedMeaning | utils.py:319-333 | each group's winner is reported with the group's record: the summed frequency, the frame of `grupo[0]` and the winner's image |
| Merge.WinnersDistinct | utils.py:319-333 | the winners of disjoint groups are distinct, so no entry of the report overwrites another |
| Merge.SumFreqPermutation | utils.py:329 | the summed frequency does not depend on the order of the members |
| Merge.TotalPreserved | utils.py:319-333 | the report's total frequency equals the total over all grouped plates |
| Merge.ExampleMergeTwo | utils.py:324-332 | two close plates with frequencies 7 and 2 merge under the first, with frequency 9 |
| Merge.ExampleFrameFromFirst | utils.py:330-331 | the frame comes from the group's first member even when another member wins |
| Merge.ExampleTie | utils.py:326 | of two equally frequent plates, the first one wins |
| Merge.ExampleTieFollowsOrder | utils.py:326 | with two equally frequent plates in one group, the one listed first wins, so listing the group in another order changes the winner |
| Pipeline.Accepted | utils.py:283-298 | at most one sighting is recorded per crop |
| Pipeline.AcceptedOne | utils.py:284-298 | one crop contributes its reading exactly when the reading is a non-empty plate, and nothing otherwise |
| Pipeline.AcceptedAppend | utils.py:283-298 | the crops are handled in order: the sightings of two runs of crops are those of the first run followed by those of the second |
| Pipeline.Aggregate | utils.py:283-298 | the crop loop leaves the dictionary valid, with its log of sightings equal to `Accepted` of the crops |
| Pipeline.AcceptedArePlates | utils.py:284-286 | every recorded sighting is a seven-character plate of one of the two formats |
| Pipeline.NeverRaises | utils.py:315-316 | the plates handed to the grouping all have the same length, so `hamming_distance` never raises there |
| Pipeline.TallyTotal | utils.py:286-298 | the frequencies of the recorded plates add up to the number of accepted sightings |
| Pipeline.PartitionPermutes | utils.py:229-235 | the grouped plates, concatenated, are a permutation of the input plates |
| Pipeline.ReportFacts | utils.py:315-333 | the report's keys are distinct recorded plates, and its frequencies add up to the number of accepted sightings |
| Pipeline.ReportMeaning | utils.py:314-333 | the groups are the connected components of the tallied plates at distance at most 1, in input order; the report has one entry per group, under the group's winner, holding the group's merged record; its keys are distinct recorded plates and its frequencies add up to the number of sightings |
| Pipeline.TwoCloseTalliedMerge | utils.py:314-333 | two tallied plates at distance at most 1 form one group in order of first sighting and give one entry, under the winner, whose frequency counts every sighting and whose frame is that of the first plate |
| Pipeline.OneGroup | utils.py:229-235 | a partition of two close plates that keeps close plates together and follows input order is a single group of both |
| Pipeline.Analyze | utils.py:283-333 | an error arises exactly when two tallied plates differ in length, which `NeverRaises` excludes; otherwise the result is `Report` of the accepted sightings, so the merge of the groups of `Grouping`; its keys are distinct recorded plates in the two formats, and the frequencies add up to the number of accepted sightings |

## Left out

- The YOLO detector `classify_and_crop` (utils.py:16-47). It is a foreign model call. Each crop arrives as a `Crop` value.
- `detect_blue_strip` (utils.py:87-102). It is OpenCV HSV masking with a floating-point threshold. Its verdict is the `blueStrip` field of a crop.
- The PaddleOCR engine (utils.py:135-148). Each crop carries the texts the engine returned, in reading order. An empty or `None` OCR result is the empty sequence, and it yields no plate just as the early `return None` does (utils.py:146-148).
- The OCR confidences stored next to each word (utils.py:160). Nothing reads them.
- The video loop of `analyze_video` (utils.py:250-312):
  - opening the file and its error;
  - `cv2.VideoCapture`;
  - the frame sampling `frame_number % int(fps / 3)`, which is float arithmetic;
  - the debug window.

  The crops of the sampled frames are the input sequence, in order.
- The PNG and base64 encoding of a crop (utils.py:288-290). The encoded image is an opaque string carried through.
- All `print` logging.
- `main.py`, which is the HTTP layer: FastAPI, the temporary file, the external API client and the JSON cache. It is not part of this model.
- Unicode case mapping and the Unicode classes of `str.isdigit`, `str.isalpha`, `\d` and `str.upper`. Characters are modelled as ASCII, which is what `limpar_placa` leaves for `correct_plate`.
- Clustering.Components: requires distinct plates. The keys of a dictionary are distinct, and that is the only input the source gives it (utils.py:315).
- Merge.MergeGroups: requires non-empty groups whose plates all have records. The source fails otherwise (`grupo[0]`, `plates[p]`), and the grouping only produces such groups.
- The model does not capture aliasing between the DFS's `grupo` list and the caller's. The group is returned instead of appended to a shared list, which gives the same sequence.
