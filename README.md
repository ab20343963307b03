# Profile matching and schema mapping: a Dafny model

This project models the deterministic decision logic of a customer-profile
unification system. Records from several data sources are mapped onto a
unified schema and then matched against a query to build one merged
profile. The model covers four parts:

- **Profile scoring, ranking and merging** (`ProfileScoring`,
  `ProfileMatching`; agents/profile_matching_agent.py):
  - the name and identifier normalisers and the per-field scorers;
  - the weighted-average match score and the strong-match rule;
  - record acceptance with the per-source stable sort (`find_matches`);
  - the top-record merge (`merge_matches`).
- **The rule-based schema mapper** (`LlmService`; utils/llm_service.py and
  the tables of utils/config.py in `Config`):
  - the exact / substring / contextual tiers of the mock mapper;
  - the confidence categories;
  - the counters of a whole-source mapping;
  - the validation and clamping applied to a model reply once its JSON
    object has been located.
- **The schema-identification transforms** (`SchemaIdentification`;
  agents/schema_identification_agent.py):
  - growing the agent's schema;
  - the map-or-log decision per source field;
  - deriving and splitting person names over the rows of a frame;
  - remapping a frame onto the unified column order;
  - validating a stored mapping;
  - the structured/unstructured heuristic.
- **The data loader's pure parts** (`DataLoader`; utils/data_loader.py):
  - the extension priority of the source-file lookup;
  - the set algebra of the schema comparison.

Python dictionaries whose order matters are sequences of key/value pairs
(`Dicts`): assigning an existing key overwrites it in place, and a new key
is appended. Foreign libraries are fields of an `Oracles` datatype of total
functions:

- rapidfuzz and `SequenceMatcher`;
- the dateutil parser;
- phonenumbers;
- email_validator.

Their promised ranges appear only as the hypothesis `ValidOracles`. The
language-model calls are parameters of the same kind:

- `Mapper`, a field and its context giving a field and a confidence;
- `ExtendOracle`, for the yes/no schema-extension question.

Scores and confidences are `real`. Strings are sequences of characters, and
`lower()` is ASCII case folding.

Stateful code keeps its form:

- `SchemaAgent` is a class. Its schema, unmapped log and store of
  generated mappings are fields that its methods update. The store is
  filled by `StoreMapping`, the assignment that ends
  `generate_schema_mapping`, and read by `ValidateMapping`.
- `_handle_name_fields` updates an `array` of rows in place.
- The source's loops are `while` loops, each proved against a
  specification function by its method's contract. There are two
  exceptions, which are recursive functions:
  - the extension loop of `_find_source_file` (`DataLoader.SourceFile`);
  - the word filter of `_normalize_name` (`ProfileScoring.DropAffixes`).

## Model

| member | source | states |
|---|---|---|
| ProfileScoring.DropAffixes | agents/profile_matching_agent.py:146-151 | the kept words are exactly the input words that are neither a name prefix nor a suffix; every non-affix input word is kept, and a list without affixes is returned unchanged |
| ProfileScoring.DropAffixesAppend | agents/profile_matching_agent.py:146-151 | the word filter keeps the words in order: filtering a concatenation is filtering each part |
| ProfileScoring.NormalizedTokens | agents/profile_matching_agent.py:141-153 | every word left in a normalised name is non-empty, not a prefix or suffix, and made of `[a-z0-9-]` |
| ProfileScoring.NormalizeNameShape | agents/profile_matching_agent.py:137-153 | empty input gives ""; the output is its non-empty `[a-z0-9-]` tokens joined by single blanks, with no affix word |
| ProfileScoring.NormalizeNameIdempotent | agents/profile_matching_agent.py:137-153 | normalising a name twice equals normalising it once |
| ProfileScoring.NormalizeIdChars | agents/profile_matching_agent.py:235-239 | a normalised identifier holds only `[a-z0-9]` |
| ProfileScoring.NormalizeIdIgnoresCase | agents/profile_matching_agent.py:239 | case folding the input does not change the normalised identifier |
| ProfileScoring.NormalizeIdIgnoresSeparator | agents/profile_matching_agent.py:239 | removing one blank or punctuation character does not change the normalised identifier |
| ProfileScoring.IdScoreEquivalentIds | agents/profile_matching_agent.py:337-346 | identifiers with the same non-empty normal form score 100; an identifier that normalises to "" scores 0 |
| ProfileScoring.DateScoreSpec | agents/profile_matching_agent.py:291-322 | 0 when either date fails to parse; otherwise the tier of the day gap (100/90/80/60/40/0 for 0, ≤1, ≤7, ≤30, ≤365, more); symmetric in its arguments |
| ProfileScoring.DateTierMonotone | agents/profile_matching_agent.py:311-322 | a wider gap never gets a higher tier |
| ProfileScoring.DateScoreMonotone | agents/profile_matching_agent.py:291-322 | against the same query date, a farther record date never scores higher |
| ProfileScoring.PhoneLastSevenBonus | agents/profile_matching_agent.py:414-438 | two valid numbers that agree in their last seven characters score at least 90 |
| ProfileScoring.ScoresInRange | agents/profile_matching_agent.py:241-438 | with libraries that keep their ranges, the name, id, date, email and phone scores all lie in [0, 100] |
| ProfileScoring.NameScoreInRange | agents/profile_matching_agent.py:241-278 | the name score lies in [0, 100] when the fuzzy ratios do |
| ProfileScoring.IdScoreInRange | agents/profile_matching_agent.py:326-365 | the identifier score lies in [0, 100] when the fuzzy ratios do |
| ProfileScoring.EmailScoreInRange | agents/profile_matching_agent.py:367-398 | the 0.4/0.6 local/domain blend lies in [0, 100] when the ratios do |
| ProfileScoring.DateScoreInRange | agents/profile_matching_agent.py:280-324 | the date score lies in [0, 100] |
| ProfileScoring.PhoneScoreInRange | agents/profile_matching_agent.py:400-438 | the phone score lies in [0, 100] when the fuzzy ratios do |
| ProfileMatching.Weight | agents/profile_matching_agent.py:49-55 | a field has positive weight exactly when it is one of the five weighted fields; no weight is negative |
| ProfileMatching.MappedFieldsSpec | agents/profile_matching_agent.py:117-125 | a source field is listed exactly when the source's mapping sends it to the unified field |
| ProfileMatching.GetFieldMapping | agents/profile_matching_agent.py:106-125 | the loop returns the mapped source fields in mapping order |
| ProfileMatching.FilterColumns | agents/profile_matching_agent.py:481-487 | the kept columns are exactly those satisfying the column test |
| ProfileMatching.SourceFieldsFallback | agents/profile_matching_agent.py:474-493 | without a mapping: the column of the same name if present, else the name-like columns for full_name, the id-like columns for national_id, or none |
| ProfileMatching.NamePartsDistinct | agents/profile_matching_agent.py:515-521 | no name part is collected twice |
| ProfileMatching.NamePartsMembers | agents/profile_matching_agent.py:515-521 | the name parts are exactly the stripped non-empty values of the source columns that are present |
| ProfileMatching.CollectNameParts | agents/profile_matching_agent.py:515-521 | the name-part loop computes those name parts |
| ProfileMatching.BestOverIsMax | agents/profile_matching_agent.py:498-542 | a field's best score is at least 0 and at least every present column's score, and equals 0 or one of them |
| ProfileMatching.BestOverNonNegative | agents/profile_matching_agent.py:500-540 | starting from 0.0, a field's best score is never negative |
| ProfileMatching.BestOverBounds | agents/profile_matching_agent.py:500-540 | a field's best score is at least the score of every source column the record has |
| ProfileMatching.BestOverAttained | agents/profile_matching_agent.py:500-540 | a best score other than 0 is the score of one of the record's source columns |
| ProfileMatching.BestFieldScore | agents/profile_matching_agent.py:498-542 | the source-field loop computes that best score |
| ProfileMatching.ColumnScoreOf | agents/profile_matching_agent.py:505-537 | one present source column is scored by the comparison the field calls for, with the combined-name attempt for full_name |
| ProfileMatching.ScoreFieldsSpec | agents/profile_matching_agent.py:466-546 | only weighted query fields are recorded, each with a positive best score; every weighted field with a positive best score is recorded |
| ProfileMatching.ZeroFieldNeutral | agents/profile_matching_agent.py:545-564 | adding a query field whose best score is 0 changes neither the field scores nor the overall score |
| ProfileMatching.AverageBetween | agents/profile_matching_agent.py:555-563 | a weighted average with non-negative weights, one of them positive, lies between the lowest and highest averaged score |
| ProfileMatching.OverallBetween | agents/profile_matching_agent.py:550-564 | the overall score lies between the lowest and the highest recorded field score |
| ProfileMatching.CalculateMatchScore | agents/profile_matching_agent.py:440-566 | the method returns the specified field scores and their weighted average (0 when none is recorded) |
| ProfileMatching.WeightedAverageOf | agents/profile_matching_agent.py:550-564 | the accumulation loop computes Σ score·weight / Σ weight, or 0 |
| ProfileMatching.StrongMatchIff | agents/profile_matching_agent.py:579-602 | strong exactly when full_name and dob are both recorded and (a name/date threshold pair holds, or email ≥ 90, or phone ≥ 90) |
| ProfileMatching.StrongMatchMonotone | agents/profile_matching_agent.py:579-602 | recording more fields or raising scores never turns a strong match weak |
| ProfileMatching.Insert | agents/profile_matching_agent.py:710 | insertion adds exactly one element (a multiset identity) |
| ProfileMatching.SortDesc | agents/profile_matching_agent.py:710 | the sort is a permutation of its input |
| ProfileMatching.SortDescSorted | agents/profile_matching_agent.py:710 | the sort orders by descending (is_strong_match, match_score) |
| ProfileMatching.SortDescStable | agents/profile_matching_agent.py:710 | the sort is stable: records with equal keys keep their relative order |
| ProfileMatching.InsertSorted | agents/profile_matching_agent.py:710 | inserting one record into a descending list keeps it descending |
| ProfileMatching.SortDescHeadIsMax | agents/profile_matching_agent.py:710 | no record has a key above the head of the sorted list |
| ProfileMatching.TopIsFirstBest | agents/profile_matching_agent.py:737-741 | the head of the sorted list is the first record with the greatest key |
| ProfileMatching.AcceptedRowsSpec | agents/profile_matching_agent.py:682-706 | a record is kept exactly when it is strong, or scores at least the threshold, or has a national_id score of exactly 100 |
| ProfileMatching.KeptSpec | agents/profile_matching_agent.py:700-705 | the acceptance filter keeps exactly the scored records that pass the acceptance test |
| ProfileMatching.AcceptRecords | agents/profile_matching_agent.py:682-706 | the record loop keeps the accepted records in row order |
| ProfileMatching.CollectSpec | agents/profile_matching_agent.py:708-711 | only sources with a non-empty list appear, each with its own list, and every such source appears |
| ProfileMatching.MatchesOfSpec | agents/profile_matching_agent.py:657-713 | every listed source is a pool source with its sorted accepted records; a source appears exactly when it has an accepted record |
| ProfileMatching.MatchesSorted | agents/profile_matching_agent.py:698-711 | every returned list is non-empty, sorted descending, and holds only accepted records of its source |
| ProfileMatching.FindMatches | agents/profile_matching_agent.py:657-713 | the source loop computes the specified matches |
| ProfileMatching.FlattenSpec | agents/profile_matching_agent.py:730-731 | the flattened list holds exactly the records of all sources |
| ProfileMatching.SourceNames | agents/profile_matching_agent.py:749 | the source names are the keys of the matches, in order |
| ProfileMatching.MergeMatches | agents/profile_matching_agent.py:716-762 | no profile when there is no record; otherwise the first best record without the match keys, with every source name, the total record count and the top record's match quality |
| ProfileMatching.CarriedScoreCounterexample | agents/profile_matching_agent.py:526-529 | as written, a matching date of birth lends its 100 to an unrelated name and makes the match strong; scored afresh, the name is not recorded and the match is not strong |
| ProfileMatching.BlindNameScore | agents/profile_matching_agent.py:241-278 | under all-zero fuzzy ratios every name scores 0 |
| ProfileMatching.BlindDateScore | agents/profile_matching_agent.py:291-300 | under a parser that accepts every non-empty date, a date scores 100 against itself |
| LlmService.FirstHitSpec | utils/llm_service.py:119-132 | a tier finds nothing exactly when no table entry matches; otherwise it returns the first matching unified field |
| LlmService.FindFirstHit | utils/llm_service.py:119-132 | the search loops return that first hit |
| LlmService.AnyRelated | utils/llm_service.py:128-129 | true exactly when some variation contains the field or is contained in it |
| LlmService.Contextual | utils/llm_service.py:155-172 | only the field names id, name and date can have a contextual mapping |
| LlmService.ContextualRules | utils/llm_service.py:155-172 | id gives customer_id 0.6 with customer/client/user context; name gives full_name 0.6 without first/last/given/family; date gives dob 0.5 with birth/born/dob |
| LlmService.MockFieldMapping | utils/llm_service.py:106-142 | the mock mapper returns the exact tier at 0.9, else the substring tier at 0.7, else the contextual rule, else (None, 0.0) |
| LlmService.MockExactTier | utils/llm_service.py:117-124 | a field equal to a variation, ignoring case and surrounding blanks, maps to the first such unified field at 0.9 |
| LlmService.MockSubstringTier | utils/llm_service.py:126-132 | otherwise a substring relation in either direction maps to the first such unified field at 0.7 |
| LlmService.MockContainsId | utils/llm_service.py:126-132 | a field that contains "id" and matches no variation exactly maps to customer_id at 0.7 |
| LlmService.MockNationalId | utils/llm_service.py:117-132 | the field national_id maps to customer_id at 0.7, not to national_id |
| LlmService.MockContextualUnreachable | utils/llm_service.py:134-142 | a mock answer with a field always has confidence 0.9 or 0.7, and one without a field has 0.0: the contextual tier never decides |
| LlmService.MockMapsIntoSchema | utils/llm_service.py:117-142 | every field the mock mapper returns is a unified-schema key |
| LlmService.TableKeysAreSchema | utils/llm_service.py:117-132 | every key of the variations table is a unified-schema key |
| LlmService.ConfidenceCategoryBands | utils/llm_service.py:231-246 | high exactly at ≥ 0.9, medium exactly in [0.7, 0.9), low below; the category never drops as confidence rises |
| LlmService.GenerateSchemaMapping | utils/llm_service.py:174-229 | the field loop computes the specified mapping result and statistics |
| LlmService.TallyCounts | utils/llm_service.py:199-219 | mapped plus unmapped equals the fields seen; high + medium + low equals mapped |
| LlmService.TallyInvariant | utils/llm_service.py:199-219 | the mapped keys are the fields with an answer, the unmapped list the others; every entry carries the answer and its category |
| LlmService.TallyDistinct | utils/llm_service.py:204 | the mapping dictionary never holds a key twice |
| LlmService.SchemaMappingStats | utils/llm_service.py:185-224 | total is the field count; mapped + unmapped = total; h + m + l = mapped; the rate is 0 without fields, lies in [0, 1], and is 1 exactly when fields exist and none is unmapped |
| LlmService.RateBounds | utils/llm_service.py:224 | a quotient of a count by a larger positive count lies in [0, 1] and is 1 exactly when they are equal |
| LlmService.SchemaMappingEntries | utils/llm_service.py:199-219 | which fields are mapped, which are unmapped, and each entry's field, confidence and category |
| LlmService.MockNeverLow | utils/llm_service.py:212-217 | with the mock mapper no field is ever counted as low confidence |
| LlmService.Clamp | utils/llm_service.py:336 | the clamped confidence lies in [0, 1] and leaves values already in range unchanged |
| LlmService.FirstMentionedSpec | utils/llm_service.py:343-346 | the fallback finds nothing exactly when no schema key occurs in the reply, else the first key in schema order that does |
| LlmService.FindMentioned | utils/llm_service.py:343-346 | the fallback loop returns that first key |
| LlmService.ParseLlmResponse | utils/llm_service.py:306-353 | the method returns the specified reply interpretation |
| LlmService.ParseReplySafe | utils/llm_service.py:306-353 | for every reply the confidence lies in [0, 1] and a returned non-empty field is a unified-schema key |
| LlmService.ParseReplyJsonField | utils/llm_service.py:323-339 | "none" in any case or a name outside the schema gives (None, 0.0); a schema key is returned with its clamped confidence |
| LlmService.ParseReplyText | utils/llm_service.py:341-349 | without JSON, the first key the text mentions ignoring case is returned at 0.7, else (None, 0.0) |
| Dicts.Put | agents/schema_identification_agent.py:318 | assigning a key stores the pair, adds exactly that key, keeps every other pair, and grows the dictionary by at most one |
| Dicts.PutDistinct | agents/schema_identification_agent.py:318 | assignment keeps the keys distinct |
| Dicts.Get | agents/schema_identification_agent.py:1095 | a lookup succeeds exactly for a present key and returns its value |
| Dicts.GetPut | agents/schema_identification_agent.py:882 | after `d[k] = v` on a dictionary, a lookup of `k` gives `v`, and a lookup of any other key gives what it gave before |
| SchemaIdentification.Extend | agents/schema_identification_agent.py:441-442 | the keys grow by the field only; existing entries keep their place; a new field is appended with "", and a field already present leaves the schema unchanged |
| SchemaIdentification.ExtendIdempotent | agents/schema_identification_agent.py:441-443 | a second extension with the same field is a no-op, and extension keeps keys distinct |
| SchemaIdentification.SchemaAgent.ExtendUnifiedSchema | agents/schema_identification_agent.py:434-443 | the agent's schema becomes its extension; the logs are unchanged |
| SchemaIdentification.PassMappings | agents/schema_identification_agent.py:312-344 | a field is mapped exactly when its answer has a field and confidence > 0.5, or auto-extension is on and the oracle says yes; the latter map to themselves at 0.8 |
| SchemaIdentification.DecideMappings | agents/schema_identification_agent.py:317-345 | one decision maps its field to the accepted answer, or to itself at 0.8 when the schema is extended with it, and otherwise adds no mapping |
| SchemaIdentification.PassMappedKeys | agents/schema_identification_agent.py:312-345 | a field is mapped exactly when its answer is accepted or it is auto-extended, and the dictionary has at most one entry per field |
| SchemaIdentification.PassMappedValues | agents/schema_identification_agent.py:312-345 | an accepted field maps to the mapper's field and confidence; a rejected one that is mapped maps to itself at 0.8 |
| SchemaIdentification.PassLog | agents/schema_identification_agent.py:312-333 | every rejected field, and only a rejected one, is logged with the mapper's confidence and the context fields |
| SchemaIdentification.DecideLog | agents/schema_identification_agent.py:317-333 | one decision logs its field, with the mapper's confidence and the context, exactly when the mapping is rejected |
| SchemaIdentification.DecideSchema | agents/schema_identification_agent.py:317-339 | one decision extends the schema by its field exactly when the mapping is rejected, auto-extension is on and the oracle agrees |
| SchemaIdentification.PassSchemaPrefix | agents/schema_identification_agent.py:335-339 | the schema only grows at its end: the schema before the pass is a prefix of the one after it |
| SchemaIdentification.PassSchema | agents/schema_identification_agent.py:312-344 | a field is a key of the schema after the pass exactly when it was one before it, or it is a rejected source field that the oracle, with auto-extension on, says to add |
| SchemaIdentification.InfoRate | agents/schema_identification_agent.py:353-360 | mapped fields never exceed total fields and the success rate lies in [0, 1] |
| SchemaIdentification.SchemaAgent.ProcessStructuredFields | agents/schema_identification_agent.py:306-360 | the field loop yields the specified mappings and info, the agent's schema becomes the extended one, and its log gains the rejected fields |
| SchemaIdentification.SchemaAgent.DecideField | agents/schema_identification_agent.py:313-345 | one field's map-or-log step advances the pass by that field's decision, logs exactly its entry, if any, and leaves the stored mappings alone |
| SchemaIdentification.DeriveFullNameSpec | agents/schema_identification_agent.py:488-493 | a blank full name with both parts present becomes first + " " + last; no other cell and no other row changes |
| SchemaIdentification.DeriveIdempotent | agents/schema_identification_agent.py:488-494 | deriving a full name a second time changes nothing |
| SchemaIdentification.SplitFullNameSpec | agents/schema_identification_agent.py:498-510 | only blank first/last names are filled, from a full name of at least two words (first word; remaining words joined by " "); other values are never overwritten |
| SchemaIdentification.SplitRecombines | agents/schema_identification_agent.py:503-510 | filling both parts of a name gives back the full name's words joined by blanks |
| SchemaIdentification.SplitKeepsFullName | agents/schema_identification_agent.py:497-510 | the split never changes the full name, and a blank full name leaves the row as it was |
| SchemaIdentification.FillNamesSpec | agents/schema_identification_agent.py:506-509 | filling touches only first_name and last_name, and each only when it was blank |
| SchemaIdentification.FilledIsFixed | agents/schema_identification_agent.py:503-510 | a row whose blank names were filled with non-empty parts is left alone by a second split |
| SchemaIdentification.SplitIdempotent | agents/schema_identification_agent.py:497-510 | splitting a second time changes nothing |
| SchemaIdentification.HandleNamesIdempotent | agents/schema_identification_agent.py:477-514 | handling the name fields a second time changes nothing |
| SchemaIdentification.SplitRow | agents/schema_identification_agent.py:503-510 | the per-row body computes the split row |
| SchemaIdentification.HandleNameFields | agents/schema_identification_agent.py:477-514 | every row of the frame, updated in place, becomes its derived-then-split form when all three name columns exist, and is unchanged otherwise |
| SchemaIdentification.DeriveAll | agents/schema_identification_agent.py:488-494 | every row, updated in place, gets its derived full name |
| SchemaIdentification.SplitAll | agents/schema_identification_agent.py:497-512 | every row, updated in place, gets its split first and last names |
| SchemaIdentification.RenameDictSpec | agents/schema_identification_agent.py:978-982 | the rename dictionary names exactly the mapped source fields that are columns, each to a unified field its mapping gives |
| SchemaIdentification.Positions | agents/schema_identification_agent.py:996-997 | the positions of a label are exactly the indices holding it, in increasing order |
| SchemaIdentification.Here | agents/schema_identification_agent.py:987-997 | a unified field selects every column now labelled with it and only those, or one all-None column when there is none |
| SchemaIdentification.SelectionSound | agents/schema_identification_agent.py:987-997 | every selected column is a unified field, taken from a column with that label or added empty when none has it |
| SchemaIdentification.SelectionComplete | agents/schema_identification_agent.py:987-997 | every unified field is selected, and so is every column of the renamed frame whose label is a unified field |
| SchemaIdentification.SelectionExact | agents/schema_identification_agent.py:993-997 | when no label repeats, the output columns are exactly the unified fields in schema order |
| SchemaIdentification.MapToUnifiedColumns | agents/schema_identification_agent.py:958-1002 | rows are kept; output columns are unified fields, all of them, in schema order without repeats when no two columns share a new name |
| SchemaIdentification.MapToUnifiedCells | agents/schema_identification_agent.py:985-997 | a field no column is renamed to is None in every row; every value that is not None is copied from a column whose new name is that field |
| SchemaIdentification.MapToUnifiedCellsComplete | agents/schema_identification_agent.py:985-997 | every column renamed to a unified field reaches the output: some output column with that label holds its values in every row |
| SchemaIdentification.MapToUnifiedCellsUnique | agents/schema_identification_agent.py:985-997 | an output column whose field labels exactly one renamed column is a copy of that column |
| SchemaIdentification.BuildRenameDict | agents/schema_identification_agent.py:979-982 | the loop builds the rename dictionary |
| SchemaIdentification.BuildSelection | agents/schema_identification_agent.py:987-997 | the loop over the unified fields builds the selection |
| SchemaIdentification.MapToUnifiedSchema | agents/schema_identification_agent.py:958-1002 | the method returns the specified remapped frame |
| SchemaIdentification.ProcessFieldMappingSpec | agents/schema_identification_agent.py:780-802 | a field without an answer gets no mapping; otherwise the answer with a category equal to the mapper's own |
| SchemaIdentification.ValidationSpec | agents/schema_identification_agent.py:1083-1133 | valid exactly when there are entries and statistics and every entry names a schema field with confidence in [0, 1]; the timestamp is irrelevant; no mapping gives the error result |
| SchemaIdentification.SchemaAgent.StoreMapping | agents/schema_identification_agent.py:881-882 | storing a source's generated mapping assigns it in the store and changes neither the schema nor the unmapped log |
| SchemaIdentification.StoredMappingValidated | agents/schema_identification_agent.py:1094-1095 | once a source's mapping is stored, validating that source without a mapping checks the stored document, and other sources' lookups are unchanged |
| SchemaIdentification.SchemaAgent.ValidateMapping | agents/schema_identification_agent.py:1094-1131 | the loop computes the specified validation for the given mapping or, when none is given, the stored one |
| SchemaIdentification.SchemaAgent.constructor | agents/schema_identification_agent.py:78-85 | the agent starts from the stored schema or the default one, the stored unmapped log, and an empty store of mappings; the keys of its schema and of its store are distinct, as in a dictionary, and every method keeps them so |
| SchemaIdentification.Present | agents/schema_identification_agent.py:203 | dropping missing values keeps every present value and only those, as often as each occurs, so the length shrinks by the number of missing values |
| SchemaIdentification.PresentAppend | agents/schema_identification_agent.py:203-204 | dropping missing values keeps the column's order, so the sample of the first ten is taken from the present values in order |
| SchemaIdentification.UnstructuredThreshold | agents/schema_identification_agent.py:195-211 | a frame of at most one column is always unstructured; with two columns both must be text; from three on, at least seven in ten must be |
| SchemaIdentification.IsTextColumn | agents/schema_identification_agent.py:201-207 | the sampling loop finds a value of more than five words among the first ten present values of an object column |
| SchemaIdentification.DetectIfUnstructured | agents/schema_identification_agent.py:184-216 | the column loop computes the specified verdict |
| DataLoader.SourceFileSpec | utils/data_loader.py:86-94 | the lookup finds nothing exactly when no extension gives an existing file, else the file of the earliest extension that does |
| DataLoader.FindSourceFileOrder | utils/data_loader.py:15 | .csv wins over .xlsx, which wins over .json; with none of them, nothing is found |
| DataLoader.ColumnSetSize | utils/data_loader.py:235-236 | a source's column set is no larger than its column list, and exactly as large when no column name repeats |
| DataLoader.CompareSchemasSpec | utils/data_loader.py:229-245 | the error result comes exactly when a source is unavailable; the common and source-only sets are pairwise disjoint, the common columns with either source's own give that source's columns, and the counts add up |
| DataLoader.SimilarityBounds | utils/data_loader.py:246 | the ratio lies in [0, 1] and is 1 exactly when both sources have the same non-empty column set |
| DataLoader.CompareSchemasSwap | utils/data_loader.py:235-246 | swapping the sources swaps the source-only sets and counts and keeps the common columns and the ratio |

## Left out

- File and directory I/O is not modelled: loading CSV/Excel/JSON, saving profiles, mappings, caches and logs, and creating directories. The data loader's directory listing and its loaded column lists are parameters.
- The Gemini client, prompt building and `_should_extend_schema` are network calls. They are the `Mapper` and `ExtendOracle` parameters. `ExtendOracle` gets the field and its context but not the schema listing the prompt includes.
- `_extract_with_llm`, free-text extraction and `process_unstructured_data` are regex and network work.
- `_parse_llm_response` locates the JSON object with a regular expression and parses it with `json.loads`. That step is the `Reply` input, and a `float()` conversion that raises is its `None` confidence.
- Besides strings, a JSON `unified_field` is modelled only by its truthiness. A falsy non-string value is returned as no field.
- Python's `lower()` folds all of Unicode; the model folds ASCII letters only.
- rapidfuzz, `SequenceMatcher`, dateutil, phonenumbers and email_validator are oracle fields. Edit distance and E.164 parsing are not reimplemented.
- `NormalizeEmail` returns the validator's address already split at '@'. So the `ValueError` the source would raise for an address without exactly one '@' is not modelled.
- Thread pools, tqdm, MD5 schema hashing and the mapping cache are not modelled. This covers the agent's own threaded `generate_schema_mapping` and `process_all_sources`. Their per-field step `_process_field_mapping` and the final store into `schema_mappings` (`StoreMapping`) are modelled.
- Timestamps (`datetime.now()`) are not modelled: the merge's time is a parameter, and mapping and log timestamps are dropped.
- NaN scores and confidences are not modelled, because scores and confidences are unbounded reals.
- `_apply_field_mappings` is not part of this model. The model therefore takes `process_structured_data`'s field loop and its mapping info, not the frame it returns.
- `load_source_data`, `load_all_sources`, `get_source_info`, `apply_schema_mapping_to_data` and `export_transformed_data` are file I/O. `compare_schemas` takes their outcome as optional column lists.
- `compare_schemas` builds its three column lists from sets, so their order is arbitrary. `DataLoader.CompareSchemasSpec` therefore states them as sets.
- `map_to_unified_schema` is modelled on a positional table with cell values. The pandas index and dtypes are not modelled. A column the caller's mapping entry lacks `unified_field` for would raise `KeyError` in the source; the model's entries always carry one.
- `ProfileMatching.Row` keeps each record value as `str(value)`. So a falsy non-string cell such as `0` or `0.0`, which the name-part loop skips by truthiness, is kept by the model as the name part `"0"` or `"0.0"`.
- `_handle_name_fields` derives a full name only from string cells. A non-string first or last name, which pandas would concatenate or reject, is left as it is.
- The HTTP layer (app.py), scripts and tests are not part of this model.
- `ProfileMatching.CalculateMatchScore`: each field's `score` is computed fresh. The source's carry-over is modelled separately, as written; see Findings.

## Findings

| source | as written | input that shows it | evidently intended | confidence | as-written member | corrected member |
|---|---|---|---|---|---|---|
| agents/profile_matching_agent.py:526-529 | the name branch tests `'score' in locals()`, so a `score` left over from an earlier query field (or an earlier column) is taken into the name's maximum | query `{dob: d, full_name: n}` against a record with the same `dob` and an unrelated-name `full_name`: the name is recorded as 100 and the match becomes strong | each field's score starts afresh, so the name scores from its own columns only | not executed | ProfileMatching.CarriedScoreCounterexample | ProfileMatching.ScoreFieldsSpec |

Two further facts follow from the tables rather than being defects. Both are proved:

- The contextual tier of the mock mapper can never decide (`LlmService.MockContextualUnreachable`):
  - `id` matches a variation exactly;
  - `name` and `date` are substrings of `fname` and `date_of_birth`.
- `national_id` maps to `customer_id` (`LlmService.MockNationalId`). The reason is that `id`, listed under `customer_id`, is a substring of it.
