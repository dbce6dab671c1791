# Lead search, enrichment and report pipeline of `Buscadorpure.py`

`Buscadorpure.py` is a desktop tool that looks up leads (contacts) in a set of SQLite
partitions. It has three stages:

- **Search.** A resolver turns the user's criteria into a list of CONTATOS_IDs. There are
  resolvers by city and age, by a names file, by neighbourhood and income band, by
  neighbourhood and risk band, by profession, by CEP, by electoral title, by neighbourhood,
  and for university students.
- **Enrichment.** The ids are cut into chunks of 100. Every id of a chunk is enriched from
  the contact, phone, e-mail, address, score and electoral partitions.
- **Report.** The enriched records are collected and written as `;`-separated report
  files. An intermediate file is written whenever the running total of records is a
  multiple of 10000.

This project models that pipeline in Dafny and proves what each part computes.

Each partition is a value of `Store.Db`: the file is missing, the file has no table, or
the file holds a table given as a sequence of rows. A `SELECT ... WHERE ...` is a filter
over that sequence.

Each enrichment query's result is an `Enrichment.Outcome`. The possible outcomes are: a
row, no row, a database error, a decoding error, a missing table, or a database that could
not be opened.

Python's `dict` with its insertion order is `PyDict.ODict`.

The modules follow the program:

| module | models |
|---|---|
| `PyText` | the parts of Python the code relies on: `str()`, `int()` on text, `strip`, `lower`/`upper`, `split`, `in`, string order, `';'.join` |
| `Batches` | the `range(0, n, size)` / `[i:i + size]` batching and the parameter count of each batched query |
| `Store` | tables, the address query, `SELECT DISTINCT`, and the batched `IN (...)` walk the resolvers share |
| `Occupation` | `load_cbo_data`, the expansion of a profession into occupation codes, and the word match of `filter_profissoes` |
| `Resolvers` | every candidate resolver, with its exceptions, plus the CEP and electoral-title list loops of `search_leads` |
| `PyDict` | the ordered dictionary and `dict.update` |
| `Enrichment` | the `fetch_*` helpers, writing into one lead record (class `LeadRecord`), plus `process_contato_id` and `process_contato_ids_chunk` |
| `Report` | `format_field`, `save_to_txt` and `save_universitarios_to_txt` |
| `Aggregator` | the chunk dispatch and the collect/flush loop of `search_leads` (class `Collector`) |

## Model

| member | source | states |
|---|---|---|
| `PyText.IntOfDecimal` | Buscadorpure.py:241 | `int()`, as modelled, reads the text `str(n)` back as `n` for every integer, negative ones included |
| `PyText.RunValueOfDigits` | Buscadorpure.py:241 | the digit run of a natural number reads back as that number |
| `PyText.TrimStart` | Buscadorpure.py:37 | the left half of `strip()` removes exactly the leading whitespace: the result is a suffix that starts with a non-space, and everything cut off is whitespace |
| `PyText.TrimEnd` | Buscadorpure.py:37 | the right half of `strip()` removes exactly the trailing whitespace |
| `PyText.LeadingWord` | Buscadorpure.py:61 | a word of `split()` is the maximal non-whitespace prefix, and it is non-empty when the text starts with a non-space |
| `PyText.SplitWordsEmpty` | Buscadorpure.py:59-61 | `split()` yields no words exactly when the text is all whitespace |
| `PyText.ContainsAt` | Buscadorpure.py:67 | `word in prof_lower` holds exactly when the word occurs at some offset of the label |
| `PyText.StrLessIrreflexive` | Buscadorpure.py:47 | Python's string `<` is irreflexive |
| `PyText.StrLessTransitive` | Buscadorpure.py:47 | Python's string `<` is transitive |
| `PyText.StrLessTotal` | Buscadorpure.py:47 | any two different strings are ordered one way or the other |
| `PyText.SplitOn` | Buscadorpure.py:805 | splitting on a separator always yields at least one field |
| `PyText.SplitJoin` | Buscadorpure.py:805 | a line written with `';'.join` splits back into exactly its fields when no field contains `;` |
| `Batches.Chunks` | Buscadorpure.py:224-225 | every batch of the `range(0, n, size)` walk is non-empty and holds at most `size` elements |
| `Batches.ChunksFlatten` | Buscadorpure.py:224-225 | the batches, concatenated in order, give back the input exactly |
| `Batches.ChunksCount` | Buscadorpure.py:224-225 | there are ceil(n / size) batches, and none at all for an empty input |
| `Batches.ChunkAt` | Buscadorpure.py:1055-1056 | batch `k` is the slice `[k*size : k*size + size]` clipped at the end, i.e. `contatos_ids[i:i + chunk_size]` |
| `Batches.InSomeChunk` | Buscadorpure.py:224-225 | an element is in the input exactly when it is in some batch |
| `Batches.BoundParams` | Buscadorpure.py:226-230 | a batched query binds one `?` per batch element plus its extra parameters |
| `Batches.BatchOnlyWithinLimit` | Buscadorpure.py:223-230 | the age query, which binds only the batch, never exceeds the 999-parameter ceiling |
| `Batches.FullBatchOverflows` | Buscadorpure.py:297-305 | once the input fills a whole batch, a query binding the batch plus at least one more parameter exceeds 999 parameters |
| `Batches.MaxBoundParams` | Buscadorpure.py:566-578 | the first batch binds the most parameters, exactly min(n, 999) + extras |
| `Store.AddressIds` | Buscadorpure.py:204-205 | `SELECT CONTATOS_ID FROM srs_enderecos WHERE ...` returns exactly the ids of the matching rows, at most one per row; it is empty exactly when no row matches |
| `Store.Distinct` | Buscadorpure.py:555-559 | `SELECT DISTINCT` keeps the same ids, with no repeats |
| `Store.BatchHitsMembership` | Buscadorpure.py:432-435 | one `WHERE key IN (batch) AND attr IN (...)` query returns an id exactly when some row has its key in the batch, an accepted attribute and that id |
| `Store.ScanMembership` | Buscadorpure.py:427-435 | over a list of batches, an id is returned exactly when some row matches some batch |
| `Store.ChunkedScanMembership` | Buscadorpure.py:427-435 | batching by 999 does not change which ids come back: the same ids as one query over the whole stage |
| `Store.ScanFrom` | Buscadorpure.py:429-435 | one turn of the batch loop is the query for `stage[i:i + 999]` followed by the rest of the walk |
| `Store.RunBatches` | Buscadorpure.py:427-435 | the resolvers' `extend` loop returns the concatenated answers of the per-batch queries |
| `Occupation.RemoveHyphens` | Buscadorpure.py:39 | `replace('-', '')` keeps every character except the hyphens, each as often as before |
| `Occupation.FirstComma` | Buscadorpure.py:37 | finds the first comma, or reports that there is none |
| `Occupation.SplitEntrySpec` | Buscadorpure.py:37-42 | a stripped line yields an entry exactly when it has a comma; the entry is code text, comma, label; the code has no hyphen and the short code is its first four characters |
| `Occupation.SplitEntryCut` | Buscadorpure.py:37 | `split(',', 1)` cuts at the first comma: the text before it contains no comma |
| `Occupation.SplitEntryCode` | Buscadorpure.py:39-41 | the cleaned code has no hyphen, and the short code is its first min(4, len) characters |
| `Occupation.ParseCboLineSpec` | Buscadorpure.py:36-45 | a line parses exactly when its stripped text has a comma (otherwise the unpacking fails and the line is skipped), and the parsed fields are as above |
| `Occupation.EntryLessIrreflexive` | Buscadorpure.py:47 | Python's tuple order on `(label, code, short)` is irreflexive |
| `Occupation.EntryLessTransitive` | Buscadorpure.py:47 | the tuple order is transitive |
| `Occupation.EntryLessAsymmetric` | Buscadorpure.py:47 | the tuple order is asymmetric |
| `Occupation.EntryLessTotal` | Buscadorpure.py:47 | the tuple order is total on distinct triples |
| `Occupation.InsertSpec` | Buscadorpure.py:47 | inserting into a strictly sorted list keeps it strictly sorted and adds exactly that element |
| `Occupation.SortedSetSpec` | Buscadorpure.py:47 | `sorted(set(...))` is strictly sorted and has exactly the input's elements |
| `Occupation.SortedUnique` | Buscadorpure.py:47 | two strictly sorted lists with the same elements are equal, so the result does not depend on line order |
| `Occupation.SomeValuesMembership` | Buscadorpure.py:35-45 | the collected entries are exactly those of the lines that did not raise |
| `Occupation.ParsedEntriesMembership` | Buscadorpure.py:35-45 | an entry is collected exactly when some line of the file parses to it |
| `Occupation.LoadCboSpec` | Buscadorpure.py:30-55 | `load_cbo_data` returns a strictly sorted, duplicate-free list of exactly the entries of the parsable lines; a missing or unreadable file gives `[]` |
| `Occupation.LoadCboIsSortedSet` | Buscadorpure.py:47-49 | the loaded table is the one strictly sorted arrangement of the parsed entries |
| `Occupation.ExpandCodesSpec` | Buscadorpure.py:540-547 | expansion yields `[full, short]` for each entry labelled exactly as the profession, in table order (2k codes). A code is produced exactly when a matching entry has it. No match gives `[]` |
| `Occupation.ExpandCodesMembership` | Buscadorpure.py:541-543 | two codes per matching entry; the codes are exactly the matching entries' full and short codes |
| `Occupation.ExpandCodesPositions` | Buscadorpure.py:541-543 | positions 2k and 2k+1 hold the full and short code of one matching entry |
| `Occupation.ExpandedCodesRepeat` | Buscadorpure.py:541-543 | the expanded codes need not be distinct: two codes of one label sharing four characters give the same short code twice |
| `Occupation.KeepMatchingSpec` | Buscadorpure.py:64-68 | a label is kept exactly when it is listed and every search word occurs in its lower-cased text; with no words every label is kept |
| `Occupation.FilterProfessionsSpec` | Buscadorpure.py:57-76 | the combobox offers a label exactly when every word of the lower-cased entry occurs in the lower-cased label; an empty or all-blank entry offers every label |
| `Resolvers.ThenAssoc` | Buscadorpure.py:959-960 | appending resolver results, where the first exception wins, is associative |
| `Resolvers.ThenUnit` | Buscadorpure.py:959-960 | starting from `[]` changes nothing |
| `Resolvers.DeathYearFromSpec` | Buscadorpure.py:245 | the left-to-right scan finds a match at or after `i` exactly when one exists |
| `Resolvers.DeathYearScan` | Buscadorpure.py:245 | the scan agrees with `re.search(r'\b(19[0-9]{2}\|20[0-2][0-4])\b', ...)` |
| `Resolvers.DeathYearExamples` | Buscadorpure.py:245 | "2005-03-01" and "2019" record no death year, and neither does an unbounded "19870102"; "2004-03-01" and "01/02/1987" do |
| `Resolvers.AgeKeepIff` | Buscadorpure.py:239-256 | a contact is kept exactly when NASC has at least four characters whose `int()` is below `year`, DT_OB records no death year, and the sex filter accepts it |
| `Resolvers.AgeFailIff` | Buscadorpure.py:239-260 | the loop raises (an uncaught TypeError) exactly on a non-zero number in NASC, or on a readable NASC with a non-zero number in DT_OB |
| `Resolvers.InBatch` | Buscadorpure.py:227-231 | `WHERE CONTATOS_ID IN (batch)` fetches exactly the rows whose id is in the batch |
| `Resolvers.AgeRowsSpec` | Buscadorpure.py:233-262 | over one batch's rows: the loop raises exactly when some row fails; otherwise it returns exactly the ids of the kept rows |
| `Resolvers.AgeBatchesSpec` | Buscadorpure.py:224-262 | over all batches: raises exactly when a fetched row fails; otherwise returns exactly the kept rows' ids |
| `Resolvers.AgeBatchesRaise` | Buscadorpure.py:224-262 | the raising half of the above |
| `Resolvers.AgeBatchesKeep` | Buscadorpure.py:224-256 | the keeping half of the above |
| `Resolvers.AgeSpecMembership` | Buscadorpure.py:195-267 | with both tables present, the resolver raises exactly when a contact in the city fails the loop; otherwise it returns exactly the contacts in the city that the age, sex and death filter keeps |
| `Resolvers.AgeEmptyStage` | Buscadorpure.py:204-209 | an unknown city returns `[]` before Contatos.db is opened, so a missing contacts file goes unnoticed |
| `Resolvers.FilterLeads` | Buscadorpure.py:233-262 | the inner loop appends kept ids, skips the rest and stops at the first exception, as the loop specification says |
| `Resolvers.AgeBatchesStep` | Buscadorpure.py:224-231 | one batch of the walk, then the rest of it |
| `Resolvers.ResolveByAge` | Buscadorpure.py:195-267 | `fetch_contatos_by_age_and_location`, including its missing-file and missing-table exceptions, computes the age specification |
| `Resolvers.TextCells` | Buscadorpure.py:298-305 | the names bound as parameters are exactly the file's lines, one per line |
| `Resolvers.NamesMembership` | Buscadorpure.py:270-315 | an id is returned exactly when its contact row has one of the listed names and the requested issuing state |
| `Resolvers.NamesFirstBatchOverflows` | Buscadorpure.py:297-305 | a names file of 999 lines or more makes the first query bind 1000 parameters, one over the ceiling the comment cites |
| `Resolvers.ResolveByNames` | Buscadorpure.py:270-315 | `fetch_contatos_by_names`: a missing file raises; a missing table or an unreadable names file gives `[]`; otherwise the batched query |
| `Resolvers.CityRecheck` | Buscadorpure.py:414-420 | the per-id re-check keeps exactly the stage-one ids that have an address row in the city |
| `Resolvers.BandStage` | Buscadorpure.py:397-407 | stage one selects by CIDADE when the neighbourhood upper-cases to "CENTRO", and by BAIRRO alone otherwise; the UF is not used |
| `Resolvers.BandMembership` | Buscadorpure.py:398-435 | with both tables present, an id is returned exactly when it passes stage one, has an address in the city, and has a row with the requested band |
| `Resolvers.ResolveByBand` | Buscadorpure.py:387-441 | the shared two-stage resolver computes its specification: missing file or table raises, an empty stage gives `[]` |
| `Resolvers.ResolveByIncome` | Buscadorpure.py:387-441 | `fetch_contatos_id_by_city_neighborhood_income` is the two-stage resolver over FAIXA_RENDA_ID |
| `Resolvers.ResolveByRisk` | Buscadorpure.py:443-497 | `fetch_contatos_id_by_risk_score_city_neighborhood` is the two-stage resolver over CSBA_FAIXA |
| `Resolvers.BandRepeatWithinBatch` | Buscadorpure.py:405-435 | a stage-one id repeated by two address rows survives the re-check twice, yet comes back once: one `IN` query matches each band row once |
| `Resolvers.RepeatStage` | Buscadorpure.py:405-420 | stage one and the re-check keep both copies of a repeated id |
| `Resolvers.RepeatBatch` | Buscadorpure.py:427-435 | a batch holding an id twice returns it once |
| `Resolvers.CodeCellsMembership` | Buscadorpure.py:571-578 | a CBO value is among the bound codes exactly when it is the full or short code of an entry labelled as the profession |
| `Resolvers.UfCityStage` | Buscadorpure.py:555-559 | the DISTINCT stage holds exactly the ids with an address in the city and state |
| `Resolvers.OccupationForMembership` | Buscadorpure.py:549-590 | once the profession is expanded, an id is returned exactly when there are codes, it has an address in the city and state, and its CBO is one of the codes |
| `Resolvers.OccupationMembership` | Buscadorpure.py:534-590 | with both tables present, an id is returned exactly when it has an address in the city and state and its CBO is the full or short code of a table entry labelled exactly as the profession |
| `Resolvers.OccupationFirstBatchOverflows` | Buscadorpure.py:566-578 | a full first batch binds 999 + (number of codes) parameters, over the ceiling whenever a code exists |
| `Resolvers.ResolveByOccupation` | Buscadorpure.py:534-590 | `fetch_contatos_id_by_city_cbo`: no matching label gives `[]` before any database is opened; a missing file raises; a missing table gives `[]` |
| `Resolvers.CepSpec` | Buscadorpure.py:371-385 | a missing file or table raises; otherwise the ids of the rows with that CEP |
| `Resolvers.TitleIds` | Buscadorpure.py:506-508 | exactly the ids of the rows with that electoral title |
| `Resolvers.TitleSpec` | Buscadorpure.py:499-513 | a missing file or table raises, and nothing else does; with the table present the result is the ids of the rows with that title |
| `Resolvers.NeighborhoodSpec` | Buscadorpure.py:318-343 | a missing file raises, a missing table gives `[]`, otherwise exactly the ids with an address in that state, city and neighbourhood |
| `Resolvers.StudentsOf` | Buscadorpure.py:159-163 | exactly the student rows of the requested UF |
| `Resolvers.StudentsSpec` | Buscadorpure.py:141-192 | no UF gives `[]` before connecting; only a missing file raises; every returned row is of that UF with an encodable CAMPUS; all of them are returned when every CAMPUS encodes, and a single row of that UF whose CAMPUS does not encode empties the whole result |
| `Resolvers.ListSpecMembership` | Buscadorpure.py:955-962 | the CEP-file loop raises exactly when some line's lookup raises; otherwise it holds exactly the ids the lookups returned, each as often as they returned it |
| `Resolvers.ResolveList` | Buscadorpure.py:955-962 | the `extend` loop over the lines computes the list specification |
| `Resolvers.ThenRaised` | Buscadorpure.py:959-960 | once a prefix of the lines raises, the whole loop raises with that error |
| `PyDict.Empty` | Buscadorpure.py:1050 | `{}` is a valid dictionary with no keys |
| `PyDict.PutSpec` | Buscadorpure.py:891 | setting a key keeps the dictionary valid: the value is replaced, a new key goes last, and existing keys keep their places |
| `PyDict.PutAllSpec` | Buscadorpure.py:891 | inserting many keys appends the new ones in order; the last inserted value wins and other values are kept |
| `PyDict.UpdateSpec` | Buscadorpure.py:1063 | `d.update(e)` keeps `d`'s key order, appends `e`'s new keys in `e`'s order, and `e`'s values win |
| `PyDict.EmptyKeys` | Buscadorpure.py:1062 | a dictionary is falsy exactly when it has no entries |
| `PyDict.NewKeysCount` | Buscadorpure.py:1063-1064 | the buffer grows by at most `len(chunk_data)` entries, and by exactly that many when the chunk's keys are distinct and new |
| `Enrichment.CoreIndex` | Buscadorpure.py:516-523 | each core field is filled from its own column of the SRS_CONTATOS query |
| `Enrichment.ScoreIndex` | Buscadorpure.py:655-664 | each score field is filled from its own column |
| `Enrichment.TseIndex` | Buscadorpure.py:691-699 | each electoral field is filled from its own column |
| `Enrichment.AddrIndex` | Buscadorpure.py:637-640 | each address field is filled from its own column |
| `Enrichment.SlotKeys` | Buscadorpure.py:637-640 | slot `index` writes the six keys `f"{field}{index}"` |
| `Enrichment.FillSpec` | Buscadorpure.py:666-671 | filling a block with one sentinel sets exactly that block's keys and keeps every other key |
| `Enrichment.FillCellsSpec` | Buscadorpure.py:659-664 | filling a block from a row puts the `i`-th cell under the `i`-th key and keeps every other key |
| `Enrichment.Enrich` | Buscadorpure.py:818-885 | an id is dropped exactly when Contatos.db cannot be opened |
| `Enrichment.ScalarBlockAt` | Buscadorpure.py:653-687 | a scalar block sets each of its keys by the block rule (value, "None" or "Erro", nothing when the database could not be opened) and leaves other keys alone |
| `Enrichment.AddressBlockAt` | Buscadorpure.py:632-651 | an address slot sets its keys from the row or to "None", sets nothing on an error, and leaves other keys alone |
| `Enrichment.PhoneBlockAt` | Buscadorpure.py:832-841 | the phone block sets DDD and TELEFONE by the list rule and leaves other keys alone |
| `Enrichment.EmailBlockAt` | Buscadorpure.py:843-850 | the e-mail block sets EMAIL by the list rule and leaves other keys alone |
| `Enrichment.CoreBlockAt` | Buscadorpure.py:823-830 | after the Contatos.db block every core key holds what the core rule says |
| `Enrichment.ListBlocksAt` | Buscadorpure.py:832-850 | after the phone and e-mail blocks, DDD, TELEFONE and EMAIL hold what the list rule says, and no other list key is set |
| `Enrichment.ContactBlocksAt` | Buscadorpure.py:823-850 | the first three blocks set exactly their keys, as the per-key rules say |
| `Enrichment.ExtraBlocksAt` | Buscadorpure.py:852-878 | the address, score and electoral blocks set exactly their keys, as the per-key rules say |
| `Enrichment.EnrichAt` | Buscadorpure.py:818-885 | at every key, the enriched record agrees with the key-by-key rules |
| `Enrichment.EnrichPerKey` | Buscadorpure.py:818-885 | the record `process_contato_id` returns holds exactly the keys the rules give, with the values they give |
| `Enrichment.AddressSlotsAgree` | Buscadorpure.py:856-857 | address slot 2 always equals slot 1, because it reruns the same `fetchone` |
| `Enrichment.CoreBlockUniform` | Buscadorpure.py:515-532 | the seven core fields are always set: from the row, all "None" for no row or a decoding error, all "Erro" for a database error or missing table |
| `Enrichment.AddressFailureWritesNothing` | Buscadorpure.py:644-651 | a failing address query sets no address key, since `address_fields` is unbound in the handler; "Erro" is never written for an address |
| `Enrichment.MissingListTable` | Buscadorpure.py:613-630 | a missing phone or e-mail table leaves the key unset; a database that cannot be opened sets it to `["None"]` |
| `Enrichment.UnreachableStoresAddNothing` | Buscadorpure.py:862-878 | a score or electoral database that cannot be opened adds none of its keys |
| `Enrichment.LeadRecord.constructor` | Buscadorpure.py:823-827 | the record starts as the Contatos.db block |
| `Enrichment.LeadRecord.FetchMissingData` | Buscadorpure.py:613-630 | `fetch_missing_data` updates the record by the list rule for one key |
| `Enrichment.LeadRecord.SetNoneList` | Buscadorpure.py:838-850 | the handler of an unopenable database sets the key to `["None"]` and changes nothing else |
| `Enrichment.LeadRecord.FetchAddress` | Buscadorpure.py:632-651 | the loop over the six address columns updates the record by the address rule |
| `Enrichment.LeadRecord.FetchScalars` | Buscadorpure.py:653-719 | `fetch_scores_data` and `fetch_tse_data` update the record by the scalar rule |
| `Enrichment.ProcessContatoId` | Buscadorpure.py:818-885 | the block-by-block updates produce the enrichment specification |
| `Enrichment.Kept` | Buscadorpure.py:887-892 | the ids kept in a chunk are exactly those whose Contatos.db opens |
| `Enrichment.ChunkSpecSpec` | Buscadorpure.py:887-892 | a chunk's result is a valid dictionary: one record per kept id, in first-appearance order, each the enrichment of that id |
| `Enrichment.ProcessChunk` | Buscadorpure.py:887-892 | `process_contato_ids_chunk` computes the chunk specification |
| `Report.FormatField` | Buscadorpure.py:721-726 | a non-empty list gives its first element unchanged; a single value gives text; None gives "None" |
| `Report.FormatFieldReadsBack` | Buscadorpure.py:721-726 | text is returned unchanged, and a number's text reads back as that number |
| `Report.Elements` | Buscadorpure.py:787-788 | iterating a list yields its cells and a string its characters; None or a number raises TypeError |
| `Report.PairNames` | Buscadorpure.py:750-751 | the DDD/TELEFONE loop adds two names per index: position 2i is `DDD{i+1}` and 2i+1 is `TELEFONE{i+1}` |
| `Report.Column` | Buscadorpure.py:757-785 | every single-valued key has a row position in 1..26 that holds that key |
| `Report.CoreHeaderNames` | Buscadorpure.py:729-730 | the header names each core key at that key's row position |
| `Report.AddressHeaderNames` | Buscadorpure.py:731-732 | the header names each address key of both slots at its row position |
| `Report.AddressSlotNames` | Buscadorpure.py:731-732 | slot names are the column name plus "1" or "2" |
| `Report.ScoreTseHeaderNames` | Buscadorpure.py:733-734 | the header names each score and electoral key at its row position |
| `Report.HeaderLayout` | Buscadorpure.py:729-751 | the header has 47 names; every single-valued key is at its row position; TELEFONE and TELEFONE_SECUNDARIO sit where rows hold their first two e-mails; EMAIL1..EMAIL6 follow at 29-34, then DDD1, TELEFONE1, ..., DDD6, TELEFONE6 at 35-46 |
| `Report.BuildHeader` | Buscadorpure.py:729-751 | the literal plus the two header loops give the 47-name header |
| `Report.ScalarCells` | Buscadorpure.py:757-785 | the literal part of a row has 27 cells |
| `Report.PhoneCells` | Buscadorpure.py:795-803 | the phone loop emits two cells per index |
| `Report.PhoneCellsSpec` | Buscadorpure.py:795-803 | pair `i` is the `i`-th DDD and the `i`-th TELEFONE, each "None" past the end of its list |
| `Report.JoinCells` | Buscadorpure.py:805 | `';'.join` succeeds exactly when every cell is a string |
| `Report.RowLayout` | Buscadorpure.py:757-803 | a row is 27 scalar cells, then all e-mails padded with "None" to at least six (never truncated), then six DDD/TELEFONE pairs; with at most six e-mails it has 45 cells against the 47-name header |
| `Report.PhoneColumnsMisplaced` | Buscadorpure.py:747-803 | with at most six e-mails, a row's first DDD and TELEFONE cells (positions 33-34) sit under the header names EMAIL5 and EMAIL6, two columns before DDD1 and TELEFONE1 |
| `Report.ScalarColumns` | Buscadorpure.py:757-785 | each single-valued key's cell is `format_field(values.get(key, "None"))` at that key's column |
| `Report.MissingListsRenderNone` | Buscadorpure.py:787-803 | missing EMAIL, DDD and TELEFONE keys render as 18 "None" cells |
| `Report.EnrichWellShaped` | Buscadorpure.py:613-719 | every record `process_contato_id` returns has single values under scalar keys and lists under list keys |
| `Report.ScalarCellsText` | Buscadorpure.py:757-785 | the id and every single-valued field of such a record format to text |
| `Report.PhoneCellsText` | Buscadorpure.py:795-803 | every phone cell of such a record is text |
| `Report.WellShapedRowRenders` | Buscadorpure.py:757-805 | every such record becomes a line: no field raises and every cell is a string |
| `Report.RowLineReadsBack` | Buscadorpure.py:805 | a written line splits back on `;` into its cells when no cell contains `;`, and its first field reads back as the CONTATOS_ID |
| `Report.BuildRow` | Buscadorpure.py:757-803 | the append loops build the row the row specification gives, or raise where it raises |
| `Report.AppendEmails` | Buscadorpure.py:787-791 | the e-mail loop and the padding loop append the e-mail cells |
| `Report.AppendPhones` | Buscadorpure.py:793-803 | the DDD/TELEFONE loop appends the six pairs |
| `Report.LinesComplete` | Buscadorpure.py:756-805 | when every record renders, the file is complete, with record `j`'s line at position `j` |
| `Report.LinesStep` | Buscadorpure.py:756-805 | each record adds its line, or ends the file where its row raises |
| `Report.LinesStop` | Buscadorpure.py:756-805 | once a row has raised, later records add nothing |
| `Report.SaveComplete` | Buscadorpure.py:728-807 | for well-shaped records the file is the header line, then one line per record in dictionary order |
| `Report.WriteRow` | Buscadorpure.py:757-805 | one record's line is the joined row |
| `Report.WriteRows` | Buscadorpure.py:756-805 | the loop over `data.items()` writes the lines the specification gives |
| `Report.SaveToTxt` | Buscadorpure.py:728-807 | `save_to_txt` writes the header, then the rows, as the specification gives |
| `Report.MatchingStudentsSpec` | Buscadorpure.py:362-366 | six cells per matching student; the last of each group is "None", since ANO_CONCULSAO is never a stored key; none when no student matches |
| `Report.UnivRowLayout` | Buscadorpure.py:346-366 | a university row has 30 cells plus six per matching student; the six lookups named after student columns read "None"; the first 23 lookups format the record's fields |
| `Report.BuildUnivRow` | Buscadorpure.py:358-366 | the comprehension and the student loop build that row |
| `Report.SaveUnivLayout` | Buscadorpure.py:1027 | called with `{}`, as at its only call site, the university report is the header alone; a matching student with a non-text FACULDADE makes the row raise |
| `Report.StudentAppears` | Buscadorpure.py:362-366 | every matching student's FACULDADE appears in the row |
| `Aggregator.ReportAccepts` | Buscadorpure.py:1068 | `save_to_txt` accepts every valid buffer |
| `Aggregator.ReportSaver` | Buscadorpure.py:1068-1080 | `save_to_txt` completes every buffer whose records render |
| `Aggregator.Merge` | Buscadorpure.py:1063-1064 | merging a result keeps the buffer a valid dictionary |
| `Aggregator.Checkpoint` | Buscadorpure.py:1066-1075 | the flush keeps the buffer valid |
| `Aggregator.CheckpointSaves` | Buscadorpure.py:1066-1075 | a save that completes clears the buffer and advances `file_count`; a save that raises is caught, and the buffer and count stay |
| `Aggregator.Step` | Buscadorpure.py:1059-1075 | one pass of the loop keeps the buffer valid |
| `Aggregator.Run` | Buscadorpure.py:1059-1075 | the whole loop keeps the buffer valid |
| `Aggregator.StepSpec` | Buscadorpure.py:1059-1075 | an empty or failed result changes nothing. A non-empty one is merged, with later keys overwriting, and the total grows by its size. The buffer is saved exactly when the total is a multiple of 10000. |
| `Aggregator.StepCounts` | Buscadorpure.py:1062-1072 | the total grows by the arrived size; exactly one file is written when the total lands on a multiple of 10000, none otherwise |
| `Aggregator.RunCounts` | Buscadorpure.py:1059-1075 | `total_processed` is the sum of the arrived sizes; one save happens per result landing on a multiple of 10000; earlier saves are never undone |
| `Aggregator.StepWrites` | Buscadorpure.py:1066-1072 | a step writes nothing, or appends one file numbered with the current `file_count` and advances the count exactly when that file completed |
| `Aggregator.NumberedAppend` | Buscadorpure.py:1067-1072 | appending such a file keeps the numbering invariant |
| `Aggregator.RunNumbered` | Buscadorpure.py:1059-1082 | throughout the loop, `file_count` is one more than the completed saves, and each file carries the count current when it was written |
| `Aggregator.StepKeepsIds` | Buscadorpure.py:1060-1075 | one step moves the arrived ids into the buffer, and a save moves the buffer's ids into the files |
| `Aggregator.RunKeepsIds` | Buscadorpure.py:1059-1075 | every arrived id is in a saved file or still in the buffer, and nothing else is |
| `Aggregator.FinishSpec` | Buscadorpure.py:1077-1082 | the final save hands over exactly what is left, once, and only when something is |
| `Aggregator.NothingLost` | Buscadorpure.py:1046-1082 | over a whole run, the records handed to `save_to_txt` are exactly those that arrived |
| `Aggregator.RunCompletes` | Buscadorpure.py:1059-1075 | when every arriving record renders, every save of the run completes |
| `Aggregator.CleanRun` | Buscadorpure.py:1059-1082 | when every record renders, the files hold exactly the arrived ids, every file is complete, and file `j` is numbered `j + 1` |
| `Aggregator.FlushImpliesFullChunks` | Buscadorpure.py:1047-1066 | a flush total is always a multiple of the chunk size 100 |
| `Aggregator.SkipsEveryMultiple` | Buscadorpure.py:1062-1066 | once the total is off the multiples of 100, and every later result has a multiple of 100 records, no intermediate report is ever saved |
| `Aggregator.RunTotal` | Buscadorpure.py:1064-1066 | when the starting total plus the arrivals is not a multiple of 100, neither is the loop's final `total_processed` |
| `Aggregator.OffHundred` | Buscadorpure.py:1064-1066 | the arithmetic: the running total never lands on a multiple of 10000 |
| `Aggregator.QuietRun` | Buscadorpure.py:1059-1072 | a run in which no result lands on a multiple of 10000 writes nothing and keeps `file_count` |
| `Aggregator.OneFileAtEnd` | Buscadorpure.py:1046-1082 | when the first result lost one id (99 records) and every later one has 100, the only file is the final one, numbered 1, holding every record |
| `Aggregator.FullChunksFlush` | Buscadorpure.py:1055-1066 | when every result has 100 records, an intermediate report is saved after every hundredth result |
| `Aggregator.ChunkResultSpec` | Buscadorpure.py:1055-1061 | a chunk's result is absent exactly when its worker raised; otherwise it is a valid dictionary of renderable records holding exactly the chunk's ids whose contact database opens |
| `Aggregator.Outcomes` | Buscadorpure.py:1059-1061 | the `i`-th completed result is that of the chunk that completed `i`-th |
| `Aggregator.OutcomesShaped` | Buscadorpure.py:1055-1061 | every completed result is valid and renderable |
| `Aggregator.OutcomesReceived` | Buscadorpure.py:1053-1075 | an id arrives exactly when its contact database opens and some chunk holding it completed without raising |
| `Aggregator.EveryLeadSaved` | Buscadorpure.py:1046-1082 | with every chunk completed and no worker raising, then in any completion order: the files hold exactly the found ids whose contact database opens, every file is complete, and file `j` is numbered `j + 1` |
| `Aggregator.SaveCheckpoint` | Buscadorpure.py:1066-1072 | the body of the flush test, with a real `save_to_txt`, computes the checkpoint |
| `Aggregator.Collector.constructor` | Buscadorpure.py:1047-1050 | the loop starts with an empty buffer, total 0, `file_count` 1 and no files |
| `Aggregator.Collector.Absorb` | Buscadorpure.py:1062-1064 | `lead_data.update(chunk_data)` and `total_processed += len(chunk_data)` |
| `Aggregator.Collector.SaveIfDue` | Buscadorpure.py:1066-1072 | the flush on the loop's fields computes the checkpoint |
| `Aggregator.Collector.Receive` | Buscadorpure.py:1059-1075 | one completed future moves the fields as one step of the loop specification |
| `Aggregator.Collector.SaveRest` | Buscadorpure.py:1077-1082 | the final save moves the fields as the finish specification says |
| `Aggregator.Collect` | Buscadorpure.py:1059-1082 | the loop over completed futures, then the final save, writes the files of the specification run |
| `Aggregator.SearchAndSave` | Buscadorpure.py:1046-1082 | dispatching 100-id chunks and collecting them in any completion order writes the files of the specification run over the chunks' results |

## Left out

- The licence expiry check (lines 3-9): it reads the wall clock and exits.
- The Tk interface is not modelled. This covers the comboboxes and the debounce of the profession filter, `update_city_combobox`, the loading animation, file selection and the window setup. Only the match test of `filter_profissoes` is modelled.
- The messageboxes and the widget checks of `search_leads` (lines 896-946) are not modelled, and neither is the choice of resolver by search option (lines 955-1043). Each resolver is modelled on its own, and so are the CEP and title list loops.
- SQLite access is not modelled: `connect_to_database`, `table_exists`, `resource_path` and cursors. Tables are sequences of rows, and an unopenable file or a missing table is a value of `Store.Db` or `Enrichment.Outcome`.
- SQL result order is unspecified. The model returns rows in table order, which is one admissible order. Membership lemmas state results without regard to order.
- A column matches a bound string only when it holds that same text. SQLite's type affinity conversions are not modelled. Cells are NULL, text or integers: REAL (floating point) and BLOB values are not modelled.
- The process pool, `as_completed`, `threading` and `db_lock` are not modelled. The completion order is the parameter `order`, and the chunks whose worker raised are the parameter `failed`.
- No file is read or written. The CBO file, the names file and the CEP/title lists are inputs (`None` when unreadable). A report file is the `Report.Saved` value of its lines.
- Timestamped file names are reduced to their `file_count` number. Logging is not modelled.
- The JSON state/city map (lines 97-105) is not modelled.
- Resolvers.StudentsSpec: CAMPUS is returned as stored. The latin-1 encode followed by a lossy utf-8 decode (line 176) is byte-level codec behaviour and is not modelled. Only its failure is modelled: a CAMPUS that cannot be latin-1 encoded escapes the per-row handler, and the outer `except` returns `[]`.
- `fetch_telefones_by_cpf` (lines 592-611) and `is_valid_cep` are never called, so they are not modelled.
- `int()` is modelled on the ASCII digits. `int()`, `strip()` and `split()` (PyText.TrimStart, PyText.TrimEnd, PyText.LeadingWord, PyText.SplitWordsEmpty) treat as whitespace only the whitespace characters of the ASCII and Latin-1 range. Python also accepts other Unicode decimal digits, and treats the other Unicode whitespace characters as whitespace too; neither is modelled.
- `\w` is modelled on the Latin-1 range only.
- `lower()`/`upper()` map only the ASCII letters. Accented labels are therefore compared without case folding.
- The row built and discarded at lines 738-745 is not modelled. `format_field` never raises, so that row has no effect.
- Record keys are the enumeration `Enrichment.Key`, standing for the field-name strings. `Enrichment.Name` gives each key's string.
- The single-query resolvers (CEP, electoral title, neighbourhood, university) are modelled as one filter each, with their exceptions. Results are compared only by membership.
- Enrichment.Enrich: the outer `except` of `process_contato_id` (lines 883-885) is not modelled separately. Every failure that reaches it in the source is modelled on the path it takes.
- Aggregator.CheckpointSaves: the `messagebox.showinfo` calls inside the collecting loop (line 1069) and after the final save (line 1081) are taken to return normally. If the one at line 1069 raised, the handler at line 1073 would keep the buffer and `file_count` although the file was already written; the model does not capture that path. Collector.SaveIfDue, Collector.SaveRest and Aggregator.StepSpec rest on the same assumption.
- The batched queries are computed as if the SQLite build accepts more bound parameters than 999 plus the extras, as SQLite 3.32 and later does (limit 32766). Under a 999-parameter limit, a full batch of the names and occupation queries would fail and their `except` would return `[]` (lines 311-313, 585-587), and a full batch of the income and risk queries would raise (lines 432-434, 488-490). Batches.FullBatchOverflows, Resolvers.NamesFirstBatchOverflows and Resolvers.OccupationFirstBatchOverflows state where the count passes 999. The lines below name the affected members.
- Resolvers.NamesMembership: assumes the parameter limit above is not reached.
- Resolvers.ResolveByNames: assumes the parameter limit above is not reached.
- Resolvers.BandMembership: assumes the parameter limit above is not reached.
- Resolvers.ResolveByBand: assumes the parameter limit above is not reached.
- Resolvers.ResolveByIncome: assumes the parameter limit above is not reached.
- Resolvers.ResolveByRisk: assumes the parameter limit above is not reached.
- Resolvers.OccupationForMembership: assumes the parameter limit above is not reached.
- Resolvers.OccupationMembership: assumes the parameter limit above is not reached.
- Resolvers.ResolveByOccupation: assumes the parameter limit above is not reached.
