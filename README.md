# basket-stats: ratings, card assembly and the season-stats loader, in Dafny

The repository has two scripts that sit on top of an Elasticsearch index of
per-player, per-season basketball statistics:

- `scripts/card_generator.py` turns a player's season documents into *player
  cards*. Each card holds a rating of 1 to 4 for eight statistics. The rating
  comes from the population's percentile cut points. Shooting and rate stats
  use the 20th/50th/90th percentiles with strict `>`. The turnover rate uses
  the 10th/50th/80th percentiles, inverted and with inclusive `>=`, to give the
  SKL rating. It also reads the draft list of requested players and writes the
  cards CSV.
- `scripts/upload_to_es.py` loads the season-stats CSV. Every row is cleaned in
  place: the unlabelled first column becomes `csv_id`, the placeholder columns
  `blanl` and `blank2` are deleted, and every empty cell is dropped. The rows
  are then wrapped as bulk documents keyed by `csv_id` and sent in chunks of
  2000.

This project models the logic between the store calls:

- `wrappers.dfy` (module `Wrappers`): `Option`, `Result`, Python's `KeyError`,
  and `dict.get`.
- `card_generator.dfy` (module `CardGenerator`): the two classifiers, the card
  built from one document, the card loop over a search's documents, the draft
  reader and the cards CSV. The percentile thresholds are an input
  (`ThresholdSet`, three cut points per statistic). So are the documents a
  search returns (`Hit`: numeric statistics and text fields).
  `CardOfRow` reads a data line back. It is the inverse the round-trip lemma
  uses and has no counterpart in the source.
- `upload_to_es.dfy` (module `UploadToEs`): the row cleanup as a
  specification function (`Cleaned`) and as the step-by-step method the loader
  runs (`CleanRow`). Also the read loop, the chunking comprehension (`Chunks`)
  with its round-trip and size lemmas, and `write` without the bulk requests.

Every Python `KeyError` on these paths is modelled as a `Failure`. That covers
`row['']`, `del row['blanl']` and `del row['blank2']` in the cleanup,
`item['csv_id']` in `write`, and `hit['Year']`, `hit['Tm']` and `hit['Pos']`
in the card loop. Two consequences follow from the code as written:

- A row whose unlabelled cell is empty gets an empty `csv_id`. The drop-empty
  step then removes it, and `write` raises for that row. `Cleaned` and `Load`
  state this.
- A document without `TOV%` gets SKL rating 1, although the turnover
  classifier's own baseline is 4.

`read_draft` yields the empty string, not `None`, for an empty `year` cell.
It yields `None` when the column is missing, and also when a short line has no
cell for it (`csv.DictReader` fills missing trailing cells with `None`).
`if year:` treats the empty string and `None` alike as "no year filter"
(`YearFilter`, `EmptyYearAsksAllYears`).

## Model

| member | source | states |
|---|---|---|
| `CardGenerator.CalcAttr` | scripts/card_generator.py:146-155 | the standard rating is always in 1..4 |
| `CardGenerator.CalcAttrBuckets` | scripts/card_generator.py:148-153 | with ordered cut points: 4 iff value > p90, 3 iff p50 < value <= p90, 2 iff p20 < value <= p50, 1 iff value <= p20; a value on a cut point gets the lower rating |
| `CardGenerator.CalcAttrMonotone` | scripts/card_generator.py:146-155 | for any cut points, ordered or not, a larger value never gets a lower rating |
| `CardGenerator.CalcSklAttr` | scripts/card_generator.py:158-167 | the SKL rating is always in 1..4 |
| `CardGenerator.CalcSklAttrBuckets` | scripts/card_generator.py:160-165 | with ordered cut points: 1 iff tov >= p80, 2 iff p50 <= tov < p80, 3 iff p10 <= tov < p50, 4 iff tov < p10; a value on a cut point gets the worse rating |
| `CardGenerator.CalcSklAttrAntitone` | scripts/card_generator.py:158-167 | for any cut points, more turnovers never get a better rating |
| `CardGenerator.CalcSklAttrIsMirroredCalcAttr` | scripts/card_generator.py:158-167 | with ordered cut points the SKL classifier equals the standard one on the negated value and the negated, reversed cut points, so the inclusive tie-break is the mirror image of the strict one |
| `CardGenerator.ClassifierBoundaryExamples` | scripts/card_generator.py:146-167 | 0.50, 0.60, 0.61 and 0.10 against 0.30/0.45/0.60 rate 3, 3, 4, 1; turnovers 20, 19.9, 8 and 7.9 against 8/14/20 rate 1, 2, 3, 4 |
| `CardGenerator.BuildCard` | scripts/card_generator.py:242-259 | a card is built iff the document has Year, Tm and Pos; otherwise the error names a missing one of them; a built card has the requested name and all eight ratings in 1..4 |
| `CardGenerator.BuildCardFields` | scripts/card_generator.py:242-259 | the card copies Year/Tm/Pos from the document; each rating is its classifier's result when the document has the statistic and 1 when it does not, SKL included |
| `CardGenerator.MissingAssistRatesOne` | scripts/card_generator.py:246 | a document without AST% gets assist rating 1, whatever its other fields and the thresholds |
| `CardGenerator.CreatePlayerCards` | scripts/card_generator.py:241-260 | succeeds iff every document has Year/Tm/Pos; then it gives exactly one card per document, in document order, each the card of that document, with the requested name and ratings in 1..4; otherwise it fails with the error of the first bad document |
| `CardGenerator.ReadDraft` | scripts/card_generator.py:270-278 | one entry per row, in row order, holding the row's `name` and `year` cells (None when the column is missing); an entry asks for all years iff its year cell is missing or empty |
| `CardGenerator.EmptyYearAsksAllYears` | scripts/card_generator.py:238-239 | a draft row with an empty or missing year puts no year filter on its search |
| `CardGenerator.ToDict` | scripts/card_generator.py:97-112 | the card's dictionary has exactly the twelve header columns as keys |
| `CardGenerator.HeaderRow` | scripts/card_generator.py:289-293 | the header line has one cell per column |
| `CardGenerator.CsvRow` | scripts/card_generator.py:292-295 | a data line has one cell per header column |
| `CardGenerator.CsvRowFieldOrder` | scripts/card_generator.py:289-295 | a data line holds name, year, team, position, 2PT, 3PT, DRB, ORB, AST, BLK, STL, SKL, in that order |
| `CardGenerator.CsvRowRoundTrip` | scripts/card_generator.py:288-295 | reading a written data line back gives the same card |
| `CardGenerator.WriteCardsCsv` | scripts/card_generator.py:281-295 | the output is the header line and then one data line per card, in card order, and each card reads back unchanged from its line |
| `UploadToEs.Cleaned` | scripts/upload_to_es.py:141-155 | raises KeyError on the first missing column of `''`, `blanl`, `blank2`; otherwise: `''`, `blanl` and `blank2` are gone; `csv_id` is present iff the `''` cell was non-empty, and then holds it; no cell is empty; the keys are a subset of the input's keys less the three, plus `csv_id`; every other kept key keeps its value, and every other non-empty cell is kept |
| `UploadToEs.CleanRow` | scripts/upload_to_es.py:141-155 | the in-place steps (rename, two deletions, collect the empty keys into a list, then delete them) give exactly `Cleaned` |
| `UploadToEs.CleanRows` | scripts/upload_to_es.py:137-157 | succeeds iff every row cleans; then one cleaned item per row, in row order; otherwise the error of the first bad row |
| `UploadToEs.NumChunksIsCeiling` | scripts/upload_to_es.py:115-116 | the number of chunks is the least k with k * size >= n (size is 2000 in `write`), i.e. n / size rounded up, and 0 for no documents |
| `UploadToEs.Chunks` | scripts/upload_to_es.py:115-116 | the comprehension makes ceil(n / size) chunks |
| `UploadToEs.ChunkLengths` | scripts/upload_to_es.py:115-116 | every chunk is non-empty and at most `size` long, and all but the last are exactly `size` long |
| `UploadToEs.ChunksUnfold` | scripts/upload_to_es.py:115-116 | the chunks of a non-empty list are its first `size` items followed by the chunks of the rest |
| `UploadToEs.ChunksConcat` | scripts/upload_to_es.py:115-116 | joining the chunks gives back exactly the documents |
| `UploadToEs.Write` | scripts/upload_to_es.py:98-120 | succeeds iff every item has `csv_id`, else KeyError('csv_id'); the chunks joined are one document per item, in item order, with index `season_stats`, id the item's `csv_id` and the item as source; ceil(n/2000) chunks, each of 1..2000 documents, all but the last of 2000; each chunk's reported size is its length; the written total is the number of items |
| `UploadToEs.Load` | scripts/upload_to_es.py:137-159 | the load succeeds iff every row cleans and has a non-empty `''` cell; then it writes one document per row, in row order, with index `season_stats`, id that row's `''` cell and the cleaned row as source, in ceil(n/2000) chunks, and reports the row count as written; a failure carries the first bad row's cleanup error, or `KeyError('csv_id')` when every row cleaned |

## Left out

- Percentile computation (`__percentiles`, `__calculate_thresholds`): the store computes the percentiles, so the thresholds are an input. Nothing states that each triple is ordered; the bucket lemmas assume it, and the monotonicity lemmas do not need it.
- The search (`Search.filter(...).scan()`) is a query to the store. Its documents are an input sequence in scan order. The Player/Year term filters are not modelled; `YearFilter` gives only the value of the year filter.
- `float(...)` on stored values: statistics are `real`s, and a non-numeric value (Python's `ValueError`) or NaN is not modelled.
- `create_player_cards` is a generator. The model returns the whole card sequence or the first error. `main` consumes the generator fully before writing, so an error part-way loses the earlier cards either way.
- `main` in the card generator (`argparse`, the loop that joins each draft entry's cards) and the exit-code handling of both scripts are process-level plumbing.
- `WriteCardsCsv`: CSV quoting and the text formatting of the integer ratings are not modelled. Cells stay typed (`Text`, `Number`).
- Opening and reading files, `csv.DictReader`, reading the mapping file, and deleting and creating the index. A CSV row arrives as a map.
- `helpers.bulk` and the `print` calls in `write`. The model returns the chunks in the order they would be sent, each chunk's reported size, and the written total. A chunk that fails in the store is not modelled.
- `csv.DictReader` short rows give `None` cells, both in the loader and in `read_draft`. The model uses the empty string for them. Both are falsy, so the cleanup drops them the same way, and `YearFilter` treats a `Some("")` year exactly as the source treats `None`. Extra cells stored under the key `None` are not modelled.
- Python dicts keep insertion order, so `csv_id` ends up as the last key of a row. Rows are maps, so key order is not modelled. Dropping the empty cells does not depend on the order the keys are visited in.
- `make_hashcode` (its only call site is commented out), the unused `column_names` table, `PlayerCard.__str__` and the `PlayerCard` getters.
