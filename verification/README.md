# PatentsFinder search core, modelled in Dafny

PatentsFinder turns a free-text patent-search request into a filter with three parts: IPC
code prefixes, assignee name fragments and a lower publication-date bound. It compiles
the filter into one BigQuery SQL statement over the patents table. For the rows that come
back, it can build a flat FAISS nearest-neighbour index over the abstracts and answer
similarity queries from it.

This project models the deterministic part of `PatentSearchUtils` in
`src/utils/patent_utils.py` and proves properties of it:

- **Filter normalisation** (`generate_search_params`). The parsed model reply must be a
  JSON object. A dict under `ipc_codes` becomes the list of its values. A missing or falsy
  `publication_from` becomes the configured default.
- **Query compiler** (`build_query`). The date literal is `publication_from` without
  hyphens. The IPC prefix matches are joined with ` OR `, and so are the case-insensitive
  assignee substring matches; an empty list gives `TRUE`. These conditions are ANDed into
  a fixed statement that ends in `LIMIT <row cap>`, and the result is stripped.
- **Embedding batching** (`build_faiss_index`). Null abstracts become `''`. The texts go
  to the embedding service in consecutive batches of `batch_size`. The vectors are
  appended in order, and the index and the mapping file are replaced together.
- **Result lookup** (`search_similar_patents`). The positions the index reports become
  the mapping records at those positions, in that order.

Modules: `Wrappers` (Option/Result/Outcome), `PyText` (`str.replace`, `str.join`,
`str.strip`, `str(int)`), `PyJson` (parsed JSON values, dict get/set, truthiness,
iteration, `str(v)`), `PatentConfig` (the settings read in `__init__`), `SearchParams`,
`QueryBuilder`, `Pipeline` (how normalisation feeds compilation) and `FaissIndex`.

The OpenAI chat and embedding services and the FAISS nearest-neighbour search are
parameters of the model. The embedding service is a function from a batch of texts to
one vector per text. The search is a function from the index, the query vector and `k`
to a list of positions. The two persisted files are the fields of the class
`FaissIndex.IndexStore`: `None` means the file is absent.

The source file has Windows line endings. Python reads source text with universal
newlines, so the lines of the triple-quoted SQL template are joined by `\n`, and the
model's constants use `\n`.

## Model

| member | source | states |
|---|---|---|
| `PyJson.Get` | src/utils/patent_utils.py:57-60 | `params.get(k)` finds a value exactly when `k` is one of the dict's keys |
| `PyJson.GetFindsFirstEntry` | src/utils/patent_utils.py:57-60 | the value `params.get(k)` finds is the one stored in the first entry with key `k` |
| `PyJson.Set` | src/utils/patent_utils.py:58-61 | `params[k] = v`: an existing key keeps its place, a new key is appended, `k` then maps to `v`, and every other key keeps its value |
| `PyJson.Values` | src/utils/patent_utils.py:58 | `list(d.values())` has one value per entry, in entry order |
| `PyJson.Iterate` | src/utils/patent_utils.py:69-73 | `for x in v` visits a list's items, a string's characters or a dict's keys; null, booleans and numbers are not iterable; the sequence visited is empty exactly when the value is falsy |
| `PyJson.IterateKey` | src/utils/patent_utils.py:69-73 | iterating `params.get(key, [])` is a TypeError exactly when the key holds a value that is not iterable; otherwise it visits nothing exactly when the key is absent or its value is falsy |
| `PyJson.Str` | src/utils/patent_utils.py:69-73 | an f-string renders a string as itself, `None`/`True`/`False` by name, an integer as a minus sign (when negative) followed by the canonical digits of its magnitude (no leading zero), and a list or dict between its brackets |
| `SearchParams.Normalized` | src/utils/patent_utils.py:56-61 | a dict-valued `ipc_codes` becomes the list of its values; a missing or falsy `publication_from` becomes the default, and a truthy one is kept verbatim; every other key is unchanged; keys keep their order, and only `publication_from` can be added |
| `SearchParams.GenerateSearchParams` | src/utils/patent_utils.py:55-62 | a reply that is not JSON, or that is JSON but not an object, is an error; otherwise the result is the normalised dict |
| `SearchParams.NormalizedIdempotent` | src/utils/patent_utils.py:56-61 | normalising an already normalised dict changes nothing |
| `PyText.DeleteAll` | src/utils/patent_utils.py:66 | `s.replace('-', '')` contains no `-`, is no longer than `s`, uses only characters of `s`, and is `s` itself when `s` has no `-` |
| `PyText.DeleteAllAppend` | src/utils/patent_utils.py:66 | removing hyphens distributes over concatenation |
| `PyText.IsoDateWithoutHyphens` | src/utils/patent_utils.py:65-66 | an ISO date `YYYY-MM-DD` without hyphens is exactly its eight digits `YYYYMMDD` |
| `QueryBuilder.DateLiteral` | src/utils/patent_utils.py:66 | a missing `publication_from` is a KeyError and a non-string value an AttributeError; otherwise the literal is the string with every `-` removed (which `PyText.DeleteAll` and `PyText.DeleteAllAppend` characterise) |
| `QueryBuilder.DateLiteralOfIsoDate` | src/utils/patent_utils.py:65-66 | the date bound of an ISO date is its eight digits |
| `PyText.JoinLayout` | src/utils/patent_utils.py:70 | from the offset of piece i, `sep.join(xs)` reads piece i, then the separator and the join of the later pieces (or nothing after the last piece) |
| `QueryBuilder.IpcClauseIsTrueIffNoCodes` | src/utils/patent_utils.py:69-70 | the IPC condition is `TRUE` if and only if there are no codes |
| `QueryBuilder.AssigneeClauseIsTrueIffNoNames` | src/utils/patent_utils.py:73-74 | the assignee condition is `TRUE` if and only if there are no names |
| `QueryBuilder.IpcConditionIsTrueIffNoCodesGiven` | src/utils/patent_utils.py:69-70 | when `ipc_codes` can be iterated, the IPC condition is `TRUE` if and only if the key is absent or its value is falsy |
| `QueryBuilder.AssigneeConditionIsTrueIffNoNamesGiven` | src/utils/patent_utils.py:73-74 | when `assignees` can be iterated, the assignee condition is `TRUE` if and only if the key is absent or its value is falsy |
| `QueryBuilder.IpcClauseLayout` | src/utils/patent_utils.py:69-70 | the IPC condition holds one `ipc.code LIKE '<code>%'` per code in input order, separated by ` OR ` |
| `QueryBuilder.AssigneeClauseLayout` | src/utils/patent_utils.py:73-74 | the assignee condition holds one `LOWER(assignee.name) LIKE LOWER('%<name>%')` per name in input order, separated by ` OR ` |
| `PyText.StripLeft` | src/utils/patent_utils.py:96 | left stripping keeps a suffix, cuts only whitespace, and leaves no leading whitespace |
| `PyText.StripRight` | src/utils/patent_utils.py:96 | right stripping keeps a prefix, cuts only whitespace, and leaves no trailing whitespace |
| `PyText.StripPadded` | src/utils/patent_utils.py:77-96 | stripping text padded with whitespace gives the text back when it does not start or end with whitespace |
| `PyText.NatToDecimal` | src/utils/patent_utils.py:94 | `str(n)` is a non-empty string of digits with no leading zero |
| `PyText.IntToDecimal` | src/utils/patent_utils.py:94 | `str(limit)` is the canonical digits of `limit` (reading back as its magnitude, with no leading zero), preceded by `-` when `limit` is negative |
| `PyText.DecimalRoundTrip` | src/utils/patent_utils.py:94 | reading back the digits `str(n)` writes gives `n` |
| `QueryBuilder.StatementShape` | src/utils/patent_utils.py:77-96 | the statement starts with `SELECT`, ends with `LIMIT <limit>`, and has no whitespace at either end |
| `QueryBuilder.BuildQuery` | src/utils/patent_utils.py:64-96 | errors are raised in source order (date bound, then IPC codes, then assignees); on success the statement is the projection, the table reference, the joins, `date >= <literal> AND (<ipc>) AND (<assignees>)`, the grouping and the row cap |
| `QueryBuilder.EmptyFiltersAreTautologies` | src/utils/patent_utils.py:69-91 | with no codes and no names, both conditions are `TRUE`, so only the date bound filters |
| `Pipeline.NormalizedDateBound` | src/utils/patent_utils.py:60-66 | a normalised dict never lacks the date bound; a missing or falsy one compiles to the default without hyphens, and a truthy one compiles as before |
| `Pipeline.NormalizedFilterLists` | src/utils/patent_utils.py:57-74 | a raw dict of IPC codes would be iterated by its keys, but after normalisation it is iterated by its values; list-valued codes and assignees compile as before |
| `Pipeline.DefaultDateCompilesToDigits` | src/utils/patent_utils.py:60-96 | an ISO default date reaches the WHERE clause as `YYYYMMDD` |
| `FaissIndex.ChunkSizes` | src/utils/patent_utils.py:105-108 | every batch is non-empty and holds at most `batch_size` texts |
| `FaissIndex.ChunkAt` | src/utils/patent_utils.py:105-108 | batch c is `texts[c*size : c*size+size]`, and it starts inside the list |
| `FaissIndex.ChunksCover` | src/utils/patent_utils.py:103-110 | concatenating the batches gives back exactly the texts |
| `FaissIndex.ChunkCount` | src/utils/patent_utils.py:105-106 | the number of embedding requests is ceil(n / batch_size) |
| `FaissIndex.EmbeddedLength` | src/utils/patent_utils.py:104-110 | the vectors appended over all batches number exactly the texts |
| `FaissIndex.SlotAlignment` | src/utils/patent_utils.py:104-110 | slot i holds the vector returned at position i % size of request i / size, and that request held text i at that position |
| `FaissIndex.SlotMatchesRecord` | src/utils/patent_utils.py:103-116 | slot i of a built index holds the vector for the abstract of record i of the mapping, or for `''` when that abstract is null |
| `FaissIndex.EmbedInBatches` | src/utils/patent_utils.py:104-110 | the loop sends exactly the batches above, in order, and ends with one vector per text, which are the replies concatenated |
| `FaissIndex.IndexStore.constructor` | src/utils/patent_utils.py:39-40 | a new instance only records the two paths: the store holds whatever index and mapping files are already there, or none |
| `FaissIndex.IndexStore.Build` | src/utils/patent_utils.py:102-116 | `batch_size` 0 raises, and a negative size or no rows leaves no vector to size the index; these failures write nothing; otherwise both files are replaced, the mapping by the rows in order and the index by the batch vectors, with equal lengths, whatever the files held before |
| `FaissIndex.RebuildReplaces` | src/utils/patent_utils.py:114-116 | a second build replaces the first: the files then describe only the second row set |
| `FaissIndex.IndexStore.Search` | src/utils/patent_utils.py:118-128 | a missing index file, then a missing mapping file, is an error; otherwise the result is the lookup of the positions reported for the query's vector; when the files agree in length, the mapping is non-empty and the search reports only slots or -1, the lookup succeeds with one mapping record per reported position |
| `FaissIndex.BuildThenSearch` | src/utils/patent_utils.py:102-128 | a search right after a successful build always succeeds, and every record it returns is one of the rows the index was built from |
| `FaissIndex.Lookup` | src/utils/patent_utils.py:128 | it succeeds exactly when every position lies in [-n, n); the output has one record per reported position, in the reported order, and a negative position counts from the end; on failure the error names an out-of-range position |
| `FaissIndex.LookupInRange` | src/utils/patent_utils.py:128 | non-negative positions inside the mapping select `mapping[p]`, so every result is a mapping record |
| `FaissIndex.MissingNeighbourIsLastRecord` | src/utils/patent_utils.py:126-128 | the `-1` FAISS reports for a missing neighbour selects the last record rather than failing |

## Left out

- The OpenAI chat completions in `generate_search_params` and `generate_summary` are
  network calls. The model takes the result of `json.loads` on the reply as input: `None`
  when the reply is not JSON. `generate_summary` is only a wrapper around such a call.
- `json.loads` itself is not modelled, and neither are JSON floats: numbers are
  integers. An object's keys are taken as distinct, as `json.loads` leaves them.
- `PyJson.Str`: `repr` of nested strings always uses single quotes and no escaping.
  Python chooses the quote character and escapes special characters. This only matters
  when an IPC or assignee list holds lists or dicts.
- Configuration values are typed. `publication_from` is a string, and `batch_size` and
  `limit` are integers. A YAML date or any other type is not modelled. The model names,
  prompts and file paths in the configuration are not modelled either.
- `search_patents` and the BigQuery client only execute the statement, so they are not
  modelled.
- Float32 arrays, `IndexFlatL2` construction, and reading and writing the index file are
  not modelled. The index is represented as its sequence of vectors. Vectors of
  different dimensions, which numpy would reject, are not modelled.
- The nearest-neighbour search is a parameter. FAISS's handling of `k <= 0` is not
  modelled.
- The JSON round trip of the mapping file (`to_dict`, `json.dump`, `json.load`,
  `DataFrame`) is taken to give back the same records.
- I/O failures other than an absent file are not modelled. This includes a crash
  between writing the index and writing the mapping.
- A DataFrame with no `abstract` column is not modelled: a row always has that field.
- `FaissIndex.IndexStore.Build`, `FaissIndex.IndexStore.Search`: both require the
  embedding service to return one vector per text. The source relies on this contract
  without checking it. `FaissIndex.BuildThenSearch` likewise requires the
  nearest-neighbour search to report only index slots or -1, as FAISS documents.
- The embedding oracle also stands for the post-processing of the reply,
  `d['embedding']` (src/utils/patent_utils.py:110, 125). With the v1 OpenAI client
  the source imports, the reply items are typed objects, and subscripting them plausibly
  raises a TypeError. The model takes this step to yield the vectors, so the success
  path of `FaissIndex.IndexStore.Build` describes what the code evidently intends.
- `app.py`, `test.py` and `tests/test_gcp_connectivity.py` are left out: they are the
  Streamlit UI, credential checks and a live connectivity test. The code has no yes/no
  confirmation state machine to model.
- SQL escaping is not added: values are interpolated verbatim, as the source does.
- Four behaviours of the code worth knowing:
  - When `k` exceeds the number of indexed rows, FAISS pads with `-1`, and `iloc[-1]`
    returns the last record again (`FaissIndex.MissingNeighbourIsLastRecord`). The
    result is not cut down to the available rows.
  - A non-empty but invalid date in `publication_from` is kept; there is no date check.
  - A missing `ipc_codes` or `assignees` key is not an error.
  - An empty row set makes `build_faiss_index` fail before it writes anything.
