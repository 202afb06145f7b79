# wordvector_be in Dafny

A model of the word-vector backend: the fixed-width codecs, the two offline
tools that fill its databases, and the decision logic of the HTTP server.

- `util.dfy` (module `Util`) covers the little-endian codecs of `util/util.go`.
  A `float32` is its IEEE-754 bit pattern, so `Float32bits` and
  `Float32frombits` are the identity. It also defines `IdKey(id)`, the key
  `Uint32bytes(uint32(id))`. The index builder stores an item id under it,
  and the server reads ids back through it.
- `ingest.dfy` (module `WordVectorDb`) covers `gen_wordvector_leveldb`.
  - The first line of the embedding file is a header giving the dimension.
  - Each later line is split on single spaces and must hold `1 + dim` fields.
  - Each value is parsed as a float and written as 4 little-endian bytes into a `4 * dim` byte record.
  - The record is put under the keyword.
  - The first failure (a `log.Fatal` or panic) ends the run. Earlier puts stay.
  - The specification is the function `Ingest`. The imperative `IngestFile` is proved equal to it, and `ReadHeader` and `PackLine` to the functions for one header line and one data line.
  - `PackFields` fills the record array in place. It is proved equal to packing the parsed values.
  - `PutValue` writes bytes 0..3 of one value into the array. It is proved to change no other byte.
- `loader.dfy` (module `AnnoyIndexGen`) covers `gen_annoy_index`.
  - It walks the word-vector records in iteration order.
  - It cuts each record into 200 floats and hands them to the index under id `count`.
  - It records keyword→id and id→keyword in two databases.
  - A record shorter than 800 bytes makes the slice expression panic.
  - `LoadItems` is proved equal to the functions `LoadedItems`, `KeywordIds` and `IdKeywords`.
  - Lemmas show the two maps are mutual inverses on the loaded ids.
- `server.dfy` (module `Server`) covers the four handlers of `main.go`.
  - The result count is clamped.
  - The query vector is built by summing item vectors. `getSimilarKeyword` skips unknown keywords. `getWordVector` aborts on the first one.
  - If the first keyword is unknown, `getSimilarKeyword` falls back to segmentation in one case only.
  - `getSimilarKeyword` fails when no keyword matches.
  - `getSimilarKeywordFromVector` checks the vector's dimension.
  - Result ids are resolved all-or-nothing.
  - `getSimilarityScore` checks its two arguments.

LevelDB databases are maps. The LevelDB iterator is a sequence of records.
Every call into code outside the core is a function passed in, either as a
parameter or as a field of `Server.Backend`:
- `strconv.ParseInt`, `ParseFloat` and `Atoi`;
- float32 addition;
- the ANN index's `GetItem` and `GetNnsByVector`;
- the cosine similarity;
- the sego segmenter.

A Go panic, a `log.Fatal` and an `http.Error` each become an error value.

## Model

| member | source | states |
|---|---|---|
| Util.Uint32Bytes | util/util.go:26-30 | the encoding of a uint32 has exactly four bytes |
| Util.Uint32BytesLittleEndian | util/util.go:26-30 | byte k of `Uint32bytes(v)` is `(v >> 8k) & 0xFF`, least significant first |
| Util.Uint32FromBytes | util/util.go:22-24 | defined only on at least four bytes (Go panics on fewer); re-encoding the result gives back bytes 0..3, so encoding a decoded value is the identity on four bytes |
| Util.Uint32FromBytesValue | util/util.go:22-24 | the result is `b[0] + 256 b[1] + 256^2 b[2] + 256^3 b[3]`, written out |
| Util.Uint32FromBytesPrefix | util/util.go:22-24 | bytes after the fourth do not affect the result |
| Util.Uint32RoundTrip | util/util.go:22-30 | decoding the encoding of a uint32 gives it back |
| Util.Uint32Injective | util/util.go:26-30 | distinct values have distinct encodings |
| Util.Float32Bytes | util/util.go:15-20 | an 8-byte slice: the bit pattern little-endian in bytes 0..3, zeros in bytes 4..7 |
| Util.Float32FromBytes | util/util.go:9-13 | defined on at least four bytes; reads the bit pattern from bytes 0..3 only |
| Util.Float32RoundTrip | util/util.go:9-20 | a float survives encode then decode bit for bit |
| Util.IdKeyIsUint32Bytes | gen_annoy_index/main.go:56 | the id key is `Uint32bytes` of the id truncated to 32 bits |
| Util.IdKeyInjective | gen_annoy_index/main.go:56-61 | ids below 2^32 get distinct keys |
| Util.IdKeyWraps | gen_annoy_index/main.go:61 | `uint32(count)` wraps: id `2^32 + j` gets the key of id `j` |
| WordVectorDb.Split | gen_wordvector_leveldb/main.go:45 | at least one field; no field holds the separator; joining the fields with it gives the line back |
| WordVectorDb.PackAt | gen_wordvector_leveldb/main.go:56-60 | bytes `[4i, 4i+4)` of a record are bytes 0..3 of `Float32bytes(values[i])` |
| WordVectorDb.ParseValuesMeaning | gen_wordvector_leveldb/main.go:51-55 | parsing fails exactly when some field fails, naming the first one; otherwise value i is the parse of field i |
| WordVectorDb.ParseValuesStops | gen_wordvector_leveldb/main.go:52-55 | the first field that fails to parse stops the whole parse |
| WordVectorDb.PutValue | gen_wordvector_leveldb/main.go:57-60 | writes four bytes at `at` and changes no other byte |
| WordVectorDb.PackFields | gen_wordvector_leveldb/main.go:50-61 | the array loop yields the packed parsed values, or the index of the first field that fails |
| WordVectorDb.PackLine | gen_wordvector_leveldb/main.go:45-61 | one data line gives the record of `EncodeLine`: the field-count check, then the value parse |
| WordVectorDb.ReadHeader | gen_wordvector_leveldb/main.go:30-42 | the header branch yields `ParseHeader`: field 0 must parse (else BadTotal), field 1 must exist (else MissingDim) and parse (else BadDim) |
| WordVectorDb.IngestFile | gen_wordvector_leveldb/main.go:28-71 | the scanning loop leaves exactly the database and error of `Ingest` |
| WordVectorDb.EncodeFieldsStores | gen_wordvector_leveldb/main.go:45-63 | a line is stored iff it has `1 + dim` fields that all parse; its key is field 0, its record is `4 * dim` bytes, and bytes `[4(i-1), 4i)` encode field i |
| WordVectorDb.EncodeFieldsFails | gen_wordvector_leveldb/main.go:45-55 | a wrong field count stops the run with that count; an unparsable field i stops it naming line and field |
| WordVectorDb.IngestDataStored | gen_wordvector_leveldb/main.go:44-66 | every stored key either keeps the value it had before the run or holds the record some data line encodes to under that key |
| WordVectorDb.IngestDataUntouched | gen_wordvector_leveldb/main.go:63 | a key that no line of the run puts keeps the value it had |
| WordVectorDb.IngestDataLastWrite | gen_wordvector_leveldb/main.go:44-66 | a data line that the run reaches (all lines up to it encode) is stored under its first field with its record, unless a later line puts the same key |
| WordVectorDb.IngestDataStops | gen_wordvector_leveldb/main.go:44-66 | the first bad line ends the run with its error, keeping the database built from the lines before it |
| WordVectorDb.IngestDataCompletes | gen_wordvector_leveldb/main.go:44-71 | the run ends without error exactly when every data line encodes |
| WordVectorDb.IngestHeaderNotStored | gen_wordvector_leveldb/main.go:30-43 | a bad header stops the run with the database untouched; otherwise every stored record is an old one or the record of a data line after the header, packed with the header's `dim` |
| AnnoyIndexGen.UnpackAt | gen_annoy_index/main.go:50-54 | float i of a record is `Float32frombytes` of bytes `[4i, 4i+4)` |
| AnnoyIndexGen.UnpackPrefix | gen_annoy_index/main.go:50-54 | only the first `4 * dim` bytes of a record are read |
| AnnoyIndexGen.UnpackPack | gen_annoy_index/main.go:50-54 | decoding a record written by the ingestion tool gives back its floats |
| AnnoyIndexGen.PackUnpack | gen_annoy_index/main.go:50-54 | re-packing the decoded floats gives back the first `4 * dim` bytes |
| AnnoyIndexGen.DecodeRecord | gen_annoy_index/main.go:50-54 | the append loop yields the 200 floats of the record |
| AnnoyIndexGen.LoadItems | gen_annoy_index/main.go:42-66 | walks the records until the first short one (the panic, reported with its index) or the end; the items and both maps are those of the records walked |
| AnnoyIndexGen.LoadedItemsAt | gen_annoy_index/main.go:42-65 | item j has id j (ids are dense, in iteration order) and the floats of record j |
| AnnoyIndexGen.KeywordIdsKeys | gen_annoy_index/main.go:56 | the keyword database holds the previous keys plus the loaded keywords |
| AnnoyIndexGen.KeywordIdsUnchanged | gen_annoy_index/main.go:56 | a previous key that no loaded record shares keeps its value |
| AnnoyIndexGen.KeywordIdsAt | gen_annoy_index/main.go:56 | with distinct iterator keys, keyword j maps to `IdKey(j)` |
| AnnoyIndexGen.IdKeywordsKeys | gen_annoy_index/main.go:61 | the id database holds the previous keys plus the keys of ids 0..n-1 |
| AnnoyIndexGen.IdKeywordsUnchanged | gen_annoy_index/main.go:61 | a previous key that no loaded id shares keeps its value |
| AnnoyIndexGen.IdKeywordsAt | gen_annoy_index/main.go:61 | with at most 2^32 records, `IdKey(j)` maps to keyword j |
| AnnoyIndexGen.LoadedInverse | gen_annoy_index/main.go:55-61 | the two databases are mutual inverses on the loaded records |
| Server.ClampCount | main.go:122-126 | the count lies in [1, 100]; in-range counts are kept, counts <= 0 become 10, counts > 100 become 100 |
| Server.NumKeywords | main.go:109-126 | fails iff there is exactly one `num` value and Atoi rejects it; a single accepted `num` gives `ClampCount` of its value; an absent or repeated `num` gives 10; success lies in [1, 100] |
| Server.SingleValue | main.go:312-313 | present iff the parameter has exactly one value, which it then is |
| Server.DecodeIndex | main.go:143-148 | succeeds iff the keyword is stored with at least four bytes; the id is below 2^32 and its key is the stored bytes; otherwise NotFound iff the keyword is absent, else MalformedId |
| Server.ZeroVector | main.go:128 | 200 zeros |
| Server.AddVector | main.go:151-153 | the sum keeps the accumulator's length |
| Server.SumResolved | main.go:141-154 | a successful sum has 200 elements |
| Server.SumAll | main.go:272-286 | a successful sum has 200 elements |
| Server.Resolved | main.go:142-146 | every keyword kept is in the keyword database |
| Server.Resolve | main.go:163-175 | succeeds iff every result id's key is in the id database; then entry j is (keyword of id j, cosine of id j), in order; otherwise UnknownId |
| Server.SimilarKeywordsFromVector | main.go:212-240 | a vector whose length is not 200 yields DimensionMismatch; a success has one entry per id the index returns |
| Server.WordVector | main.go:266-286 | a successful vector has 200 elements |
| Server.SimilarityScore | main.go:311-339 | succeeds iff both parameters are single and both keywords decode; the score is the cosine of the two items; a bad keyword1 gives MissingKeyword |
| Server.AddInto | main.go:151-153 | the array loop leaves `AddVector` of the old contents |
| Server.SumResolvedKeys | main.go:141-154 | the skipping loop computes `SumResolved` |
| Server.SumAllKeys | main.go:272-286 | the aborting loop computes `SumAll` |
| Server.ResolveResults | main.go:163-175 | the result loop computes `Resolve` |
| Server.GetSimilarKeyword | main.go:103-175 | the handler answers `SimilarKeywords` |
| Server.GetSimilarKeywordFromVector | main.go:212-240 | the handler answers `SimilarKeywordsFromVector` |
| Server.GetWordVector | main.go:266-286 | the handler answers `WordVector` |
| Server.SumResolvedErrFinal | main.go:141-154 | an error on a prefix of the keywords is the answer for all of them |
| Server.SumAllErrFinal | main.go:273-286 | an error on a prefix of the keywords is the answer for all of them |
| Server.ResolveErrFinal | main.go:163-169 | an unknown id in a prefix of the results is the answer for all of them |
| Server.ResolveFirstUnknown | main.go:163-169 | the first result id that does not resolve names the error |
| Server.SumResolvedIsSumAllOfResolved | main.go:141-154 | skipping missing keywords equals the aborting sum over the resolved keywords, and `validKeywords` counts those keywords |
| Server.ResolvedEmpty | main.go:141-158 | no keyword resolves iff none is in the keyword database |
| Server.FirstKeywordRule | main.go:129-138 | an unknown first keyword fails the request unless it is the only keyword and a dictionary is loaded |
| Server.NoMatchExactly | main.go:155-158 | after segmentation the request fails with NoMatch iff no chosen keyword is in the database |
| Server.SumAllColumns | main.go:272-286 | the sum succeeds iff every keyword resolves to an item of at most 200 floats; element i is then the column-wise sum |
| Server.WordVectorFirstMissing | main.go:273-279 | `getWordVector` fails on the first unknown keyword even after keywords that resolved |

## Left out

- The ANN forest (`NewAnnoyIndexAngular`, `AddItem` internals, `Build`, `Save`, `Load`, `GetNnsByVector` search). It belongs to an external library. `AddItem` is an appended item, and the search is the `getNns` function of `Server.Backend`.
- The cosine similarity (`getCosineSimilarity`, `getCosineSimilarityByVector`). It is float arithmetic. Here it is the `cosine` function; `getCosineSimilarity(i, j)` is `cosine(getItem(i), j)`.
- Float32 arithmetic and the conversions in ParseFloat. Addition is the `add` function and parsing is `parseFloat`, so no rounding is modelled.
- `strconv.ParseInt` and `strconv.Atoi`. These are the `parseInt` and `atoi` parameters. The int64 range and the `int(l)` conversion are left to them.
- LevelDB. Each database is a map. `Get` errors other than "not found" and `Put` errors are not modelled.
- Order of iteration. Records are taken in iterator order. LevelDB keys are unique, so `DistinctKeys` is a hypothesis of the lemmas that need it.
- Go slice capacity. `value[i*4:(i+1)*4]` is checked against the length of the value, not against its capacity as Go does.
- `bufio.Scanner` details. Lines are taken as the scanner yields them. Not modelled:
  - the 64 KiB line limit. A longer line makes `Scan` stop, and the `scanner.Err()` check after the loop then ends the run with `log.Fatal`; the model has no error for it;
  - the stripping of `\r`.
- `[]byte(string)` conversions. They are the identity, because keys are Dafny strings.
- The header's `total`. It is parsed but only logged. The header `dim` is never compared with the index's 200.
- AnnoyIndexGen.IdKeywordsAt: the lemma needs at most 2^32 records. Beyond that `uint32(count)` wraps (`Util.IdKeyWraps`), and later records overwrite earlier keys.
- AnnoyIndexGen.LoadedInverse: the lemma needs the same 2^32 bound.
- HTTP. Left out:
  - request routing, status codes and headers;
  - JSON encoding of responses, including `json.Marshal` failing on NaN and `null` for an empty keyword list;
  - JSON decoding of the `/get.similar.keywords.from.vector/` body, which arrives already decoded as a count and a vector.
- The sego segmenter. It is the `segment` function: `SegmentsToSlice(Segment(s), false)`.
- Flags, signal handling, goroutines and logging. They have no effect on results.
- Server.SimilarKeywordsFromVector: the contract shows only the dimension check and the result count. The entries are given by `Server.Resolve`'s contract.
- Server.AddVector: the contract states only the length. Its elements are given by `Server.SumAllColumns`.
