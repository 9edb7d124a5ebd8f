# Document corpus: tokenizer, inverted index and id coercion

A Dafny model of the text-processing core of `db_connection_mongo_solution.py`. That program
stores text documents in a MongoDB collection. Each document carries per-term statistics. The
program also builds an in-memory inverted index over the stored documents.

The model has three parts:

- **Tokenizer** (`evaluateDocText`, and the copy of the same code inside `createDocument`).
  Every character that is not a letter or digit becomes a space. The text is lower-cased and
  split on `" "`, and empty pieces are skipped. Each distinct term is counted in an
  insertion-ordered dict, and the lengths of all occurrences are summed into `num_chars`.
  The result is one `{term, count, num_chars}` record per distinct term, in first-occurrence
  order. The three loops are `Tokenizer.MaskNonAlnum`, `Tokenizer.CountTerms` and
  `Tokenizer.BuildTermList`. Each is proved against the specification function
  `Tokenizer.Evaluate`, and the properties are lemmas about that function.
- **Inverted index** (`getIndex`, with `col.find()` given as a sequence of documents).
  The nested dict term → title → summed count is accumulated record by record
  (`InvertedIndex.Accumulate`). It is then rendered term by term, in sorted order, as
  `"title:count"` fields sorted by title and joined with `", "` (`InvertedIndex.Format`).
  Both are proved against `InvertedIndex.IndexOf`. Lemmas relate that function to reference
  definitions stated document by document: the terms that occur, the titles holding a term,
  and the sum of counts per title.
- **Id coercion**: a string id made only of decimal digits becomes the integer it denotes
  (`Ids.NormalizeId`). `createDocument`, `deleteDocument` and `updateDocument` each apply it.

Python's dict is modelled as `Dicts.Dict`: a map plus the order in which keys were first
inserted. `str.split(" ")` keeps its empty pieces (`Strings.Split`). `sorted` is a stable
insertion sort under Python's code-point order on strings (`Ordering.SortBy`). The MongoDB
collection is an abstract collaborator, the class `Store.Collection`. It holds documents by
`_id` and has a flag for whether writes are acknowledged. It stands in for `insert_one`,
`delete_one` and `update_one`, so the three write operations can be stated whole.

The comment inside `getIndex` shows its output with fields joined by `","`, in no particular
order. The code joins with `", "` and sorts by title, and the model follows the code.

## Model

| member | source | states |
|---|---|---|
| Chars.Lower | db_connection_mongo_solution.py:244 | lower-casing maps letters and digits to lower-case letters and digits, shifts `A`..`Z` by 32 code points, and keeps every other character |
| Strings.Split | db_connection_mongo_solution.py:245 | `split(" ")` yields one more piece than the string has spaces, so never zero pieces |
| Strings.JoinSplit | db_connection_mongo_solution.py:245 | joining the pieces of `split(" ")` with `" "` gives back the string |
| Strings.SplitPieces | db_connection_mongo_solution.py:245 | every character of every piece is a character of the string, and none is a space |
| Strings.FlattenSplit | db_connection_mongo_solution.py:245 | the concatenated pieces are the string with its spaces removed |
| Strings.JoinWith | db_connection_mongo_solution.py:213 | `", ".join(field_strings)` puts one separator between each two parts: its length is the parts' total length plus one separator fewer than there are parts |
| Tokenizer.Normalize | db_connection_mongo_solution.py:236-244 | the preprocessed text has the input's length; position i is a space exactly when input character i is not alphanumeric, and otherwise holds it lower-cased |
| Tokenizer.MaskNonAlnum | db_connection_mongo_solution.py:236-241 | the character loop replaces exactly the non-alphanumeric characters by spaces |
| Tokenizer.CountTerms | db_connection_mongo_solution.py:248-260 | the counting loop skips empty pieces; it leaves `term_counts` equal to the tally of the non-empty pieces in first-occurrence order, and `text_char_length` equal to the sum of their lengths |
| Tokenizer.CountTerm | db_connection_mongo_solution.py:256-259 | the if/else of the counting loop adds one to a known term and enters a new term with 1, as `Bump` specifies |
| Tokenizer.BuildTermList | db_connection_mongo_solution.py:262-265 | the record loop emits `{term, count, len(term)}` for each dict item, in insertion order |
| Tokenizer.EvaluateDocText | db_connection_mongo_solution.py:226-266 | `evaluateDocText` returns exactly the specified term records and `num_chars` |
| Tokenizer.NonEmptyMembers | db_connection_mongo_solution.py:250-252 | the tokens kept are exactly the non-empty pieces |
| Tokenizer.TokensSpellText | db_connection_mongo_solution.py:236-253 | the tokens, concatenated, spell the lower-cased letters and digits of the text in order |
| Tokenizer.TokensWellFormed | db_connection_mongo_solution.py:236-253 | every token is non-empty and made only of lower-case letters and digits |
| Tokenizer.TokensEmptyIff | db_connection_mongo_solution.py:236-253 | there are no tokens exactly when the text has no letter or digit |
| Tokenizer.TallyCounts | db_connection_mongo_solution.py:256-259 | the dict's keys are exactly the tokens, and each key maps to its number of occurrences |
| Tokenizer.TallySums | db_connection_mongo_solution.py:256-265 | the counts of the records add up to the number of tokens, and count × len(term) adds up to the total token length |
| Tokenizer.EvaluateRecords | db_connection_mongo_solution.py:236-265 | each record's term is non-empty, lower-case and alphanumeric; its `num_chars` is the term's length; its count is the term's number of occurrences, so at least 1 |
| Tokenizer.EvaluateDistinctTerms | db_connection_mongo_solution.py:256-265 | no term appears in two records, and the record terms are exactly the tokens |
| Tokenizer.EvaluateNumChars | db_connection_mongo_solution.py:249-260 | `num_chars` is summed over every occurrence, not over distinct terms: it equals the sum of token lengths, the sum of count × `num_chars` over the records, and the number of letters and digits in the text; the counts add up to the number of tokens |
| Tokenizer.EvaluateEmpty | db_connection_mongo_solution.py:237-253 | a text gives no records exactly when it has no letter or digit, and then `num_chars` is 0 |
| TokenizerExamples.EvaluateHelloWorld | db_connection_mongo_solution.py:226-266 | "Hello, World!" gives hello:1 and world:1, each with `num_chars` 5, and 10 in total |
| TokenizerExamples.EvaluateCatCat | db_connection_mongo_solution.py:244-259 | lower-casing comes before counting: "Cat cat" gives the single record cat:2, and 6 in total |
| TokenizerExamples.EvaluateNoTerms | db_connection_mongo_solution.py:237-253 | "" and "!!!" give no records and `num_chars` 0 |
| Decimal.DecimalValue | db_connection_mongo_solution.py:60 | `int(s)` on a digit string, most significant digit first; a numeral of k digits is below 10^k |
| Decimal.NatToDecimal | db_connection_mongo_solution.py:212 | `str(n)` is a non-empty digit string, with a leading zero only in "0" itself |
| Decimal.DecimalOfNatToDecimal | db_connection_mongo_solution.py:212 | reading back the numeral `str(n)` writes gives n |
| Decimal.NatToDecimalOfDecimal | db_connection_mongo_solution.py:59-60 | a digit string with no leading zero is `str` of its `int` value |
| Decimal.LeadingZero | db_connection_mongo_solution.py:59-60 | a leading zero does not change the value `int()` reads |
| Ids.NormalizeId | db_connection_mongo_solution.py:58-60 | a decimal string id becomes a non-negative integer; any other id is kept; no decimal string survives the coercion |
| Ids.NormalizeNumeral | db_connection_mongo_solution.py:58-60 | the decimal string of n and the integer n coerce to the same id |
| Ids.NormalizeLeadingZero | db_connection_mongo_solution.py:58-60 | a leading zero does not change the id a digit string coerces to |
| Ids.NormalizeExamples | db_connection_mongo_solution.py:58-60 | "42" and "042" become 42; "" and "4a2" stay strings; an integer id is kept |
| Store.CoerceId | db_connection_mongo_solution.py:113-115 | the coercion step at the top of each write operation computes `NormalizeId` |
| Dicts.Dict.Put | db_connection_mongo_solution.py:197-203 | `d[k] = v` keeps the dict well formed, maps k to v, appends a new key at the end of the order, and keeps an existing key in place |
| Dicts.Dict.Items | db_connection_mongo_solution.py:85 | `d.items()` lists each key with its value, one item per key, in insertion order |
| Ordering.Less | db_connection_mongo_solution.py:206-211 | Python's `<` on strings, which `sorted` uses: code-point order, a proper prefix first; no string is below itself or below "" |
| Ordering.SortBy | db_connection_mongo_solution.py:206-208 | `sorted(..., key=...)` returns a permutation of its input in ascending key order |
| Ordering.Sort | db_connection_mongo_solution.py:206 | `sorted(every_term)` is ascending in Python's string order and a permutation of the keys |
| Ordering.SortBySorted | db_connection_mongo_solution.py:210-211 | sorting a sequence that is already in order changes nothing, so the second sort of the items is the identity |
| Ordering.StrictlySortedUnique | db_connection_mongo_solution.py:206 | two strictly ascending sequences of strings with the same elements are equal |
| Ordering.LessTotal | db_connection_mongo_solution.py:206 | Python's string order is total |
| Ordering.LessTransitive | db_connection_mongo_solution.py:206 | Python's string order is transitive |
| InvertedIndex.AccumulateRecord | db_connection_mongo_solution.py:195-203 | one record adds its count to `every_term[term][title]`; if the inner dict or the entry is missing, it is created with that count |
| InvertedIndex.AccumulateDocument | db_connection_mongo_solution.py:192-203 | the loop over one document's records performs these steps in order |
| InvertedIndex.Accumulate | db_connection_mongo_solution.py:190-203 | the loop over the documents builds the specified `every_term` |
| InvertedIndex.RenderFields | db_connection_mongo_solution.py:209-212 | `field_strings` holds `title + ":" + str(freq)` for each item, in order |
| InvertedIndex.FormatEntry | db_connection_mongo_solution.py:207-213 | one term's string is its items sorted by title, rendered, and joined with `", "` |
| InvertedIndex.FormatTerms | db_connection_mongo_solution.py:206-213 | the formatting loop inserts the given terms in order, each mapped to its rendered entry |
| InvertedIndex.Format | db_connection_mongo_solution.py:206-213 | `reverse_index` gets the keys of `every_term` in sorted order, each mapped to its rendered entry |
| InvertedIndex.GetIndex | db_connection_mongo_solution.py:190-214 | `getIndex` returns exactly the specified index of the documents |
| InvertedIndex.AddRecordEffect | db_connection_mongo_solution.py:195-203 | one record creates only the (term, title) entry it names and adds its count there; every other entry is unchanged |
| InvertedIndex.AddRecordsEffect | db_connection_mongo_solution.py:194-203 | a document's records add, for each term, the sum of their counts under the document's title and nowhere else |
| InvertedIndex.AggregateSpec | db_connection_mongo_solution.py:190-203 | `every_term` has exactly the terms occurring in some document; it has an entry (term, title) exactly when a document with that title holds the term; that entry is the sum of the term's counts over all documents with that title |
| InvertedIndex.IndexKeys | db_connection_mongo_solution.py:190-206 | the index is a well-formed dict; its keys are exactly the terms of the documents, each once, in strictly ascending order; no documents give the empty index |
| InvertedIndex.SortedItems | db_connection_mongo_solution.py:207-208 | a term's items sorted by title are its own (title, count) entries, each title once, in strictly ascending order |
| InvertedIndex.IndexEntry | db_connection_mongo_solution.py:197-213 | a term's entry lists each title of a document holding the term exactly once, in ascending order, as `title:count` with the summed count, joined by `", "` |
| InvertedIndex.EqualEntries | db_connection_mongo_solution.py:206-213 | a map with the keys of `every_term`, holding the rendered entry of each, is the specified entry map |
| IndexExamples.SunIndex | db_connection_mongo_solution.py:190-214 | documents B:"sun" (count 1), A:"sun sun" (count 2) and A:"sun" (count 1) give the index {"sun": "A:3, B:1"} |
| IndexExamples.TextIndex | db_connection_mongo_solution.py:190-214 | the documents `createDocument` builds from A:"sun sun" and B:"sun" give the index {"sun": "A:2, B:1"}, through the tokenizer and `getIndex` |
| Store.Collection.InsertOne | db_connection_mongo_solution.py:96-98 | `insert_one` stores a document under a free `_id`; a taken `_id` leaves the store unchanged and is reported as a duplicate key when writes are acknowledged, and as an unacknowledged write otherwise |
| Store.Collection.DeleteOne | db_connection_mongo_solution.py:118-122 | `delete_one` removes the document with that `_id`, if any; the report is failure when unacknowledged, not-found when nothing was deleted, and done otherwise |
| Store.Collection.UpdateOne | db_connection_mongo_solution.py:166-173 | `update_one` with `$set` replaces all fields but `_id` of the matched document; the report is failure when unacknowledged, no-match, not-modified when nothing changed, or done |
| Store.SetFields | db_connection_mongo_solution.py:166 | `{"$set": new_dict}` keeps the `_id`, and leaves the document as it was exactly when every other field already holds its new value |
| Store.SetFieldsOnce | db_connection_mongo_solution.py:166 | a `$set` applied twice is applied once, and its result depends on the stored document only through its `_id` |
| Store.BuildDocument | db_connection_mongo_solution.py:58-93 | the inline preprocessing in `createDocument` produces the same terms and `num_chars` as `evaluateDocText`, with the coerced id |
| Store.BuildChanges | db_connection_mongo_solution.py:157-163 | `new_dict` holds the new title, text, date and category, and the new text's terms and `num_chars` from `evaluateDocText` |
| Store.CreateDocument | db_connection_mongo_solution.py:58-98 | `createDocument` stores its document under the coerced id when that id is free, and otherwise changes nothing; a taken id is a duplicate key under acknowledged writes and an unacknowledged write otherwise |
| Store.DeleteDocument | db_connection_mongo_solution.py:113-122 | `deleteDocument` removes the document under the coerced id, and reports whether there was one |
| Store.UpdateDocument | db_connection_mongo_solution.py:145-173 | `updateDocument` replaces the document under the coerced id with the one `createDocument` would build from the same arguments, or changes nothing when there is none; it reports as `update_one` does |
| Store.RecreateIsUpdate | db_connection_mongo_solution.py:149-163 | applying `new_dict` to the stored document gives what the switched-off delete-then-create branch would store |
| Store.UpdatedTerms | db_connection_mongo_solution.py:157-163 | after an update, the document's terms are exactly the tokens of the new text, and its `num_chars` counts the new text's letters and digits, whatever the document held before |
| StoreExamples.CatToDog | db_connection_mongo_solution.py:157-163 | a document holding the term cat, updated to the text "dog", holds dog and no longer cat |

## Left out

- `connectDataBase` and `getDefaultCol`: they build the MongoDB client and keep it as global default state. The model has no database connection.
- The `type(col) is str` dispatch to the default collection. It is glue around the client and is not modelled.
- The MongoDB client itself. `Store.Collection` is an abstract stand-in with a map from `_id` to document. It has no indexes, no queries other than by `_id`, no concurrency and no network failure. It also has no 8-byte integer limit. BSON stores only integers in the signed 64-bit range, so `insert_one`, `delete_one` and `update_one` raise `OverflowError` for a larger coerced id such as `"99999999999999999999"`, and that ends `createDocument`, `deleteDocument` or `updateDocument`. The model stores or looks up such an id like any other.
- Under acknowledged writes, a taken `_id` makes `insert_one` raise an error that ends `createDocument`. The model returns the report `DuplicateKey` instead and leaves the store unchanged. Under unacknowledged writes nothing is raised; the model reports `Unacknowledged`, the case lines 97-98 print.
- The console messages. The model returns the outcome each message reports as a `Report` value instead of printing.
- The `express` branch of `updateDocument`. It is never taken. `Store.RecreateIsUpdate` states that, for an id that is already stored, it would store the same document. For an id that is not stored, the two branches differ: delete-then-create would insert the new document, while the update branch stores nothing.
- The `date` field is kept as an opaque string. The `{"$date": ...}` wrapping is not modelled.
- Character classes are ASCII only. `isalnum`, `lower` and `isdecimal` on non-ASCII characters (other scripts, other digits, one-to-many lower-casing) are not modelled. Two clauses therefore hold only for ASCII text: the alphanumeric clause of `Tokenizer.EvaluateRecords`, and the "number of letters and digits" clause of `Tokenizer.EvaluateNumChars`. In Python, `"İ".lower()` is two code points, the second of them not alphanumeric.
- Ids are integers or strings. Other Python types behave like integers, because the coercion leaves them unchanged.
- Titles are strings by type. In the source, a non-string title makes `title + ":"` (line 212) raise `TypeError`, and titles of mixed types make the `sorted` at line 207 raise; neither error is modelled.
- Counts in stored term records are natural numbers. A hand-made record with a negative count is not modelled.
- The program's own arithmetic (the counts, the lengths and the sums in `getIndex`) is on Python's unbounded integers, and so is the model's, so it has no overflow.
- Ids.NormalizeId: converts a decimal string of any length. CPython 3.11 and later (and the security releases 3.7.14, 3.8.14, 3.9.14 and 3.10.7) make `int()` raise `ValueError` on a decimal string of more than 4300 digits, so db_connection_mongo_solution.py lines 60, 115 and 147 raise on such an id. The model does not have that error.
- Store.UpdateDocument: its report when the document was found and the write acknowledged is stated through `NewDocument` compared with the stored document. It does not separately model the server's `modified_count` for field values that are equal but differently typed.
