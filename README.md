# xlm_torchscript_server: request and response shaping, in Dafny

The repository serves a TorchScript text classifier in three layers:

- a Thrift prediction service, whose `PredictorHandler` tokenizes a document, runs the model on it and returns a `label -> score` map;
- a Pistache REST proxy in front of that service;
- a small Flask front end that queries the proxy and ranks its answer.

There are two C++ servers:

- The **JSON-mode server** (`server_docnn/`) expects a JSON body with a `"text"` field. It answers with a JSON envelope: the softmax of the scores, ranked by confidence, with the `"intent:"` prefix stripped from each label. The envelope's shape is `text`, `intent_ranking`, `intent`, `entities`.
- The **query-mode server** (`server/`) expects a `doc` query parameter. It answers with one `label:score` line per entry, in key order.

The **console** (`console/server.py`) parses the query-mode body back into `(label, score)` pairs. It sorts them by descending score and reports the first pair as the prediction.

This project models the logic around the model, not the model. Model outputs, `exp`, the rendering and parsing of numbers, and URL decoding are all function parameters. Scores are `real`s.

Modules:

- `StdMap`: `std::map<std::string, double>` as a sequence of entries with strictly ascending keys. It models `insert`, lookup, and the insertion loop both `predict` methods share (`InsertAll`).
- `Text`: Python's `str.split`/`str.join` for a one-character separator.
- `Seqs`: element-wise mapping of sequences, and the fact that it carries permutations to permutations.
- `Formatter`: `Formatter` in `server_docnn/formatter.hpp`. `ResponseFormatter` in `server_docnn/server.cpp` (lines 133-216) is the same code; `FormatResponse`, `SortMapByValue` and `StripPrefix` model both.
  - The sort is an in-place insertion sort over an array.
  - Its contract promises only a permutation and non-increasing values, because `std::sort` leaves the order of ties open.
- `Proxy`: the RPC client both REST proxies use. A `Transport` records whether it is open and which documents were sent over it. `PredictorClient.Predict` sends one document and returns the service's map.
- `DocnnServer`: the JSON-mode server.
  - The whitespace tokenizer, an in-place lower-casing and a splitting loop over a `char` array, is proved against the spec functions `Finished`/`Pending`/`Words`.
  - `predict` builds a one-document batch.
  - `Validate` is the validation chain of `onRequest`.
- `XlmServer`: the query-mode server's `predict` (exp of every model output), the line-per-score body, and its `onRequest`.
- `Console`: `get_key_from_data`, `get_predictions` and `upload_data` of the Flask app. The Python stable sort is modelled as an insertion sort, and its stability is proved.
- `RoundTrip`: the query-mode body read back by the console.
  - Under stated conditions on labels and rendered numbers, the console recovers every entry.
  - It lists the entries by descending score.
  - Equal scores stay in ascending label order, because the map iterates in key order and the sort is stable.

## Model

| member | source | states |
|---|---|---|
| Formatter.FormatRequest | server_docnn/formatter.hpp:11-22 | succeeds exactly when the body's `"text"` field holds a string, and returns that string; a missing field fails with out_of_range, a non-string value with type_error |
| Formatter.Mismatch | server_docnn/formatter.hpp:90 | the position `std::mismatch` returns: the prefix and the document agree before it and differ at it (or it is the prefix's end) |
| Formatter.StripPrefix | server_docnn/formatter.hpp:88-96 | a document starting with the prefix loses exactly the prefix, any other document (including a shorter one) is returned unchanged; the result is a suffix of the document of length `|doc|` or `|doc| - |prefix|` |
| Formatter.Sum | server_docnn/formatter.hpp:33-34 | `accumulate` of the values, left to right in key order; its properties are stated by `Formatter.SumPositive`, `Formatter.SumNormalize` and `Formatter.SoftmaxSumsToOne` |
| Formatter.SumPositive | server_docnn/formatter.hpp:33-34 | a non-empty map of positive values has a positive sum, and no value exceeds it |
| Formatter.Normalize | server_docnn/formatter.hpp:37-41 | every value divided by the sum, keys kept (`StdMap.MapValuesKeys`); `Formatter.SumNormalize` states that the normalised values add up to the sum divided by `total` |
| Formatter.SumNormalize | server_docnn/formatter.hpp:37-41 | dividing every value by a non-zero total divides their sum by it |
| Formatter.Softmax | server_docnn/formatter.hpp:26-41 | one entry per score; `Formatter.SoftmaxKeys` states that keys and order are kept, and `Formatter.SoftmaxIsDistribution` that the values form a probability distribution |
| Formatter.SoftmaxKeys | server_docnn/formatter.hpp:26-41 | exponentiating and normalising keep exactly the input's keys, in the same (ascending) order; only values change |
| Formatter.SoftmaxIsDistribution | server_docnn/formatter.hpp:33-41 | for a non-empty map the normalised confidences add up to 1, and each lies in (0, 1] |
| Formatter.SoftmaxSumsToOne | server_docnn/formatter.hpp:33-41 | the normalised confidences of a non-empty map add up to exactly 1 |
| Formatter.SortMapByValue | server_docnn/formatter.hpp:77-86 | the result is a permutation of the map's entries with non-increasing values |
| Formatter.Rank | server_docnn/formatter.hpp:50-51 | one ranking entry: the label through `Formatter.StripPrefix` with "intent:", and the confidence unchanged |
| Formatter.Ranking | server_docnn/formatter.hpp:48-52 | one ranking entry per sorted score, in the same order; `Formatter.RankingOrder` states that the order of values carries over, and `Formatter.RankingMembers` which entries appear |
| Formatter.RankingMembers | server_docnn/formatter.hpp:48-52 | a list with the same multiset as the ranking of a map holds the `Rank` of each of its entries, and nothing else |
| Formatter.FormatResponse | server_docnn/formatter.hpp:24-62 | the envelope copies the text verbatim, has no entities, its ranking is a permutation of the stripped softmax entries in non-increasing confidence, and `intent` is the first ranking entry or null when the ranking is empty |
| Formatter.RankingOrder | server_docnn/formatter.hpp:47-52 | building the ranking from a list sorted by non-increasing value gives non-increasing confidences |
| Formatter.ResponseIntent | server_docnn/formatter.hpp:57-61 | the ranking has one entry per score; `intent` is null exactly when there are no scores, and otherwise it is the first ranking entry and the most confident one |
| Formatter.ResponseEntries | server_docnn/formatter.hpp:47-52 | every softmax entry appears in the ranking with its label stripped of "intent:", and every ranking entry comes from one |
| Formatter.IntentJson | server_docnn/formatter.hpp:50-51 | a ranking entry is a JSON object with exactly the keys name and confidence, holding the stripped label and the confidence |
| Formatter.ToJson | server_docnn/formatter.hpp:54-62 | the JSON object has exactly the keys text, intent_ranking, intent, entities; text is the string, each ranking element is `Formatter.IntentJson` of its entry, and `intent` is null exactly when absent; for an envelope `Formatter.FormatResponse` builds (where `IsResponse` makes `intent` the first ranking entry and entities empty) `intent` equals the ranking array's first element and entities is an empty array |
| StdMap.StrLess | server/server.cpp:138-140 | the key order of `std::map<std::string, ...>`: `std::string::compare`, lexicographic on character codes with a proper prefix first, which is byte order for UTF-8 text. It fixes the order in which the maps are iterated, and so the order of the body lines and the tie order `RoundTrip.SortTiesByLabel` proves; `StdMap.StrLessIrreflexive`, `StdMap.StrLessTransitive` and `StdMap.StrLessTotal` make it a strict total order |
| StdMap.StrLessIrreflexive | server/server.cpp:138-140 | no string is ordered before itself |
| StdMap.StrLessTransitive | server/server.cpp:138-140 | the key order is transitive |
| StdMap.StrLessTotal | server/server.cpp:138-140 | of two different strings, one is ordered before the other |
| StdMap.InsertFind | server_docnn/server.cpp:125-127 | `insert` of a key already present changes nothing, of a new key adds that key's value, and leaves every other key's value as it was |
| StdMap.Insert | server/server.cpp:93 | `std::map::insert`; `StdMap.InsertFind`, `StdMap.InsertKeys` and `StdMap.InsertOrdered` state its lookups, keys and order |
| StdMap.InsertKeys | server_docnn/server.cpp:126 | after `insert` the keys are the old keys plus the inserted one |
| StdMap.InsertOrdered | server/server.cpp:92-94 | `insert` keeps the keys strictly ascending |
| StdMap.InsertAll | server/server.cpp:92-94 | inserting every model output gives a map with exactly the output's keys, each holding `f` of the output's first value for that key |
| StdMap.MapValues | server_docnn/formatter.hpp:27-30 | `std::transform` of a map into a new map with the same keys; `StdMap.MapValuesFind` and `StdMap.MapValuesKeys` state its lookups, keys and order (the same transform normalises at lines 38-41) |
| StdMap.MapValuesKeys | server_docnn/formatter.hpp:27-30 | transforming values keeps the keys and their ascending order |
| StdMap.MapValuesFind | server_docnn/formatter.hpp:27-30 | after transforming values, every key present before holds `f` of its old value, and no other key is present |
| DocnnServer.IsSpace | server_docnn/server.cpp:72 | `isspace` in the C locale: space, tab, newline, vertical tab, form feed and carriage return, and no other character |
| DocnnServer.ToLower | server_docnn/server.cpp:68 | `::tolower` in the C locale: 'A'..'Z' become 'a'..'z', every other character is unchanged; `DocnnServer.LowerKeepsSpaces` states that it moves no character into or out of whitespace |
| DocnnServer.PredictorHandler.Tokenize | server_docnn/server.cpp:67-90 | the document is lower-cased in place, the appended tokens are the whitespace-separated words of the lower-cased document, and `<pad>` is appended when the token list would otherwise be empty |
| DocnnServer.PredictorHandler.LowerInPlace | server_docnn/server.cpp:68 | the document array afterwards holds the lower-cased document, character by character |
| DocnnServer.PredictorHandler.AppendWords | server_docnn/server.cpp:69-84 | the scan appends to the token list exactly the whitespace-separated words of the document, in order |
| DocnnServer.Words | server_docnn/server.cpp:69-84 | the maximal whitespace-free runs of the document, in order; `DocnnServer.WordsWellFormed`, `DocnnServer.WordsConcat`, `DocnnServer.WordsSplit`, `DocnnServer.WordsOfRun` and `DocnnServer.WordsEmpty` pin it down |
| DocnnServer.Tokens | server_docnn/server.cpp:67-90 | the token list `tokenize` builds from an empty vector; `DocnnServer.TokensPadding` states when it is the pad token |
| DocnnServer.WordsWellFormed | server_docnn/server.cpp:71-84 | every token is non-empty and contains no whitespace |
| DocnnServer.WordsConcat | server_docnn/server.cpp:71-84 | the tokens, written one after another in order, are the document with its whitespace removed |
| DocnnServer.WordsSplit | server_docnn/server.cpp:72-79 | a whitespace character separates the tokens of the text before it from those after it |
| DocnnServer.WordsOfRun | server_docnn/server.cpp:82-84 | a whitespace-free text is a single token, or no token when empty |
| DocnnServer.WordsEmpty | server_docnn/server.cpp:71-84 | no token results exactly when the document is empty or all whitespace |
| DocnnServer.LowerKeepsSpaces | server_docnn/server.cpp:68 | lower-casing changes no character into or out of whitespace, so a document is all whitespace after lower-casing exactly when it was before |
| DocnnServer.TokensPadding | server_docnn/server.cpp:86-89 | an empty or all-whitespace document gives exactly `["<pad>"]`; any other gives its non-empty list of words |
| DocnnServer.PredictorHandler.Predict | server_docnn/server.cpp:97-129 | the model runs on a batch holding exactly the one token list of the document, and the result map has exactly the model's keys and values |
| DocnnServer.Validate | server_docnn/server.cpp:252-279 | in order: a missing Content-Type, then a media type other than application/json, then a missing `"text"` field each give their Bad_Request message; a non-string `"text"` throws type_error, which `onRequest` does not catch; the text is forwarded exactly when all checks pass and `"text"` is a string |
| DocnnServer.RestProxyHandler.OnRequest | server_docnn/server.cpp:247-284 | the transport is open afterwards; a rejected request sends nothing; a valid one sends the text once and answers Ok with the formatted envelope of the scores the service returned |
| Proxy.Transport.Open | server/server.cpp:129-131 | opening leaves the transport open and sends nothing |
| Proxy.PredictorClient.Predict | server/server.cpp:136-137 | a call sends the document once over the open transport and returns the service's scores for it |
| XlmServer.PredictorHandler.Predict | server/server.cpp:71-95 | the result map has exactly the keys of the model output for the one-document batch, each holding `exp` of the model's value |
| XlmServer.Line | server/server.cpp:139 | one `key:value` line; `XlmServer.BodyLines` and `Console.LineRoundTrip` state how it splits and parses back |
| XlmServer.Body | server/server.cpp:138-140 | every entry's line followed by a newline, in map order; `XlmServer.RenderScores` is proved to produce it and `XlmServer.BodyLines` states how it splits |
| XlmServer.Lines | server/server.cpp:138-140 | one line per entry, the `i`-th being the `i`-th entry's `key:value` |
| XlmServer.RenderScores | server/server.cpp:136-140 | the body is every entry's `key:value` line with a newline, in map (ascending key) order |
| XlmServer.BodyLines | server/server.cpp:138-140 | when no key or rendered value holds a newline, the body splits into exactly one line per entry, in key order, followed by an empty piece |
| XlmServer.RestProxyHandler.OnRequest | server/server.cpp:127-148 | the transport is open afterwards; without `doc` the answer is Bad_Request "Missing query parameter: doc\n" and nothing is sent; otherwise the decoded value is sent once and the answer is Ok with the service's scores as lines |
| Text.Split | console/server.py:78 | `split` gives one more piece than there are separators |
| Text.SplitJoin | console/server.py:83-86 | joining the pieces of a split gives back the string, and no piece contains the separator |
| Text.SplitAround | console/server.py:78 | splitting at a separator gives the pieces of the text before it followed by the pieces of the text after it |
| Text.Join | console/server.py:86 | `sep.join`; `Text.SplitJoin` states that it undoes `split`, and `Console.JoinTwo` what joining the first two pieces gives |
| Console.JoinTwo | console/server.py:86 | joining the first two of at least two pieces with ":" gives the first, a colon, and the second |
| Console.GetKeyFromData | console/server.py:55-58 | the argument's value when the key is present, and `None` otherwise |
| Console.DocPayload | console/server.py:74-75 | the document sent is the query, or "None" for a missing query |
| Console.NonEmpty | console/server.py:80 | the kept pieces are non-empty pieces of the input |
| Console.NonEmptyKeeps | console/server.py:80 | only empty pieces are dropped |
| Console.NonEmptyDrops | console/server.py:80 | a list of only empty pieces filters to nothing |
| Console.ConvertScoreString | console/server.py:82-88 | fewer than two colons raise IndexError; otherwise the label is the text up to the second colon (holding exactly one colon) and the score is the third field's parse, ValueError when it does not parse |
| Console.LineRoundTrip | console/server.py:82-88 | a line `label:score` with exactly one colon in the label and none in the score text parses back to that label and score, whatever colon-led fields follow |
| Console.ConvertAll | console/server.py:90 | every line converts in order, or the exception is that of the first line that fails |
| Console.InsertDesc | console/server.py:91 | one insertion step of the stable reverse sort, one entry longer; `Console.InsertDescStable` states that it keeps ties in order |
| Console.SortDesc | console/server.py:91 | `sorted(..., reverse=True, key=score)`, of the input's length; `Console.SortDescSorted` and `Console.SortDescStable` state order, permutation and stability |
| Console.SortDescSorted | console/server.py:91 | the sorted list has non-increasing scores and holds exactly the input entries |
| Console.SortDescStable | console/server.py:91 | entries with equal scores keep their input order |
| Console.InsertDescStable | console/server.py:91 | inserting an entry keeps the order of the entries with any given score, and an inserted entry of that score comes before all of them |
| Console.ParseScores | console/server.py:78-91 | the parsed scores are sorted non-increasing, a permutation of the converted non-blank lines, and any conversion error is passed on |
| Console.GetPredictions | console/server.py:73-96 | succeeds exactly when the answer's lines all convert and there is at least one; an answer with no line raises IndexError and a conversion error is passed on; on success `query` is the request's, `raw_scores` the parsed list and `prediction` its first and highest-scoring entry |
| Console.UploadData | console/server.py:99-111 | succeeds exactly when the data point holds one comma, giving the text before and after it; a missing data point raises AttributeError, another comma count ValueError |
| Console.UploadRoundTrip | console/server.py:100-101 | a comma-free query and label come back unchanged from `query,label` |
| RoundTrip.ParseBody | console/server.py:78-91 | parsing the query-mode body gives the server's entries, each value rendered and parsed again, stably sorted by descending score |
| RoundTrip.ConvertBody | console/server.py:82-90 | every non-blank line of the query-mode body converts, giving each entry with its key and its rendered-then-parsed value, in key order |
| RoundTrip.SortTiesByLabel | console/server.py:91 | sorting a list in ascending label order puts equal scores in ascending label order |
| RoundTrip.PredictionRoundTrip | console/server.py:73-96 | against the query-mode body, no scores raise IndexError; otherwise `raw_scores` is the re-read entries in non-increasing score order, ties by ascending label, and `prediction` is its first entry |

## Left out

- Model inference, model loading and the SentencePiece tokenizer: `forward` and `encode` are function parameters.
- Thrift and Pistache wiring, the servers' `main`, threads and the SIGINT handler: these are process lifecycle and concurrency.
- Flask routing, the HTTP call to the proxy, URL encoding, the CSV append and its lock, and `console/utils/latency_analysis.py`: these are I/O and measurement tooling. The proxy's answer is the function parameter `fetch`.
- Floating point: scores are reals, and `exp` is any function with positive values. Overflow, underflow to zero and NaN are not modelled.
- Number formatting and parsing: how `operator<<` writes a double and how Python's `float` reads it are the parameters `render` and `parse`. `RoundTrip.ParseBody` therefore recovers `parse(render(v))`, not `v` itself.
- JSON parsing and `dump(2)`: the request body is a map from field names to values, and the response is the `Envelope` datatype with its `ToJson` view. A malformed body, or a body that is not an object, throws inside `json::parse`/`at`; that is not modelled.
- `urlDecode`: curl's percent-decoding is the function parameter `urlDecode`.
- The Pistache `MediaType` is modelled by its type and subtype only; suffixes and parameters are not.
- `onRequest` in the JSON-mode server calls the static `format` through `mResponseFormatter`, a member that is never assigned. The model calls `FormatResponse` directly.
- Proxy.Transport.Open, Proxy.PredictorClient.Predict, DocnnServer.RestProxyHandler.OnRequest, XlmServer.RestProxyHandler.OnRequest: RPC and transport failures are not modelled. In the source, `open()` throws `TTransportException` when the prediction service is unreachable, and `predict` throws on transport or protocol errors; both exceptions escape `onRequest`. In the model, opening and predicting always succeed, so "the transport is open afterwards" holds unconditionally.
- Logging (`LOG`, `VLOG`, `cout`): it has no effect on the results.
