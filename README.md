# MentorMate chatbot core in Dafny

MentorMate is a Turkish-language FAQ chatbot for a bootcamp. Retrieval-augmented generation means it looks up documents first and has a language model answer from them. This project models the application logic around the retriever and the language model, and proves its properties:

- **`validate_answer`** (core/rag_pipeline.py) is the hallucination filter. It keeps the model's answer or replaces it with a fixed warning.
  - With no source documents, the result is the warning.
  - An answer that admits it has no information is kept.
  - Otherwise the answer is refused exactly when fewer than a fifth of its distinct long words occur in the joined, lower-cased sources. The source writes this as the float test `overlap_ratio < 0.20`. For natural-number counts, that test equals the integer test `5 * |matched| < |words|`, and the model uses the integer test.
- **`preprocess_query`** (core/rag_pipeline.py) enriches the query in stages:
  1. It lower-cases the query.
  2. It applies a seven-letter Turkish character table.
  3. For a query of at most two tokens, each token appends the cluster of the first keyword that matches it, in the map's order.
  4. It appends the synonyms of every keyword found in the result of step 3.

  The model has one method per loop. Each method is proved equal to a specification function, and the properties are lemmas about those functions.
- **`load_jsonl_data`** and the no-data check of **`create_database_runtime`** (app.py) turn the data files' lines into documents and refuse to build a store from none.
- **The chat turn and the clear-chat button of `main`** (app.py) are modelled as a `ChatSession` class. The class holds the message list and the pipeline whose conversation memory it drives.

The modules are:
- `Wrappers`: Option and Result.
- `PyStr`: the Python string operations the code relies on: `lower`, `split`, `strip`, `" ".join`, `replace` and `in` on strings, over `seq<char>`.
  - The whitespace set is Python's.
  - `lower` covers ASCII and Latin-1 capitals, `Ğ` and `Ş`, and `İ`, which Python lower-cases to `i` plus a combining dot.
- `RagPipeline`: the two helper functions.
- `App`: the application.

The language model chain is a function parameter of the `Pipeline` class. It takes the memory and a question, and returns either a result with the new memory or an exception message. Files are a map from path to the decoded lines. A line that is not a JSON object is `None`.

The model shows two behaviours of the code as written:
- **The Turkish character table never fires.** It runs after `lower()`, which has already turned every letter in it into lower case. `I` becomes `i`, not `ı`. `NormalizeIsLower` proves that normalisation is plain lower-casing.
- **`lower()` maps `I` to the dotted `i`, which breaks the greeting test.** A capitalised `GÜNAYDIN` lowers to `günaydin` and is not recognised as the greeting `günaydın`: only an input that itself contains `ı` can match it (`GunaydinNeedsDotlessI`). The character table plays no part in this test.

## Model

| member | source | states |
|---|---|---|
| RagPipeline.ValidateAnswer | core/rag_pipeline.py:217-251 | The result is the answer unchanged or the fixed warning. No sources gives the warning. An answer admitting no information ("veri setimde", "bilgi bulunmuyor", "bilgim yok") is kept. Otherwise the warning is returned if and only if 5·matched < long words. |
| RagPipeline.ShortWordsKept | core/rag_pipeline.py:239-243 | With sources present, an answer with no token longer than three characters is kept. |
| RagPipeline.FullyGroundedKept | core/rag_pipeline.py:245-251 | With sources present, an answer whose every long word occurs in the source text is kept. |
| RagPipeline.UngroundedRefused | core/rag_pipeline.py:245-249 | An answer that has long words, none of them in the sources, and no admission of missing information is replaced by the warning. |
| RagPipeline.RepeatedWordsCountOnce | core/rag_pipeline.py:239 | Long words are a set: doubling the answer leaves the set, and so numerator and denominator, unchanged. |
| RagPipeline.WarningAdmitsNoInfo | core/rag_pipeline.py:229-236 | The warning text itself contains the no-information phrase "veri setimde". |
| RagPipeline.ValidateIdempotent | core/rag_pipeline.py:228-251 | Validating an already validated answer against the same sources changes nothing. |
| RagPipeline.MatchedBounds | core/rag_pipeline.py:245-246 | The matched count never exceeds the long-word count. The matched words are all the long words exactly when every one occurs in the sources, and none exactly when no long word does. |
| RagPipeline.ApplyCharTable | core/rag_pipeline.py:267-272 | The loop applies the seven replacements one after the other, in table order. |
| RagPipeline.NormalizeIsLower | core/rag_pipeline.py:264-272 | The normalized query equals the lower-cased query. Every letter the table replaces has already been lower-cased. |
| RagPipeline.FirstMatchIsFirst | core/rag_pipeline.py:296-299 | The chosen entry matches the token (`keyword in word or word in keyword`) and no earlier entry does. No choice means no entry matches. |
| RagPipeline.AppendFirstCluster | core/rag_pipeline.py:296-299 | The inner loop appends exactly the first matching keyword's cluster " keyword syn1 … synN", or nothing. |
| RagPipeline.AppendTokenClusters | core/rag_pipeline.py:295-299 | The loop over the tokens appends each token's first-match cluster, in token order. |
| RagPipeline.AppendShortClusters | core/rag_pipeline.py:293-299 | A query of at most two tokens gets its tokens' clusters. A longer query is left unchanged. |
| RagPipeline.AppendSynonyms | core/rag_pipeline.py:301-305 | The loop appends, in map order, the synonym list of every keyword contained in the post-short-pass string. Later appends do not affect the test. |
| RagPipeline.PreprocessQuery | core/rag_pipeline.py:254-307 | The method returns the value of the composed specification, which the lemmas below characterise. |
| RagPipeline.PreprocessExtendsQuery | core/rag_pipeline.py:264-307 | The lower-cased query is a prefix of the result: enrichment only appends. |
| RagPipeline.LongQueryNoShortAppends | core/rag_pipeline.py:293-294 | A query of more than two tokens gets only the synonym pass. |
| RagPipeline.ShortExpansionEmpty | core/rag_pipeline.py:295-299 | Tokens that match no keyword append nothing in the short pass. |
| RagPipeline.SynonymExpansionEmptyIff | core/rag_pipeline.py:303-305 | The second pass appends nothing if and only if no keyword occurs in the string. |
| RagPipeline.SynonymExpansionHasEach | core/rag_pipeline.py:303-305 | Every keyword that occurs contributes " " + its joined synonym list. |
| RagPipeline.KeywordsNotBlank | core/rag_pipeline.py:275-290 | Every keyword of the map holds a non-space character. |
| RagPipeline.BlankQueryUnchanged | core/rag_pipeline.py:293-307 | An empty or whitespace-only query comes back as itself, which is its own lower case, with nothing appended. |
| RagPipeline.NoMatchUnchanged | core/rag_pipeline.py:293-307 | If no token matches in the short pass and no keyword occurs in the query, the output is the normalized query. |
| RagPipeline.SingleLetterMatchesFirstKeyword | core/rag_pipeline.py:276-297 | The match test runs both ways, so the one-letter token "a" picks the first entry, "katılım". |
| App.MissingFieldSkipped | app.py:57-60 | A line lacking the question or the answer key is skipped, because `get` falls back to the empty string. |
| App.LastSlash | app.py:64 | The position of the last '/' in the path, or -1; no '/' follows it. |
| App.BasenameOfJoin | app.py:31-32 | The base name of `os.path.join(dir, name)` is `name` for a slash-free name. |
| App.DataFileSources | app.py:30-33 | Documents from each data file carry that file's name as their source. |
| App.LoadJsonlData | app.py:46-70 | A missing file gives an empty list. Otherwise the loop returns the documents of the kept lines in line order. |
| App.KeptIndicesKept | app.py:54-60 | Every listed position is a line of the file that parsed with a non-empty question and answer. |
| App.KeptIndicesIncreasing | app.py:54-60 | The kept positions are listed in strictly increasing line order. |
| App.KeptIndicesComplete | app.py:54-60 | Every line with a non-empty question and answer is listed. |
| App.LoadedFollowsKeptLines | app.py:54-66 | The k-th document is built from the k-th kept line. Its content is exactly "Soru: " + q + "\nCevap: " + a and its metadata is `{"source": basename}`. |
| App.LoadedAtMostLines | app.py:54-68 | There are never more documents than lines. |
| App.LoadedEmptyIff | app.py:54-68 | A file yields no documents if and only if none of its lines parses with a non-empty question and answer. |
| App.CreateDatabaseRuntime | app.py:73-83 | The documents of the data files are concatenated in list order. An empty total fails with "Veri dosyaları yüklenemedi!". |
| App.NoDocumentsIff | app.py:77-83 | Building fails if and only if every data file is missing or keeps none of its lines. |
| App.GunaydinNeedsDotlessI | app.py:221-222 | An input whose `lower().strip()` is "günaydın" must itself contain the dotless `ı`. `lower()` never produces that letter, so "GÜNAYDIN" is not a greeting. |
| App.AnswersOutnumberQuestions | app.py:180-181 | In a well-formed message list the sidebar's answer count is its question count plus one. |
| App.TurnKeepsWellFormed | app.py:217-248 | Appending a user message and an assistant reply keeps the list well formed: the welcome message, then user and assistant turns alternating. |
| App.FailureReplyText | app.py:242-248 | A failed query is shown as "❌ Bir hata oluştu: Query işleme hatası: " followed by the chain's message, because `query` re-raises with its own prefix. |
| App.AnswerReply | app.py:231-247 | A failure gives "❌ Bir hata oluştu: " + message. Otherwise the reply is the stripped answer, defaulting to "Bir hata oluştu.", or the warning. Missing sources give the warning. |
| App.Pipeline.Query | core/rag_pipeline.py:182-196 | The outcome is the chain's, with a failure re-raised. The memory takes the new value only when an answer comes back. |
| App.Pipeline.ClearMemory | core/rag_pipeline.py:198-200 | The memory becomes empty. |
| App.ChatSession.constructor | app.py:159-163 | A new session holds only the welcome message. |
| App.ChatSession.Submit | app.py:216-248 | An empty input changes nothing. Any other input appends exactly two messages: the user's, then one reply. A greeting gets the fixed reply and the pipeline is not called. Otherwise the pipeline answers `preprocess_query(input)` and the reply is the validated answer or the error message. |
| App.ChatSession.ClearChat | app.py:191-196 | The messages are reset to exactly the welcome message and the pipeline memory is emptied. |

## Left out

- PyStr.Lower: upper-case letters outside ASCII, Latin-1, `Ğ`, `Ş` and `İ` are left unchanged. Python's full Unicode case mapping is not modelled. The letters the source's tables and keywords use are all covered.
- JSON decoding is abstracted to a string-valued object per line, or `None` for a line that does not decode. Non-string values, such as a number in the `question` field, are not modelled.
- `os.path` is modelled as `posixpath`: `/` is the only separator. Windows separators and drive letters are not modelled.
- File I/O is abstracted to a map from existing paths to their lines. A decoding error while reading a line, which would escape the per-line `try`, is not modelled.
- `create_database_runtime` after the no-data check is not modelled: the embedding model, the Chroma store and `check_and_setup_database`, because they are library calls.
- Of the `RAGPipeline` class, only `query`'s re-raise of failures and `clear_memory` are modelled, in `App.Pipeline`. Left out, because they are library configuration: the LangChain chain, the retriever, the prompts, the five-exchange window memory and `get_stats`. The chain is a function parameter that returns a result and a new memory, or fails.
- App.QueryResult: an `answer` key that is present but not a string would make `.strip()` raise. The model types the answer as a string when present, so that path is not modelled.
- Streamlit rendering, the spinner, `st.rerun`, the sidebar layout and the page configuration are left out because they are display only. The sidebar counts are covered by `AnswersOutnumberQuestions`.
- setup_database.py and core/__init__.py are not part of this model.
