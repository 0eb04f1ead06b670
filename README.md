# Multimodal data processing: a verified model of the ingestion and retrieval core

This project models the part of the multimodal question-answering tool that
turns inputs into records, stores them, ranks them for a question and builds
the answer.

- **Router** (`router.dfy`). Each input is a web-video URL or a file path.
  A URL that starts with `http` and contains `youtube` in any case is a web
  video. Any other input is a path, classified by its lower-cased suffix:
  image, audio/video, or text. The input goes to the matching extractor and
  becomes one `Document` whose only metadata is `type`. An extractor that
  fails gives an error record instead. The batch loop keeps one record per
  input, in input order.
- **Paths** (`paths.dfy`). The file locator is `str(Path(item))`, with
  POSIX rules: keep the root, drop empty and `.` components, and turn an
  empty result into `.`. `Path.suffix` is computed on the last component.
- **Store** (`store.dfy`). `KnowledgeBase` is an append-only list of
  `KBEntry` values. `persist` truncates the file and writes one encoded
  entry per line. `load` empties the list, then appends one decoded entry
  per line until the first line that fails to decode.
- **Ranking and Retrieval** (`ranking.dfy`, `pipeline.dfy`).
  `RetrievalPipeline` builds its BM25 index once. It tries to load the
  sentence encoder at most once; a failed load turns semantic scoring off
  for good. It encodes the corpus once. Each query ranks documents by the
  fused score `0.5 * bm25 + 0.5 * cosine`. The ranking has a declarative
  specification (`IsRanking`) with exactly one answer, a reference sort
  (`TopK`), and the selection method `TopIndices`. The method is proved
  equal to both.
- **Llm** (`llm.dfy`). The fallback answer used when no model is available,
  the prompt, the routing of `answer` between fallback, response text and
  error message, and the rule that picks a model from the service's list.
- **VideoIds** (`youtube.dfy`). The two video-id extractors, on a URL
  already split into network location, path and parsed query.
- **App** (`app.dfy`). `ingest` and `answer`, composed from the above, and
  the end-to-end statement that answering after ingesting ranks exactly the
  ingested records.

Opaque services are parameters of the model:

| service | parameter |
|---|---|
| text, OCR and speech extractors | `Router.Extractor` |
| JSON line encoding | `Store.Codec` (round trip assumed by `Store.LineSafe`) |
| BM25, sentence encoder, cosine | `Retrieval.Scorers` |
| whether the encoder loads | a `bool` |
| the generative service | `Llm.Generator` |
| the disk | `Store.FileSystem`, a map from normalised path to file text |

## Model

| member | source | states |
|---|---|---|
| Strings.Tokenize | app/retrieval/pipeline.py:21 | `str.split()`: every token is a non-empty run of non-whitespace characters; `Strings.TokenizeLayout` and `Strings.LayoutOfTokens` state that the tokens are exactly the maximal such runs, in order |
| Strings.TokenizeLayout | app/retrieval/pipeline.py:21 | words separated by any non-empty runs of whitespace, with any whitespace before the first and after the last, split back into exactly those words |
| Strings.LayoutOfTokens | app/retrieval/pipeline.py:21 | every text is its tokens separated by non-empty whitespace runs, with whitespace-only runs at both ends, so no character outside a token is non-whitespace |
| Strings.TokenizeJoin | app/retrieval/pipeline.py:21 | splitting words joined by single spaces gives the words back |
| Strings.Strip | app/processors/speech_to_text.py:36 | `strip("/")`: the result is a contiguous piece of the input with only `/` cut from each end, and it neither starts nor ends with `/` |
| Strings.Split | app/processors/speech_to_text.py:39 | `split("/")`: at least one piece, none containing the separator |
| Strings.JoinSplit | app/processors/speech_to_text.py:39 | joining the pieces of a split with the separator rebuilds the string |
| Strings.JoinIsEmpty | app/llm/gemini.py:54-55 | a join is empty exactly when there are no parts or one empty part |
| Paths.Suffix | app/processors/router.py:25 | `Path.suffix`: empty, or the tail of the last component from its last dot, with at least one character after that dot; empty exactly when the last component has no dot after its first character or ends with a dot |
| Paths.PathString | app/processors/router.py:19 | defines `str(Path(item))`; its properties are stated by `Paths.Reparse`, `Paths.PathStringIdempotent` and `Paths.SuffixOfPathString` |
| Paths.Reparse | app/processors/router.py:19-28 | reparsing `str(Path(p))` gives back the same root and components |
| Paths.PathStringIdempotent | app/processors/router.py:19-28 | normalising a path twice equals normalising it once |
| Paths.SuffixOfPathString | app/processors/router.py:19-25 | the suffix of a path equals that of its normalised string |
| Router.Classify | app/processors/router.py:21-35 | defines the branch `_process_single` takes: web video first, then the image and audio/video suffix sets on the lower-cased suffix, else text; stated through `Router.YouTubeRecord`, `Router.FileRecord` and `Router.ProcessSingle` |
| Router.ProcessSingle | app/processors/router.py:18-35 | a successful record's only metadata is the tag of the input's kind |
| Router.Normalize | app/processors/router.py:40-44 | metadata is the single key `type` holding one of five tags; `error` appears exactly when the extractor failed |
| Router.ProcessInputs | app/processors/router.py:38-45 | one record per input, in input order, each that input's record or its error record |
| Router.YouTubeRecord | app/processors/router.py:21-23 | the web-video test wins over any suffix; the record keeps the raw URL as id and source |
| Router.FileRecord | app/processors/router.py:25-35 | a path input's record carries the normalised path as id and source, the extracted text, and the tag of its kind |
| Router.ErrorRecord | app/processors/router.py:43-44 | a failed input gives `[INGEST ERROR] ` plus the message, keyed by the raw input, typed `error` |
| Store.KnowledgeBase.constructor | app/kb/store.py:18-20 | a new knowledge base holds no entries; its path is the normalised path |
| Store.KnowledgeBase.AddDocuments | app/kb/store.py:22-24 | the records are appended field for field, in order, after the old entries, which stay unchanged |
| Store.Render | app/kb/store.py:28-30 | defines the text `persist` writes, one encoded entry and a newline per entry; stated by `Store.LinesRender`, `Store.ParseRender` and `Store.KnowledgeBase.Persist` |
| Store.Lines | app/kb/store.py:36-37 | defines the lines `for line in r` yields, without their newlines; stated by `Store.LinesRender` and `Store.KnowledgeBase.Load` |
| Store.KnowledgeBase.Persist | app/kb/store.py:26-30 | the file text becomes exactly one encoded line per entry, in order, replacing what it held; entries and other files are unchanged |
| Store.PersistTwice | app/kb/store.py:28-30 | persisting twice leaves the file as persisting once does |
| Store.LinesRender | app/kb/store.py:28-37 | reading the written text line by line gives one encoded line per entry |
| Store.Parse | app/kb/store.py:37-39 | the entries decoded so far are the line prefix before the first line that fails; that line's error is reported |
| Store.ParseStopsAtFirstError | app/kb/store.py:37-39 | a malformed line `k` after `k` good lines stops loading with its message and keeps the `k` decoded entries |
| Store.KnowledgeBase.Load | app/kb/store.py:32-39 | entries are emptied first; a missing file gives none; otherwise the entries and outcome are those of parsing the file's lines |
| Store.ParseRender | app/kb/store.py:26-39 | parsing persisted text gives back exactly the persisted entries, with no error, including the empty list |
| Store.ReloadElsewhere | app/kb/store.py:26-39 | after a persist, a load by any knowledge base on the same path succeeds with the persisted entries |
| Ranking.TopK | app/retrieval/pipeline.py:75 | the reference ranking: every index it returns is in range; `Ranking.RankingIsRanking`, `Ranking.RankingByScore` and `Ranking.HigherRanksAhead` state the rest |
| Ranking.RankingIsRanking | app/retrieval/pipeline.py:75 | the reference ranking is `min(k, n)` distinct in-range indices, best first, with every omitted index ranking after every chosen one |
| Ranking.RankingUnique | app/retrieval/pipeline.py:75 | the declarative ranking has exactly one answer |
| Ranking.RankingByScore | app/retrieval/pipeline.py:74-76 | result length `min(k, n)`, distinct indices, scores non-increasing, no omitted index scoring above a returned one |
| Ranking.HigherRanksAhead | app/retrieval/pipeline.py:74-75 | a document scoring strictly higher than a returned one is returned ahead of it |
| Ranking.SameOrderSameRanking | app/retrieval/pipeline.py:74-75 | score vectors that compare alike rank alike |
| Ranking.BestRemaining | app/retrieval/pipeline.py:75 | finds the remaining index that ranks before all others |
| Ranking.TopIndices | app/retrieval/pipeline.py:75 | the selection loop's answer satisfies the declarative ranking and equals the reference ranking |
| Retrieval.LexicalScores | app/retrieval/pipeline.py:59-64 | with a BM25 index, one score per indexed document; without one, all zeros |
| Retrieval.LexicalScoresByTokens | app/retrieval/pipeline.py:62 | the query reaches BM25 only through `query.split()`: queries with the same tokens get the same scores |
| Retrieval.LexicalScoresIgnoreSpacing | app/retrieval/pipeline.py:62 | a query whose words are spaced by any runs of whitespace scores exactly as the same words joined by single spaces |
| Retrieval.Fuse | app/retrieval/pipeline.py:74 | one fused score per document; `Retrieval.LexicalOnly` and `Retrieval.RetrievalPipeline.Retrieve` state how the fused scores rank |
| Retrieval.SemanticScores | app/retrieval/pipeline.py:66-71 | without semantic scoring or embeddings the semantic scores are all zero |
| Retrieval.LexicalOnly | app/retrieval/pipeline.py:67-74 | fusing with all-zero semantic scores ranks as BM25 alone |
| Retrieval.RetrievalPipeline.constructor | app/retrieval/pipeline.py:12-17 | nothing built yet, no load attempted |
| Retrieval.RetrievalPipeline.EnsureBm25 | app/retrieval/pipeline.py:19-22 | the index is built only when absent, and only for a non-empty corpus |
| Retrieval.RetrievalPipeline.EnsureEmbeddings | app/retrieval/pipeline.py:24-53 | with semantic scoring off nothing changes; the encoder is tried only when not loaded; a failed load turns semantic scoring off and clears everything; embeddings are encoded once, for a non-empty corpus |
| Retrieval.RetrievalPipeline.Retrieve | app/retrieval/pipeline.py:55-76 | an empty corpus gives `[]` and builds nothing; otherwise the caches are built as above and the result is the contents of the reference ranking of the fused scores; at most one load attempt ever |
| Retrieval.RetrieveTwice | app/retrieval/pipeline.py:19-76 | two queries in a row on one pipeline return the same contents |
| Retrieval.DisabledMatchesFailedLoad | app/retrieval/pipeline.py:24-68 | a pipeline with semantic scoring off and one whose encoder fails rank alike, by BM25 alone |
| Llm.FallbackAnswer | app/llm/gemini.py:53-57 | defines the local answer; stated by `Llm.FallbackNoData`, `Llm.FallbackShape` and `Llm.FallbackUsesFirstFive` |
| Llm.FallbackNoData | app/llm/gemini.py:53-56 | the no-data message is given exactly when there are no contexts, or exactly one context and it is empty |
| Llm.FallbackShape | app/llm/gemini.py:54-57 | otherwise the answer is the fixed head and the question followed by exactly the first `min(1500, len(joined))` characters of the join |
| Llm.FallbackUsesFirstFive | app/llm/gemini.py:54 | contexts after the fifth never change the fallback answer |
| Llm.Prompt | app/llm/gemini.py:62-63 | defines the prompt; stated by `Llm.PromptShape` and `Llm.PromptUsesFirstTen` |
| Llm.PromptShape | app/llm/gemini.py:63 | for any contexts, the prompt opens with the system instructions and ends with the question |
| Llm.PromptUsesFirstTen | app/llm/gemini.py:62 | contexts after the tenth never change the prompt |
| Llm.Answer | app/llm/gemini.py:59-68 | defines the routing of `answer`; stated by `Llm.AnswerWithoutModel` and `Llm.AnswerWithModel` |
| Llm.AnswerWithoutModel | app/llm/gemini.py:60-61 | without a model the answer is the fallback, whatever the service would say |
| Llm.AnswerWithModel | app/llm/gemini.py:62-68 | with a model the answer depends only on the service's reply to the prompt; a response gives its text, or `""` when it has none; a raised error gives `[Gemini error] ` plus its message |
| Llm.Gemini2Test | app/llm/gemini.py:37 | the `gemini-2.5` test is subsumed by the `gemini-2` test |
| Llm.FilterMembers | app/llm/gemini.py:33-46 | a comprehension keeps exactly the elements that pass its test |
| Llm.ChooseModel | app/llm/gemini.py:33-47 | defines the discovery rule; stated by `Llm.ChoosesNone`, `Llm.ChoosesFirstFlash`, `Llm.ChoosesFirstOfGroup` and `Llm.ChoosesFirstGenerator` |
| Llm.ChoosesNone | app/llm/gemini.py:44-47 | no model is chosen exactly when no listed model supports `generateContent` |
| Llm.ChoosesFirstFlash | app/llm/gemini.py:33-43 | the first `flash` model of the preferred group is chosen |
| Llm.ChoosesFirstOfGroup | app/llm/gemini.py:39-43 | without a `flash` model there, the first model of the group is chosen |
| Llm.ChoosesFirstGenerator | app/llm/gemini.py:44-47 | with an empty group, the first model supporting `generateContent` is chosen |
| VideoIds.VideoId | app/processors/speech_to_text.py:53-60 | defines `_get_video_id`; stated by `VideoIds.VideoIdCases` and `VideoIds.ExtractorsAgree` |
| VideoIds.CleanUrl | app/processors/speech_to_text.py:27-40 | defines `_clean_youtube_url`; stated by `VideoIds.ExtractorsAgree` and `VideoIds.ExtractorsDifferOnBlankV` |
| VideoIds.LastSegment | app/processors/speech_to_text.py:39 | the last path segment contains no `/` |
| VideoIds.VideoIdCases | app/processors/speech_to_text.py:53-60 | the id is the first `v` value, else the stripped path of a `youtu.be` link, else the last path segment |
| VideoIds.ExtractorsAgree | app/processors/speech_to_text.py:27-60 | for a query as the standard parser builds it, the canonical URL is the watch prefix plus the transcript lookup's id |
| VideoIds.ExtractorsDifferOnBlankV | app/processors/speech_to_text.py:30-57 | a blank `v` value makes the two extractors disagree |
| App.FreshContexts | app/main.py:21-22 | a fresh pipeline returns `min(5, n)` contents, none for an empty corpus |
| App.Ingest | app/main.py:10-15 | a fresh knowledge base holds exactly the inputs' records in order, and the file is replaced by them |
| App.Answer | app/main.py:18-24 | a malformed stored line ends the call with its error; otherwise the answer is built from the five best contents of the stored entries |
| App.IngestThenAnswer | app/main.py:10-24 | answering after ingesting ranks exactly the ingested records |

## Left out

- The extractors (`extract_text_from_path`, `extract_text_from_image`, `transcribe_audio_or_video`, `transcribe_youtube`) do I/O and run ML models. They are the parameter `Router.Extractor`; an exception becomes `Err` with its message.
- `Router.ProcessSingle`: returns one `Document`, not a one-element list, since every branch of the source returns exactly one.
- `Store.KnowledgeBase.Persist`: creating the parent directory (`mkdir`) is not modelled; files are keyed by normalised path, so `..` and symbolic links are not resolved.
- JSON encoding and decoding are the `Store.Codec` parameter. `Store.LineSafe` assumes that an encoded entry contains no newline and decodes back to the same entry. `json.dumps` with `ensure_ascii=False` meets this, since it escapes control characters.
- `Store.KnowledgeBase.Load`: lines are split on `\n` only. Universal-newline translation of `\r` and dropping undecodable UTF-8 bytes (`errors="ignore"`) are not modelled.
- BM25 scoring, sentence encoding and cosine similarity are numeric library calls. They are the `Retrieval.Scorers` parameter, with reals for floats; floating-point rounding is not modelled.
- The encoder-path choice in `_ensure_embeddings` (environment variables, local directory, offline flags) is reduced to the single outcome `encoderLoads`.
- `Retrieval.RetrievalPipeline.Retrieve`: requires that any cached index or embeddings match the current corpus size. The source does not check this; a mismatch would make numpy fail or misalign.
- `Retrieval.RetrievalPipeline.Retrieve`: `top_k` is a natural number. Negative `top_k` slicing is not modelled.
- `Ranking.TopK`: a stable descending sort would keep tied documents in corpus order; the code reverses an ascending `argsort`, so this model puts the later index first among equal fused scores. `np.argsort`'s default sort is not stable in general, so only the score-level statements (`Ranking.RankingByScore`, `Ranking.HigherRanksAhead`) hold for every tie order the source may produce.
- `GeminiLLM.__init__`'s control flow (`genai.configure`, the `GEMINI_MODEL` override, `list_models`, `GenerativeModel`) is network I/O. Only the choice rule (`Llm.ChooseModel`) is modelled; the configured model is a parameter of `App.Answer`. When `google.generativeai` imports and `GEMINI_API_KEY` is set (app/llm/gemini.py:19) but `GEMINI_MODEL` is unset or empty, `self.model` is read before any assignment at app/llm/gemini.py:29, which raises `AttributeError`. Without the library or the key, line 51 sets `self.model` to `None` and the fallback answers. This defect is outside the model.
- `Llm.ChooseModel`: a model without `supported_generation_methods` is a model with an empty method list. That gives the same result as the source's `hasattr`/`getattr` tests.
- `Strings.Lower`: lower-cases ASCII letters only; Python's `str.lower` also folds other scripts.
- `Strings.IsSpace`: the whitespace set of `str.split()` is written out by code point and not derived from Unicode tables.
- `VideoIds.ParsedUrl`: `urlparse` and `parse_qs` are not modelled; the model starts from their result.
- The rest of `speech_to_text.py` (transcription, audio download, the transcript fallback chain, the Whisper model cache), `cli.py`, `ui_streamlit.py` and `ensure_data_dir` are I/O and user interface, and are not part of this model.
