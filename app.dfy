/** The two entry points: `ingest` builds a fresh knowledge base from the
    inputs and persists it; `answer` loads it back, retrieves the five best
    contents and hands them to the answer step. */
module App {
  import opened Wrappers
  import Paths
  import Router
  import Store
  import Retrieval
  import Llm

  /** The router's record for every input, in order. */
  function Normalized(items: seq<string>, extract: Router.Extractor): (docs: seq<Router.Document>)
    ensures |docs| == |items|
  {
    seq(|items|, i requires 0 <= i < |items| => Router.Normalize(items[i], extract))
  }

  const AnswerTopK := 5

  /** What a freshly built pipeline retrieves from `docs` for `query`: the
      BM25 scores fused with the semantic ones, which are zero unless
      semantic scoring is asked for and the encoder loads. */
  function FreshContexts(sc: Retrieval.Scorers, docs: seq<Store.KBEntry>, query: string,
                         useSemantic: bool, encoderLoads: bool, k: nat): (r: seq<string>)
    ensures docs == [] ==> r == []
    ensures |r| == if k <= |docs| then k else |docs|
  {
    if docs == [] then []
    else
      var n := |docs|;
      var active := useSemantic && encoderLoads;
      var lex := Retrieval.LexicalScores(sc, Some(Retrieval.Bm25Index(Retrieval.Tokenized(docs))), query, n);
      var sem := Retrieval.SemanticScores(sc, active, if active then Some(Retrieval.Embedded(sc, docs)) else None, query, n);
      Retrieval.Ranked(docs, Retrieval.Fuse(lex, sem), k)
  }

  /** Starts from an empty knowledge base, so whatever the file held before
      is replaced by the records of these inputs. */
  method Ingest(items: seq<string>, kbPath: string, fs: Store.FileSystem,
                extract: Router.Extractor, codec: Store.Codec) returns (kb: Store.KnowledgeBase)
    modifies fs
    ensures fresh(kb)
    ensures kb.path == Paths.PathString(kbPath)
    ensures kb.documents == Store.Entries(Normalized(items, extract))
    ensures fs.files == old(fs.files)[kb.path := Store.Render(codec, kb.documents)]
  {
    kb := new Store.KnowledgeBase(kbPath);
    var docs := Router.ProcessInputs(items, extract);
    assert docs == Normalized(items, extract);
    kb.AddDocuments(docs);
    kb.Persist(fs, codec);
  }

  /** Loads the knowledge base (a malformed line ends the call with its
      error), retrieves the five best contents and answers from them. The
      model is the one the answer step was set up with, if any. */
  method Answer(query: string, kbPath: string, useSemantic: bool, fs: Store.FileSystem, codec: Store.Codec,
                encoderLoads: bool, sc: Retrieval.Scorers, model: Option<string>, generate: Llm.Generator)
    returns (r: Result<string, string>)
    ensures var (p, outcome) := Store.LoadResult(codec, fs.files, Paths.PathString(kbPath));
      && (outcome.Malformed? ==> r == Err(outcome.message))
      && (outcome.Loaded? ==>
            r == Ok(Llm.Answer(model, query, FreshContexts(sc, p.entries, query, useSemantic, encoderLoads, AnswerTopK), generate)))
  {
    var kb := new Store.KnowledgeBase(kbPath);
    var outcome := kb.Load(fs, codec);
    if outcome.Malformed? {
      return Err(outcome.message);
    }
    var retriever := new Retrieval.RetrievalPipeline(kb, useSemantic);
    var contexts := retriever.Retrieve(query, AnswerTopK, encoderLoads, sc);
    assert contexts == FreshContexts(sc, kb.documents, query, useSemantic, encoderLoads, AnswerTopK);
    r := Ok(Llm.Answer(model, query, contexts, generate));
  }

  /** Answering after ingesting ranks exactly the ingested records. */
  method IngestThenAnswer(items: seq<string>, kbPath: string, fs: Store.FileSystem, extract: Router.Extractor,
                          codec: Store.Codec, query: string, useSemantic: bool, encoderLoads: bool,
                          sc: Retrieval.Scorers, model: Option<string>, generate: Llm.Generator)
    returns (r: Result<string, string>)
    requires Store.LineSafe(codec)
    modifies fs
    ensures r == Ok(Llm.Answer(model, query,
                  FreshContexts(sc, Store.Entries(Normalized(items, extract)), query, useSemantic, encoderLoads, AnswerTopK),
                  generate))
  {
    var kb := Ingest(items, kbPath, fs, extract, codec);
    Store.ParseRender(codec, kb.documents);
    r := Answer(query, kbPath, useSemantic, fs, codec, encoderLoads, sc, model, generate);
  }
}
