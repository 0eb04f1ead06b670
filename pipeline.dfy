/** The hybrid retrieval pipeline: a BM25 index built once, a sentence
    encoder loaded at most once (a failed load switches semantic scoring off
    for good), document embeddings computed once, and per query a ranking by
    the fused score `0.5 * bm25 + 0.5 * cosine`. */
module Retrieval {
  import opened Wrappers
  import opened Strings
  import opened Ranking
  import Store

  /** The numeric libraries, supplied by the caller: the BM25 score of
      document `i` of a tokenised corpus for a tokenised query
      (`BM25Okapi(corpus).get_scores(query)[i]`), the sentence encoder
      (`SentenceTransformer.encode`) and cosine similarity. */
  datatype Scorers = Scorers(
    bm25: (seq<seq<string>>, seq<string>, nat) -> real,
    encode: string -> seq<real>,
    cosine: (seq<real>, seq<real>) -> real)

  /** A built BM25 index, known by the tokenised corpus it was built from. */
  datatype Bm25Index = Bm25Index(corpus: seq<seq<string>>)

  /** Each entry's content split on whitespace. */
  function Tokenized(docs: seq<Store.KBEntry>): (ts: seq<seq<string>>)
    ensures |ts| == |docs|
  {
    seq(|docs|, i requires 0 <= i < |docs| => Tokenize(docs[i].content))
  }

  /** The embedding of each entry's content. */
  function Embedded(sc: Scorers, docs: seq<Store.KBEntry>): (es: seq<seq<real>>)
    ensures |es| == |docs|
  {
    seq(|docs|, i requires 0 <= i < |docs| => sc.encode(docs[i].content))
  }

  /** `np.zeros(n)`. */
  function Zeros(n: nat): (z: seq<real>)
    ensures |z| == n
  {
    seq(n, i requires 0 <= i < n => 0.0)
  }

  /** The BM25 score of every indexed document for the query, or all zeros
      when there is no index. */
  function LexicalScores(sc: Scorers, index: Option<Bm25Index>, query: string, n: nat): (r: seq<real>)
    ensures index.None? ==> r == Zeros(n)
    ensures index.Some? ==> |r| == |index.value.corpus|
  {
    match index
    case Some(ix) =>
      var q := Tokenize(query);
      seq(|ix.corpus|, i requires 0 <= i < |ix.corpus| => sc.bm25(ix.corpus, q, i))
    case None => Zeros(n)
  }

  /** The query reaches BM25 only through its tokens: queries that split
      alike score alike. */
  lemma LexicalScoresByTokens(sc: Scorers, index: Option<Bm25Index>, q1: string, q2: string, n: nat)
    requires Tokenize(q1) == Tokenize(q2)
    ensures LexicalScores(sc, index, q1, n) == LexicalScores(sc, index, q2, n)
  {
  }

  /** How the query's words are spaced does not matter: words laid out with
      any runs of whitespace score as the same words joined by single spaces. */
  lemma LexicalScoresIgnoreSpacing(sc: Scorers, index: Option<Bm25Index>, words: seq<string>, gaps: seq<string>, n: nat)
    requires Spacing(words, gaps)
    ensures LexicalScores(sc, index, Layout(words, gaps), n) == LexicalScores(sc, index, Join(" ", words), n)
  {
    TokenizeLayout(words, gaps);
    TokenizeJoin(words);
    LexicalScoresByTokens(sc, index, Layout(words, gaps), Join(" ", words), n);
  }

  /** The cosine similarity of the query's embedding with every document
      embedding while semantic scoring is on and embeddings exist, all zeros
      otherwise. */
  function SemanticScores(sc: Scorers, active: bool, embeddings: Option<seq<seq<real>>>, query: string, n: nat): (r: seq<real>)
    ensures !active || embeddings.None? ==> r == Zeros(n)
  {
    if active && embeddings.Some? then
      var q := sc.encode(query);
      seq(|embeddings.value|, i requires 0 <= i < |embeddings.value| => sc.cosine(q, embeddings.value[i]))
    else Zeros(n)
  }

  /** Score fusion, without any normalisation of the two scales. */
  function Fuse(lex: seq<real>, sem: seq<real>): (r: seq<real>)
    requires |lex| == |sem|
    ensures |r| == |lex|
  {
    seq(|lex|, i requires 0 <= i < |lex| => 0.5 * lex[i] + 0.5 * sem[i])
  }

  /** The contents of the listed documents, in list order. */
  function ContentsAt(docs: seq<Store.KBEntry>, idx: seq<nat>): (r: seq<string>)
    requires forall p :: 0 <= p < |idx| ==> idx[p] < |docs|
    ensures |r| == |idx|
  {
    seq(|idx|, p requires 0 <= p < |idx| => docs[idx[p]].content)
  }

  /** The contents of the `k` best documents for the fused scores. */
  function Ranked(docs: seq<Store.KBEntry>, scores: seq<real>, k: nat): (r: seq<string>)
    requires |scores| == |docs|
  {
    ContentsAt(docs, TopK(scores, k))
  }

  /** With semantic scoring off, the fused ranking is the BM25 ranking. */
  lemma LexicalOnly(lex: seq<real>, k: nat)
    ensures TopK(Fuse(lex, Zeros(|lex|)), k) == TopK(lex, k)
  {
    var f := Fuse(lex, Zeros(|lex|));
    assert forall i :: 0 <= i < |lex| ==> f[i] == 0.5 * lex[i];
    SameOrderSameRanking(f, lex, k);
  }

  class RetrievalPipeline {
    const kb: Store.KnowledgeBase
    var useSemantic: bool
    var bm25: Option<Bm25Index>
    /** The encoder has been loaded (`_embedder is not None`). */
    var embedderLoaded: bool
    var docEmbeddings: Option<seq<seq<real>>>
    /** How many times loading the encoder has been tried. */
    ghost var loadAttempts: nat

    /** The encoder is tried at most once: it is loaded only while semantic
        scoring is on, and semantic scoring that is on without an encoder
        has not tried yet. Embeddings exist only with an encoder. */
    ghost predicate Valid()
      reads this
    {
      && loadAttempts <= 1
      && (embedderLoaded ==> useSemantic && loadAttempts == 1)
      && (useSemantic && !embedderLoaded ==> loadAttempts == 0)
      && (docEmbeddings.Some? ==> embedderLoaded)
    }

    /** The caches were built from a corpus of the size the knowledge base
        has now. */
    ghost predicate CachesMatch()
      reads this, kb
    {
      && (bm25.Some? ==> |bm25.value.corpus| == |kb.documents|)
      && (docEmbeddings.Some? ==> |docEmbeddings.value| == |kb.documents|)
    }

    constructor (kb: Store.KnowledgeBase, useSemantic: bool)
      ensures Valid() && CachesMatch()
      ensures this.kb == kb && this.useSemantic == useSemantic
      ensures bm25.None? && !embedderLoaded && docEmbeddings.None? && loadAttempts == 0
    {
      this.kb := kb;
      this.useSemantic := useSemantic;
      bm25 := None;
      embedderLoaded := false;
      docEmbeddings := None;
      loadAttempts := 0;
    }

    /** Builds the BM25 index over the current corpus unless one exists. */
    method EnsureBm25()
      modifies this`bm25
      ensures bm25 == if old(bm25).Some? then old(bm25)
                      else if kb.documents == [] then None
                      else Some(Bm25Index(Tokenized(kb.documents)))
    {
      if bm25.None? {
        var tokenized := Tokenized(kb.documents);
        bm25 := if tokenized != [] then Some(Bm25Index(tokenized)) else None;
      }
    }

    /** With semantic scoring on, loads the encoder if it is not loaded yet
        (`encoderLoads` says whether that load succeeds); a failed load turns
        semantic scoring off. With an encoder and no embeddings yet, encodes
        every document of a non-empty corpus. */
    method EnsureEmbeddings(encoderLoads: bool, sc: Scorers)
      requires Valid()
      modifies this`useSemantic, this`embedderLoaded, this`docEmbeddings, this`loadAttempts
      ensures Valid()
      ensures !old(useSemantic) ==>
        useSemantic == old(useSemantic) && embedderLoaded == old(embedderLoaded)
        && docEmbeddings == old(docEmbeddings) && loadAttempts == old(loadAttempts)
      ensures loadAttempts == old(loadAttempts) + (if old(useSemantic) && !old(embedderLoaded) then 1 else 0)
      ensures old(useSemantic) && !old(embedderLoaded) && !encoderLoads ==>
        !useSemantic && !embedderLoaded && docEmbeddings.None?
      ensures old(useSemantic) && (old(embedderLoaded) || encoderLoads) ==>
        && useSemantic && embedderLoaded
        && docEmbeddings == if old(docEmbeddings).Some? || kb.documents == [] then old(docEmbeddings)
                            else Some(Embedded(sc, kb.documents))
    {
      if !useSemantic {
        return;
      }
      if !embedderLoaded {
        loadAttempts := loadAttempts + 1;
        if encoderLoads {
          embedderLoaded := true;
        } else {
          useSemantic := false;
          embedderLoaded := false;
          docEmbeddings := None;
          return;
        }
      }
      if docEmbeddings.None? && kb.documents != [] && embedderLoaded {
        docEmbeddings := Some(Embedded(sc, kb.documents));
      }
    }

    /** The contents of the `topK` best documents for `query`, best first.
        An empty corpus gives no contents and builds nothing. */
    method Retrieve(query: string, topK: nat, encoderLoads: bool, sc: Scorers) returns (r: seq<string>)
      requires Valid() && CachesMatch()
      modifies this
      ensures Valid() && CachesMatch()
      ensures kb.documents == [] ==> r == [] && unchanged(this)
      ensures kb.documents != [] ==>
        && bm25 == (if old(bm25).Some? then old(bm25) else Some(Bm25Index(Tokenized(kb.documents))))
        && loadAttempts == old(loadAttempts) + (if old(useSemantic) && !old(embedderLoaded) then 1 else 0)
        && useSemantic == (old(useSemantic) && (old(embedderLoaded) || encoderLoads))
        && embedderLoaded == useSemantic
        && docEmbeddings == (if !useSemantic then None
                             else if old(docEmbeddings).Some? then old(docEmbeddings)
                             else Some(Embedded(sc, kb.documents)))
        && r == Ranked(kb.documents, Scores(sc, query), topK)
    {
      if kb.documents == [] {
        return [];
      }
      EnsureBm25();
      var lex := LexicalScores(sc, bm25, query, |kb.documents|);
      EnsureEmbeddings(encoderLoads, sc);
      var sem := SemanticScores(sc, useSemantic, docEmbeddings, query, |kb.documents|);
      var idx := TopIndices(Fuse(lex, sem), topK);
      r := ContentsAt(kb.documents, idx);
    }

    /** The fused score of every document under the current caches. */
    ghost function Scores(sc: Scorers, query: string): (s: seq<real>)
      reads this, kb
      requires CachesMatch()
      ensures |s| == |kb.documents|
    {
      var n := |kb.documents|;
      Fuse(LexicalScores(sc, bm25, query, n), SemanticScores(sc, useSemantic, docEmbeddings, query, n))
    }
  }

  /** Two queries in a row on the same pipeline, with no change to the corpus
      in between, return the same contents; the second never retries the
      encoder. */
  method RetrieveTwice(p: RetrievalPipeline, query: string, topK: nat, loads1: bool, loads2: bool, sc: Scorers)
    returns (r1: seq<string>, r2: seq<string>)
    requires p.Valid() && p.CachesMatch()
    modifies p
    ensures r1 == r2
  {
    r1 := p.Retrieve(query, topK, loads1, sc);
    ghost var attempts := p.loadAttempts;
    r2 := p.Retrieve(query, topK, loads2, sc);
    assert p.loadAttempts == attempts;
  }

  /** A pipeline built with semantic scoring off and one whose encoder fails to
      load rank alike: both by BM25 alone. */
  method DisabledMatchesFailedLoad(kb: Store.KnowledgeBase, query: string, topK: nat, sc: Scorers)
    returns (r1: seq<string>, r2: seq<string>)
    ensures r1 == r2
    ensures kb.documents != [] ==>
      r1 == ContentsAt(kb.documents, TopK(LexicalScores(sc, Some(Bm25Index(Tokenized(kb.documents))), query, |kb.documents|), topK))
  {
    var off := new RetrievalPipeline(kb, false);
    r1 := off.Retrieve(query, topK, true, sc);
    assert off.loadAttempts == 0;
    var failed := new RetrievalPipeline(kb, true);
    r2 := failed.Retrieve(query, topK, false, sc);
    if kb.documents != [] {
      LexicalOnly(LexicalScores(sc, Some(Bm25Index(Tokenized(kb.documents))), query, |kb.documents|), topK);
    }
  }
}
