/** The knowledge base: an append-only ordered list of entries that is written
    to, and read back from, a file holding one encoded entry per line. */
module Store {
  import opened Wrappers
  import opened Strings
  import Paths
  import Router

  /** One stored entry; the same fields as a router record. */
  datatype KBEntry = KBEntry(id: string, source: string, content: string, metadata: map<string, string>)

  /** The entry copied field for field from a router record. */
  function FromDocument(d: Router.Document): KBEntry {
    KBEntry(d.id, d.source, d.content, d.metadata)
  }

  /** The entries for a list of records, in order. */
  function Entries(docs: seq<Router.Document>): (es: seq<KBEntry>)
    ensures |es| == |docs|
  {
    seq(|docs|, i requires 0 <= i < |docs| => FromDocument(docs[i]))
  }

  /** The JSON encoding of one entry (`json.dumps` of its fields) and the
      decoding of one line (`json.loads` followed by building the entry), the
      latter failing with the text of the exception it raises. */
  datatype Codec = Codec(encode: KBEntry -> string, decode: string -> Result<KBEntry, string>)

  /** What the JSON encoder guarantees: it escapes line breaks, so an encoded
      entry fits on one line, and decoding it gives the entry back. */
  ghost predicate LineSafe(c: Codec) {
    forall e :: '\n' !in c.encode(e) && c.decode(c.encode(e)) == Ok(e)
  }

  /** The text `persist` writes: each entry's encoding followed by a line break. */
  function Render(c: Codec, es: seq<KBEntry>): string {
    if |es| == 0 then "" else c.encode(es[0]) + "\n" + Render(c, es[1..])
  }

  /** Writing one more entry appends one more line to the text. */
  lemma {:induction false} RenderSnoc(c: Codec, es: seq<KBEntry>, e: KBEntry)
    ensures Render(c, es + [e]) == Render(c, es) + c.encode(e) + "\n"
  {
    if |es| > 0 {
      assert (es + [e])[1..] == es[1..] + [e];
      RenderSnoc(c, es[1..], e);
    }
  }

  /** The lines a text file yields when iterated, without their line breaks:
      a final line break does not start another line, and an empty file has
      no lines. */
  function Lines(t: string): seq<string>
    decreases |t|
  {
    if t == "" then []
    else
      var i := IndexOf(t, '\n');
      if i == |t| then [t] else [t[..i]] + Lines(t[i + 1..])
  }

  /** The encodings of a list of entries, in order. */
  function Encoded(c: Codec, es: seq<KBEntry>): (ls: seq<string>)
    ensures |ls| == |es|
  {
    seq(|es|, i requires 0 <= i < |es| => c.encode(es[i]))
  }

  /** A line without a line break, followed by one, is read as that line. */
  lemma LinesCons(line: string, rest: string)
    requires '\n' !in line
    ensures Lines(line + "\n" + rest) == [line] + Lines(rest)
  {
    var t := line + "\n" + rest;
    assert forall j :: 0 <= j < |line| ==> t[j] == line[j];
    assert t[|line|] == '\n';
    assert IndexOf(t, '\n') == |line|;
    assert t[..|line|] == line;
    assert t[|line| + 1..] == rest;
  }

  /** Reading back the written text yields exactly one line per entry, its
      encoding, in order. */
  lemma {:induction false} LinesRender(c: Codec, es: seq<KBEntry>)
    requires LineSafe(c)
    ensures Lines(Render(c, es)) == Encoded(c, es)
  {
    if |es| > 0 {
      LinesCons(c.encode(es[0]), Render(c, es[1..]));
      LinesRender(c, es[1..]);
      assert Encoded(c, es) == [c.encode(es[0])] + Encoded(c, es[1..]);
    }
  }

  /** What `load` obtains from a list of lines: the entries decoded from the
      longest prefix that decodes, and the error of the first line that does
      not, if any. */
  datatype Parsed = Parsed(entries: seq<KBEntry>, error: Option<string>)

  /** Decodes lines in order until one fails. */
  function Parse(c: Codec, lines: seq<string>): (p: Parsed)
    ensures |p.entries| <= |lines|
    ensures forall i :: 0 <= i < |p.entries| ==> c.decode(lines[i]) == Ok(p.entries[i])
    ensures p.error.None? ==> |p.entries| == |lines|
    ensures p.error.Some? ==> |p.entries| < |lines| && c.decode(lines[|p.entries|]) == Err(p.error.value)
  {
    if |lines| == 0 then Parsed([], None)
    else
      match c.decode(lines[0])
      case Err(msg) => Parsed([], Some(msg))
      case Ok(e) =>
        var rest := Parse(c, lines[1..]);
        Parsed([e] + rest.entries, rest.error)
  }

  /** Round trip: decoding the lines of the written text gives back exactly the
      written entries, with no error; this includes the empty list. */
  lemma ParseRender(c: Codec, es: seq<KBEntry>)
    requires LineSafe(c)
    ensures Parse(c, Lines(Render(c, es))) == Parsed(es, None)
  {
    LinesRender(c, es);
    var ls := Encoded(c, es);
    var p := Parse(c, ls);
    assert forall i :: 0 <= i < |ls| ==> c.decode(ls[i]) == Ok(es[i]);
    assert p.entries == es;
  }

  /** A malformed line stops decoding; the entries of the lines before it are
      kept. */
  lemma ParseStopsAtFirstError(c: Codec, lines: seq<string>, k: nat, msg: string)
    requires k < |lines|
    requires forall j :: 0 <= j < k ==> c.decode(lines[j]).Ok?
    requires c.decode(lines[k]) == Err(msg)
    ensures Parse(c, lines).error == Some(msg)
    ensures Parse(c, lines).entries == seq(k, j requires 0 <= j < k => c.decode(lines[j]).value)
  {
    var p := Parse(c, lines);
    assert |p.entries| == k;
  }

  /** Whether `load` went through or raised on a malformed line. */
  datatype LoadOutcome = Loaded | Malformed(message: string)

  /** The files of the disk, keyed by normalised path; an absent key is a file
      that does not exist. */
  class FileSystem {
    var files: map<string, string>

    constructor (files: map<string, string>)
      ensures this.files == files
    {
      this.files := files;
    }
  }

  /** What `load` leaves in memory and reports, for a given state of the disk. */
  function LoadResult(c: Codec, files: map<string, string>, path: string): (Parsed, LoadOutcome) {
    if path !in files then (Parsed([], None), Loaded)
    else
      var p := Parse(c, Lines(files[path]));
      (p, if p.error.None? then Loaded else Malformed(p.error.value))
  }

  class KnowledgeBase {
    /** The file, as `Path(path)` normalises it. */
    const path: string
    var documents: seq<KBEntry>

    constructor (path: string)
      ensures this.path == Paths.PathString(path)
      ensures documents == []
    {
      this.path := Paths.PathString(path);
      documents := [];
    }

    /** Appends the records, in order and field for field, after the entries
        already held. */
    method AddDocuments(docs: seq<Router.Document>)
      modifies this
      ensures documents == old(documents) + Entries(docs)
    {
      for i := 0 to |docs|
        invariant documents == old(documents) + Entries(docs[..i])
      {
        assert Entries(docs[..i + 1]) == Entries(docs[..i]) + [FromDocument(docs[i])];
        documents := documents + [FromDocument(docs[i])];
      }
      assert docs[..|docs|] == docs;
    }

    /** Opens the file for writing, which empties it, then writes one line per
        entry; the entries themselves are left as they are. */
    method Persist(fs: FileSystem, codec: Codec)
      modifies fs
      ensures fs.files == old(fs.files)[path := Render(codec, documents)]
      ensures documents == old(documents)
    {
      fs.files := fs.files[path := ""];
      for i := 0 to |documents|
        invariant fs.files == old(fs.files)[path := Render(codec, documents[..i])]
      {
        RenderSnoc(codec, documents[..i], documents[i]);
        assert documents[..i + 1] == documents[..i] + [documents[i]];
        fs.files := fs.files[path := fs.files[path] + codec.encode(documents[i]) + "\n"];
      }
      assert documents[..|documents|] == documents;
    }

    /** Empties the entries, then, if the file exists, appends one entry per
        line in file order; on the first line that does not decode it stops
        with that error and keeps what it has appended so far. */
    method Load(fs: FileSystem, codec: Codec) returns (r: LoadOutcome)
      modifies this
      ensures (Parsed(documents, if r.Loaded? then None else Some(r.message)), r) == LoadResult(codec, fs.files, path)
    {
      documents := [];
      if path !in fs.files {
        return Loaded;
      }
      var lines := Lines(fs.files[path]);
      ghost var p := Parse(codec, lines);
      for i := 0 to |lines|
        invariant |documents| == i
        invariant forall j :: 0 <= j < i ==> codec.decode(lines[j]) == Ok(documents[j])
      {
        match codec.decode(lines[i]) {
          case Err(msg) =>
            ParseStopsAtFirstError(codec, lines, i, msg);
            assert documents == p.entries;
            return Malformed(msg);
          case Ok(e) =>
            documents := documents + [e];
        }
      }
      assert documents == p.entries;
      return Loaded;
    }
  }

  /** Persisting twice in a row leaves the file as persisting once does. */
  method PersistTwice(kb: KnowledgeBase, fs: FileSystem, codec: Codec)
    modifies fs
    ensures fs.files == old(fs.files)[kb.path := Render(codec, kb.documents)]
  {
    kb.Persist(fs, codec);
    kb.Persist(fs, codec);
  }

  /** After one knowledge base persists, a load by any knowledge base on the
      same path succeeds with exactly the persisted entries. */
  method ReloadElsewhere(kb: KnowledgeBase, other: KnowledgeBase, fs: FileSystem, codec: Codec)
    returns (r: LoadOutcome)
    requires LineSafe(codec)
    requires other.path == kb.path
    modifies fs, other
    ensures r == Loaded
    ensures other.documents == old(kb.documents)
  {
    kb.Persist(fs, codec);
    ghost var saved := kb.documents;
    r := other.Load(fs, codec);
    ParseRender(codec, saved);
  }
}
