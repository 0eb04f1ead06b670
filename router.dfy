/** The input router: classifies each locator, runs the matching extractor and
    shapes one record per input, turning an extractor failure into an error
    record instead of stopping the batch. */
module Router {
  import opened Wrappers
  import opened Strings
  import opened Paths

  /** One normalised record. */
  datatype Document = Document(id: string, source: string, content: string, metadata: map<string, string>)

  /** The closed set of input kinds, one per extractor. */
  datatype Kind = YouTube | Image | AudioVideo | Text

  const ImageSuffixes: set<string> := {".png", ".jpg", ".jpeg"}
  const MediaSuffixes: set<string> := {".mp3", ".mp4", ".wav", ".m4a"}

  /** The type tags a record can carry. */
  const TypeTags: set<string> := {"youtube", "image", "audio_video", "text", "error"}

  const IngestErrorPrefix := "[INGEST ERROR] "

  /** A web-video locator: starts with "http" (case-sensitive) and holds
      "youtube" in any letter case. */
  predicate IsYouTubeUrl(item: string) {
    StartsWith(item, "http") && Contains(Lower(item), "youtube")
  }

  /** The kind of an input: the web-video test first, then the lower-cased
      extension of the path. */
  function Classify(item: string): Kind {
    if IsYouTubeUrl(item) then YouTube
    else
      var suffix := Lower(Suffix(item));
      if suffix in ImageSuffixes then Image
      else if suffix in MediaSuffixes then AudioVideo
      else Text
  }

  /** The `metadata["type"]` value of a successfully extracted kind. */
  function TypeTag(k: Kind): (t: string)
    ensures t in TypeTags && t != "error"
  {
    match k
    case YouTube => "youtube"
    case Image => "image"
    case AudioVideo => "audio_video"
    case Text => "text"
  }

  /** The external extractors, selected by kind and given the locator: the raw
      URL for a web video, the normalised path string otherwise. `Err` carries
      the text of the exception the extractor raised. */
  type Extractor = (Kind, string) -> Result<string, string>

  /** The record for one input, or the failure of its extractor. */
  function ProcessSingle(item: string, extract: Extractor): (r: Result<Document, string>)
    ensures r.Ok? ==> r.value.metadata == map["type" := TypeTag(Classify(item))]
  {
    if IsYouTubeUrl(item) then
      match extract(YouTube, item)
      case Ok(text) => Ok(Document(item, item, text, map["type" := "youtube"]))
      case Err(msg) => Err(msg)
    else
      var p := PathString(item);
      var k := Classify(item);
      match extract(k, p)
      case Ok(text) => Ok(Document(p, p, text, map["type" := TypeTag(k)]))
      case Err(msg) => Err(msg)
  }

  /** The record that stands for an input whose extractor failed. */
  function ErrorDocument(item: string, msg: string): Document {
    Document(item, item, IngestErrorPrefix + msg, map["type" := "error"])
  }

  /** What the batch loop contributes for one input. Its metadata is the
      single key "type" holding one of the five tags, and the tag is "error"
      exactly when the extractor failed. */
  function Normalize(item: string, extract: Extractor): (d: Document)
    ensures d.metadata.Keys == {"type"}
    ensures d.metadata["type"] in TypeTags
    ensures d.metadata["type"] == "error" <==> ProcessSingle(item, extract).Err?
  {
    var outcome := ProcessSingle(item, extract);
    match outcome
    case Ok(d) => d
    case Err(msg) => ErrorDocument(item, msg)
  }

  /** Runs every input through the router, in order; a failing input yields
      an error record and the loop moves on to the next one. */
  method ProcessInputs(items: seq<string>, extract: Extractor) returns (docs: seq<Document>)
    ensures |docs| == |items|
    ensures forall i :: 0 <= i < |items| ==> docs[i] == Normalize(items[i], extract)
  {
    docs := [];
    for i := 0 to |items|
      invariant |docs| == i
      invariant forall j :: 0 <= j < i ==> docs[j] == Normalize(items[j], extract)
    {
      var outcome := ProcessSingle(items[i], extract);
      var d;
      match outcome {
        case Ok(doc) =>
          d := doc;
        case Err(msg) =>
          d := ErrorDocument(items[i], msg);
      }
      assert d == Normalize(items[i], extract);
      docs := docs + [d];
    }
  }

  /** The web-video test wins over any extension, and such a record keeps the
      raw locator as id and source. */
  lemma YouTubeRecord(item: string, extract: Extractor)
    requires IsYouTubeUrl(item)
    ensures Classify(item) == YouTube
    ensures extract(YouTube, item).Ok? ==>
      Normalize(item, extract) == Document(item, item, extract(YouTube, item).value, map["type" := "youtube"])
  {
  }

  /** Any other input gets a successful record that carries the normalised path as id and source and the
      extracted text verbatim. */
  lemma FileRecord(item: string, extract: Extractor)
    requires !IsYouTubeUrl(item)
    requires extract(Classify(item), PathString(item)).Ok?
    ensures var d := Normalize(item, extract);
      && d.id == PathString(item) && d.source == PathString(item)
      && d.content == extract(Classify(item), PathString(item)).value
      && d.metadata == map["type" := TypeTag(Classify(item))]
  {
  }

  /** A failing extractor gives an error record keyed by the raw input, not by
      its normalised path. */
  lemma ErrorRecord(item: string, extract: Extractor)
    requires ProcessSingle(item, extract).Err?
    ensures Normalize(item, extract) == Document(item, item, IngestErrorPrefix + ProcessSingle(item, extract).error, map["type" := "error"])
  {
  }
}
