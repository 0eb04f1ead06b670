/** The answer step: the local fallback answer, the prompt handed to the
    generative model, the routing between them, and the rule that picks a
    model from the ones the service lists. */
module Llm {
  import opened Wrappers
  import opened Strings

  const SystemPrompt := "You are a concise assistant. Answer the user's question using the provided context. If the answer isn't in the context, say you don't know."
  const NoDataAnswer := "I don't have any data yet. " + "Please ingest files first."
  const LocalAnswerHead := "[Local Answer]\nQuestion: "
  const ErrorHead := "[Gemini error] "

  /** The answer given without a model: the question and at most 1500
      characters of the first five contexts joined by blank lines, or the
      no-data message when that join is empty. */
  function FallbackAnswer(query: string, contexts: seq<string>): string {
    var joined := Join("\n\n", Take(contexts, 5));
    if joined == "" then NoDataAnswer
    else LocalAnswerHead + query + "\nContext:\n" + Take(joined, 1500)
  }

  /** The no-data message is given exactly when there is nothing to show: no
      context at all, or a single empty first context. */
  lemma FallbackNoData(query: string, contexts: seq<string>)
    ensures FallbackAnswer(query, contexts) == NoDataAnswer
            <==> |contexts| == 0 || (|contexts| == 1 && contexts[0] == "")
  {
    var first := Take(contexts, 5);
    JoinIsEmpty("\n\n", first);
    var joined := Join("\n\n", first);
    if joined != "" {
      var r := FallbackAnswer(query, contexts);
      assert r == LocalAnswerHead + (query + "\nContext:\n" + Take(joined, 1500));
      assert r[0] == LocalAnswerHead[0] == '[';
      assert NoDataAnswer[0] == 'I';
    }
  }

  /** Otherwise the answer is the fixed head, the question, and a context part
      of at most 1500 characters taken from the front of the join. */
  lemma FallbackShape(query: string, contexts: seq<string>)
    requires Join("\n\n", Take(contexts, 5)) != ""
    ensures var head := LocalAnswerHead + query + "\nContext:\n";
      var r := FallbackAnswer(query, contexts);
      && StartsWith(r, head)
      && |r| - |head| <= 1500
      && |r| - |head| == (if |Join("\n\n", Take(contexts, 5))| <= 1500 then |Join("\n\n", Take(contexts, 5))| else 1500)
      && StartsWith(Join("\n\n", Take(contexts, 5)), r[|head|..])
  {
    var head := LocalAnswerHead + query + "\nContext:\n";
    var r := FallbackAnswer(query, contexts);
    assert r[..|head|] == head;
    assert r[|head|..] == Take(Join("\n\n", Take(contexts, 5)), 1500);
  }

  /** Contexts after the fifth never reach the fallback answer. */
  lemma FallbackUsesFirstFive(query: string, contexts: seq<string>, more: seq<string>)
    requires |contexts| >= 5
    ensures FallbackAnswer(query, contexts + more) == FallbackAnswer(query, contexts)
  {
    assert Take(contexts + more, 5) == Take(contexts, 5);
  }

  /** The prompt: the system instructions, the first ten contexts joined by
      blank lines, and the question. */
  function Prompt(query: string, contexts: seq<string>): string {
    SystemPrompt + "\n\nContext:\n" + Join("\n\n", Take(contexts, 10)) + "\n\nQuestion: " + query
  }

  /** The prompt opens with the system instructions and ends with the
      question. */
  lemma PromptShape(query: string, contexts: seq<string>)
    ensures StartsWith(Prompt(query, contexts), SystemPrompt)
    ensures var p := Prompt(query, contexts); p[|p| - |query|..] == query
  {
    var p := Prompt(query, contexts);
    assert p[..|SystemPrompt|] == SystemPrompt;
  }

  /** Contexts after the tenth never reach the prompt. */
  lemma PromptUsesFirstTen(query: string, contexts: seq<string>, more: seq<string>)
    requires |contexts| >= 10
    ensures Prompt(query, contexts + more) == Prompt(query, contexts)
  {
    assert Take(contexts + more, 10) == Take(contexts, 10);
  }

  /** What a generation call does: it returns a response whose text may be
      `None`, or it raises. */
  datatype Generation = Responded(text: Option<string>) | Raised(message: string)

  /** The generative service, given the model name and the prompt. */
  type Generator = (string, string) -> Generation

  /** Without a model, the fallback answer; with one, the response text (empty
      when the response has none), or the error text when the call raised. */
  function Answer(model: Option<string>, query: string, contexts: seq<string>, generate: Generator): string {
    if model.None? then FallbackAnswer(query, contexts)
    else
      match generate(model.value, Prompt(query, contexts))
      case Raised(msg) => ErrorHead + msg
      case Responded(text) => if text.Some? then text.value else ""
  }

  /** The fallback is used exactly when there is no model, and then the
      service is never called: any two services give the same answer. */
  lemma AnswerWithoutModel(query: string, contexts: seq<string>, g1: Generator, g2: Generator)
    ensures Answer(None, query, contexts, g1) == Answer(None, query, contexts, g2) == FallbackAnswer(query, contexts)
  {
  }

  /** With a model, the answer depends on the service only through its reply
      to that model and the prompt built from the query and the contexts. */
  lemma AnswerWithModel(name: string, query: string, contexts: seq<string>, g1: Generator, g2: Generator)
    requires g1(name, Prompt(query, contexts)) == g2(name, Prompt(query, contexts))
    ensures Answer(Some(name), query, contexts, g1) == Answer(Some(name), query, contexts, g2)
    ensures g1(name, Prompt(query, contexts)).Raised? ==>
      Answer(Some(name), query, contexts, g1) == ErrorHead + g1(name, Prompt(query, contexts)).message
    ensures g1(name, Prompt(query, contexts)).Responded? ==>
      var t := g1(name, Prompt(query, contexts)).text;
      Answer(Some(name), query, contexts, g1) == (if t.Some? then t.value else "")
  {
  }

  /** A listed model: its name and its supported generation methods (empty
      when the listing gives none). */
  datatype ModelInfo = ModelInfo(name: string, methods: seq<string>)

  predicate CanGenerate(m: ModelInfo) {
    "generateContent" in m.methods
  }

  /** The preferred group, tested as the source writes it. */
  predicate IsGemini2(m: ModelInfo) {
    CanGenerate(m) && (Contains(m.name, "gemini-2") || Contains(m.name, "gemini-2.5"))
  }

  predicate IsFlash(m: ModelInfo) {
    Contains(m.name, "flash")
  }

  /** The second name test adds nothing: every "gemini-2.5" name contains
      "gemini-2". */
  lemma Gemini2Test(m: ModelInfo)
    ensures IsGemini2(m) <==> CanGenerate(m) && Contains(m.name, "gemini-2")
  {
    if Contains(m.name, "gemini-2.5") {
      ContainsPrefixOf(m.name, "gemini-2.5", "gemini-2");
    }
  }

  /** The elements of `xs` that satisfy `p`, in order. */
  function Filter<T>(xs: seq<T>, p: T -> bool): (r: seq<T>)
    ensures |r| <= |xs|
  {
    if |xs| == 0 then []
    else (if p(xs[0]) then [xs[0]] else []) + Filter(xs[1..], p)
  }

  /** Filtering keeps exactly the elements that pass the test. */
  lemma {:induction false} FilterMembers<T>(xs: seq<T>, p: T -> bool, x: T)
    ensures x in Filter(xs, p) <==> x in xs && p(x)
  {
    if |xs| > 0 {
      FilterMembers(xs[1..], p, x);
      assert xs == [xs[0]] + xs[1..];
    }
  }

  /** The first element of `xs` passing the test heads the filtered list. */
  lemma {:induction false} FirstOf<T>(xs: seq<T>, p: T -> bool, i: nat)
    requires i < |xs| && p(xs[i])
    requires forall j :: 0 <= j < i ==> !p(xs[j])
    ensures |Filter(xs, p)| > 0 && Filter(xs, p)[0] == xs[i]
  {
    if i > 0 {
      FirstOf(xs[1..], p, i - 1);
    }
  }

  /** The first element of `xs` passing both tests heads the list filtered
      by one and then the other. */
  lemma {:induction false} FirstOfBoth<T>(xs: seq<T>, p: T -> bool, q: T -> bool, i: nat)
    requires i < |xs| && p(xs[i]) && q(xs[i])
    requires forall j :: 0 <= j < i ==> !(p(xs[j]) && q(xs[j]))
    ensures |Filter(Filter(xs, p), q)| > 0 && Filter(Filter(xs, p), q)[0] == xs[i]
  {
    var f := Filter(xs, p);
    if i == 0 {
      assert f == [xs[0]] + Filter(xs[1..], p);
    } else {
      FirstOfBoth(xs[1..], p, q, i - 1);
      if p(xs[0]) {
        assert f == [xs[0]] + Filter(xs[1..], p);
        assert f[1..] == Filter(xs[1..], p);
        assert f[0] == xs[0] && !q(xs[0]);
        assert Filter(f, q) == Filter(f[1..], q);
      } else {
        assert f == Filter(xs[1..], p);
      }
    }
  }

  /** The model chosen from a listing: among the models that can generate
      and belong to the preferred group, the first "flash" one, else the
      first; with an empty group, the first model that can generate; none if
      no model can. */
  function ChooseModel(models: seq<ModelInfo>): Option<string> {
    var supports := Filter(models, IsGemini2);
    if |supports| > 0 then
      var flash := Filter(supports, IsFlash);
      Some((if |flash| > 0 then flash else supports)[0].name)
    else
      var anyGen := Filter(models, CanGenerate);
      if |anyGen| > 0 then Some(anyGen[0].name) else None
  }

  /** No model is chosen exactly when none can generate. */
  lemma ChoosesNone(models: seq<ModelInfo>)
    ensures ChooseModel(models).None? <==> forall i :: 0 <= i < |models| ==> !CanGenerate(models[i])
  {
    var supports := Filter(models, IsGemini2);
    var anyGen := Filter(models, CanGenerate);
    if ChooseModel(models).Some? {
      if |supports| > 0 {
        FilterMembers(models, IsGemini2, supports[0]);
      } else {
        FilterMembers(models, CanGenerate, anyGen[0]);
      }
    } else {
      forall i | 0 <= i < |models| ensures !CanGenerate(models[i]) {
        FilterMembers(models, CanGenerate, models[i]);
      }
    }
  }

  /** The first "flash" model of the preferred group is chosen. */
  lemma ChoosesFirstFlash(models: seq<ModelInfo>, i: nat)
    requires i < |models| && IsGemini2(models[i]) && IsFlash(models[i])
    requires forall j :: 0 <= j < i ==> !(IsGemini2(models[j]) && IsFlash(models[j]))
    ensures ChooseModel(models) == Some(models[i].name)
  {
    FirstOfBoth(models, IsGemini2, IsFlash, i);
  }

  /** Without "flash" models in the group, its first model is chosen. */
  lemma ChoosesFirstOfGroup(models: seq<ModelInfo>, i: nat)
    requires i < |models| && IsGemini2(models[i])
    requires forall j :: 0 <= j < i ==> !IsGemini2(models[j])
    requires forall j :: 0 <= j < |models| ==> !(IsGemini2(models[j]) && IsFlash(models[j]))
    ensures ChooseModel(models) == Some(models[i].name)
  {
    var supports := Filter(models, IsGemini2);
    FirstOf(models, IsGemini2, i);
    var flash := Filter(supports, IsFlash);
    if |flash| > 0 {
      FilterMembers(supports, IsFlash, flash[0]);
      FilterMembers(models, IsGemini2, flash[0]);
    }
  }

  /** With an empty group, the first model that can generate is chosen. */
  lemma ChoosesFirstGenerator(models: seq<ModelInfo>, i: nat)
    requires i < |models| && CanGenerate(models[i])
    requires forall j :: 0 <= j < i ==> !CanGenerate(models[j])
    requires forall j :: 0 <= j < |models| ==> !IsGemini2(models[j])
    ensures ChooseModel(models) == Some(models[i].name)
  {
    var supports := Filter(models, IsGemini2);
    FirstOf(models, CanGenerate, i);
    if |supports| > 0 {
      FilterMembers(models, IsGemini2, supports[0]);
    }
  }
}
