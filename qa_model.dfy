/**
 * The per-CDP question answerer (backend/models/qa_model.py): retrieve the
 * nearest chunks, join them into a context, deduplicate their source URLs and
 * compose an answer either with the Groq language model or with a fixed
 * template. The vector search and the Groq call are parameters.
 */
module QAModel {
  import opened Text
  import opened Wrappers

  /**
   * What the collection's `query` returns for one question: a list of
   * documents and a list of metadata per query embedding. An empty outer list
   * stands for a missing (falsy) field; a metadata entry is `None` or a
   * dictionary of its string-valued fields.
   */
  datatype QueryResult = QueryResult(
    documents: seq<seq<string>>,
    metadatas: seq<seq<Option<map<string, string>>>>)

  /** The `{"answer": ..., "sources": ...}` dictionary `answer_question` returns. */
  datatype Answer = Answer(answer: string, sources: seq<string>)

  /**
   * A QA model object. Its fields are assigned once, by the constructor: the
   * CDP name and whether a Groq client was created.
   */
  datatype Model = Model(cdpName: string, groqConfigured: bool)

  /** The constructor: a Groq client exists exactly when the API key is set and non-empty. */
  function NewModel(cdpName: string, apiKey: Option<string>): (m: Model)
    ensures m.cdpName == cdpName
    ensures m.groqConfigured <==> apiKey.Some? && apiKey.value != ""
  {
    Model(cdpName, apiKey.Some? && apiKey.value != "")
  }

  // ---------------------------------------------------------------- context

  /** `results['documents'][0] if results['documents'] else []`. */
  function ContextDocs(r: QueryResult): seq<string> {
    if |r.documents| > 0 then r.documents[0] else []
  }

  /** `results['metadatas'][0] if results['metadatas'] else []`. */
  function MetadataEntries(r: QueryResult): seq<Option<map<string, string>>> {
    if |r.metadatas| > 0 then r.metadatas[0] else []
  }

  /** The retrieved chunks joined by blank lines; "" when nothing was retrieved. */
  function Context(docs: seq<string>): string {
    if |docs| > 0 then Join("\n\n", docs) else ""
  }

  /**
   * The context is empty exactly when no chunk came back or the single chunk
   * that came back is itself empty.
   */
  lemma ContextEmptyIff(docs: seq<string>)
    ensures Context(docs) == "" <==> docs == [] || docs == [""]
  {
    JoinEmptyIff("\n\n", docs);
  }

  /** Every retrieved chunk is part of the context. */
  lemma ContextHoldsEveryChunk(docs: seq<string>, k: nat)
    requires k < |docs|
    ensures Contains(Context(docs), docs[k])
  {
    JoinContainsPiece("\n\n", docs, k);
  }

  // ---------------------------------------------------------------- sources

  /** Some metadata entry exists, has a `url` key, and its value is `u`. */
  ghost predicate HasUrl(metas: seq<Option<map<string, string>>>, u: string) {
    exists k :: 0 <= k < |metas| && metas[k].Some? && "url" in metas[k].value && metas[k].value["url"] == u
  }

  /** The list comprehension before `set(...)`: each present `url`, in order. */
  function Urls(metas: seq<Option<map<string, string>>>): (r: seq<string>)
    ensures forall u :: u in r <==> HasUrl(metas, u)
    decreases |metas|
  {
    if metas == [] then []
    else
      var prev := Urls(metas[..|metas| - 1]);
      var last := metas[|metas| - 1];
      assert forall k :: 0 <= k < |metas| - 1 ==> metas[..|metas| - 1][k] == metas[k];
      if last.Some? && "url" in last.value then prev + [last.value["url"]] else prev
  }

  /** `list(set(xs))`, keeping the first occurrence of each element. */
  function Dedup(xs: seq<string>): (r: seq<string>)
    ensures NoDup(r)
    ensures forall x :: x in r <==> x in xs
    decreases |xs|
  {
    if xs == [] then []
    else
      var prev := Dedup(xs[..|xs| - 1]);
      var last := xs[|xs| - 1];
      assert xs == xs[..|xs| - 1] + [last];
      if last in prev then prev else prev + [last]
  }

  /** The distinct source URLs of the retrieved chunks. */
  function Sources(metas: seq<Option<map<string, string>>>): (r: seq<string>)
    ensures NoDup(r)
    ensures forall u :: u in r <==> HasUrl(metas, u)
  {
    Dedup(Urls(metas))
  }

  // ---------------------------------------------------------------- answers

  /** The answer given when nothing relevant was retrieved. */
  function NotFound(question: string, cdpName: string): string {
    "I couldn't find specific information about " + question + " in the " + cdpName + " documentation."
  }

  /** The words that make a question a "how-to" question. */
  const HowToKeywords: seq<string> :=
    ["how", "steps", "guide", "process", "way to", "setup", "configure", "implement"]

  predicate IsHowTo(question: string) {
    ContainsAny(Lower(question), HowToKeywords)
  }

  /** A question is how-to iff one of the keywords occurs somewhere in its lower-case form. */
  lemma IsHowToIff(question: string)
    ensures IsHowTo(question) ==>
      exists k, i :: 0 <= k < |HowToKeywords| && OccursAt(Lower(question), HowToKeywords[k], i)
    ensures (exists k, i :: 0 <= k < |HowToKeywords| && OccursAt(Lower(question), HowToKeywords[k], i))
      ==> IsHowTo(question)
  {
    ContainsAnyIffOccurs(Lower(question), HowToKeywords);
  }

  /** The lower-case question with "how do i ", then "how to ", then "?" removed. */
  function HowToTopic(question: string): string {
    ReplaceAll(ReplaceAll(ReplaceAll(Lower(question), "how do i ", ""), "how to ", ""), "?", "")
  }

  /** The how-to topic has no question mark and no upper-case letter. */
  lemma HowToTopicClean(question: string)
    ensures '?' !in HowToTopic(question)
    ensures forall i :: 0 <= i < |HowToTopic(question)| ==> !('A' <= HowToTopic(question)[i] <= 'Z')
  {
    var l := Lower(question);
    var a := ReplaceAll(l, "how do i ", "");
    var b := ReplaceAll(a, "how to ", "");
    ReplaceChars(l, "how do i ", "");
    ReplaceChars(a, "how to ", "");
    ReplaceChars(b, "?", "");
    ReplaceCharGone(b, '?', "");
    forall i | 0 <= i < |HowToTopic(question)| ensures !('A' <= HowToTopic(question)[i] <= 'Z') {
      var c := HowToTopic(question)[i];
      assert c in HowToTopic(question);
      assert c in l;
    }
  }

  /** The template answer used when no Groq client is configured or Groq fails. */
  function SimpleAnswer(question: string, context: string, cdpName: string): string {
    if context == "" then NotFound(question, cdpName)
    else if IsHowTo(question) then HowToOpening + HowToTopic(question) + HowToClosing(cdpName, context)
    else InfoOpening(cdpName) + ReplaceAll(question, "?", "") + InfoClosing(context)
  }

  const HowToOpening: string := "Here's how to "

  function HowToClosing(cdpName: string, context: string): string {
    " in " + cdpName + ":\n\n" + context
  }

  function InfoOpening(cdpName: string): string {
    "Based on the " + cdpName + " documentation, here's information about "
  }

  function InfoClosing(context: string): string {
    ":\n\n" + context
  }

  /** `head + mid + tail` starts with `head`, ends with `tail`, and holds `mid` between them. */
  lemma ThreeParts(head: string, mid: string, tail: string)
    ensures var r := head + mid + tail;
      StartsWith(r, head) && EndsWith(r, tail) && r[|head|..|r| - |tail|] == mid
  {
    var r := head + mid + tail;
    assert r[..|head|] == head;
    assert r[|r| - |tail|..] == tail;
    assert r[|head|..|r| - |tail|] == mid;
  }

  /**
   * The Groq path. `llm(question, context)` is the chat completion: `Some`
   * with its text, or `None` when the call raised.
   */
  function GroqAnswer(question: string, context: string, cdpName: string,
                      llm: (string, string) -> Option<string>): string {
    if context == "" then NotFound(question, cdpName)
    else match llm(question, context)
      case Some(text) => text
      case None => SimpleAnswer(question, context, cdpName)
  }

  /** With an empty context both paths give the fixed "couldn't find" message, whatever the model would say. */
  lemma EmptyContextNotFound(question: string, cdpName: string, llm: (string, string) -> Option<string>)
    ensures GroqAnswer(question, "", cdpName, llm) == NotFound(question, cdpName)
    ensures SimpleAnswer(question, "", cdpName) == NotFound(question, cdpName)
  {
  }

  /** A failing Groq call is never surfaced: the template answer on the same inputs is returned. */
  lemma GroqFailureFallsBack(question: string, context: string, cdpName: string,
                             llm: (string, string) -> Option<string>)
    requires llm(question, context).None?
    ensures GroqAnswer(question, context, cdpName, llm) == SimpleAnswer(question, context, cdpName)
  {
  }

  /**
   * The template answer to a how-to question: the fixed opening, a topic
   * that is the lower-case question without question marks, the CDP name and
   * then the whole context.
   */
  lemma SimpleAnswerHowTo(question: string, context: string, cdpName: string)
    requires context != "" && IsHowTo(question)
    ensures var r := SimpleAnswer(question, context, cdpName);
      var tail := " in " + cdpName + ":\n\n" + context;
      StartsWith(r, "Here's how to ") && EndsWith(r, tail) && r[14..|r| - |tail|] == HowToTopic(question) &&
      '?' !in r[14..|r| - |tail|]
  {
    HowToTopicClean(question);
    ThreeParts(HowToOpening, HowToTopic(question), HowToClosing(cdpName, context));
  }

  /**
   * The template answer to any other question keeps the question's own case
   * and drops only its question marks.
   */
  lemma SimpleAnswerInformational(question: string, context: string, cdpName: string)
    requires context != "" && !IsHowTo(question)
    ensures var r := SimpleAnswer(question, context, cdpName);
      var head := "Based on the " + cdpName + " documentation, here's information about ";
      StartsWith(r, head) && EndsWith(r, ":\n\n" + context) &&
      r[|head|..|r| - |":\n\n" + context|] == ReplaceAll(question, "?", "") &&
      '?' !in r[|head|..|r| - |":\n\n" + context|]
  {
    ReplaceCharGone(question, '?', "");
    ThreeParts(InfoOpening(cdpName), ReplaceAll(question, "?", ""), InfoClosing(context));
  }

  /** `answer_question`: strip the question once, retrieve, compose, collect sources. */
  function AnswerQuestion(m: Model, question: string, search: string -> QueryResult,
                          llm: (string, string) -> Option<string>): (r: Answer)
    ensures var res := search(Strip(question));
      NoDup(r.sources) &&
      (forall u :: u in r.sources <==> HasUrl(MetadataEntries(res), u)) &&
      (Context(ContextDocs(res)) == "" ==> r.answer == NotFound(Strip(question), m.cdpName))
  {
    var q := Strip(question);
    var res := search(q);
    var context := Context(ContextDocs(res));
    var answer := if m.groqConfigured then GroqAnswer(q, context, m.cdpName, llm)
                  else SimpleAnswer(q, context, m.cdpName);
    Answer(answer, Sources(MetadataEntries(res)))
  }

  /**
   * Only the stripped question matters: surrounding whitespace changes
   * neither the search, nor the answer, nor the sources.
   */
  lemma AnswerUsesStrippedQuestion(m: Model, question: string, search: string -> QueryResult,
                                   llm: (string, string) -> Option<string>)
    ensures AnswerQuestion(m, question, search, llm) == AnswerQuestion(m, Strip(question), search, llm)
  {
    StripIdempotent(question);
  }
}
