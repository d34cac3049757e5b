/**
 * The request handler of the HTTP service (backend/api/main.py): the fixed
 * order of checks in `ask_question`, the cross-CDP comparison table, and the
 * query-all aggregation loop. Each loaded per-CDP QA model is the oracle
 * `ask(cdp, question)`, which answers or raises.
 */
module Api {
  import opened Text
  import opened Wrappers
  import QA = QAModel

  /** `supported_cdps`, in order. */
  const SupportedCdps: seq<string> := ["segment", "mparticle", "lytics", "zeotap"]

  /** The body of `POST /ask`: the question and the CDP chosen in the dropdown, if any. */
  datatype Request = Request(text: string, cdp: Option<string>)

  /** An `AnswerResponse`, or the HTTP error the handler raises. */
  datatype Response = Reply(answer: string, sources: seq<string>) | HttpError(status: nat, detail: string)

  /** What calling a loaded QA model's `answer_question` does: answer, or raise. */
  datatype Outcome = Answered(result: QA.Answer) | Raised

  // ---------------------------------------------------------------- startup

  /** The CDPs of `cdps` whose vector store loads, in order: the keys `startup_event` puts in `qa_models`. */
  function LoadedCdps(cdps: seq<string>, load: string -> bool): (r: seq<string>)
    ensures forall c :: c in r <==> c in cdps && load(c)
    ensures NoDup(cdps) ==> NoDup(r)
    decreases |cdps|
  {
    if cdps == [] then []
    else
      var prev := LoadedCdps(cdps[..|cdps| - 1], load);
      var last := cdps[|cdps| - 1];
      assert cdps == cdps[..|cdps| - 1] + [last];
      if load(last) then prev + [last] else prev
  }

  /**
   * `startup_event`: try each supported CDP in turn and register those whose
   * vector store loads (`load(cdp)` is false when it is missing or raised).
   */
  method Startup(load: string -> bool) returns (loaded: seq<string>)
    ensures loaded == LoadedCdps(SupportedCdps, load)
    ensures NoDup(loaded)
    ensures forall c :: c in loaded <==> c in SupportedCdps && load(c)
  {
    loaded := [];
    var k := 0;
    while k < |SupportedCdps|
      invariant 0 <= k <= |SupportedCdps|
      invariant loaded == LoadedCdps(SupportedCdps[..k], load)
    {
      var cdp := SupportedCdps[k];
      if load(cdp) {
        loaded := loaded + [cdp];
      }
      assert SupportedCdps[..k + 1][..k] == SupportedCdps[..k];
      k := k + 1;
    }
    assert SupportedCdps[..k] == SupportedCdps;
    assert NoDup(SupportedCdps);
  }

  // ---------------------------------------------------------------- keyword checks

  const IrrelevantKeywords: seq<string> := ["movie", "weather", "sports", "food", "restaurant"]
  const ComparisonKeywords: seq<string> := ["compare", "difference", "vs", "versus", "better"]
  /** `cdp_names` of the comparison check, a list of its own beside `supported_cdps`. */
  const CdpNames: seq<string> := ["segment", "mparticle", "lytics", "zeotap"]

  const OffTopicReply: string :=
    "I'm a CDP support specialist focused on Customer Data Platforms like Segment, mParticle, Lytics, and Zeotap. Please ask me about CDP-related tasks or comparisons."

  const SorryReply: string :=
    "I'm sorry, I couldn't find specific information about that in any of the CDP documentation. Could you rephrase your question or ask something more specific about Segment, mParticle, Lytics, or Zeotap?"

  /** The phrase that marks a QA answer as a "couldn't find" answer. */
  const NotFoundMarker: string := "I couldn't find specific information"

  // ---------------------------------------------------------------- comparison table

  /** One entry of `comparison_details`: its key, summary and per-CDP details in dictionary order. */
  datatype Topic = Topic(key: string, summary: string, details: seq<(string, string)>)

  const AudienceCreation: Topic :=
    Topic("audience creation", "Comparing Audience Creation Approaches:", [
      ("Segment", "Uses behavioral events and SQL-like syntax in Personas. Focuses on event-based segmentation."),
      ("mParticle", "Provides drag-and-drop interface with real-time updates. Emphasizes mobile and app data segmentation."),
      ("Lytics", "Utilizes machine learning for predictive audiences. Offers boolean logic and visual audience builder."),
      ("Zeotap", "Specializes in third-party data enrichment and lookalike modeling for audience creation.")])

  const DataIntegration: Topic :=
    Topic("data integration", "Comparing Data Integration Capabilities:", [
      ("Segment", "Extensive integration library. Strong focus on routing data between platforms."),
      ("mParticle", "Robust mobile SDK. Emphasizes cross-platform identity resolution."),
      ("Lytics", "Advanced machine learning for data enrichment and prediction."),
      ("Zeotap", "Specializes in identity resolution and third-party data integration.")])

  /** `comparison_details`, in insertion order. */
  const Topics: seq<Topic> := [AudienceCreation, DataIntegration]

  function TopicKeys(): seq<string> {
    seq(|Topics|, i requires 0 <= i < |Topics| => Topics[i].key)
  }

  /** `"\n".join(f"{cdp}: {detail}" ...)` over a details table. */
  function DetailLines(details: seq<(string, string)>): string {
    Join("\n", seq(|details|, i requires 0 <= i < |details| => details[i].0 + ": " + details[i].1))
  }

  /** The comparison text for the topic found, if any. */
  function ComparisonText(found: Option<nat>): string
    requires found.Some? ==> found.value < |Topics|
  {
    match found
      case None => "CDP Comparison Overview:\n\n" + DetailLines(DataIntegration.details)
      case Some(i) => Topics[i].summary + "\n\n" + DetailLines(Topics[i].details)
  }

  /** `handle_cross_cdp_comparison`. */
  function HandleComparison(question: string): (r: Response)
    ensures r.Reply? && r.sources == []
  {
    Reply(ComparisonText(FirstContained(TopicKeys(), Lower(question))), [])
  }

  /** The topic found in a lower-case question: "audience creation" first, then "data integration". */
  lemma TopicFound(l: string)
    ensures Contains(l, "audience creation") ==> FirstContained(TopicKeys(), l) == Some(0)
    ensures !Contains(l, "audience creation") && Contains(l, "data integration") ==>
      FirstContained(TopicKeys(), l) == Some(1)
    ensures !Contains(l, "audience creation") && !Contains(l, "data integration") ==>
      FirstContained(TopicKeys(), l) == None
  {
    assert TopicKeys() == ["audience creation", "data integration"];
  }

  /**
   * "audience creation" is looked for first, then "data integration": each
   * gives its summary, a blank line and its table; with neither, the overview
   * heading and the data-integration table.
   */
  lemma ComparisonTopic(question: string)
    ensures var l := Lower(question);
      var r := HandleComparison(question).answer;
      (Contains(l, "audience creation") ==>
        r == AudienceCreation.summary + "\n\n" + DetailLines(AudienceCreation.details)) &&
      (!Contains(l, "audience creation") && Contains(l, "data integration") ==>
        r == DataIntegration.summary + "\n\n" + DetailLines(DataIntegration.details)) &&
      (!Contains(l, "audience creation") && !Contains(l, "data integration") ==>
        r == "CDP Comparison Overview:\n\n" + DetailLines(DataIntegration.details))
  {
    TopicFound(Lower(question));
  }

  /** A four-entry details table prints as four "Name: detail" lines, in table order. */
  lemma DetailLinesFour(d: seq<(string, string)>)
    requires |d| == 4
    ensures DetailLines(d) ==
      d[0].0 + ": " + d[0].1 + "\n" + d[1].0 + ": " + d[1].1 + "\n" +
      d[2].0 + ": " + d[2].1 + "\n" + d[3].0 + ": " + d[3].1
  {
    var lines := seq(|d|, i requires 0 <= i < |d| => d[i].0 + ": " + d[i].1);
    assert Join("\n", lines[3..]) == lines[3];
    assert Join("\n", lines[2..]) == lines[2] + "\n" + Join("\n", lines[3..]);
    assert Join("\n", lines[1..]) == lines[1] + "\n" + Join("\n", lines[2..]);
    assert Join("\n", lines) == lines[0] + "\n" + Join("\n", lines[1..]);
  }

  /** Both tables list Segment, mParticle, Lytics and Zeotap, in that order. */
  lemma TablesInCdpOrder(t: Topic)
    requires t in Topics
    ensures |t.details| == 4
    ensures t.details[0].0 == "Segment" && t.details[1].0 == "mParticle"
    ensures t.details[2].0 == "Lytics" && t.details[3].0 == "Zeotap"
  {
  }

  // ---------------------------------------------------------------- routing

  /** Which branch of `ask_question` handles a request. */
  datatype Route = Rejected | OffTopic | Comparison | Direct(cdp: string) | QueryAll

  predicate IsComparison(l: string) {
    ContainsAny(l, ComparisonKeywords) && |Mentions(CdpNames, l)| > 1
  }

  /** The dropdown choice, when it names a loaded model. */
  predicate DropdownUsable(choice: Option<string>, loaded: seq<string>) {
    choice.Some? && choice.value != "" && choice.value != "all" && choice.value in loaded
  }

  /** The checks of `ask_question`, in the handler's order. */
  function RouteOf(req: Request, loaded: seq<string>): Route {
    var q := Strip(req.text);
    var l := Lower(q);
    if q == "" then Rejected
    else if ContainsAny(l, IrrelevantKeywords) then OffTopic
    else if IsComparison(l) then Comparison
    else if DropdownUsable(req.cdp, loaded) then Direct(req.cdp.value)
    else match FirstContained(SupportedCdps, l)
      case Some(i) => if SupportedCdps[i] in loaded then Direct(SupportedCdps[i]) else QueryAll
      case None => QueryAll
  }

  // ---------------------------------------------------------------- query all

  /** A QA model's answer is kept unless it is a "couldn't find" answer. */
  predicate Useful(a: QA.Answer) {
    !Contains(a.answer, NotFoundMarker)
  }

  /**
   * The (cdp, answer) pairs the query-all loop keeps, in model order: models
   * that raised, and "couldn't find" answers, are dropped.
   */
  function Retained(models: seq<string>, q: string, ask: (string, string) -> Outcome): seq<(string, QA.Answer)>
    decreases |models|
  {
    if models == [] then []
    else
      var prev := Retained(models[..|models| - 1], q, ask);
      var c := models[|models| - 1];
      match ask(c, q)
        case Raised => prev
        case Answered(a) => if Useful(a) then prev + [(c, a)] else prev
  }

  /**
   * Exactly the useful answers are retained: each retained pair is a model's
   * useful answer, and every model with a useful answer has a retained pair.
   */
  lemma {:induction false} RetainedSpec(models: seq<string>, q: string, ask: (string, string) -> Outcome)
    ensures var r := Retained(models, q, ask);
      |r| <= |models| &&
      (forall k :: 0 <= k < |r| ==> r[k].0 in models && ask(r[k].0, q) == Answered(r[k].1) && Useful(r[k].1)) &&
      (forall c :: c in models && ask(c, q).Answered? && Useful(ask(c, q).result) ==>
        exists k :: 0 <= k < |r| && r[k].0 == c)
    decreases |models|
  {
    if models != [] {
      var init := models[..|models| - 1];
      var c := models[|models| - 1];
      assert models == init + [c];
      RetainedSpec(init, q, ask);
      var prev := Retained(init, q, ask);
      var r := Retained(models, q, ask);
      assert forall k :: 0 <= k < |prev| ==> r[k] == prev[k];
      forall d | d in models && ask(d, q).Answered? && Useful(ask(d, q).result)
        ensures exists k :: 0 <= k < |r| && r[k].0 == d
      {
        if d == c {
          assert r[|r| - 1].0 == d;
        } else {
          assert d in init;
          var k :| 0 <= k < |prev| && prev[k].0 == d;
          assert r[k].0 == d;
        }
      }
    }
  }

  function Section(entry: (string, QA.Answer)): string {
    "From " + Capitalize(entry.0) + ":\n" + entry.1.answer
  }

  /** The `answers` list: one "From Cdp:" section per retained answer. */
  function Sections(ret: seq<(string, QA.Answer)>): seq<string> {
    seq(|ret|, i requires 0 <= i < |ret| => Section(ret[i]))
  }

  /** The `all_sources` list: every retained answer's sources, in order. */
  function AllSources(ret: seq<(string, QA.Answer)>): seq<string>
    decreases |ret|
  {
    if ret == [] then [] else AllSources(ret[..|ret| - 1]) + ret[|ret| - 1].1.sources
  }

  /** The reply of the query-all branch as a function of the retained answers. */
  function QueryAllReply(models: seq<string>, q: string, ask: (string, string) -> Outcome): Response {
    ReplyFor(Retained(models, q, ask))
  }

  /** The sorry message when nothing was retained, else the first two sections and the first five sources. */
  function ReplyFor(ret: seq<(string, QA.Answer)>): Response {
    if ret == [] then Reply(SorryReply, [])
    else Reply(Join("\n\n", Take(Sections(ret), 2)), Take(AllSources(ret), 5))
  }

  /** `ask_question` as a whole; a model that raises on a direct route is a 500 error. */
  function Ask(req: Request, loaded: seq<string>, ask: (string, string) -> Outcome): Response {
    var q := Strip(req.text);
    match RouteOf(req, loaded)
      case Rejected => HttpError(400, "Question cannot be empty")
      case OffTopic => Reply(OffTopicReply, [])
      case Comparison => HandleComparison(q)
      case Direct(cdp) =>
        (match ask(cdp, q)
          case Answered(a) => Reply(a.answer, a.sources)
          case Raised => HttpError(500, "Internal Server Error"))
      case QueryAll => QueryAllReply(loaded, q, ask)
  }

  /** The query-all loop over `qa_models.items()`, then the two slices. */
  method QueryAllModels(models: seq<string>, q: string, ask: (string, string) -> Outcome) returns (r: Response)
    ensures r == QueryAllReply(models, q, ask)
  {
    var answers: seq<string> := [];
    var allSources: seq<string> := [];
    ghost var kept: seq<(string, QA.Answer)> := [];
    var k := 0;
    while k < |models|
      invariant 0 <= k <= |models|
      invariant kept == Retained(models[..k], q, ask)
      invariant answers == Sections(kept)
      invariant allSources == AllSources(kept)
    {
      var cdp := models[k];
      assert models[..k + 1][..k] == models[..k];
      match ask(cdp, q) {
        case Raised =>
        case Answered(a) =>
          if !Contains(a.answer, NotFoundMarker) {
            answers := answers + ["From " + Capitalize(cdp) + ":\n" + a.answer];
            allSources := allSources + a.sources;
            kept := kept + [(cdp, a)];
          }
      }
      k := k + 1;
    }
    assert models[..k] == models;
    if |answers| == 0 {
      return Reply(SorryReply, []);
    }
    if |answers| > 2 {
      answers := answers[..2];
    }
    r := Reply(Join("\n\n", answers), Take(allSources, 5));
  }

  /** `ask_question`, with the query-all branch run as a loop. */
  method AskQuestion(req: Request, loaded: seq<string>, ask: (string, string) -> Outcome) returns (r: Response)
    ensures r == Ask(req, loaded, ask)
  {
    var q := Strip(req.text);
    var route := RouteOf(req, loaded);
    match route {
      case Rejected => r := HttpError(400, "Question cannot be empty");
      case OffTopic => r := Reply(OffTopicReply, []);
      case Comparison => r := HandleComparison(q);
      case Direct(cdp) =>
        match ask(cdp, q) {
          case Answered(a) => r := Reply(a.answer, a.sources);
          case Raised => r := HttpError(500, "Internal Server Error");
        }
      case QueryAll => r := QueryAllModels(loaded, q, ask);
    }
  }

  // ---------------------------------------------------------------- properties

  /** The route is `Rejected` iff the question is empty or whitespace only. */
  lemma BlankRoute(req: Request, loaded: seq<string>)
    ensures RouteOf(req, loaded) == Rejected <==> forall i :: 0 <= i < |req.text| ==> IsSpace(req.text[i])
  {
    StripEmptyIffAllSpace(req.text);
  }

  /** Only the `Rejected` route answers with a 400 error: every other branch replies or fails with 500. */
  lemma Only400WhenRejected(req: Request, loaded: seq<string>, ask: (string, string) -> Outcome)
    ensures var r := Ask(req, loaded, ask);
      (r.HttpError? && r.status == 400) <==> RouteOf(req, loaded) == Rejected
  {
    match RouteOf(req, loaded)
    case QueryAll =>
      assert Ask(req, loaded, ask) == ReplyFor(Retained(loaded, Strip(req.text), ask));
    case _ =>
  }

  /** An empty or whitespace-only question, and only such a question, is rejected with 400. */
  lemma RejectsBlankFirst(req: Request, loaded: seq<string>, ask: (string, string) -> Outcome)
    ensures var r := Ask(req, loaded, ask);
      (r.HttpError? && r.status == 400) <==> forall i :: 0 <= i < |req.text| ==> IsSpace(req.text[i])
  {
    BlankRoute(req, loaded);
    Only400WhenRejected(req, loaded, ask);
  }

  /** Off-topic words win over everything but the blank check, comparison words included. */
  lemma OffTopicBeforeComparison(req: Request, loaded: seq<string>, ask: (string, string) -> Outcome)
    requires Strip(req.text) != ""
    requires ContainsAny(Lower(Strip(req.text)), IrrelevantKeywords)
    ensures Ask(req, loaded, ask) == Reply(OffTopicReply, [])
  {
  }

  /** The comparison branch answers with the comparison table and never cites sources. */
  lemma ComparisonReply(req: Request, loaded: seq<string>, ask: (string, string) -> Outcome)
    ensures RouteOf(req, loaded) == Comparison ==>
      Ask(req, loaded, ask) == HandleComparison(Strip(req.text)) && Ask(req, loaded, ask).sources == []
  {
  }

  /** The comparison route in terms of the words of the question. */
  lemma ComparisonRoute(req: Request, loaded: seq<string>)
    ensures var l := Lower(Strip(req.text));
      RouteOf(req, loaded) == Comparison <==>
        Strip(req.text) != "" && !ContainsAny(l, IrrelevantKeywords) && ContainsAny(l, ComparisonKeywords) &&
        exists i, j :: 0 <= i < j < |CdpNames| && Contains(l, CdpNames[i]) && Contains(l, CdpNames[j])
  {
    MentionsTwo(CdpNames, Lower(Strip(req.text)));
  }

  /** A usable dropdown choice beats any CDP named in the question. */
  lemma DropdownBeatsMention(req: Request, loaded: seq<string>)
    requires var q := Strip(req.text); q != "" && !ContainsAny(Lower(q), IrrelevantKeywords) && !IsComparison(Lower(q))
    requires DropdownUsable(req.cdp, loaded)
    ensures RouteOf(req, loaded) == Direct(req.cdp.value)
  {
  }

  /**
   * Without a usable dropdown choice, the first supported CDP named in the
   * question decides: its model when loaded, else every model, even when a
   * later-named CDP is loaded.
   */
  lemma FirstMentionBeatsQueryAll(req: Request, loaded: seq<string>, i: nat)
    requires var q := Strip(req.text); q != "" && !ContainsAny(Lower(q), IrrelevantKeywords) && !IsComparison(Lower(q))
    requires !DropdownUsable(req.cdp, loaded)
    requires i < |SupportedCdps| && Contains(Lower(Strip(req.text)), SupportedCdps[i])
    requires forall j :: 0 <= j < i ==> !Contains(Lower(Strip(req.text)), SupportedCdps[j])
    ensures SupportedCdps[i] in loaded ==> RouteOf(req, loaded) == Direct(SupportedCdps[i])
    ensures SupportedCdps[i] !in loaded ==> RouteOf(req, loaded) == QueryAll
  {
    var f := FirstContained(SupportedCdps, Lower(Strip(req.text)));
    assert f == Some(i);
  }

  /** A "couldn't find" answer of a QA model is always dropped by the query-all loop. */
  lemma NotFoundIsDropped(question: string, cdpName: string, sources: seq<string>)
    ensures !Useful(QA.Answer(QA.NotFound(question, cdpName), sources))
  {
    var s := QA.NotFound(question, cdpName);
    assert StartsWith(s, NotFoundMarker);
  }

  /**
   * The sorry message, with no sources, is returned when no model contributed
   * a useful answer; otherwise the reply opens with a "From " section.
   */
  lemma QueryAllSorry(models: seq<string>, q: string, ask: (string, string) -> Outcome)
    ensures (forall c :: c in models ==> ask(c, q).Raised? || !Useful(ask(c, q).result)) ==>
      QueryAllReply(models, q, ask) == Reply(SorryReply, [])
    ensures (exists c :: c in models && ask(c, q).Answered? && Useful(ask(c, q).result)) ==>
      StartsWith(QueryAllReply(models, q, ask).answer, "From ")
  {
    RetainedSpec(models, q, ask);
    var ret := Retained(models, q, ask);
    if ret != [] {
      assert ask(ret[0].0, q) == Answered(ret[0].1);
    }
    ReplyOpening(ret);
  }

  /** The reply built from no retained answer is the sorry message; from some, it opens with a section. */
  lemma ReplyOpening(ret: seq<(string, QA.Answer)>)
    ensures ret == [] ==> ReplyFor(ret) == Reply(SorryReply, [])
    ensures ret != [] ==> StartsWith(ReplyFor(ret).answer, "From ")
  {
    if ret != [] {
      var shown := Take(Sections(ret), 2);
      JoinStartsWithFirst("\n\n", shown);
      assert StartsWith(shown[0], "From ");
    }
  }

  /**
   * At most two sections are shown, those of the first useful models in
   * model order, separated by a blank line.
   */
  lemma QueryAllShowsFirstTwo(models: seq<string>, q: string, ask: (string, string) -> Outcome)
    ensures var ret := Retained(models, q, ask);
      var r := QueryAllReply(models, q, ask);
      (|ret| == 1 ==> r.answer == Section(ret[0])) &&
      (|ret| >= 2 ==> r.answer == Section(ret[0]) + "\n\n" + Section(ret[1]))
  {
    var ret := Retained(models, q, ask);
    var secs := Sections(ret);
    if |ret| == 1 {
      assert Take(secs, 2) == [Section(ret[0])];
    } else if |ret| >= 2 {
      var shown := Take(secs, 2);
      assert shown == [Section(ret[0]), Section(ret[1])];
      assert Join("\n\n", shown) == shown[0] + "\n\n" + Join("\n\n", shown[1..]);
    }
  }

  // ---------------------------------------------------------------- query-all order

  /** Model `c` gives a useful answer to `q`. */
  predicate Gives(c: string, q: string, ask: (string, string) -> Outcome) {
    ask(c, q).Answered? && Useful(ask(c, q).result)
  }

  /** The loop keeps answers in model order: models earlier in the list come first. */
  lemma {:induction false} RetainedAppend(a: seq<string>, b: seq<string>, q: string, ask: (string, string) -> Outcome)
    ensures Retained(a + b, q, ask) == Retained(a, q, ask) + Retained(b, q, ask)
    decreases |b|
  {
    if b == [] {
      assert a + b == a;
    } else {
      var init := b[..|b| - 1];
      assert (a + b)[..|a + b| - 1] == a + init;
      assert (a + b)[|a + b| - 1] == b[|b| - 1];
      RetainedAppend(a, init, q, ask);
    }
  }

  /** Models without a useful answer contribute nothing. */
  lemma {:induction false} RetainedNone(models: seq<string>, q: string, ask: (string, string) -> Outcome)
    requires forall k :: 0 <= k < |models| ==> !Gives(models[k], q, ask)
    ensures Retained(models, q, ask) == []
    decreases |models|
  {
    if models != [] {
      var init := models[..|models| - 1];
      assert forall k :: 0 <= k < |init| ==> init[k] == models[k];
      RetainedNone(init, q, ask);
    }
  }

  /**
   * When model `i` is the first with a useful answer, that answer is kept
   * first and the rest comes from the models after it.
   */
  lemma RetainedFirst(models: seq<string>, q: string, ask: (string, string) -> Outcome, i: nat)
    requires i < |models| && Gives(models[i], q, ask)
    requires forall k :: 0 <= k < i ==> !Gives(models[k], q, ask)
    ensures Retained(models, q, ask) ==
      [(models[i], ask(models[i], q).result)] + Retained(models[i + 1..], q, ask)
  {
    var c := models[i];
    assert models == models[..i] + ([c] + models[i + 1..]);
    RetainedAppend(models[..i], [c] + models[i + 1..], q, ask);
    RetainedAppend([c], models[i + 1..], q, ask);
    RetainedNone(models[..i], q, ask);
    assert [c][..0] == [];
  }

  /** With exactly one useful model, its section alone is shown. */
  lemma QueryAllShowsOnlyUseful(models: seq<string>, q: string, ask: (string, string) -> Outcome, i: nat)
    requires i < |models| && Gives(models[i], q, ask)
    requires forall k :: 0 <= k < |models| && k != i ==> !Gives(models[k], q, ask)
    ensures QueryAllReply(models, q, ask).answer == Section((models[i], ask(models[i], q).result))
  {
    RetainedFirst(models, q, ask, i);
    var rest := models[i + 1..];
    assert forall k :: 0 <= k < |rest| ==> rest[k] == models[i + 1 + k];
    RetainedNone(rest, q, ask);
    QueryAllShowsFirstTwo(models, q, ask);
  }

  /**
   * The two sections shown are those of the first two useful models, `i`
   * before `j`, in model order.
   */
  lemma QueryAllShowsFirstUseful(models: seq<string>, q: string, ask: (string, string) -> Outcome, i: nat, j: nat)
    requires i < j < |models| && Gives(models[i], q, ask) && Gives(models[j], q, ask)
    requires forall k :: 0 <= k < j && k != i ==> !Gives(models[k], q, ask)
    ensures QueryAllReply(models, q, ask).answer ==
      Section((models[i], ask(models[i], q).result)) + "\n\n" + Section((models[j], ask(models[j], q).result))
  {
    RetainedFirst(models, q, ask, i);
    var rest := models[i + 1..];
    assert forall k :: 0 <= k < |rest| ==> rest[k] == models[i + 1 + k];
    RetainedFirst(rest, q, ask, j - i - 1);
    QueryAllShowsFirstTwo(models, q, ask);
  }

  /** The collected sources are concatenated in kept-answer order. */
  lemma {:induction false} AllSourcesAppend(a: seq<(string, QA.Answer)>, b: seq<(string, QA.Answer)>)
    ensures AllSources(a + b) == AllSources(a) + AllSources(b)
    decreases |b|
  {
    if b == [] {
      assert a + b == a;
    } else {
      var init := b[..|b| - 1];
      assert (a + b)[..|a + b| - 1] == a + init;
      assert (a + b)[|a + b| - 1] == b[|b| - 1];
      AllSourcesAppend(a, init);
    }
  }

  /** The sources of earlier models come before those of later ones. */
  lemma SourcesInModelOrder(a: seq<string>, b: seq<string>, q: string, ask: (string, string) -> Outcome)
    ensures AllSources(Retained(a + b, q, ask)) ==
      AllSources(Retained(a, q, ask)) + AllSources(Retained(b, q, ask))
  {
    RetainedAppend(a, b, q, ask);
    AllSourcesAppend(Retained(a, q, ask), Retained(b, q, ask));
  }

  /** Some retained answer cites `u` among its sources. */
  ghost predicate Cited(ret: seq<(string, QA.Answer)>, u: string) {
    exists k :: 0 <= k < |ret| && u in ret[k].1.sources
  }

  /** The sources of every retained answer. */
  lemma {:induction false} AllSourcesSpec(ret: seq<(string, QA.Answer)>)
    ensures forall u :: u in AllSources(ret) <==> Cited(ret, u)
    decreases |ret|
  {
    if ret != [] {
      var init := ret[..|ret| - 1];
      AllSourcesSpec(init);
      forall u | u in AllSources(ret) ensures Cited(ret, u) {
        if u !in ret[|ret| - 1].1.sources {
          assert u in AllSources(init);
          var k :| 0 <= k < |init| && u in init[k].1.sources;
          assert ret[k] == init[k];
        }
      }
      forall u, k | 0 <= k < |ret| && u in ret[k].1.sources ensures u in AllSources(ret) {
        if k < |init| {
          assert init[k] == ret[k];
        }
      }
    }
  }

  /**
   * Query-all sources: at most five, each from some retained answer (those
   * beyond the two shown included), and, while there are at most five in
   * all, every source of every retained answer.
   */
  lemma QueryAllSources(models: seq<string>, q: string, ask: (string, string) -> Outcome)
    ensures var ret := Retained(models, q, ask);
      var r := QueryAllReply(models, q, ask);
      var all := AllSources(ret);
      |r.sources| == (if |all| < 5 then |all| else 5) && r.sources == all[..|r.sources|] &&
      (forall u :: u in r.sources ==> Cited(ret, u)) &&
      (|AllSources(ret)| <= 5 ==> forall u :: Cited(ret, u) ==> u in r.sources)
  {
    var ret := Retained(models, q, ask);
    assert QueryAllReply(models, q, ask) == ReplyFor(ret);
    ReplySources(ret);
  }

  /** The sources of the reply built from the retained answers `ret`. */
  lemma ReplySources(ret: seq<(string, QA.Answer)>)
    ensures var r := ReplyFor(ret);
      var all := AllSources(ret);
      |r.sources| == (if |all| < 5 then |all| else 5) && r.sources == all[..|r.sources|] &&
      (forall u :: u in r.sources ==> Cited(ret, u)) &&
      (|AllSources(ret)| <= 5 ==> forall u :: Cited(ret, u) ==> u in r.sources)
  {
    AllSourcesSpec(ret);
  }
}
