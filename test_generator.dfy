/** Quiz generation (src/components/TestGenerator.tsx): check that there is
    lecture text, cut it to size, ask the language-model service for ten
    questions, dig the JSON payload out of the reply, validate it, keep the
    first ten questions, move the correct option of some of them to a random
    slot, and store a fresh quiz under `test_<lectureId>`. */
module TestGenerator {
  import opened Wrappers
  import opened JsText
  import opened Domain
  import opened Storage
  import opened Shuffle

  /** A value `JSON.parse` can return. Numbers are reals; an object keeps the
      last value given for a repeated member name, as `JSON.parse` does. */
  datatype Json =
    | JNull
    | JBool(b: bool)
    | JNumber(n: real)
    | JString(s: string)
    | JArray(items: seq<Json>)
    | JObject(members: map<string, Json>)

  /** `JSON.parse`, kept abstract: `None` when it throws. */
  type JsonParser = string -> Option<Json>

  /** Why a generation attempt ends without a quiz. */
  datatype GenError =
    | NoLectureContent                // neither content nor transcript
    | RequestTimedOut                 // the 30-second race was lost
    | ServiceFailed                   // the completion call threw
    | NoResponse                      // the reply has no content
    | InvalidJson                     // JSON.parse threw
    | NullPayload                     // reading `.questions` of a parsed null throws
    | NotAnArray                      // the located value is not a non-empty array
    | NotEnoughQuestions(count: nat)  // fewer than ten elements
    | NullQuestion                    // validation read a field of a null element and threw
    | BadQuestionFormat               // some element failed validation

  const ContentLimit: nat := 3000
  const TranscriptLimit: nat := 1500
  const QuizLength: nat := 10

  /** What the prompt is built from; the prompt wording itself is not modelled. */
  datatype GenerationRequest = GenerationRequest(language: Language, content: string, transcript: string)

  /** How the race between the completion call and the timer ends. A reply
      whose content is null is `Replied("")`. */
  datatype ServiceOutcome = Replied(content: string) | TimedOut | CallFailed

  /** The input check and the truncation that precede the service call. */
  function PrepareRequest(content: string, transcript: string, language: Language): (r: Result<GenerationRequest, GenError>)
    ensures r.Failure? <==> content == "" && transcript == ""
    ensures r.Failure? ==> r.error == NoLectureContent
    ensures r.Success? ==>
      && r.value.language == language
      && |r.value.content| == Min(|content|, ContentLimit)
      && r.value.content == content[..|r.value.content|]
      && |r.value.transcript| == Min(|transcript|, TranscriptLimit)
      && r.value.transcript == transcript[..|r.value.transcript|]
  {
    if content == "" && transcript == "" then Failure(NoLectureContent)
    else Success(GenerationRequest(language, Slice(content, ContentLimit), Slice(transcript, TranscriptLimit)))
  }

  // ---------------------------------------------------------------------------
  // Extraction of the JSON payload: three regular expressions tried in order.

  const JsonFenceOpen := "```json\n"
  const PlainFenceOpen := "```\n"
  const FenceClose := "\n```"

  /** The first position at or after `from` where `pattern` occurs. */
  function FirstOccurrence(text: string, pattern: string, from: nat): (r: Option<nat>)
    ensures r.Some? ==> from <= r.value && OccursAt(text, r.value, pattern)
    ensures forall k: nat :: from <= k && (r.None? || k < r.value) ==> !OccursAt(text, k, pattern)
    decreases |text| - from
  {
    if from + |pattern| > |text| then None
    else if OccursAt(text, from, pattern) then Some(from)
    else FirstOccurrence(text, pattern, from + 1)
  }

  /** Positions (i, c) where a fenced block matches: the opener at `i`, a
      closing fence at `c` after it. */
  predicate FencedAt(text: string, open: string, i: nat, c: nat) {
    OccursAt(text, i, open) && i + |open| <= c && OccursAt(text, c, FenceClose)
  }

  /** Where `/open([\s\S]*?)\n```/` matches: the leftmost start of any match,
      and the lazy group ends at the first closing fence after the opener. */
  function FenceMatchAt(text: string, open: string): (r: Option<(nat, nat)>)
    requires |open| > 0
    ensures r.None? <==> forall i: nat, c: nat :: !FencedAt(text, open, i, c)
    ensures r.Some? ==>
      && FencedAt(text, open, r.value.0, r.value.1)
      && (forall i: nat, c: nat :: i < r.value.0 ==> !FencedAt(text, open, i, c))
      && (forall c: nat :: r.value.0 + |open| <= c < r.value.1 ==> !OccursAt(text, c, FenceClose))
  {
    match FirstOccurrence(text, open, 0)
    case None => None
    case Some(i) =>
      match FirstOccurrence(text, FenceClose, i + |open|)
      case None =>
        assert forall i': nat, c: nat :: !FencedAt(text, open, i', c) by {
          forall i': nat, c: nat ensures !FencedAt(text, open, i', c) {
            if OccursAt(text, i', open) {
              assert i <= i';
            }
          }
        }
        None
      case Some(c) =>
        assert FencedAt(text, open, i, c);
        Some((i, c))
  }

  /** The first position of character `ch`. */
  function FirstIndexOf(text: string, ch: char): (r: Option<nat>)
    ensures r.Some? ==> r.value < |text| && text[r.value] == ch
    ensures forall k :: 0 <= k < |text| && (r.None? || k < r.value) ==> text[k] != ch
  {
    if text == [] then None
    else if text[0] == ch then Some(0)
    else match FirstIndexOf(text[1..], ch)
      case None => None
      case Some(k) => Some(k + 1)
  }

  /** The last position of character `ch`. */
  function LastIndexOf(text: string, ch: char): (r: Option<nat>)
    ensures r.Some? ==> r.value < |text| && text[r.value] == ch
    ensures forall k :: 0 <= k < |text| && (r.None? || r.value < k) ==> text[k] != ch
  {
    if text == [] then None
    else if text[|text| - 1] == ch then Some(|text| - 1)
    else LastIndexOf(text[..|text| - 1], ch)
  }

  /** Where the greedy `/{[\s\S]*}/` matches: from the first '{' to the last
      '}' after it. */
  function BraceMatchAt(text: string): (r: Option<(nat, nat)>)
    ensures r.Some? ==>
      && r.value.0 < r.value.1 < |text|
      && text[r.value.0] == '{' && text[r.value.1] == '}'
      && (forall k :: 0 <= k < r.value.0 ==> text[k] != '{')
      && (forall k :: r.value.1 < k < |text| ==> text[k] != '}')
    ensures r.None? ==> forall i, j :: 0 <= i < j < |text| && text[i] == '{' ==> text[j] != '}'
  {
    match FirstIndexOf(text, '{')
    case None => None
    case Some(i) =>
      match LastIndexOf(text, '}')
      case None => None
      case Some(j) => if i < j then Some((i, j)) else None
  }

  /** What `String.prototype.match` yields: the whole match and the first
      capture group, when the pattern has one. */
  datatype RegexMatch = RegexMatch(whole: string, group: Option<string>)

  /** The three patterns, in the order the generator tries them. */
  datatype Extractor = JsonFenced | PlainFenced | BareObject

  const Extractors: seq<Extractor> := [JsonFenced, PlainFenced, BareObject]

  function FenceMatch(text: string, open: string): Option<RegexMatch>
    requires |open| > 0
  {
    match FenceMatchAt(text, open)
    case None => None
    case Some((i, c)) => Some(RegexMatch(text[i..c + |FenceClose|], Some(text[i + |open|..c])))
  }

  function RunExtractor(e: Extractor, text: string): Option<RegexMatch> {
    match e
    case JsonFenced => FenceMatch(text, JsonFenceOpen)
    case PlainFenced => FenceMatch(text, PlainFenceOpen)
    case BareObject =>
      match BraceMatchAt(text)
      case None => None
      case Some((i, j)) => Some(RegexMatch(text[i..j + 1], None))
  }

  /** `a.match(...) || b.match(...) || ...`: the first extractor that matches. */
  function FirstMatch(text: string, es: seq<Extractor>): (r: Option<RegexMatch>)
    ensures r.None? <==> forall k :: 0 <= k < |es| ==> RunExtractor(es[k], text).None?
    ensures r.Some? ==> exists k :: 0 <= k < |es| && r == RunExtractor(es[k], text)
                                    && forall k' :: 0 <= k' < k ==> RunExtractor(es[k'], text).None?
  {
    if es == [] then None
    else
      var m := RunExtractor(es[0], text);
      if m.Some? then m
      else
        var rest := FirstMatch(text, es[1..]);
        assert rest.Some? ==> exists k :: 1 <= k < |es| && rest == RunExtractor(es[k], text)
                                          && forall k' :: 0 <= k' < k ==> RunExtractor(es[k'], text).None? by {
          if rest.Some? {
            var k :| 0 <= k < |es[1..]| && rest == RunExtractor(es[1..][k], text)
                     && forall k' :: 0 <= k' < k ==> RunExtractor(es[1..][k'], text).None?;
            assert forall k' :: 1 <= k' < k + 1 ==> RunExtractor(es[k'], text).None? by {
              forall k' | 1 <= k' < k + 1 ensures RunExtractor(es[k'], text).None? {
                assert es[k'] == es[1..][k' - 1];
              }
            }
          }
        }
        rest
  }

  /** `jsonMatch[1] || jsonMatch[0]`: the group, unless it is absent or empty. */
  function MatchText(m: RegexMatch): string {
    if m.group.Some? && m.group.value != "" then m.group.value else m.whole
  }

  /** The text handed (trimmed) to `JSON.parse`: the first match's text, or the
      whole reply when no pattern matches. */
  function JsonCandidate(text: string): string {
    match FirstMatch(text, Extractors)
    case None => text
    case Some(m) => MatchText(m)
  }

  /** The fenced ```` ```json ```` block wins, then the plain fence, then the bare
      object; with no match the whole reply is parsed. */
  lemma ExtractionOrder(text: string)
    ensures RunExtractor(JsonFenced, text).Some? ==>
      JsonCandidate(text) == MatchText(RunExtractor(JsonFenced, text).value)
    ensures RunExtractor(JsonFenced, text).None? && RunExtractor(PlainFenced, text).Some? ==>
      JsonCandidate(text) == MatchText(RunExtractor(PlainFenced, text).value)
    ensures RunExtractor(JsonFenced, text).None? && RunExtractor(PlainFenced, text).None?
            && RunExtractor(BareObject, text).Some? ==>
      JsonCandidate(text) == RunExtractor(BareObject, text).value.whole
    ensures RunExtractor(JsonFenced, text).None? && RunExtractor(PlainFenced, text).None?
            && RunExtractor(BareObject, text).None? ==>
      JsonCandidate(text) == text
  {
    var r := FirstMatch(text, Extractors);
    if r.Some? {
      var k :| 0 <= k < 3 && r == RunExtractor(Extractors[k], text)
               && forall k' :: 0 <= k' < k ==> RunExtractor(Extractors[k'], text).None?;
      assert k >= 1 ==> RunExtractor(Extractors[0], text).None?;
      assert k >= 2 ==> RunExtractor(Extractors[1], text).None?;
    } else {
      assert RunExtractor(Extractors[0], text).None?;
      assert RunExtractor(Extractors[1], text).None?;
      assert RunExtractor(Extractors[2], text).None?;
    }
  }

  // ---------------------------------------------------------------------------
  // Locating and validating the question list.

  /** JavaScript truthiness of a parsed value. */
  predicate Truthy(j: Json) {
    match j
    case JNull => false
    case JBool(b) => b
    case JNumber(n) => n != 0.0
    case JString(s) => s != ""
    case _ => true
  }

  /** `parsed.questions || parsed` for a non-null `parsed`. */
  function Located(parsed: Json): Json {
    if parsed.JObject? && "questions" in parsed.members && Truthy(parsed.members["questions"])
    then parsed.members["questions"]
    else parsed
  }

  /** The elements of the located list, when the reply parses to something
      other than null whose located value is a non-empty array. */
  function ReplyList(content: string, parse: JsonParser): Option<seq<Json>> {
    var parsed := parse(Trim(JsonCandidate(content)));
    if parsed.None? || parsed.value.JNull? then None
    else
      var list := Located(parsed.value);
      if list.JArray? && |list.items| > 0 then Some(list.items) else None
  }

  predicate IsStringMember(m: map<string, Json>, name: string) {
    name in m && m[name].JString?
  }

  /** One element of `validateQuestions` as written: a string `question`, an
      array of exactly four strings `options`, a number `correctIndex` with
      0 <= correctIndex < 4, and a string `explanation`. */
  predicate IsQuestionAsWritten(q: Json) {
    && q.JObject?
    && IsStringMember(q.members, "question")
    && "options" in q.members && q.members["options"].JArray?
    && |q.members["options"].items| == 4
    && (forall o <- q.members["options"].items :: o.JString?)
    && "correctIndex" in q.members && q.members["correctIndex"].JNumber?
    && 0.0 <= q.members["correctIndex"].n < 4.0
    && IsStringMember(q.members, "explanation")
  }

  /** Option button `i` is the one a `correctIndex` of `n` designates. */
  predicate Designates(i: int, n: real) {
    i as real == n
  }

  predicate IsInteger(x: real) {
    x.Floor as real == x
  }

  /** The validation the model uses: as written, and `correctIndex` must also
      be a whole number. */
  predicate IsQuestion(q: Json) {
    IsQuestionAsWritten(q) && IsInteger(q.members["correctIndex"].n)
  }

  /** The check as written accepts a question whose `correctIndex` is 0.5;
      no option button index equals it, so in the attempt as stored that
      question cannot be answered correctly and the attempt cannot be passed. */
  lemma FractionalIndexAccepted()
    ensures exists q :: IsQuestionAsWritten(q) && !IsQuestion(q)
                        && forall i: int :: 0 <= i < 4 ==> !Designates(i, q.members["correctIndex"].n)
  {
    var opt := JString("o");
    var q := JObject(map["question" := JString("q"), "options" := JArray([opt, opt, opt, opt]),
                         "correctIndex" := JNumber(0.5), "explanation" := JString("e")]);
    assert q.members["options"].items == [opt, opt, opt, opt];
    assert IsQuestionAsWritten(q);
    assert 0.5.Floor == 0;
  }

  /** With the whole-number check, every accepted question has exactly one
      option position equal to its `correctIndex`. */
  lemma AcceptedQuestionIsAnswerable(q: Json)
    requires IsQuestion(q)
    ensures exists i: int :: 0 <= i < 4 && Designates(i, q.members["correctIndex"].n)
  {
    var n := q.members["correctIndex"].n;
    assert 0 <= n.Floor < 4 && Designates(n.Floor, n);
  }

  /** The question record an accepted element denotes. */
  function ToQuestion(q: Json): (r: ValidQuestion)
    requires IsQuestion(q)
    ensures r.question == q.members["question"].s && r.explanation == q.members["explanation"].s
    ensures r.correctIndex as real == q.members["correctIndex"].n
    ensures forall i :: 0 <= i < 4 ==> r.options[i] == q.members["options"].items[i].s
  {
    var items := q.members["options"].items;
    var n := q.members["correctIndex"].n;
    assert items[0] in items && items[1] in items && items[2] in items && items[3] in items;
    Question(q.members["question"].s, [items[0].s, items[1].s, items[2].s, items[3].s],
             n.Floor, q.members["explanation"].s)
  }

  /** `questions.every(...)`: the first element that fails decides the error. */
  function CheckQuestions(items: seq<Json>): (r: Option<GenError>)
    ensures r.None? <==> forall k :: 0 <= k < |items| ==> IsQuestion(items[k])
    ensures r.Some? ==> r.value == NullQuestion || r.value == BadQuestionFormat
  {
    if items == [] then None
    else if !IsQuestion(items[0]) then Some(if items[0].JNull? then NullQuestion else BadQuestionFormat)
    else CheckQuestions(items[1..])
  }

  /** From the reply text to the validated question list. */
  function ParseReply(content: string, parse: JsonParser): (r: Result<seq<ValidQuestion>, GenError>)
    ensures r.Success? <==>
      && ReplyList(content, parse).Some?
      && |ReplyList(content, parse).value| >= QuizLength
      && forall k :: 0 <= k < |ReplyList(content, parse).value| ==> IsQuestion(ReplyList(content, parse).value[k])
    ensures r.Success? ==>
      && |r.value| == |ReplyList(content, parse).value|
      && forall k :: 0 <= k < |r.value| ==> r.value[k] == ToQuestion(ReplyList(content, parse).value[k])
    ensures ReplyList(content, parse).Some? && |ReplyList(content, parse).value| < QuizLength ==>
      r == Failure(NotEnoughQuestions(|ReplyList(content, parse).value|))
  {
    var parsed := parse(Trim(JsonCandidate(content)));
    if parsed.None? then Failure(InvalidJson)
    else if parsed.value.JNull? then Failure(NullPayload)
    else
      var list := Located(parsed.value);
      if !list.JArray? || |list.items| == 0 then Failure(NotAnArray)
      else if |list.items| < QuizLength then Failure(NotEnoughQuestions(|list.items|))
      else
        match CheckQuestions(list.items)
        case Some(e) => Failure(e)
        case None => Success(seq(|list.items|, k requires 0 <= k < |list.items| => ToQuestion(list.items[k])))
  }

  // ---------------------------------------------------------------------------
  // Rebalancing and the new quiz.

  /** The draws one question consumes: `Math.random() > 0.7` decides whether
      it is rebalanced, and a rebalance consumes an `OptionDraw`. */
  datatype GenerationDraw = GenerationDraw(rebalance: bool, option: OptionDraw)

  predicate ValidGenerationDraws(draws: seq<GenerationDraw>) {
    |draws| == QuizLength && forall k :: 0 <= k < |draws| ==> ValidOptionDraw(draws[k].option)
  }

  /** `r` is what generation makes of `q` under draw `d`. */
  predicate RebalancedFrom(r: ValidQuestion, q: ValidQuestion, d: GenerationDraw) {
    if d.rebalance then Reshuffled(r, q, d.option.slot) else r == q
  }

  /** `questions.slice(0, 10).map(...)`: keeps the first ten questions and
      rebalances the ones whose draw says so. */
  method FinalQuestions(qs: seq<ValidQuestion>, draws: seq<GenerationDraw>) returns (final: seq<ValidQuestion>)
    requires |qs| >= QuizLength && ValidGenerationDraws(draws)
    ensures |final| == QuizLength
    ensures forall k :: 0 <= k < QuizLength ==> RebalancedFrom(final[k], qs[k], draws[k])
  {
    final := [];
    var k := 0;
    while k < QuizLength
      invariant 0 <= k <= QuizLength && |final| == k
      invariant forall i :: 0 <= i < k ==> RebalancedFrom(final[i], qs[i], draws[i])
    {
      var q := qs[k];
      if draws[k].rebalance {
        q := Rebalance(qs[k], draws[k].option);
        assert Reshuffled(q, qs[k], draws[k].option.slot);
      }
      final := final + [q];
      k := k + 1;
    }
  }

  /** The state a successful generation stores: the questions, no progress. */
  predicate FreshAttempt(s: QuizState, language: Language) {
    && |s.questions| == QuizLength
    && s.currentQuestion == 0 && s.correctAnswers == 0 && !s.completed
    && s.language == language
  }

  /** Generation yields a quiz: there is lecture text, the service replies
      with non-empty content, and that content parses to an accepted list. */
  predicate Succeeds(content: string, transcript: string, language: Language,
                     service: GenerationRequest -> ServiceOutcome, parse: JsonParser)
  {
    && PrepareRequest(content, transcript, language).Success?
    && service(PrepareRequest(content, transcript, language).value).Replied?
    && service(PrepareRequest(content, transcript, language).value).content != ""
    && ParseReply(service(PrepareRequest(content, transcript, language).value).content, parse).Success?
  }

  /** The accepted questions of a successful generation, before rebalancing. */
  function AcceptedQuestions(content: string, transcript: string, language: Language,
                             service: GenerationRequest -> ServiceOutcome, parse: JsonParser): seq<ValidQuestion>
    requires Succeeds(content, transcript, language, service, parse)
  {
    ParseReply(service(PrepareRequest(content, transcript, language).value).content, parse).value
  }

  /** The pure part of `generateTest`: everything between the button press and
      the storage write. */
  method Generate(content: string, transcript: string, language: Language,
                  service: GenerationRequest -> ServiceOutcome, parse: JsonParser,
                  draws: seq<GenerationDraw>)
    returns (r: Result<QuizState, GenError>)
    requires ValidGenerationDraws(draws)
    ensures content == "" && transcript == "" ==> r == Failure(NoLectureContent)
    ensures r.Success? <==> Succeeds(content, transcript, language, service, parse)
    ensures r.Success? ==>
      && FreshAttempt(r.value, language)
      && var parsed := AcceptedQuestions(content, transcript, language, service, parse);
         forall k :: 0 <= k < QuizLength ==> RebalancedFrom(r.value.questions[k], parsed[k], draws[k])
  {
    var request := PrepareRequest(content, transcript, language);
    if request.Failure? {
      return Failure(request.error);
    }
    var reply := service(request.value);
    match reply {
      case TimedOut => return Failure(RequestTimedOut);
      case CallFailed => return Failure(ServiceFailed);
      case Replied(text) =>
        if text == "" {
          return Failure(NoResponse);
        }
        var questions := ParseReply(text, parse);
        if questions.Failure? {
          return Failure(questions.error);
        }
        var final := FinalQuestions(questions.value, draws);
        r := Success(QuizState(final, 0, 0, false, language));
    }
  }

  /** The generator widget of one lecture. */
  class TestGeneratorWidget {
    const lectureId: string
    const store: LocalStorage
    var language: Language
    var error: Option<GenError>
    var generating: bool

    constructor (lectureId: string, store: LocalStorage)
      ensures this.lectureId == lectureId && this.store == store
      ensures language == En && error == None && !generating
    {
      this.lectureId := lectureId;
      this.store := store;
      language := En;
      error := None;
      generating := false;
    }

    /** The language buttons. */
    method SetLanguage(l: Language)
      modifies this
      ensures language == l && error == old(error) && generating == old(generating)
    {
      language := l;
    }

    /** `generateTest`: on success the quiz replaces whatever was stored for the
        lecture and `onTestGenerated` fires (`generated`); on failure the error
        is shown and storage is untouched. */
    method GenerateTest(content: string, transcript: string,
                        service: GenerationRequest -> ServiceOutcome, parse: JsonParser,
                        draws: seq<GenerationDraw>)
      returns (generated: bool)
      requires ValidGenerationDraws(draws)
      modifies this, store
      ensures !generating && language == old(language)
      ensures content == "" && transcript == "" ==> !generated && error == Some(NoLectureContent)
      ensures generated <==> error.None?
      ensures generated <==> Succeeds(content, transcript, language, service, parse)
      ensures !generated ==> store.entries == old(store.entries)
      ensures generated ==>
        && TestKey(lectureId) in store.entries
        && store.entries == old(store.entries)[TestKey(lectureId) := store.entries[TestKey(lectureId)]]
        && store.entries[TestKey(lectureId)].QuizEntry?
        && FreshAttempt(store.entries[TestKey(lectureId)].state, language)
        && var parsed := AcceptedQuestions(content, transcript, language, service, parse);
           forall k :: 0 <= k < QuizLength ==>
             RebalancedFrom(store.entries[TestKey(lectureId)].state.questions[k], parsed[k], draws[k])
    {
      generating := true;
      error := None;
      var r := Generate(content, transcript, language, service, parse, draws);
      if r.Success? {
        store.SetItem(TestKey(lectureId), QuizEntry(r.value));
        generated := true;
      } else {
        error := Some(r.error);
        generated := false;
      }
      generating := false;
    }
  }
}
