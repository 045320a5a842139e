/** Authoring rules of one question (server/internal/quiz/validate.go), and what a question that
    passes them guarantees to grading. */
module Validation {
  import opened Common
  import opened Json
  import opened Grading

  const MAX_POINTS := 1000.0
  const MAX_TOPIC_LENGTH := 60

  /** A create or update body; None stands for a field the client left out. */
  datatype QuestionInput = QuestionInput(kind: string, body: Option<Value>, options: Option<Value>,
                                         correct: Option<Value>, points: Option<real>,
                                         penalty: Option<real>, topic: Option<string>)

  /** The normalised values the input carries on to the database. */
  datatype Normalized = Normalized(points: Option<real>, penalty: Option<real>, topic: Option<string>)

  datatype Choice = Choice(key: string, text: string)

  type Fields = map<string, string>

  // ----- White space -----

  predicate IsSpace(c: char) {
    var n := c as int;
    || 9 <= n <= 13 || n == 32 || n == 0x85 || n == 0xA0 || n == 0x1680 || 0x2000 <= n <= 0x200A
    || n == 0x2028 || n == 0x2029 || n == 0x202F || n == 0x205F || n == 0x3000
  }

  predicate Blank(s: string) {
    forall c | c in s :: IsSpace(c)
  }

  function Trim(s: string): (t: string)
    ensures t == "" <==> Blank(s)
    ensures t != "" ==> !IsSpace(t[0]) && !IsSpace(t[|t| - 1])
    ensures |t| <= |s|
  {
    if s == "" then ""
    else if IsSpace(s[0]) then
      assert s == [s[0]] + s[1..];
      Trim(s[1..])
    else if IsSpace(s[|s| - 1]) then
      assert s[0] in s && s[0] in s[..|s| - 1];
      Trim(s[..|s| - 1])
    else
      assert s[0] in s;
      s
  }

  // ----- Decodings -----

  function BodyText(v: Value): Option<string> {
    match v
    case Object(fields) =>
      if StringField(fields, "image_ref").Some? then StringField(fields, "text") else None
    case Null => Some("")
    case _ => None
  }

  function AsChoice(v: Value): Option<Choice> {
    match v
    case Object(fields) =>
      (match (StringField(fields, "key"), StringField(fields, "text"))
       case (Some(key), Some(text)) => Some(Choice(key, text))
       case _ => None)
    case Null => Some(Choice("", ""))
    case _ => None
  }

  function Choices(items: seq<Value>): Option<seq<Choice>> {
    if items == [] then Some([])
    else
      match (AsChoice(items[0]), Choices(items[1..]))
      case (Some(c), Some(rest)) => Some([c] + rest)
      case _ => None
  }

  function AsChoices(v: Value): Option<seq<Choice>> {
    match v
    case List(items) => Choices(items)
    case Null => Some([])
    case _ => None
  }

  // ----- The rules, field by field -----

  predicate BodyOk(input: QuestionInput) {
    input.body.Some? && BodyText(input.body.value).Some? && !Blank(BodyText(input.body.value).value)
  }

  predicate TopicOk(input: QuestionInput) {
    input.topic.Some? ==> |Trim(input.topic.value)| <= MAX_TOPIC_LENGTH
  }

  predicate PointsOk(input: QuestionInput) {
    input.points.Some? ==> 0.0 < input.points.value <= MAX_POINTS
  }

  predicate PenaltyOk(input: QuestionInput) {
    input.penalty.Some? ==> 0.0 <= input.penalty.value <= MAX_POINTS
  }

  predicate DistinctChoices(cs: seq<Choice>) {
    && (forall i | 0 <= i < |cs| :: !Blank(cs[i].key) && !Blank(cs[i].text))
    && (forall i, j | 0 <= i < j < |cs| :: cs[i].key != cs[j].key)
  }

  predicate ChoicesOk(options: Option<Value>) {
    && options.Some? && AsChoices(options.value).Some?
    && 2 <= |AsChoices(options.value).value| <= 8
    && DistinctChoices(AsChoices(options.value).value)
  }

  function ChoiceKeys(cs: seq<Choice>): set<string> {
    set i | 0 <= i < |cs| :: cs[i].key
  }

  predicate SingleKeyOk(correct: Option<Value>, keys: set<string>) {
    correct.Some? && AsString(correct.value).Some? && AsString(correct.value).value in keys
  }

  predicate MultiKeyOk(correct: Option<Value>, keys: set<string>) {
    && correct.Some? && AsStrings(correct.value).Some?
    && AsStrings(correct.value).value != []
    && Distinct(AsStrings(correct.value).value)
    && Elements(AsStrings(correct.value).value) <= keys
  }

  predicate AbsentOrNull(options: Option<Value>) {
    options.None? || options.value.Null?
  }

  predicate OptionsOk(input: QuestionInput) {
    match ParseKind(input.kind)
    case Some(Single) => ChoicesOk(input.options)
    case Some(Multi) => ChoicesOk(input.options)
    case Some(_) => AbsentOrNull(input.options)
    case None => true
  }

  predicate AcceptedKeyOk(correct: Option<Value>) {
    && correct.Some? && AsStringListField(correct.value, "accepted").Some?
    && var accepted := AsStringListField(correct.value, "accepted").value;
       accepted != [] && forall a | a in accepted :: !Blank(a)
  }

  predicate CorrectOk(input: QuestionInput) {
    match ParseKind(input.kind)
    case Some(Single) =>
      ChoicesOk(input.options) ==>
        SingleKeyOk(input.correct, ChoiceKeys(AsChoices(input.options.value).value))
    case Some(Multi) =>
      ChoicesOk(input.options) ==>
        MultiKeyOk(input.correct, ChoiceKeys(AsChoices(input.options.value).value))
    case Some(TrueFalse) => input.correct.Some? && AsBool(input.correct.value).Some?
    case Some(Short) => AcceptedKeyOk(input.correct)
    case None => true
  }

  function ParseKind(kind: string): Option<Kind> {
    if kind == "single" then Some(Single)
    else if kind == "multi" then Some(Multi)
    else if kind == "truefalse" then Some(TrueFalse)
    else if kind == "short" then Some(Short)
    else None
  }

  function Broken(field: string, ok: bool): set<string> {
    if ok then {} else {field}
  }

  function KeyProblems(input: QuestionInput): set<string> {
    Broken("options", OptionsOk(input)) + Broken("correct", CorrectOk(input)) +
    Broken("type", ParseKind(input.kind).Some?)
  }

  /** The fields the 422 answer must name: each one exactly when its own rule is broken. */
  function BrokenFields(input: QuestionInput): set<string> {
    Broken("body", BodyOk(input)) + Broken("topic", TopicOk(input)) +
    Broken("points", PointsOk(input)) + Broken("penalty", PenaltyOk(input)) + KeyProblems(input)
  }

  predicate Acceptable(input: QuestionInput) {
    BrokenFields(input) == {}
  }

  // ----- The checks as the server runs them -----

  method ValidateOptions(options: Option<Value>, fields: Fields) returns (fields': Fields, keys: set<string>)
    requires "options" !in fields
    ensures fields'.Keys == fields.Keys + Broken("options", ChoicesOk(options))
    ensures ChoicesOk(options) ==> keys == ChoiceKeys(AsChoices(options.value).value)
  {
    fields', keys := fields, {};
    if options.None? || AsChoices(options.value).None? {
      fields' := fields["options" := "must be an array like [{\"key\": \"a\", \"text\": \"...\"}]"];
      return;
    }
    var opts := AsChoices(options.value).value;
    if |opts| < 2 || |opts| > 8 {
      fields' := fields["options" := "choice questions need between 2 and 8 options"];
      return;
    }
    for i := 0 to |opts|
      invariant keys == ChoiceKeys(opts[..i])
      invariant DistinctChoices(opts[..i])
    {
      if Blank(opts[i].key) || Blank(opts[i].text) {
        fields' := fields["options" := "every option needs a key and a text"];
        return;
      }
      if opts[i].key in keys {
        fields' := fields["options" := "option keys must be unique"];
        return;
      }
      keys := keys + {opts[i].key};
      assert opts[..i + 1] == opts[..i] + [opts[i]];
    }
    assert opts[..|opts|] == opts;
  }

  method ValidateChoiceCorrect(kind: Kind, correct: Option<Value>, keys: set<string>, fields: Fields)
    returns (fields': Fields)
    requires kind.Single? || kind.Multi?
    ensures fields'.Keys == fields.Keys +
                            Broken("correct", if kind.Single? then SingleKeyOk(correct, keys)
                                              else MultiKeyOk(correct, keys))
  {
    fields' := fields;
    if kind.Single? {
      if correct.None? || AsString(correct.value).None? || AsString(correct.value).value !in keys {
        fields' := fields["correct" := "must be the key of one of the options"];
      }
      return;
    }
    if correct.None? || AsStrings(correct.value).None? || |AsStrings(correct.value).value| == 0 {
      fields' := fields["correct" := "must be a non-empty array of option keys"];
      return;
    }
    var list := AsStrings(correct.value).value;
    var seen: set<string> := {};
    for i := 0 to |list|
      invariant seen == Elements(list[..i]) && Distinct(list[..i]) && seen <= keys
    {
      if list[i] !in keys || list[i] in seen {
        assert list[i] in Elements(list);
        fields' := fields["correct" := "every entry must be a distinct option key"];
        return;
      }
      assert list[..i + 1] == list[..i] + [list[i]];
      seen := seen + {list[i]};
    }
    assert list[..|list|] == list;
  }

  method ValidateAccepted(correct: Option<Value>, fields: Fields) returns (fields': Fields)
    ensures fields'.Keys ==
            fields.Keys + Broken("correct", AcceptedKeyOk(correct))
  {
    fields' := fields;
    if || correct.None? || AsStringListField(correct.value, "accepted").None?
       || |AsStringListField(correct.value, "accepted").value| == 0 {
      fields' := fields["correct" := "must be {\"accepted\": [\"...\"]} with at least one answer"];
      return;
    }
    var accepted := AsStringListField(correct.value, "accepted").value;
    for i := 0 to |accepted|
      invariant forall a | a in accepted[..i] :: !Blank(a)
    {
      if Blank(accepted[i]) {
        fields' := fields["correct" := "accepted answers must not be empty"];
        return;
      }
      assert accepted[..i + 1] == accepted[..i] + [accepted[i]];
    }
    assert accepted[..|accepted|] == accepted;
  }

  method ValidateBody(input: QuestionInput, fields: Fields) returns (fields': Fields)
    ensures fields'.Keys == fields.Keys + Broken("body", BodyOk(input))
  {
    fields' := fields;
    if input.body.None? || BodyText(input.body.value).None? {
      fields' := fields["body" := "must be an object like {\"text\": \"...\"}"];
    } else if Trim(BodyText(input.body.value).value) == "" {
      fields' := fields["body" := "text is required"];
    }
  }

  /** The tag as it is stored: trimmed, and none when blank or too long. */
  function NormalTopic(input: QuestionInput): Option<string> {
    if input.topic.None? || Blank(input.topic.value) || !TopicOk(input) then None else Some(Trim(input.topic.value))
  }

  method ValidateTopic(input: QuestionInput, fields: Fields) returns (fields': Fields, topic: Option<string>)
    ensures fields'.Keys == fields.Keys + Broken("topic", TopicOk(input))
    ensures topic == NormalTopic(input)
  {
    fields', topic := fields, None;
    if input.topic.Some? {
      var trimmed := Trim(input.topic.value);
      if trimmed == "" {
      } else if |trimmed| > MAX_TOPIC_LENGTH {
        fields' := fields["topic" := "must be at most 60 characters"];
      } else {
        topic := Some(trimmed);
      }
    }
  }

  method ValidatePoints(input: QuestionInput, fields: Fields) returns (fields': Fields, points: Option<real>)
    ensures fields'.Keys == fields.Keys + Broken("points", PointsOk(input))
    ensures points == if PointsOk(input) then input.points else None
  {
    fields', points := fields, None;
    if input.points.Some? {
      if input.points.value <= 0.0 {
        fields' := fields["points" := "must be greater than zero"];
      } else if input.points.value > MAX_POINTS {
        fields' := fields["points" := "must be at most 1000"];
      } else {
        points := input.points;
      }
    }
  }

  method ValidatePenalty(input: QuestionInput, fields: Fields) returns (fields': Fields, penalty: Option<real>)
    ensures fields'.Keys == fields.Keys + Broken("penalty", PenaltyOk(input))
    ensures penalty == if PenaltyOk(input) then input.penalty else None
  {
    fields', penalty := fields, None;
    if input.penalty.Some? {
      if input.penalty.value < 0.0 {
        fields' := fields["penalty" := "must be zero or more"];
      } else if input.penalty.value > MAX_POINTS {
        fields' := fields["penalty" := "must be at most 1000"];
      } else {
        penalty := input.penalty;
      }
    }
  }

  /** The switch on the question type: which options and which key it takes. */
  method ValidateKey(input: QuestionInput, fields: Fields) returns (fields': Fields)
    requires "options" !in fields
    ensures fields'.Keys == fields.Keys + KeyProblems(input)
  {
    fields' := fields;
    match ParseKind(input.kind)
    case Some(kind) =>
      if kind.Single? || kind.Multi? {
        var keys;
        fields', keys := ValidateOptions(input.options, fields);
        if "options" !in fields' {
          fields' := ValidateChoiceCorrect(kind, input.correct, keys, fields');
        }
        return;
      }
      if input.options.Some? && !input.options.value.Null? {
        fields' := fields["options" := if kind.Short? then "short-answer questions take no options"
                                       else "true/false questions take no options"];
      }
      if kind.Short? {
        fields' := ValidateAccepted(input.correct, fields');
      } else if input.correct.None? || AsBool(input.correct.value).None? {
        fields' := fields'["correct" := "must be true or false"];
      }
    case None =>
      fields' := fields["type" := "must be single, multi, truefalse, or short"];
  }

  method Validate(input: QuestionInput) returns (fields: Fields, norm: Normalized)
    ensures fields.Keys == BrokenFields(input)
    ensures norm.points == (if PointsOk(input) then input.points else None)
    ensures norm.penalty == (if PenaltyOk(input) then input.penalty else None)
    ensures norm.topic == NormalTopic(input)
    ensures norm.topic.Some? ==> !Blank(norm.topic.value)
  {
    fields := ValidateBody(input, map[]);
    var topic, points, penalty;
    fields, topic := ValidateTopic(input, fields);
    fields, points := ValidatePoints(input, fields);
    fields, penalty := ValidatePenalty(input, fields);
    norm := Normalized(points, penalty, topic);
    fields := ValidateKey(input, fields);
    if topic.Some? {
      TrimmedIsNotBlank(input.topic.value);
    }
  }

  lemma TrimmedIsNotBlank(s: string)
    ensures Trim(s) != "" ==> !Blank(Trim(s))
  {
    if Trim(s) != "" {
      assert Trim(s)[0] in Trim(s);
    }
  }

  // ----- From an accepted question to a full score -----

  /** The snapshot question publish makes of an accepted input. */
  function Snapshotted(id: QuestionId, input: QuestionInput, defaultPoints: real, defaultPenalty: real): Question
    requires Acceptable(input)
  {
    Question(id, ParseKind(input.kind).value, input.correct.value,
             input.points.GetOr(defaultPoints), input.penalty.GetOr(defaultPenalty))
  }

  /** A response that decodes to what the key holds: the same option, the same set of options,
      the same truth value, or one of the accepted texts. */
  predicate RestatesKey(kind: Kind, key: Value, response: Value) {
    match kind
    case Single => AsString(response).Some? && AsString(response) == AsString(key)
    case Multi =>
      && AsStrings(response).Some? && AsStrings(key).Some?
      && Elements(AsStrings(response).value) == Elements(AsStrings(key).value)
    case TrueFalse => AsBool(response).Some? && AsBool(response) == AsBool(key)
    case Short =>
      && AsString(response).Some? && AsStringListField(key, "accepted").Some?
      && AsString(response).value in AsStringListField(key, "accepted").value
  }

  /** An accepted question grades every restatement of its key correct; for the choice and
      true/false types it grades nothing else correct. */
  lemma AcceptedKeyGrades(rules: TextRules, id: QuestionId, input: QuestionInput,
                          points: real, penalty: real, response: Value)
    requires Acceptable(input)
    ensures var q := Snapshotted(id, input, points, penalty);
            && (RestatesKey(q.kind, q.correct, response) ==> IsCorrect(rules, q, response))
            && (!q.kind.Short? && IsCorrect(rules, q, response) ==> RestatesKey(q.kind, q.correct, response))
  {
    var q := Snapshotted(id, input, points, penalty);
    match q.kind
    case Single =>
    case TrueFalse =>
    case Multi =>
      if AsStrings(response).Some? {
        SelectsKeysIsSetEquality(AsStrings(response).value, AsStrings(q.correct).value);
      }
    case Short =>
      if RestatesKey(q.kind, q.correct, response) {
        var text := AsString(response).value;
        assert ShortMatches(rules, text, text);
      }
  }

  /** A published question set built from accepted inputs can be answered for the full sum of points. */
  lemma {:induction false} AcceptedSetCanScoreFull(rules: TextRules, inputs: seq<QuestionInput>, qs: seq<Question>,
                                points: real, penalty: real, answers: Answers)
    requires |qs| == |inputs| && points > 0.0 && penalty >= 0.0
    requires forall i | 0 <= i < |qs| ::
               Acceptable(inputs[i]) && qs[i] == Snapshotted(qs[i].id, inputs[i], points, penalty)
    requires forall i | 0 <= i < |qs| ::
               Answered(qs[i], answers) &&
               RestatesKey(qs[i].kind, qs[i].correct, answers[qs[i].id].response.value)
    ensures Score(rules, qs, answers) == MaxScore(qs)
  {
    forall q | q in qs
      ensures q.points >= 0.0 && q.penalty >= 0.0
      ensures Answered(q, answers) && IsCorrect(rules, q, answers[q.id].response.value)
    {
      var i :| 0 <= i < |qs| && qs[i] == q;
      AcceptedKeyGrades(rules, q.id, inputs[i], points, penalty, answers[q.id].response.value);
    }
    AllCorrectEarnsEverything(rules, qs, answers);
  }
}
