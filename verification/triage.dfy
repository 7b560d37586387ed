/**
 * The decision procedure of the triage route (`/triage`): reject blank
 * input, short-circuit on a red-flag phrase, otherwise classify with a
 * language model whose outcome is an input here, falling back to a moderate
 * answer when the model fails, and normalising what it returns.
 */
module Triage {
  import opened Wrappers
  import opened Text

  /** Phrases that mark an emergency, scanned in this order. */
  const RedFlags: seq<string> := [
    "difficulty breathing", "shortness of breath", "chest pain", "severe bleeding",
    "unconscious", "fainting", "sudden weakness", "slurred speech", "confused",
    "loss of consciousness", "severe allergic reaction", "unable to wake"]

  const Emergency: string := "EMERGENCY"
  const Moderate: string := "MODERATE"
  const Low: string := "LOW"

  /** The urgencies an assessment may carry. */
  predicate KnownUrgency(u: string) {
    u == Emergency || u == Moderate || u == Low
  }

  const NoText: string := "no text provided"
  const FallbackActions: seq<string> := ["pharmacy", "consult_doctor"]
  const UnavailableNote: string := "Triage unavailable; please seek care if symptoms worsen."
  const UnparsedNote: string := "Could not parse model output. Please consult a healthcare provider if concerned."

  /** The first of `flags`, in order, that occurs in `t`. */
  function FirstFlagIn(t: string, flags: seq<string>): (r: Option<string>)
    ensures r.None? <==> forall i | 0 <= i < |flags| :: !Contains(t, flags[i])
    ensures r.Some? ==> exists i | 0 <= i < |flags| ::
      flags[i] == r.value && Contains(t, flags[i]) && forall j | 0 <= j < i :: !Contains(t, flags[j])
    decreases |flags|
  {
    if flags == [] then None
    else if Contains(t, flags[0]) then Some(flags[0])
    else
      var r := FirstFlagIn(t, flags[1..]);
      assert forall i | 1 <= i < |flags| :: flags[i] == flags[1..][i - 1];
      r
  }

  /** `has_red_flag`: `Some(f)` stands for `(True, f)` and `None` for
      `(False, None)`. The scan is on the lower-cased text. */
  function HasRedFlag(text: string): Option<string> {
    FirstFlagIn(Lower(text), RedFlags)
  }

  /** The red-flag scan reports the first flag of the list, in list order, that
      occurs in the lower-cased text, and reports none exactly when no flag occurs. */
  lemma RedFlagScan(text: string)
    ensures HasRedFlag(text).None? <==> forall i | 0 <= i < |RedFlags| :: !Contains(Lower(text), RedFlags[i])
    ensures HasRedFlag(text).Some? ==> exists i | 0 <= i < |RedFlags| ::
      RedFlags[i] == HasRedFlag(text).value && Contains(Lower(text), RedFlags[i]) && forall j | 0 <= j < i :: !Contains(Lower(text), RedFlags[j])
  {
  }

  /** The `urgency` field of the model's JSON object. */
  datatype UrgencyField = UrgencyAbsent | UrgencyText(text: string) | UrgencyNotText

  /** A list-valued field of the model's JSON object: absent, a list (its items
      as JSON text), or any other value with its Python `str()` rendering. */
  datatype ListField = ListAbsent | ListValue(items: seq<string>) | NotList(shown: string)

  /** The fields of the model's JSON object. The reply passes `explanation`
      through unchanged; it is held as the value's JSON text, whatever JSON
      type the value has, and is `None` when the field is absent. */
  datatype ModelAnswer = ModelAnswer(urgency: UrgencyField, conditions: ListField, actions: ListField, explanation: Option<string>)

  /** How the model call ended: it raised; its text held no JSON, or JSON that
      Python finds falsy (such as `{}`); it held a truthy JSON value that is not an
      object; or it held an object. */
  datatype ModelOutcome = CallFailed | Unparseable | NotAnObject | Parsed(answer: ModelAnswer)

  /** The route's reply: a 400 rejection, a 500 from an exception the route
      does not catch, or an assessment. */
  datatype TriageResponse =
    | Rejected(error: string)
    | ServerError
    | Assessment(urgency: string, possibleConditions: seq<string>, recommendedActions: seq<string>, explanation: string)

  /** The reply and the texts sent to the model (at most one). */
  datatype TriageOutcome = TriageOutcome(response: TriageResponse, prompts: seq<string>)

  /** `parsed.get("urgency", "MODERATE").upper()`, replaced by "MODERATE" when
      unknown; `None` when `.upper()` raises on a value that is not text. */
  function NormalizeUrgency(f: UrgencyField): (r: Option<string>)
    ensures r.None? <==> f.UrgencyNotText?
    ensures r.Some? ==> KnownUrgency(r.value)
    ensures f.UrgencyText? && KnownUrgency(Upper(f.text)) ==> r == Some(Upper(f.text))
    ensures f.UrgencyText? && !KnownUrgency(Upper(f.text)) ==> r == Some(Moderate)
    ensures f.UrgencyAbsent? ==> r == Some(Moderate)
  {
    match f
    case UrgencyAbsent => Some(Moderate)
    case UrgencyNotText => None
    case UrgencyText(s) =>
      var u := Upper(s);
      if KnownUrgency(u) then Some(u) else Some(Moderate)
  }

  /** A list field as the reply carries it: a list unchanged, anything else
      wrapped as a one-element list of its text, an absent field empty. */
  function NormalizeList(f: ListField): (r: seq<string>)
    ensures f.ListValue? ==> r == f.items
    ensures f.NotList? ==> r == [f.shown]
    ensures f.ListAbsent? ==> r == []
  {
    match f
    case ListAbsent => []
    case ListValue(items) => items
    case NotList(shown) => [shown]
  }

  /** The reply built from the model's outcome (steps 2 to 4 of the route). */
  function Assess(outcome: ModelOutcome): (r: TriageResponse)
    ensures !r.Rejected?
    ensures r.Assessment? ==> KnownUrgency(r.urgency)
    ensures outcome.CallFailed? || outcome.Unparseable? ==>
      r.Assessment? && r.urgency == Moderate && r.possibleConditions == [] && r.recommendedActions == FallbackActions
    ensures outcome.CallFailed? ==> r.explanation == UnavailableNote
    ensures outcome.Unparseable? ==> r.explanation == UnparsedNote
    ensures r.ServerError? <==> outcome.NotAnObject? || (outcome.Parsed? && outcome.answer.urgency.UrgencyNotText?)
    ensures outcome.Parsed? && !outcome.answer.urgency.UrgencyNotText? ==>
      var a := outcome.answer;
      r == Assessment(NormalizeUrgency(a.urgency).value, NormalizeList(a.conditions), NormalizeList(a.actions), a.explanation.GetOr(""))
  {
    match outcome
    case CallFailed => Assessment(Moderate, [], FallbackActions, UnavailableNote)
    case Unparseable => Assessment(Moderate, [], FallbackActions, UnparsedNote)
    case NotAnObject => ServerError
    case Parsed(answer) =>
      match NormalizeUrgency(answer.urgency)
      case None => ServerError
      case Some(u) =>
        Assessment(u, NormalizeList(answer.conditions), NormalizeList(answer.actions), answer.explanation.GetOr(""))
  }

  /** The explanation of an emergency reply; it names the flag. */
  function RedFlagNote(flag: string): (r: string)
    ensures Contains(r, flag)
  {
    var prefix := "Immediate red-flag detected: ";
    var r := prefix + flag + ". Call emergency services.";
    assert OccursAt(r, flag, |prefix|) by {
      assert r[|prefix|..|prefix| + |flag|] == flag;
    }
    r
  }

  /** The `/triage` route on the request's `text` (empty when absent). */
  function Triage(text: string, outcome: ModelOutcome): (r: TriageOutcome)
    ensures r.response.Rejected? <==> Blank(text)
    ensures r.response.Rejected? ==> r.response.error == NoText
    ensures r.response.Assessment? ==> KnownUrgency(r.response.urgency)
    ensures r.prompts == [] || r.prompts == [Strip(text)]
    ensures r.prompts == [] <==> Blank(text) || HasRedFlag(Strip(text)).Some?
    ensures !Blank(text) && HasRedFlag(Strip(text)).None? ==> r.response == Assess(outcome)
  {
    var t := Strip(text);
    if t == [] then TriageOutcome(Rejected(NoText), [])
    else
      match HasRedFlag(t)
      case Some(flag) =>
        TriageOutcome(Assessment(Emergency, [], ["emergency"], RedFlagNote(flag)), [])
      case None => TriageOutcome(Assess(outcome), [t])
  }

  // ---------------------------------------------------------------------------
  // Properties

  /** Blank text is rejected before the red-flag scan and without consulting
      the model: the outcome of the model plays no part. */
  lemma BlankRejectedFirst(text: string, outcome: ModelOutcome, other: ModelOutcome)
    requires Blank(text)
    ensures Triage(text, outcome) == Triage(text, other) == TriageOutcome(Rejected(NoText), [])
  {
  }

  /** A red flag short-circuits the model: an emergency with the single action
      "emergency", no conditions, and an explanation naming the flag. */
  lemma RedFlagIsEmergency(text: string, outcome: ModelOutcome, other: ModelOutcome)
    requires !Blank(text) && HasRedFlag(Strip(text)).Some?
    ensures var r := Triage(text, outcome);
      var flag := HasRedFlag(Strip(text)).value;
      && r == Triage(text, other)
      && r.prompts == []
      && r.response.Assessment?
      && r.response.urgency == Emergency
      && r.response.possibleConditions == []
      && r.response.recommendedActions == ["emergency"]
      && Contains(r.response.explanation, flag)
      && flag in RedFlags
  {
    var flag := HasRedFlag(Strip(text)).value;
    RedFlagScan(Strip(text));
  }

  /** Without a red flag the stripped text goes to the model, and a failed
      call or an unparseable answer gives the moderate fallback. */
  lemma ModelFailureIsModerate(text: string, outcome: ModelOutcome)
    requires !Blank(text) && HasRedFlag(Strip(text)).None?
    requires outcome.CallFailed? || outcome.Unparseable?
    ensures var r := Triage(text, outcome);
      && r.prompts == [Strip(text)]
      && r.response.Assessment?
      && r.response.urgency == Moderate
      && r.response.possibleConditions == []
      && r.response.recommendedActions == FallbackActions
  {
  }

  /** The urgency is case-insensitive: texts that upper-case alike normalise alike. */
  lemma UrgencyIgnoresCase(a: string, b: string)
    requires Upper(a) == Upper(b)
    ensures NormalizeUrgency(UrgencyText(a)) == NormalizeUrgency(UrgencyText(b))
  {
  }

  /** The red-flag scan matches regardless of case. */
  lemma RedFlagIgnoresCase(text: string)
    ensures HasRedFlag(text) == HasRedFlag(Lower(text))
  {
    LowerIdempotent(text);
  }
}
