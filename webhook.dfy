/**
 * What `sendToWebhook` makes of the webhook's reply (agent.js:282-306) and
 * which text `sendMessage` then stores as the assistant's message
 * (agent.js:240-253).
 */
module WebhookResponse {
  import opened Wrappers

  /** A parsed JSON value, as `response.json()` returns it. */
  datatype Json =
    | JNull
    | JBool(b: bool)
    | JNum(n: real)
    | JStr(s: string)
    | JArr(items: seq<Json>)
    | JObj(fields: map<string, Json>)

  const CouldNotGenerate: string := "I received your message but couldn't generate a proper response."
  const Processing: string := "Thank you for your message. I'm processing your request."
  const Apology: string := "Sorry, I'm having trouble connecting right now. Please try again in a moment."

  /** JavaScript truthiness of a JSON value (`undefined` is `None`). */
  predicate Truthy(v: Json) {
    match v
    case JNull => false
    case JBool(b) => b
    case JNum(n) => n != 0.0
    case JStr(s) => s != ""
    case JArr(_) => true
    case JObj(_) => true
  }

  /**
   * `v.output` on a value that is not `null`: only an object can hold the
   * property; on a boolean, number, string or array it is `undefined`.
   */
  function OutputField(v: Json): Option<Json> {
    if v.JObj? && "output" in v.fields then Some(v.fields["output"]) else None
  }

  /** `responseData[0]?.output`: `undefined` for an empty array or a `null` first item. */
  function FirstItemOutput(items: seq<Json>): Option<Json> {
    if |items| == 0 || items[0] == JNull then None else OutputField(items[0])
  }

  predicate TruthyOption(o: Option<Json>) {
    o.Some? && Truthy(o.value)
  }

  /** The only error: reading `.output` of a `null` reply throws a TypeError. */
  datatype Thrown = NullPropertyRead

  /**
   * The fallback chain: an array gives its first item's truthy `output`, an
   * object its truthy `output`, a string itself, anything else a fixed text.
   * The value is returned as it is: a truthy `output` that is not a string
   * is not converted.
   */
  function ExtractResponse(body: Json): (r: Result<Json, Thrown>)
    ensures r.Failure? <==> body == JNull
    ensures body.JArr? ==>
      r == Success(if TruthyOption(FirstItemOutput(body.items))
                   then FirstItemOutput(body.items).value else JStr(CouldNotGenerate))
    ensures body.JObj? ==>
      r == Success(if TruthyOption(OutputField(body)) then body.fields["output"] else JStr(Processing))
    ensures body.JStr? ==> r == Success(body)
    ensures body.JBool? || body.JNum? ==> r == Success(JStr(Processing))
  {
    match body
    case JArr(items) =>
      var out := FirstItemOutput(items);
      Success(if out.Some? && Truthy(out.value) then out.value else JStr(CouldNotGenerate))
    case JNull => Failure(NullPropertyRead)
    case JObj(fields) =>
      if "output" in fields && Truthy(fields["output"]) then Success(fields["output"])
      else Success(JStr(Processing))
    case JStr(_) => Success(body)                 // a string has no `output`
    case JBool(_) => Success(JStr(Processing))
    case JNum(_) => Success(JStr(Processing))
  }

  /** Every value `ExtractResponse` gives is either a string or a truthy `output` field. */
  lemma ExtractedIsStringOrTruthyOutput(body: Json)
    requires body != JNull
    ensures var v := ExtractResponse(body).value;
      v.JStr? || (Truthy(v) && (OutputField(body) == Some(v) ||
                                (body.JArr? && FirstItemOutput(body.items) == Some(v))))
  {
  }

  /** What the webhook call ended in. */
  datatype WebhookOutcome =
    | TransportError                             // `fetch` rejected
    | HttpReply(ok: bool, body: Option<Json>)    // `None`: the body is not JSON

  /**
   * The assistant text `sendMessage` stores: the extracted string, or the
   * apology when anything on the way throws (a transport error, a non-OK
   * status, a body that is not JSON, a `null` body, or an extracted value
   * that is not a string, on which `formatMessage` fails).
   */
  function ReplyText(outcome: WebhookOutcome): (r: string)
    ensures outcome.TransportError? || (outcome.HttpReply? && !outcome.ok) ==> r == Apology
    ensures (outcome.HttpReply? && outcome.ok &&
             (outcome.body.None? || ExtractResponse(outcome.body.value).Failure? ||
              !ExtractResponse(outcome.body.value).value.JStr?)) ==> r == Apology
    ensures outcome.HttpReply? && outcome.ok && outcome.body.Some? &&
            ExtractResponse(outcome.body.value).Success? &&
            ExtractResponse(outcome.body.value).value.JStr? ==>
            r == ExtractResponse(outcome.body.value).value.s
  {
    match outcome
    case TransportError => Apology
    case HttpReply(ok, body) =>
      if !ok || body.None? then Apology
      else match ExtractResponse(body.value)
        case Failure(_) => Apology
        case Success(v) => if v.JStr? then v.s else Apology
  }

  /**
   * The stored reply is one of the three fixed texts or a string the webhook
   * sent, either as the whole body or as a truthy `output`.
   */
  lemma ReplyTextOrigin(outcome: WebhookOutcome)
    ensures var r := ReplyText(outcome);
      r in {Apology, CouldNotGenerate, Processing} ||
      (outcome.HttpReply? && outcome.ok && outcome.body.Some? &&
       (outcome.body.value == JStr(r) ||
        (r != "" && (OutputField(outcome.body.value) == Some(JStr(r)) ||
                     (outcome.body.value.JArr? && FirstItemOutput(outcome.body.value.items) == Some(JStr(r)))))))
  {
  }
}
