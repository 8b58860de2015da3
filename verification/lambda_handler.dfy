/** `lambda_handler` of lambda/lambda_function.py: validate the POSTed
    prompt, pick the session id, invoke the agent runtime and pick the reply
    text out of what it returned. The agent runtime, `json.loads` and
    Python's `str()` are parameters; the handler's result is the status code
    with the document `json.dumps` serialises into the body. */
module LambdaHandler {
  import opened Results
  import opened Text
  import opened Json

  const PromptRequired: string := "El prompt es requerido"

  /** Prefix of the error message of the catch-all 500 reply. */
  const InvokePrefix: string := "Error al invocar el agente: "

  /** The members the reply is taken from, highest priority first. */
  const ReplyKeys: seq<string> := ["response", "output", "text"]

  /** What `invoke_agent_runtime` is called with: the runtime session id and
      the payload document `{"prompt": prompt}`. */
  datatype Invocation = Invocation(sessionId: Json, payload: Json)

  /** The agent's reply stream read and decoded as UTF-8, or the `str()` of
      the exception raised while invoking the agent or reading its stream. */
  datatype AgentReply = Replied(text: string) | Raised(message: string)

  /** The dictionary the handler returns: `statusCode` and the document its
      `body` is the `json.dumps` of. */
  datatype Response = Response(statusCode: int, body: Json)

  /** One call of the handler: its response and the invocation of the agent
      it made, if any. */
  datatype Run = Run(response: Response, invoked: Option<Invocation>)

  /** The Python library functions the handler uses but this model does not
      define: `json.loads` (the document, or the message of the
      JSONDecodeError) and `str()` on a decoded document. */
  datatype Python = Python(loads: string -> Result<Json>, str: Json -> string)

  /** The two facts about `json.loads` the handler's defaults depend on:
      `'{}'` decodes to an empty object and the empty string is not JSON. */
  predicate SoundLoads(py: Python) {
    py.loads("{}") == Ok(JObj(map[])) && py.loads("").Err?
  }

  function ErrorBody(message: string): Json {
    JObj(map["error" := JStr(message)])
  }

  /** The AttributeError message for calling `.get` on a decoded body that is
      not a dictionary. */
  function NoGetMessage(doc: Json): string {
    "'" + PyTypeName(doc) + "' object has no attribute 'get'"
  }

  /** `d.get(key, default)`. */
  function Get(fields: map<string, Json>, key: string, default: Json): Json {
    if key in fields then fields[key] else default
  }

  /** `json.loads(event.get('body', '{}'))`: the decoded body, or the message
      of the exception raised — json.loads's own, or the TypeError for a body
      that is not a string. */
  function BodyDocument(event: map<string, Json>, py: Python): (r: Result<Json>)
    ensures "body" !in event ==> r == py.loads("{}")
    ensures "body" in event && event["body"].JStr? ==> r == py.loads(event["body"].s)
    ensures "body" in event && !event["body"].JStr? ==>
              r == Err("the JSON object must be str, bytes or bytearray, not " + PyTypeName(event["body"]))
  {
    var raw := Get(event, "body", JStr("{}"));
    if raw.JStr? then py.loads(raw.s)
    else Err("the JSON object must be str, bytes or bytearray, not " + PyTypeName(raw))
  }

  /** `f"session-{os.urandom(16).hex()}"`: 40 characters, `session-` and 32
      lower-case hexadecimal digits that spell the 16 random bytes. */
  function DefaultSessionId(entropy: seq<Byte>): (id: string)
    requires |entropy| == 16
    ensures |id| == 40 && id[..8] == SessionPrefix
    ensures IsHexString(id[8..]) && |id[8..]| % 2 == 0 && Unhex(id[8..]) == entropy
  {
    var h := Hex(entropy);
    HexRoundTrip(entropy);
    assert (SessionPrefix + h)[8..] == h;
    SessionPrefix + h
  }

  /** The value of the first of `keys` present in `fields`, or None when none
      is: the reference reading of an `if`/`elif` chain of membership tests. */
  function FirstMember(fields: map<string, Json>, keys: seq<string>): (r: Option<Json>)
    ensures r.None? <==> forall i :: 0 <= i < |keys| ==> keys[i] !in fields
    ensures r.Some? ==> exists i :: && 0 <= i < |keys| && keys[i] in fields
                                    && r.value == fields[keys[i]]
                                    && forall j :: 0 <= j < i ==> keys[j] !in fields
  {
    if keys == [] then None
    else if keys[0] in fields then Some(fields[keys[0]])
    else
      var r := FirstMember(fields, keys[1..]);
      assert forall i :: 1 <= i < |keys| ==> keys[i] == keys[1..][i - 1];
      r
  }

  /** The inner try block: the reply value picked out of the agent's text. */
  function ReplyFrom(text: string, py: Python): (reply: Json)
    // Text that is not JSON is the reply itself, unless it is empty.
    ensures py.loads(text).Err? ==> reply == JStr(if text == [] then NoReply else text)
    // A JSON value that is not an object is stringified.
    ensures py.loads(text).Ok? && !py.loads(text).value.JObj? ==> reply == JStr(py.str(py.loads(text).value))
  {
    match py.loads(text)
    case Err(_) => JStr(if text != [] then text else NoReply)
    case Ok(doc) =>
      if !doc.JObj? then JStr(py.str(doc))
      else if "response" in doc.fields then doc.fields["response"]
      else if "output" in doc.fields then doc.fields["output"]
      else if "text" in doc.fields then doc.fields["text"]
      else JStr(py.str(doc))
  }

  /** For a JSON object reply, `response` wins over `output`, which wins over
      `text`; with none of them the whole object is stringified. */
  lemma ReplyPriority(text: string, py: Python)
    requires py.loads(text).Ok? && py.loads(text).value.JObj?
    ensures var doc := py.loads(text).value;
            ReplyFrom(text, py) == match FirstMember(doc.fields, ReplyKeys)
                                   case Some(v) => v
                                   case None => JStr(py.str(doc))
  {
    var f := py.loads(text).value.fields;
    assert ReplyKeys[1..] == ["output", "text"] && ReplyKeys[1..][1..] == ["text"];
    assert ReplyKeys[1..][1..][1..] == [];
    if "response" in f {
    } else if "output" in f {
      assert FirstMember(f, ReplyKeys) == FirstMember(f, ReplyKeys[1..]);
    } else if "text" in f {
      assert FirstMember(f, ReplyKeys) == FirstMember(f, ReplyKeys[1..][1..]);
    } else {
      assert FirstMember(f, ReplyKeys) == FirstMember(f, ReplyKeys[1..][1..][1..]);
    }
  }

  /** `lambda_handler(event, context)`. `entropy` stands for the 16 bytes of
      `os.urandom(16)` and `invoke` for the agent runtime. */
  function Handle(event: map<string, Json>, entropy: seq<Byte>, py: Python,
                  invoke: Invocation -> AgentReply): (run: Run)
    requires |entropy| == 16
    ensures run.response.statusCode == 200 || run.response.statusCode == 400
            || run.response.statusCode == 500
    // The prompt check: a missing or falsy prompt is refused before the
    // agent is invoked.
    ensures run.response.statusCode == 400 <==>
              && BodyDocument(event, py).Ok? && BodyDocument(event, py).value.JObj?
              && !PyTruthy(Get(BodyDocument(event, py).value.fields, "prompt", JStr("")))
    ensures run.response.statusCode == 400 ==>
              run.response.body == ErrorBody(PromptRequired) && run.invoked.None?
    // The agent is invoked exactly when the body is an object with a truthy
    // prompt, with that prompt and with the given session id or else the
    // generated one.
    ensures run.invoked.Some? <==>
              && BodyDocument(event, py).Ok? && BodyDocument(event, py).value.JObj?
              && "prompt" in BodyDocument(event, py).value.fields
              && PyTruthy(BodyDocument(event, py).value.fields["prompt"])
    ensures run.invoked.Some? ==>
              var fields := BodyDocument(event, py).value.fields;
              && run.invoked.value.payload == JObj(map["prompt" := fields["prompt"]])
              && ("sessionId" in fields ==> run.invoked.value.sessionId == fields["sessionId"])
              && ("sessionId" !in fields ==> run.invoked.value.sessionId == JStr(DefaultSessionId(entropy)))
    // Success echoes the session id the agent was invoked with.
    ensures run.response.statusCode == 200 <==>
              run.invoked.Some? && invoke(run.invoked.value).Replied?
    ensures run.response.statusCode == 200 ==>
              run.response.body == JObj(map["response" := ReplyFrom(invoke(run.invoked.value).text, py),
                                            "sessionId" := run.invoked.value.sessionId])
    // Every exception becomes the catch-all 500 reply.
    ensures run.response.statusCode == 500 ==>
              exists m :: run.response.body == ErrorBody(InvokePrefix + m)
  {
    match BodyDocument(event, py)
    case Err(m) => Run(Response(500, ErrorBody(InvokePrefix + m)), None)
    case Ok(doc) =>
      if !doc.JObj? then
        Run(Response(500, ErrorBody(InvokePrefix + NoGetMessage(doc))), None)
      else
        var prompt := Get(doc.fields, "prompt", JStr(""));
        var sessionId := Get(doc.fields, "sessionId", JStr(DefaultSessionId(entropy)));
        if !PyTruthy(prompt) then Run(Response(400, ErrorBody(PromptRequired)), None)
        else
          var call := Invocation(sessionId, JObj(map["prompt" := prompt]));
          match invoke(call)
          case Raised(m) => Run(Response(500, ErrorBody(InvokePrefix + m)), Some(call))
          case Replied(text) =>
            var body := JObj(map["response" := ReplyFrom(text, py), "sessionId" := sessionId]);
            Run(Response(200, body), Some(call))
  }

  /** The causes of the 500 reply, each with its message: the body's own
      decoding error, a body that is not an object, and whatever the agent
      invocation raised. */
  lemma ServerErrors(event: map<string, Json>, entropy: seq<Byte>, py: Python,
                     invoke: Invocation -> AgentReply)
    requires |entropy| == 16
    ensures var run := Handle(event, entropy, py, invoke);
            && (BodyDocument(event, py).Err? ==>
                  run.response == Response(500, ErrorBody(InvokePrefix + BodyDocument(event, py).message)))
            && (BodyDocument(event, py).Ok? && !BodyDocument(event, py).value.JObj? ==>
                  run.response == Response(500, ErrorBody(InvokePrefix + NoGetMessage(BodyDocument(event, py).value))))
            && (run.invoked.Some? && invoke(run.invoked.value).Raised? ==>
                  run.response == Response(500, ErrorBody(InvokePrefix + invoke(run.invoked.value).message)))
  {
  }

  /** An event without a body is refused with 400 and never reaches the
      agent: the default `'{}'` decodes to an object with no prompt. */
  lemma MissingBodyRefused(event: map<string, Json>, entropy: seq<Byte>, py: Python,
                           invoke: Invocation -> AgentReply)
    requires |entropy| == 16 && SoundLoads(py) && "body" !in event
    ensures Handle(event, entropy, py, invoke) == Run(Response(400, ErrorBody(PromptRequired)), None)
  {
  }

  /** An agent reply with no text at all is answered with the fallback. */
  lemma EmptyReplyFallback(py: Python)
    requires SoundLoads(py)
    ensures ReplyFrom("", py) == JStr(NoReply)
  {
  }
}
