/** The page and the handler together: the request the page posts reaches
    `lambda_handler`, whose reply comes back to the page as the outcome of its
    `fetch`. */
module EndToEnd {
  import opened Results
  import opened Text
  import opened Json
  import opened AgentClient
  import opened TurnController
  import opened LambdaHandler

  /** The document the page's `JSON.stringify({prompt, sessionId})` encodes. */
  function RequestDocument(req: Request): Json {
    JObj(map["prompt" := JStr(req.prompt), "sessionId" := JStr(req.sessionId)])
  }

  /** The handler's reply as the page's `fetch` sees it. */
  function AsOutcome(response: Response): Outcome
    requires response.statusCode >= 0
  {
    Received(response.statusCode, Parsed(response.body))
  }

  /** A request the page posts (its prompt is never empty, by
      `TurnController.BeginSend`) is never refused by the handler for a
      missing prompt: the agent is invoked with the page's prompt and session
      id, and a successful reply echoes that session id. */
  lemma HandlerAcceptsPageRequest(req: Request, event: map<string, Json>, entropy: seq<Byte>,
                                  py: Python, invoke: Invocation -> AgentReply)
    requires req.prompt != [] && |entropy| == 16
    requires BodyDocument(event, py) == Ok(RequestDocument(req))
    ensures var run := Handle(event, entropy, py, invoke);
            && run.response.statusCode != 400
            && run.invoked == Some(Invocation(JStr(req.sessionId), JObj(map["prompt" := JStr(req.prompt)])))
            && (run.response.statusCode == 200 ==>
                  run.response.body.fields["sessionId"] == JStr(req.sessionId))
  {
    var fields := RequestDocument(req).fields;
    assert "prompt" in fields && fields["prompt"] == JStr(req.prompt);
    assert "sessionId" in fields && fields["sessionId"] == JStr(req.sessionId);
    assert PyTruthy(fields["prompt"]);
  }

  /** What the page shows for the handler's reply: the agent's string reply
      unescaped, only the HTTP status for the 400 and 500 replies, and the
      engine's TypeError for a reply that is not a string. */
  lemma PageShowsHandlerReply(run: Run, py: Python, text: string, typeError: TypeFault -> string)
    requires run.response.statusCode == 200 || run.response.statusCode == 400
             || run.response.statusCode == 500
    requires run.response.statusCode == 200 ==>
               exists sid :: run.response.body == JObj(map["response" := ReplyFrom(text, py), "sessionId" := sid])
    ensures var shown := AssistantText(CallAgent(AsOutcome(run.response), typeError));
            && (run.response.statusCode != 200 ==>
                  shown == ErrorPrefix + ContactPrefix + HttpErrorMessage(run.response.statusCode))
            && (run.response.statusCode == 200 && ReplyFrom(text, py).JStr? ==>
                  shown == DisplayReply(ReplyFrom(text, py).s))
            && (run.response.statusCode == 200 && !ReplyFrom(text, py).JStr? ==>
                  shown == ErrorPrefix + ContactPrefix + typeError(NoReplace(Some(ReplyFrom(text, py)))))
  {
    ReplyTurn(AsOutcome(run.response), typeError);
    if run.response.statusCode == 200 {
      var body := run.response.body;
      assert Member(body, "error") == None;
      assert Member(body, "response") == Some(ReplyFrom(text, py));
    }
  }
}
