/** The chat page of src/App.jsx as a state machine over
    `(messages, input, isLoading, sessionId)`. Every send is one sequential
    transition: the synchronous part of `handleSend` up to the `await`
    (`BeginSend`), then, once the agent call settled, the `finally` block and
    the append of the assistant turn (`FinishSend`). */
module TurnController {
  import opened Results
  import opened Text
  import opened NewlineEscape
  import opened Json
  import opened AgentClient

  datatype Role = User | Assistant

  datatype Turn = Turn(role: Role, content: string)

  datatype Chat = Chat(messages: seq<Turn>, input: string, isLoading: bool, sessionId: string)

  /** The JSON body `{prompt, sessionId}` of the POST `callAgent` sends. */
  datatype Request = Request(prompt: string, sessionId: string)

  /** What the synchronous part of `handleSend` did: nothing, or the state
      while the call is outstanding together with the request it sent. */
  datatype Start = Ignored | Started(chat: Chat, request: Request)

  /** Prefix `handleSend`'s catch block gives the assistant turn of a failed
      call. */
  const ErrorPrefix: string := "Error: "

  /** The text `crypto.randomUUID()` returns: a version-4 UUID in lower-case
      8-4-4-4-12 form, with version digit `4` and variant digit 8, 9, a or b. */
  predicate IsUuidV4(u: string) {
    && |u| == 36
    && (forall i :: 0 <= i < 36 ==>
          if i == 8 || i == 13 || i == 18 || i == 23 then u[i] == '-' else IsLowerHex(u[i]))
    && u[14] == '4'
    && (u[19] == '8' || u[19] == '9' || u[19] == 'a' || u[19] == 'b')
  }

  /** The state the page starts in. The session id is built once, from the
      UUID drawn when the component mounts, and has 44 characters. */
  function NewChat(uuid: string): (c: Chat)
    requires IsUuidV4(uuid)
    ensures c.messages == [] && c.input == [] && !c.isLoading
    ensures |c.sessionId| == 44 && c.sessionId[..8] == SessionPrefix && c.sessionId[8..] == uuid
  {
    Chat([], [], false, SessionPrefix + uuid)
  }

  /** The input's `onChange`: only the draft text changes. */
  function Edit(c: Chat, text: string): (r: Chat)
    ensures r.input == text
    ensures r.messages == c.messages && r.isLoading == c.isLoading && r.sessionId == c.sessionId
  {
    c.(input := text)
  }

  /** `handleSend` up to the `await`. A blank draft or an outstanding call
      makes it return at once. Otherwise the trimmed draft becomes a user turn
      after the earlier ones, the draft is cleared, `isLoading` is set and the
      trimmed draft is posted with the session id. */
  function BeginSend(c: Chat): (r: Start)
    ensures r.Ignored? <==> Trim(c.input) == [] || c.isLoading
    ensures r.Started? ==> && r.chat.messages == c.messages + [Turn(User, Trim(c.input))]
                           && r.chat.input == []
                           && r.chat.isLoading
                           && r.chat.sessionId == c.sessionId
    ensures r.Started? ==> && r.request.sessionId == c.sessionId
                           && r.request.prompt == Trim(c.input)
                           && r.request.prompt != []
                           && IsTrimmed(r.request.prompt)
  {
    var prompt := Trim(c.input);
    if prompt == [] || c.isLoading then Ignored
    else
      Started(Chat(c.messages + [Turn(User, prompt)], [], true, c.sessionId),
              Request(prompt, c.sessionId))
  }

  /** The assistant turn's content for the settled call: the reply, or
      `"Error: "` and the message `callAgent` rethrew. */
  function AssistantText(reply: Result<string>): string {
    match reply
    case Ok(text) => text
    case Err(m) => ErrorPrefix + m
  }

  /** `handleSend` after the `await`: the `finally` block clears `isLoading`
      and exactly one assistant turn is appended, on success and on failure
      alike; the earlier turns are untouched. */
  function FinishSend(c: Chat, reply: Result<string>): (r: Chat)
    ensures !r.isLoading
    ensures |r.messages| == |c.messages| + 1 && r.messages[..|c.messages|] == c.messages
    ensures r.messages[|c.messages|].role == Assistant
    ensures reply.Ok? ==> r.messages[|c.messages|].content == reply.value
    ensures reply.Err? ==> r.messages[|c.messages|].content == ErrorPrefix + reply.message
    ensures r.input == c.input && r.sessionId == c.sessionId
  {
    c.(messages := c.messages + [Turn(Assistant, AssistantText(reply))], isLoading := false)
  }

  /** One whole `handleSend` whose `fetch` produced `o`. */
  function HandleSend(c: Chat, o: Outcome, typeError: TypeFault -> string): (r: Chat)
    // A blank draft or an outstanding call leaves the state as it was.
    ensures Trim(c.input) == [] || c.isLoading ==> r == c
    // Otherwise exactly two turns follow the untouched earlier ones.
    ensures !(Trim(c.input) == [] || c.isLoading) ==>
              && |r.messages| == |c.messages| + 2
              && r.messages[..|c.messages|] == c.messages
              && r.messages[|c.messages|] == Turn(User, Trim(c.input))
              && r.messages[|c.messages| + 1].role == Assistant
              && r.input == []
              && !r.isLoading
              && r.sessionId == c.sessionId
  {
    match BeginSend(c)
    case Ignored => c
    case Started(pending, _) =>
      assert pending.messages[..|c.messages|] == c.messages;
      FinishSend(pending, CallAgent(o, typeError))
  }

  /** `handleSend` leaves the state as it was exactly when it refuses the
      send. */
  lemma HandleSendNoOpIffRefused(c: Chat, o: Outcome, typeError: TypeFault -> string)
    ensures HandleSend(c, o, typeError) == c <==> Trim(c.input) == [] || c.isLoading
  {
  }

  /** The content of the assistant turn a settled call produces, for each
      kind of outcome: a non-ok status is reported whatever the body says, a
      truthy `error` member before `response`, and a string `response` is
      shown unescaped (or as the fallback when empty); each TypeError the
      engine raises on the way is reported with its own message. */
  lemma ReplyTurn(o: Outcome, typeError: TypeFault -> string)
    ensures var t := AssistantText(CallAgent(o, typeError));
            && (o.Received? && !IsOk(o.status) ==>
                  t == ErrorPrefix + ContactPrefix + HttpErrorMessage(o.status))
            && (o.TransportFail? ==> t == ErrorPrefix + ContactPrefix + o.message)
            && (o.Received? && IsOk(o.status) && o.payload.Unparseable? ==>
                  t == ErrorPrefix + ContactPrefix + o.payload.message)
            && (o.Received? && IsOk(o.status) && o.payload == Parsed(JNull) ==>
                  t == ErrorPrefix + ContactPrefix + typeError(NullData))
            && (o.Received? && IsOk(o.status) && o.payload.Parsed?
                && JsTruthy(Member(o.payload.doc, "error")) ==>
                  t == ErrorPrefix + ContactPrefix +
                       if ToStringThrows(o.payload.doc.fields["error"]) then typeError(NoPrimitive)
                       else JsToString(o.payload.doc.fields["error"]).value)
            && (o.Received? && IsOk(o.status) && o.payload.Parsed? && o.payload.doc != JNull
                && !JsTruthy(Member(o.payload.doc, "error"))
                && !(Member(o.payload.doc, "response").Some? && Member(o.payload.doc, "response").value.JStr?) ==>
                  t == ErrorPrefix + ContactPrefix + typeError(NoReplace(Member(o.payload.doc, "response"))))
            && (CallAgent(o, typeError).Ok? ==>
                  t == DisplayReply(o.payload.doc.fields["response"].s) && NoEscapes(t))
  {
    var a := Attempt(o, typeError);
    if a.Err? {
      FailedTurn(a.message);
    }
  }

  /** A failure of the try block reaches the turn with both prefixes. */
  lemma FailedTurn(m: string)
    ensures AssistantText(Err(ContactPrefix + m)) == ErrorPrefix + ContactPrefix + m
  {
  }

  /** Input events the page reacts to. */
  datatype Event = Type(text: string) | Send(outcome: Outcome, typeError: TypeFault -> string)

  /** The final state after a run of events, with the requests it posted in
      order. */
  datatype Trace = Trace(chat: Chat, requests: seq<Request>)

  /** A send whose call settles with `reply`, with the request it posted. */
  function Settle(c: Chat, reply: Result<string>): Trace {
    match BeginSend(c)
    case Ignored => Trace(c, [])
    case Started(pending, request) => Trace(FinishSend(pending, reply), [request])
  }

  function Step(c: Chat, e: Event): Trace {
    match e
    case Type(text) => Trace(Edit(c, text), [])
    case Send(o, typeError) => Settle(c, CallAgent(o, typeError))
  }

  function Run(c: Chat, events: seq<Event>): Trace
    decreases |events|
  {
    if events == [] then Trace(c, [])
    else
      var first := Step(c, events[0]);
      var rest := Run(first.chat, events[1..]);
      Trace(rest.chat, first.requests + rest.requests)
  }

  /** The send event of a run is `handleSend`: `Settle` only names the
      reply the call settled with. */
  lemma StepIsHandleSend(c: Chat, o: Outcome, typeError: TypeFault -> string)
    ensures Step(c, Send(o, typeError)).chat == HandleSend(c, o, typeError)
    ensures |Step(c, Send(o, typeError)).requests| == if Trim(c.input) == [] || c.isLoading then 0 else 1
  {
  }

  /** A conversation of complete exchanges: user and assistant turns
      alternate, starting with a user turn, and every user turn is a
      non-blank trimmed text. */
  predicate Exchanges(ms: seq<Turn>) {
    && |ms| % 2 == 0
    && forall i :: 0 <= i < |ms| ==>
         if i % 2 == 0 then ms[i].role == User && ms[i].content != [] && IsTrimmed(ms[i].content)
         else ms[i].role == Assistant
  }

  /** Over any run of events from an idle state: the conversation only grows
      at its end and stays a sequence of complete exchanges (two turns per
      posted request), the page is idle again and the session id never
      changes. */
  lemma {:induction false} RunKeepsConversation(c: Chat, events: seq<Event>)
    requires Exchanges(c.messages) && !c.isLoading
    ensures var t := Run(c, events);
            && Exchanges(t.chat.messages)
            && !t.chat.isLoading
            && t.chat.sessionId == c.sessionId
            && c.messages <= t.chat.messages
            && |t.chat.messages| == |c.messages| + 2 * |t.requests|
    decreases |events|
  {
    if events != [] {
      StepKeepsConversation(c, events[0]);
      RunKeepsConversation(Step(c, events[0]).chat, events[1..]);
    }
  }

  /** The k-th of `requests` carries session id `sid` and the text of the
      user turn at index `from + 2 * k` of `ms`. */
  predicate Posted(requests: seq<Request>, ms: seq<Turn>, from: nat, sid: string) {
    forall k :: 0 <= k < |requests| ==>
      && from + 2 * k < |ms|
      && requests[k].sessionId == sid
      && requests[k].prompt == ms[from + 2 * k].content
  }

  lemma PostedExtend(requests: seq<Request>, ms: seq<Turn>, ms': seq<Turn>, from: nat, sid: string)
    requires Posted(requests, ms, from, sid) && ms <= ms'
    ensures Posted(requests, ms', from, sid)
  {
    forall k | 0 <= k < |requests|
      ensures ms'[from + 2 * k] == ms[from + 2 * k]
    {
    }
  }

  lemma PostedOne(request: Request, ms: seq<Turn>, from: nat, sid: string)
    requires from < |ms| && request.sessionId == sid && request.prompt == ms[from].content
    ensures Posted([request], ms, from, sid)
  {
  }

  lemma PostedConcat(first: seq<Request>, rest: seq<Request>, ms: seq<Turn>, from: nat, sid: string)
    requires Posted(first, ms, from, sid) && Posted(rest, ms, from + 2 * |first|, sid)
    ensures Posted(first + rest, ms, from, sid)
  {
    var all := first + rest;
    forall k | 0 <= k < |all|
      ensures from + 2 * k < |ms|
      ensures all[k].sessionId == sid
      ensures all[k].prompt == ms[from + 2 * k].content
    {
      if k < |first| {
        assert all[k] == first[k];
      } else {
        var j := k - |first|;
        assert all[k] == rest[j];
        assert from + 2 * |first| + 2 * j == from + 2 * k;
      }
    }
  }

  /** Over any run of events from an idle state, the k-th posted request
      carries the session id and the text of the k-th new user turn. */
  lemma {:induction false} RunRequests(c: Chat, events: seq<Event>)
    requires Exchanges(c.messages) && !c.isLoading
    ensures Posted(Run(c, events).requests, Run(c, events).chat.messages, |c.messages|, c.sessionId)
    decreases |events|
  {
    if events != [] {
      var first := Step(c, events[0]);
      StepKeepsConversation(c, events[0]);
      RunKeepsConversation(first.chat, events[1..]);
      RunRequests(first.chat, events[1..]);
      var rest := Run(first.chat, events[1..]);
      assert Run(c, events) == Trace(rest.chat, first.requests + rest.requests);
      PostedExtend(first.requests, first.chat.messages, rest.chat.messages, |c.messages|, c.sessionId);
      PostedConcat(first.requests, rest.requests, rest.chat.messages, |c.messages|, c.sessionId);
    }
  }

  /** Appending a user turn with a non-blank trimmed text and then an
      assistant turn keeps a sequence of complete exchanges. */
  lemma AppendExchange(ms: seq<Turn>, prompt: string, answer: string)
    requires Exchanges(ms) && prompt != [] && IsTrimmed(prompt)
    ensures Exchanges(ms + [Turn(User, prompt), Turn(Assistant, answer)])
  {
    var r := ms + [Turn(User, prompt), Turn(Assistant, answer)];
    forall i | 0 <= i < |r|
      ensures if i % 2 == 0 then r[i].role == User && r[i].content != [] && IsTrimmed(r[i].content)
              else r[i].role == Assistant
    {
      if i < |ms| {
        assert r[i] == ms[i];
      }
    }
  }

  /** The conversation an accepted send leaves: the old turns, the user turn
      and the assistant turn. */
  lemma AcceptedSend(c: Chat, o: Outcome, typeError: TypeFault -> string)
    requires BeginSend(c).Started?
    ensures HandleSend(c, o, typeError).messages
            == c.messages + [Turn(User, Trim(c.input)), Turn(Assistant, AssistantText(CallAgent(o, typeError)))]
  {
    AcceptedStep(c, CallAgent(o, typeError));
    StepIsHandleSend(c, o, typeError);
  }

  /** The step of an accepted send: exactly the user and assistant turns
      are appended, one request with the trimmed draft and the session id is
      posted, and the page is idle again. */
  lemma AcceptedStep(c: Chat, reply: Result<string>)
    requires BeginSend(c).Started?
    ensures var t := Settle(c, reply);
            && t.chat.messages == c.messages + [Turn(User, Trim(c.input)), Turn(Assistant, AssistantText(reply))]
            && t.requests == [Request(Trim(c.input), c.sessionId)]
            && !t.chat.isLoading
            && t.chat.sessionId == c.sessionId
  {
    var pending := BeginSend(c).chat;
    assert BeginSend(c) == Started(pending, Request(Trim(c.input), c.sessionId));
    assert Settle(c, reply) == Trace(FinishSend(pending, reply), [Request(Trim(c.input), c.sessionId)]);
    assert FinishSend(pending, reply).messages == pending.messages + [Turn(Assistant, AssistantText(reply))];
  }

  /** A send, accepted or not, keeps the conversation a sequence of complete
      exchanges, appends at most one exchange whose user text is the request
      posted, and leaves the page idle, whatever the call settled with. */
  lemma SettleKeepsConversation(c: Chat, reply: Result<string>)
    requires Exchanges(c.messages) && !c.isLoading
    ensures var t := Settle(c, reply);
            && Exchanges(t.chat.messages)
            && !t.chat.isLoading
            && t.chat.sessionId == c.sessionId
            && c.messages <= t.chat.messages
            && |t.requests| <= 1
            && |t.chat.messages| == |c.messages| + 2 * |t.requests|
            && Posted(t.requests, t.chat.messages, |c.messages|, c.sessionId)
  {
    if BeginSend(c).Started? {
      var t := Settle(c, reply);
      AcceptedStep(c, reply);
      AppendExchange(c.messages, Trim(c.input), AssistantText(reply));
      PostedOne(t.requests[0], t.chat.messages, |c.messages|, c.sessionId);
    }
  }

  /** One event keeps the conversation a sequence of complete exchanges,
      appends at most one exchange whose user text is the request posted,
      and leaves the page idle. */
  lemma StepKeepsConversation(c: Chat, e: Event)
    requires Exchanges(c.messages) && !c.isLoading
    ensures var t := Step(c, e);
            && Exchanges(t.chat.messages)
            && !t.chat.isLoading
            && t.chat.sessionId == c.sessionId
            && c.messages <= t.chat.messages
            && |t.requests| <= 1
            && |t.chat.messages| == |c.messages| + 2 * |t.requests|
            && Posted(t.requests, t.chat.messages, |c.messages|, c.sessionId)
  {
    match e
    case Type(_) =>
    case Send(o, typeError) => SettleKeepsConversation(c, CallAgent(o, typeError));
  }
}
