/**
 * The session context of auth-pam.c and the operations that update it in
 * place, with the threads taken out: the mutex is absent, `sendMessage` and
 * the thread-safe function's release are recorded as events, and the
 * worker's busy-wait for the ready flag becomes the event loop's delivery
 * followed by a check of the flag.
 */
module AuthPam {
  import opened Wrappers
  import opened PamAppl
  import opened SessionSpec
  import opened SessionProperties
  import CString

  /** nodepamCtx: identity, mailbox and result of one authentication session. */
  class Context {
    const service: string
    const username: string
    var message: Option<string>
    var msgStyle: int
    var response: Option<string>
    var respFlag: bool
    var retval: int
    /** What the session has done to the outside world so far. */
    ghost var events: seq<Event>

    function State(): Mailbox
      reads this
    {
      Mailbox(msgStyle, message, response, respFlag, retval)
    }

    /** A fresh context for the given identity, as the binding allocates it. */
    constructor (service: string, username: string)
      ensures this.service == service && this.username == username
      ensures State() == Mailbox(0, None, None, false, 0) && events == []
    {
      this.service := service;
      this.username := username;
      message, msgStyle, response, respFlag, retval := None, 0, None, false, 0;
      events := [];
    }

    /** prepareMessage: arm the mailbox with one PAM message. */
    method PrepareMessage(style: int, msg: string)
      modifies this
      ensures State() == Prepared(style, msg)
      ensures events == old(events)
    {
      msgStyle := style;
      message := Some(CString.Text(msg));  // strdup
      response := None;
      respFlag := false;
      retval := NODE_PAM_JS_CONV;
    }

    /** sendMessage: hand the context to the event loop through the thread-safe function. */
    method SendMessage()
      modifies this
      ensures State() == old(State())
      ensures events == old(events) + [Notified(msgStyle, message)]
    {
      events := events + [Notified(msgStyle, message)];
    }

    /**
     * nodepamSetResponse: the event loop's reply. `allocFails` says whether the
     * buffer for the reply cannot be allocated; the reply itself is kept only
     * for prompt styles.
     */
    method SetResponse(text: string, allocFails: bool)
      modifies this
      ensures State() == Deliver(old(State()), text, allocFails)
      ensures events == old(events) + DeliveryEvents(text, allocFails)
    {
      if allocFails {
        response := None;
        retval := NODE_PAM_ERR;
        events := events + [Released];
        return;
      }
      response := Some("");  // the zero-filled buffer
      if IsPrompt(msgStyle) {
        response := Some(CString.Text(text));  // strdup
      }
      respFlag := true;
      events := events + [Delivered(text)];
    }

    /**
     * One exchange of the conversation function, the body both arms of its
     * switch share: arm the mailbox, announce it to the event loop, and wait
     * until a reply raises the flag. `reply` is None when no reply ever comes;
     * the wait completes, and `answered` is true, only when a reply was stored.
     */
    method Exchange(m: PamMessage, reply: Option<Delivery>) returns (answered: bool)
      modifies this
      ensures answered == (reply.Some? && !reply.value.allocFails)
      ensures events == old(events) + [NotificationOf(m)]
                        + (if reply.Some? then DeliveryEvents(reply.value.text, reply.value.allocFails) else [])
      ensures State() == if reply.Some? then Deliver(Prepared(m.style, m.msg), reply.value.text, reply.value.allocFails)
                         else Prepared(m.style, m.msg)
    {
      PrepareMessage(m.style, m.msg);
      SendMessage();
      if reply.None? {
        return false;
      }
      SetResponse(reply.value.text, reply.value.allocFails);
      answered := respFlag;
    }

    /**
     * nodepamAuthenticate: store the code of pam_start, or of pam_authenticate
     * when pam_start succeeded (`authCode` is its result and is unused otherwise).
     */
    method Authenticate(startCode: int, authCode: int)
      modifies this
      ensures State() == old(State()).(retval := AuthResult(startCode, authCode))
      ensures events == old(events)
    {
      var rv := startCode;
      if rv == PAM_SUCCESS {
        rv := authCode;
      }
      retval := rv;
    }

    /** nodepamKill: mark the session as cancelled. */
    method Kill()
      modifies this
      ensures State() == Cancelled(old(State()))
      ensures events == old(events)
    {
      retval := NODE_PAM_ERR;
    }

    /** nodepamCleanup: take the kill branch when the session failed, join the worker otherwise. */
    method Cleanup() returns (branch: Teardown)
      modifies this
      ensures branch == TeardownFor(old(retval))
      ensures State() == old(State())
      ensures events == old(events) + [TeardownEvent(branch)]
    {
      if retval == NODE_PAM_ERR {
        branch := KillBranch;
        events := events + [KillCalled];
      } else {
        branch := JoinBranch;
        events := events + [Joined];
      }
    }
  }

  /** The location `resp` points to: where the conversation stores its response array. */
  class ResponseCell {
    var responses: array?<PamResponse>

    constructor ()
      ensures responses == null
    {
      responses := null;
    }
  }

  /**
   * The state of nodepamConv before the turn of message i: the first i
   * exchanges have completed, their prompts' replies fill the first i slots,
   * the rest are zero, and the events and mailbox are those of the first i
   * exchanges (`start` and `before` are the events and mailbox on entry).
   */
  ghost predicate ConvAt(msgs: seq<PamMessage>, replies: seq<Delivery>, i: nat, ctx: Context,
                         response: array<PamResponse>, start: seq<Event>, before: Mailbox)
    reads ctx, response
  {
    i <= response.Length <= |msgs| && i <= |replies|
    && (forall j :: 0 <= j < i ==> Answerable(msgs, replies, j))
    && response[..i] == Slots(msgs, replies, i)
    && (forall j :: i <= j < response.Length ==> response[j] == ZeroResponse)
    && ctx.events == start + Exchanges(msgs, replies, i)
    && ctx.State() == if i == 0 then before else Exchanged(msgs[i - 1], replies[i - 1])
  }

  /**
   * One turn of the loop of nodepamConv over message i: an unknown style
   * aborts; otherwise the message is exchanged and, for a prompt, the
   * delivered reply copied into slot i. `stop` is None when the loop goes on.
   */
  method ConvMessage(msgs: seq<PamMessage>, replies: seq<Delivery>, i: nat, ctx: Context,
                     response: array<PamResponse>, ghost start: seq<Event>, ghost before: Mailbox)
    returns (stop: Option<ConvOutcome>)
    requires i < response.Length && ConvAt(msgs, replies, i, ctx, response, start, before)
    modifies ctx, response
    ensures stop.None? <==> Answerable(msgs, replies, i)
    ensures stop.None? ==> ConvAt(msgs, replies, i + 1, ctx, response, start, before)
    ensures stop.Some? ==>
      var run := ExchangeRun(msgs, replies, response.Length);
      stop.value == run.outcome
      && ctx.events == start + run.events
      && ctx.State() == (if run.mailbox.Some? then run.mailbox.value else before)
  {
    var m := msgs[i];
    if !KnownStyle(m.style) {
      ExchangeRunStopsAt(msgs, replies, response.Length, i);
      return Some(Returned(PAM_CONV_ERR));
    }
    var answered := ctx.Exchange(m, if i < |replies| then Some(replies[i]) else None);
    if !answered {
      ExchangeRunStopsAt(msgs, replies, response.Length, i);
      if i < |replies| {
        AppendPair(start, Exchanges(msgs, replies, i), NotificationOf(m), Released);
      } else {
        AppendOne(start, Exchanges(msgs, replies, i), NotificationOf(m));
      }
      return Some(Blocked);
    }
    if IsPrompt(m.style) {
      // strdup of the stored reply, which already ends at its first NUL
      response[i] := PamResponse(Some(ctx.response.value), 0);
    }
    assert response[..i + 1] == response[..i] + [response[i]];
    AppendPair(start, Exchanges(msgs, replies, i), NotificationOf(m), Delivered(replies[i].text));
    return None;
  }

  /**
   * The loop of nodepamConv over an accepted batch: allocate the zeroed
   * response array, then run each message's turn until one stops the loop.
   */
  method RunExchanges(numMsg: nat, msgs: seq<PamMessage>, ctx: Context, replies: seq<Delivery>)
    returns (outcome: ConvOutcome, response: array<PamResponse>)
    requires numMsg <= |msgs|
    modifies ctx
    ensures fresh(response)
    ensures var run := ExchangeRun(msgs, replies, numMsg);
      outcome == run.outcome
      && ctx.events == old(ctx.events) + run.events
      && ctx.State() == (if run.mailbox.Some? then run.mailbox.value else old(ctx.State()))
      && (run.responses.Some? ==> response[..] == run.responses.value)
  {
    response := new PamResponse[numMsg](_ => ZeroResponse);
    ghost var start, before := ctx.events, ctx.State();

    for i := 0 to numMsg
      invariant ConvAt(msgs, replies, i, ctx, response, start, before)
    {
      var stop := ConvMessage(msgs, replies, i, ctx, response, start, before);
      if stop.Some? {
        return stop.value, response;
      }
    }
    assert response[..] == response[..numMsg];
    ExchangeRunCompletes(msgs, replies, numMsg);
    return Returned(PAM_SUCCESS), response;
  }

  /**
   * nodepamConv: the PAM conversation callback. `ctx` is the application
   * data pointer; `replies` are the replies the event loop delivers, one per
   * exchange, in order (an exchange past their end is never answered);
   * `allocFails` says whether the response array cannot be allocated.
   */
  method Conv(numMsg: int, msg: Option<seq<PamMessage>>, resp: ResponseCell?, ctx: Context?,
              replies: seq<Delivery>, allocFails: bool) returns (outcome: ConvOutcome)
    requires BatchReadable(numMsg, msg)
    modifies resp, ctx
    ensures outcome == ConvSpec(numMsg, msg, resp == null, ctx == null, replies, allocFails).outcome
    ensures ctx != null ==>
      ctx.events == old(ctx.events) + ConvSpec(numMsg, msg, resp == null, false, replies, allocFails).events
    ensures ctx != null ==>
      var run := ConvSpec(numMsg, msg, resp == null, false, replies, allocFails);
      ctx.State() == if run.mailbox.Some? then run.mailbox.value else old(ctx.State())
    ensures resp != null ==>
      var run := ConvSpec(numMsg, msg, false, ctx == null, replies, allocFails);
      if run.responses.Some? then fresh(resp.responses) && resp.responses[..] == run.responses.value
      else resp.responses == old(resp.responses)
  {
    if msg.None? || resp == null || ctx == null {
      return Returned(PAM_CONV_ERR);
    }
    if numMsg <= 0 || numMsg > PAM_MAX_NUM_MSG {
      return Returned(PAM_CONV_ERR);
    }
    if allocFails {
      return Returned(PAM_CONV_ERR);
    }
    var response;
    outcome, response := RunExchanges(numMsg, msg.value, ctx, replies);
    if outcome == Returned(PAM_SUCCESS) {
      resp.responses := response;
    }
  }
}
