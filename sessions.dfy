/** End-to-end sessions built from the operations of module AuthPam. */
module Sessions {
  import opened Wrappers
  import opened PamAppl
  import opened SessionSpec
  import opened AuthPam
  import CString

  /**
   * "login" for "alice": PAM asks for a password without echo, the event loop
   * answers "hunter2", authentication succeeds and teardown joins the worker.
   */
  method PasswordLogin() returns (answer: PamResponse, result: int, branch: Teardown)
    ensures answer == PamResponse(Some("hunter2"), 0)
    ensures result == PAM_SUCCESS && branch == JoinBranch
  {
    var ctx := new Context("login", "alice");
    var cell := new ResponseCell();
    var outcome := Conv(1, Some([PamMessage(PAM_PROMPT_ECHO_OFF, "Password:")]), cell, ctx,
                        [Delivery("hunter2", false)], false);
    CString.TextOfNulFree("hunter2");
    assert Answerable([PamMessage(PAM_PROMPT_ECHO_OFF, "Password:")], [Delivery("hunter2", false)], 0);
    assert outcome == Returned(PAM_SUCCESS);
    answer := cell.responses[0];
    ctx.Authenticate(PAM_SUCCESS, PAM_SUCCESS);
    result := ctx.retval;
    branch := ctx.Cleanup();
  }

  /**
   * PAM shows "Account locked", the event loop acknowledges it with an empty
   * reply, and authentication then fails: no reply text is recorded and
   * teardown joins the worker.
   */
  method LockedAccount() returns (answer: PamResponse, result: int, branch: Teardown)
    ensures answer == ZeroResponse
    ensures result == PAM_AUTH_ERR && branch == JoinBranch
  {
    var ctx := new Context("login", "alice");
    var cell := new ResponseCell();
    var outcome := Conv(1, Some([PamMessage(PAM_TEXT_INFO, "Account locked")]), cell, ctx,
                        [Delivery("", false)], false);
    assert Answerable([PamMessage(PAM_TEXT_INFO, "Account locked")], [Delivery("", false)], 0);
    assert outcome == Returned(PAM_SUCCESS);
    answer := cell.responses[0];
    ctx.Authenticate(PAM_SUCCESS, PAM_AUTH_ERR);
    result := ctx.retval;
    branch := ctx.Cleanup();
  }

  /** The event loop cancels while a prompt is outstanding: teardown takes the kill branch. */
  method CancelledPrompt() returns (outcome: ConvOutcome, branch: Teardown)
    ensures outcome == Blocked && branch == KillBranch
  {
    var ctx := new Context("login", "alice");
    var cell := new ResponseCell();
    outcome := Conv(1, Some([PamMessage(PAM_PROMPT_ECHO_ON, "Login:")]), cell, ctx, [], false);
    ctx.Kill();
    branch := ctx.Cleanup();
  }

  /**
   * A reply delivered when no prompt is outstanding is forgotten by the next
   * prompt: the mailbox is exactly the freshly armed one. Only the event of
   * the stray delivery remains; if its copy failed, the thread-safe function
   * stays released.
   */
  method StrayDeliveryThenPrompt(ctx: Context, text: string, allocFails: bool, style: int, msg: string)
    modifies ctx
    ensures ctx.State() == Prepared(style, msg)
    ensures ctx.events == old(ctx.events) + DeliveryEvents(text, allocFails)
    ensures allocFails ==> Released in ctx.events
  {
    ctx.SetResponse(text, allocFails);
    ctx.PrepareMessage(style, msg);
  }
}
