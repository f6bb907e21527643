/**
 * Reference definition of the per-session context of auth-pam.c as values:
 * the single-slot mailbox shared by the PAM worker thread and the Node.js
 * event loop, the events the session emits, and what one call of the
 * conversation function does to them.
 */
module SessionSpec {
  import opened Wrappers
  import opened PamAppl
  import CString

  // Session result codes beside PAM's own (auth-pam.h).
  const NODE_PAM_JS_CONV: int := 50
  const NODE_PAM_ERR: int := 51

  /** The mailbox fields of nodepamCtx: the prompt out, the reply in, the ready flag, the result. */
  datatype Mailbox = Mailbox(
    msgStyle: int,
    message: Option<string>,
    response: Option<string>,
    respFlag: bool,
    retval: int)

  /** Observable events of a session, in the order they happen. */
  datatype Event =
    | Notified(style: int, text: Option<string>)  // the thread-safe function is called with the context
    | Delivered(reply: string)                    // a reply is stored and the ready flag raised
    | Released                                    // the thread-safe function is released
    | Joined                                      // teardown joins the worker thread
    | KillCalled                                  // teardown takes the branch that calls kill(..., SIGTERM)

  /** One reply from the event loop: its text, and whether copying it runs out of memory. */
  datatype Delivery = Delivery(text: string, allocFails: bool)

  /** The mailbox once a prompt has been armed; nothing of the previous exchange survives. */
  function Prepared(style: int, msg: string): (mb': Mailbox) {
    Mailbox(style, Some(CString.Text(msg)), None, false, NODE_PAM_JS_CONV)
  }

  /** The mailbox after the event loop hands in a reply. */
  function Deliver(mb: Mailbox, text: string, allocFails: bool): (mb': Mailbox) {
    if allocFails then mb.(response := None, retval := NODE_PAM_ERR)
    else mb.(response := Some(if IsPrompt(mb.msgStyle) then CString.Text(text) else ""), respFlag := true)
  }

  function DeliveryEvents(text: string, allocFails: bool): (ev: seq<Event>) {
    if allocFails then [Released] else [Delivered(text)]
  }

  /** The mailbox after the session is cancelled. */
  function Cancelled(mb: Mailbox): (mb': Mailbox) {
    mb.(retval := NODE_PAM_ERR)
  }

  /** The code the worker stores: pam_authenticate runs only when pam_start succeeded. */
  function AuthResult(startCode: int, authCode: int): (code: int) {
    if startCode != PAM_SUCCESS then startCode else authCode
  }

  /** The branch teardown takes: the one that calls kill(..., SIGTERM), or the one that joins the worker. */
  datatype Teardown = KillBranch | JoinBranch

  function TeardownFor(retval: int): (t: Teardown) {
    if retval == NODE_PAM_ERR then KillBranch else JoinBranch
  }

  function TeardownEvent(t: Teardown): (e: Event) {
    match t
    case KillBranch => KillCalled
    case JoinBranch => Joined
  }

  // ---------------------------------------------------------------------
  // The conversation function
  // ---------------------------------------------------------------------

  /** How a conversation call ends: it returns a PAM code, or its wait never completes. */
  datatype ConvOutcome = Returned(code: int) | Blocked

  /**
   * What a conversation call leaves behind: its outcome, the array stored
   * through `resp` (None: `*resp` is not assigned), the final mailbox (None:
   * the context is not touched) and the events it emits.
   */
  datatype ConvRun = ConvRun(
    outcome: ConvOutcome,
    responses: Option<seq<PamResponse>>,
    mailbox: Option<Mailbox>,
    events: seq<Event>)

  /** What the PAM library promises the callback: `msg` holds `numMsg` messages when the count is in range. */
  predicate BatchReadable(numMsg: int, msg: Option<seq<PamMessage>>) {
    msg.Some? && 0 < numMsg <= PAM_MAX_NUM_MSG ==> numMsg <= |msg.value|
  }

  /** The null-pointer and batch-size checks that precede any work. */
  predicate BatchAccepted(numMsg: int, msg: Option<seq<PamMessage>>, respNull: bool, ctxNull: bool) {
    msg.Some? && !respNull && !ctxNull && 0 < numMsg <= PAM_MAX_NUM_MSG
  }

  /**
   * Message j completes its exchange: its style is recognised, and the event
   * loop delivers a reply that is stored without running out of memory.
   */
  predicate Answerable(msgs: seq<PamMessage>, replies: seq<Delivery>, j: int)
    requires 0 <= j < |msgs|
  {
    KnownStyle(msgs[j].style) && j < |replies| && !replies[j].allocFails
  }

  /** The first index at or after i whose exchange does not complete, or n when all do. */
  function Reach(msgs: seq<PamMessage>, replies: seq<Delivery>, n: int, i: int): (k: int)
    requires 0 <= i <= n <= |msgs|
    decreases n - i
    ensures i <= k <= n
    ensures forall j :: i <= j < k ==> Answerable(msgs, replies, j)
    ensures k < n ==> !Answerable(msgs, replies, k)
    ensures i <= |replies| ==> k <= |replies|
  {
    if i == n || !Answerable(msgs, replies, i) then i else Reach(msgs, replies, n, i + 1)
  }

  /** The response slot a completed exchange fills. */
  function Slot(m: PamMessage, d: Delivery): (r: PamResponse) {
    if IsPrompt(m.style) then PamResponse(Some(CString.Text(d.text)), 0) else ZeroResponse
  }

  /** The response array after the first n exchanges complete: slot j is filled by exchange j. */
  function Slots(msgs: seq<PamMessage>, replies: seq<Delivery>, n: nat): (rs: seq<PamResponse>)
    requires n <= |msgs| && n <= |replies|
    ensures |rs| == n
    ensures forall j :: 0 <= j < n ==> rs[j] == Slot(msgs[j], replies[j])
  {
    if n == 0 then [] else Slots(msgs, replies, n - 1) + [Slot(msgs[n - 1], replies[n - 1])]
  }

  function NotificationOf(m: PamMessage): (e: Event) {
    Notified(m.style, Some(CString.Text(m.msg)))
  }

  /** The events of the first k exchanges: a notification, then the reply, for each. */
  function Exchanges(msgs: seq<PamMessage>, replies: seq<Delivery>, k: nat): (ev: seq<Event>)
    requires k <= |msgs| && k <= |replies|
  {
    if k == 0 then []
    else Exchanges(msgs, replies, k - 1) + [NotificationOf(msgs[k - 1]), Delivered(replies[k - 1].text)]
  }

  /** The mailbox once message m has been armed and answered by d. */
  function Exchanged(m: PamMessage, d: Delivery): (mb': Mailbox) {
    Deliver(Prepared(m.style, m.msg), d.text, false)
  }

  function AfterExchanges(msgs: seq<PamMessage>, replies: seq<Delivery>, k: nat): (mb': Option<Mailbox>)
    requires k <= |msgs| && k <= |replies|
  {
    if k == 0 then None else Some(Exchanged(msgs[k - 1], replies[k - 1]))
  }

  const Rejected: ConvRun := ConvRun(Returned(PAM_CONV_ERR), None, None, [])

  /**
   * The exchanges of an accepted batch of numMsg messages, run in order until
   * one cannot complete: its outcome, the responses on success, the last
   * mailbox state and the events.
   */
  function ExchangeRun(msgs: seq<PamMessage>, replies: seq<Delivery>, numMsg: nat): (run: ConvRun)
    requires numMsg <= |msgs|
  {
    var k := Reach(msgs, replies, numMsg, 0);
    if k == numMsg then
      ConvRun(Returned(PAM_SUCCESS), Some(Slots(msgs, replies, k)),
              AfterExchanges(msgs, replies, k), Exchanges(msgs, replies, k))
    else if !KnownStyle(msgs[k].style) then
      ConvRun(Returned(PAM_CONV_ERR), None,
              AfterExchanges(msgs, replies, k), Exchanges(msgs, replies, k))
    else
      // The message is armed and announced, but its wait never sees the flag.
      var armed := Prepared(msgs[k].style, msgs[k].msg);
      if k < |replies| then
        ConvRun(Blocked, None, Some(Deliver(armed, replies[k].text, true)),
                Exchanges(msgs, replies, k) + [NotificationOf(msgs[k]), Released])
      else
        ConvRun(Blocked, None, Some(armed), Exchanges(msgs, replies, k) + [NotificationOf(msgs[k])])
  }

  /**
   * One call of the conversation function. `replies` are the replies the
   * event loop delivers, one per exchange, in order; `allocFails` says whether
   * the response array cannot be allocated.
   */
  function ConvSpec(numMsg: int, msg: Option<seq<PamMessage>>, respNull: bool, ctxNull: bool,
                    replies: seq<Delivery>, allocFails: bool): (run: ConvRun)
    requires BatchReadable(numMsg, msg)
  {
    if !BatchAccepted(numMsg, msg, respNull, ctxNull) || allocFails then Rejected
    else ExchangeRun(msg.value, replies, numMsg)
  }
}
