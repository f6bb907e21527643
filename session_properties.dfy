/**
 * Properties of the session reference definition: what one conversation call
 * does with each message, the strict alternation of prompts and replies, and
 * which teardown branch each way of ending a session leads to.
 */
module SessionProperties {
  import opened Wrappers
  import opened PamAppl
  import opened SessionSpec
  import CString

  // ---------------------------------------------------------------------
  // Result of a conversation call, message by message
  // ---------------------------------------------------------------------

  /** A null pointer or an out-of-range count is refused before anything is armed or sent. */
  lemma RejectedBatchHasNoEffect(numMsg: int, msg: Option<seq<PamMessage>>, respNull: bool, ctxNull: bool,
                                 replies: seq<Delivery>, allocFails: bool)
    requires BatchReadable(numMsg, msg)
    requires !BatchAccepted(numMsg, msg, respNull, ctxNull)
    ensures ConvSpec(numMsg, msg, respNull, ctxNull, replies, allocFails)
            == ConvRun(Returned(PAM_CONV_ERR), None, None, [])
  {
  }

  /** Reach finds the first exchange that does not complete. */
  lemma ReachIsFirstFailure(msgs: seq<PamMessage>, replies: seq<Delivery>, n: int, k: int)
    requires 0 <= k <= n <= |msgs|
    requires forall j :: 0 <= j < k ==> Answerable(msgs, replies, j)
    requires k < n ==> !Answerable(msgs, replies, k)
    ensures Reach(msgs, replies, n, 0) == k
  {
  }

  /** The call succeeds exactly when every message of an accepted batch completes its exchange. */
  lemma SuccessIffAllAnswered(numMsg: int, msgs: seq<PamMessage>, replies: seq<Delivery>)
    requires BatchReadable(numMsg, Some(msgs)) && BatchAccepted(numMsg, Some(msgs), false, false)
    ensures ConvSpec(numMsg, Some(msgs), false, false, replies, false).outcome == Returned(PAM_SUCCESS)
            <==> forall j :: 0 <= j < numMsg ==> Answerable(msgs, replies, j)
  {
  }

  /** ExchangeRun when exchange i is the first one that does not complete. */
  lemma ExchangeRunStopsAt(msgs: seq<PamMessage>, replies: seq<Delivery>, numMsg: nat, i: nat)
    requires i < numMsg <= |msgs| && i <= |replies|
    requires forall j :: 0 <= j < i ==> Answerable(msgs, replies, j)
    requires !Answerable(msgs, replies, i)
    ensures ExchangeRun(msgs, replies, numMsg) ==
      if !KnownStyle(msgs[i].style) then
        ConvRun(Returned(PAM_CONV_ERR), None, AfterExchanges(msgs, replies, i), Exchanges(msgs, replies, i))
      else if i < |replies| then
        ConvRun(Blocked, None, Some(Deliver(Prepared(msgs[i].style, msgs[i].msg), replies[i].text, true)),
                Exchanges(msgs, replies, i) + [NotificationOf(msgs[i]), Released])
      else
        ConvRun(Blocked, None, Some(Prepared(msgs[i].style, msgs[i].msg)),
                Exchanges(msgs, replies, i) + [NotificationOf(msgs[i])])
  {
    ReachIsFirstFailure(msgs, replies, numMsg, i);
  }

  /** ExchangeRun when all numMsg exchanges complete. */
  lemma ExchangeRunCompletes(msgs: seq<PamMessage>, replies: seq<Delivery>, numMsg: nat)
    requires numMsg <= |msgs| && numMsg <= |replies|
    requires forall j :: 0 <= j < numMsg ==> Answerable(msgs, replies, j)
    ensures ExchangeRun(msgs, replies, numMsg) ==
      ConvRun(Returned(PAM_SUCCESS), Some(Slots(msgs, replies, numMsg)),
              AfterExchanges(msgs, replies, numMsg), Exchanges(msgs, replies, numMsg))
  {
    ReachIsFirstFailure(msgs, replies, numMsg, numMsg);
  }


  /**
   * On success the array has one slot per message; a prompt's slot holds the
   * reply delivered for it, as a C string (up to its first NUL).
   */
  lemma PromptAnswerIsDelivered(numMsg: int, msg: Option<seq<PamMessage>>, replies: seq<Delivery>, i: int)
    requires BatchReadable(numMsg, msg)
    requires ConvSpec(numMsg, msg, false, false, replies, false).outcome == Returned(PAM_SUCCESS)
    requires 0 <= i < numMsg && IsPrompt(msg.value[i].style)
    ensures var run := ConvSpec(numMsg, msg, false, false, replies, false);
            run.responses.Some? && |run.responses.value| == numMsg && i < |replies|
            && run.responses.value[i] == PamResponse(Some(CString.Text(replies[i].text)), 0)
            && ('\0' !in replies[i].text ==> run.responses.value[i].resp == Some(replies[i].text))
  {
    if '\0' !in replies[i].text {
      CString.TextOfNulFree(replies[i].text);
    }
  }

  /** On success an error or info message leaves its slot zeroed, whatever the event loop delivered. */
  lemma TextSlotStaysZero(numMsg: int, msg: Option<seq<PamMessage>>, replies: seq<Delivery>, i: int)
    requires BatchReadable(numMsg, msg)
    requires ConvSpec(numMsg, msg, false, false, replies, false).outcome == Returned(PAM_SUCCESS)
    requires 0 <= i < numMsg && IsText(msg.value[i].style)
    ensures var run := ConvSpec(numMsg, msg, false, false, replies, false);
            run.responses.Some? && |run.responses.value| == numMsg
            && run.responses.value[i] == ZeroResponse
  {
  }

  // ---------------------------------------------------------------------
  // The events of a conversation call
  // ---------------------------------------------------------------------

  /** Exchange j contributes a notification for message j and then the reply for it, at positions 2j and 2j+1. */
  lemma {:induction false} ExchangeAt(msgs: seq<PamMessage>, replies: seq<Delivery>, k: nat, j: nat)
    requires k <= |msgs| && k <= |replies| && j < k
    ensures |Exchanges(msgs, replies, k)| == 2 * k
    ensures Exchanges(msgs, replies, k)[2 * j] == NotificationOf(msgs[j])
    ensures Exchanges(msgs, replies, k)[2 * j + 1] == Delivered(replies[j].text)
  {
    ExchangesLength(msgs, replies, k - 1);
    if j < k - 1 {
      ExchangeAt(msgs, replies, k - 1, j);
    }
  }

  lemma {:induction false} ExchangesLength(msgs: seq<PamMessage>, replies: seq<Delivery>, k: nat)
    requires k <= |msgs| && k <= |replies|
    ensures |Exchanges(msgs, replies, k)| == 2 * k
  {
    if k > 0 {
      ExchangesLength(msgs, replies, k - 1);
    }
  }

  /** Whether a prompt is outstanding once event e has happened. */
  function Step(e: Event, open: bool): bool {
    match e
    case Notified(_, _) => true
    case Delivered(_) => false
    case _ => open
  }

  /** A new prompt only when none is outstanding; a reply only to an outstanding prompt. */
  predicate Allowed(e: Event, open: bool) {
    match e
    case Notified(_, _) => !open
    case Delivered(_) => open
    case _ => true
  }

  /** Prompts and replies strictly alternate, starting from the given outstanding state. */
  predicate Alternating(ev: seq<Event>, open: bool)
    decreases |ev|
  {
    ev == [] || (Allowed(ev[0], open) && Alternating(ev[1..], Step(ev[0], open)))
  }

  function OpenAfter(ev: seq<Event>, open: bool): bool
    decreases |ev|
  {
    if ev == [] then open else OpenAfter(ev[1..], Step(ev[0], open))
  }

  lemma {:induction false} AlternatingAppend(a: seq<Event>, b: seq<Event>, open: bool)
    ensures Alternating(a + b, open) <==> Alternating(a, open) && Alternating(b, OpenAfter(a, open))
    ensures OpenAfter(a + b, open) == OpenAfter(b, OpenAfter(a, open))
    decreases |a|
  {
    if a == [] {
      assert a + b == b;
    } else {
      assert (a + b)[0] == a[0];
      assert (a + b)[1..] == a[1..] + b;
      AlternatingAppend(a[1..], b, Step(a[0], open));
    }
  }

  /** Completed exchanges leave no prompt outstanding. */
  lemma {:induction false} ExchangesAlternate(msgs: seq<PamMessage>, replies: seq<Delivery>, k: nat)
    requires k <= |msgs| && k <= |replies|
    ensures Alternating(Exchanges(msgs, replies, k), false)
    ensures !OpenAfter(Exchanges(msgs, replies, k), false)
  {
    if k > 0 {
      var last := [NotificationOf(msgs[k - 1]), Delivered(replies[k - 1].text)];
      ExchangesAlternate(msgs, replies, k - 1);
      AlternatingAppend(Exchanges(msgs, replies, k - 1), last, false);
      assert last[1..] == [Delivered(replies[k - 1].text)];
      assert last[1..][1..] == [];
      assert Alternating(last[1..], true) && !OpenAfter(last[1..], true);
    }
  }

  /**
   * At most one prompt is outstanding at any point of a conversation call; a
   * call that returns leaves none outstanding, one that blocks leaves its last
   * prompt outstanding.
   */
  lemma ConvKeepsOneOutstanding(numMsg: int, msg: Option<seq<PamMessage>>, respNull: bool, ctxNull: bool,
                                replies: seq<Delivery>, allocFails: bool)
    requires BatchReadable(numMsg, msg)
    ensures var run := ConvSpec(numMsg, msg, respNull, ctxNull, replies, allocFails);
            Alternating(run.events, false) && OpenAfter(run.events, false) == run.outcome.Blocked?
  {
    if BatchAccepted(numMsg, msg, respNull, ctxNull) && !allocFails {
      var msgs := msg.value;
      var k := Reach(msgs, replies, numMsg, 0);
      ExchangesAlternate(msgs, replies, k);
      if k < numMsg && KnownStyle(msgs[k].style) {
        var tail := if k < |replies| then [NotificationOf(msgs[k]), Released] else [NotificationOf(msgs[k])];
        AlternatingAppend(Exchanges(msgs, replies, k), tail, false);
        if k < |replies| {
          assert tail[1..] == [Released];
          assert tail[1..][1..] == [];
          assert Alternating(tail[1..], true) && OpenAfter(tail[1..], true);
        } else {
          assert tail[1..] == [];
        }
      }
    }
  }

  /** The notifications among the events, in order. */
  function Notifications(ev: seq<Event>): seq<Event>
    decreases |ev|
  {
    if ev == [] then []
    else if ev[0].Notified? then [ev[0]] + Notifications(ev[1..])
    else Notifications(ev[1..])
  }

  /** One notification for each of the first k messages, in index order. */
  function Announcements(msgs: seq<PamMessage>, k: nat): seq<Event>
    requires k <= |msgs|
  {
    seq(k, j requires 0 <= j < k => NotificationOf(msgs[j]))
  }

  lemma {:induction false} NotificationsAppend(a: seq<Event>, b: seq<Event>)
    ensures Notifications(a + b) == Notifications(a) + Notifications(b)
    decreases |a|
  {
    if a == [] {
      assert a + b == b;
    } else {
      assert (a + b)[0] == a[0];
      assert (a + b)[1..] == a[1..] + b;
      NotificationsAppend(a[1..], b);
    }
  }

  lemma {:induction false} ExchangesAnnounce(msgs: seq<PamMessage>, replies: seq<Delivery>, k: nat)
    requires k <= |msgs| && k <= |replies|
    ensures Notifications(Exchanges(msgs, replies, k)) == Announcements(msgs, k)
    ensures Released !in Exchanges(msgs, replies, k)
  {
    if k > 0 {
      var last := [NotificationOf(msgs[k - 1]), Delivered(replies[k - 1].text)];
      ExchangesAnnounce(msgs, replies, k - 1);
      NotificationsAppend(Exchanges(msgs, replies, k - 1), last);
      assert last[1..] == [Delivered(replies[k - 1].text)];
      assert last[1..][1..] == [];
      assert Notifications(last[1..]) == [];
      assert Announcements(msgs, k) == Announcements(msgs, k - 1) + [NotificationOf(msgs[k - 1])];
    }
  }

  /** A call that succeeds announces every message exactly once, in index order. */
  lemma SuccessAnnouncesEachOnce(numMsg: int, msg: Option<seq<PamMessage>>, replies: seq<Delivery>)
    requires BatchReadable(numMsg, msg)
    requires ConvSpec(numMsg, msg, false, false, replies, false).outcome == Returned(PAM_SUCCESS)
    ensures msg.Some? && 0 < numMsg <= |msg.value|
    ensures Notifications(ConvSpec(numMsg, msg, false, false, replies, false).events)
            == Announcements(msg.value, numMsg)
  {
    ExchangesAnnounce(msg.value, replies, numMsg);
  }

  /**
   * A message of unknown style ends the call with PAM_CONV_ERR: `*resp` is not
   * assigned, and only the messages before it were announced.
   */
  lemma UnknownStyleAborts(numMsg: int, msgs: seq<PamMessage>, replies: seq<Delivery>, k: int)
    requires BatchReadable(numMsg, Some(msgs)) && BatchAccepted(numMsg, Some(msgs), false, false)
    requires 0 <= k < numMsg && !KnownStyle(msgs[k].style)
    requires forall j :: 0 <= j < k ==> Answerable(msgs, replies, j)
    ensures var run := ConvSpec(numMsg, Some(msgs), false, false, replies, false);
            run.outcome == Returned(PAM_CONV_ERR) && run.responses.None?
            && Notifications(run.events) == Announcements(msgs, k)
  {
    ReachIsFirstFailure(msgs, replies, numMsg, k);
    ExchangesAnnounce(msgs, replies, k);
  }

  /**
   * A call that blocks leaves its prompt unanswered; teardown then takes the
   * kill branch exactly when the reply could not be stored, which is also
   * exactly when the thread-safe function was released.
   */
  lemma BlockedTeardown(numMsg: int, msg: Option<seq<PamMessage>>, replies: seq<Delivery>)
    requires BatchReadable(numMsg, msg)
    requires ConvSpec(numMsg, msg, false, false, replies, false).outcome == Blocked
    ensures var run := ConvSpec(numMsg, msg, false, false, replies, false);
            run.mailbox.Some? && !run.mailbox.value.respFlag
            && (TeardownFor(run.mailbox.value.retval) == KillBranch <==> Released in run.events)
  {
    var k := Reach(msg.value, replies, numMsg, 0);
    ExchangesAnnounce(msg.value, replies, k);
    var run := ConvSpec(numMsg, msg, false, false, replies, false);
    if k >= |replies| {
      assert run.events == Exchanges(msg.value, replies, k) + [NotificationOf(msg.value[k])];
      assert Released !in run.events;
    }
  }

  // ---------------------------------------------------------------------
  // Lifecycle
  // ---------------------------------------------------------------------

  /** A delivery that runs out of memory marks the session so that teardown takes the kill branch. */
  lemma FailedDeliveryTakesKillBranch(mb: Mailbox, text: string)
    ensures Deliver(mb, text, true).respFlag == mb.respFlag
    ensures TeardownFor(Deliver(mb, text, true).retval) == KillBranch
  {
  }

  /** Cancelling makes the next teardown take the kill branch, never the join. */
  lemma CancelTakesKillBranch(mb: Mailbox)
    ensures TeardownFor(Cancelled(mb).retval) == KillBranch
  {
  }

  /** Any other result code is torn down by joining the worker. */
  lemma OtherResultsJoin(retval: int)
    requires retval != NODE_PAM_ERR
    ensures TeardownFor(retval) == JoinBranch
  {
  }

  /** The stored code is pam_start's when that failed, pam_authenticate's otherwise. */
  lemma AuthResultSelects(startCode: int, authCode: int)
    ensures startCode != PAM_SUCCESS ==> AuthResult(startCode, authCode) == startCode
    ensures startCode == PAM_SUCCESS ==> AuthResult(startCode, authCode) == authCode
    ensures AuthResult(startCode, authCode) == PAM_SUCCESS <==> startCode == PAM_SUCCESS && authCode == PAM_SUCCESS
  {
  }

  /** A teardown that directly follows the worker's store of a PAM code joins the worker. */
  lemma AuthenticatedSessionJoins(startCode: int, authCode: int)
    requires IsPamCode(startCode) && IsPamCode(authCode)
    ensures TeardownFor(AuthResult(startCode, authCode)) == JoinBranch
  {
  }

  /** Cancelling is best effort: a prompt armed after it restores the conversation code, and teardown joins. */
  lemma LaterPromptOverridesCancel(mb: Mailbox, style: int, msg: string)
    ensures Cancelled(mb).retval == NODE_PAM_ERR
    ensures TeardownFor(Prepared(style, msg).retval) == JoinBranch
  {
  }

  // ---------------------------------------------------------------------
  // Sequence helpers
  // ---------------------------------------------------------------------

  /** Appending a two-element tail at once is appending its elements one after the other. */
  lemma AppendPair<T>(a: seq<T>, b: seq<T>, x: T, y: T)
    ensures a + (b + [x, y]) == a + b + [x] + [y]
  {
  }

  lemma AppendOne<T>(a: seq<T>, b: seq<T>, x: T)
    ensures a + (b + [x]) == a + b + [x]
  {
  }
}
