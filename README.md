# node-auth-pam session core, in Dafny

node-auth-pam lets a Node.js program authenticate a user through PAM. PAM
runs on a worker thread and calls the addon's conversation function
`nodepamConv` whenever it needs input or wants to show text. The event loop
can only be reached through an N-API thread-safe function. The two sides
share one context, `nodepamCtx`, which acts as a single-slot mailbox:

- the worker arms it with a message (`prepareMessage`);
- the worker announces it to JavaScript (`sendMessage`);
- the worker spins until the event loop stores a reply and raises `respFlag` (`nodepamSetResponse`).

This project models that context and the operations of `src/auth-pam.c`:

- `prepareMessage`, `sendMessage`, `nodepamSetResponse`, `nodepamAuthenticate`,
  `nodepamKill` and `nodepamCleanup` are methods of the class
  `AuthPam.Context`, which has the fields of `nodepamCtx`;
- `nodepamConv` is the method `AuthPam.Conv`. Its loop is `AuthPam.RunExchanges`,
  and one turn of that loop is `AuthPam.ConvMessage`. The loop fills the
  response array in place, one slot per message. `AuthPam.Context.Exchange`
  is the body that both arms of the loop's `switch` share: prepare, send and
  wait.
- the location `*resp` that the conversation assigns is the class
  `AuthPam.ResponseCell`, whose one field holds the array pointer.

Texts are C strings. `CString.Text` is the text a C function sees: everything
before the first NUL. Every `strdup` of the source keeps that text only.

The threads are taken out. The mutex is absent. The busy-wait becomes an
explicit step: `Conv` takes the replies the event loop will deliver, one per
exchange. For each message it calls `SetResponse` and then reads the reply
only if `respFlag` is up. If no reply comes, or if storing the reply runs out
of memory, the wait never ends, and `Conv` reports `Blocked`. A ghost trace
records what the session does outside itself:

- a notification to JavaScript;
- a stored reply;
- a release of the thread-safe function;
- the teardown branch taken: the join, or the branch that calls `kill`.

Module `SessionSpec` is the reference definition on values. `ConvSpec` says,
for every input, what one conversation call returns and stores, how it leaves
the mailbox and which events it emits. `Conv` is proved to match it.
`SessionProperties` proves what the code promises about that definition.
`Sessions` runs two end-to-end logins, a cancellation and a stray delivery
through the methods.

The PAM constants come from `<security/pam_appl.h>`, which is not part of
this model. The values used are Linux-PAM's: `PAM_SUCCESS` 0, `PAM_CONV_ERR`
19, `PAM_MAX_NUM_MSG` 32, message styles 1 to 4, return codes 0 to 31. The
session codes `NODE_PAM_JS_CONV` (50) and `NODE_PAM_ERR` (51) come from
`src/auth-pam.h`.

## Model

| member | source | states |
|---|---|---|
| `AuthPam.Context.PrepareMessage` | src/auth-pam.c:27-37 | the new mailbox holds the style and a copy of the text up to its first NUL; the response is NULL, `respFlag` is false and `retval` is `NODE_PAM_JS_CONV`; no event |
| `AuthPam.Context.SendMessage` | src/auth-pam.c:44-47 | one notification carrying the current style and message is appended to the trace; the mailbox is unchanged |
| `AuthPam.Context.SetResponse` | src/auth-pam.c:148-165 | on success `respFlag` becomes true and `response` is the reply up to its first NUL for prompt styles and an empty buffer for the others; on allocation failure `retval` becomes `NODE_PAM_ERR`, `response` is NULL, `respFlag` keeps its value and one release is recorded |
| `AuthPam.Context.Exchange` | src/auth-pam.c:72-91 | arming, announcing and waiting: the mailbox is the armed one, then the reply's delivery applied to it if a reply comes; one notification, then the delivery's event, is recorded; the wait ends exactly when a reply comes and is stored |
| `AuthPam.Context.Authenticate` | src/auth-pam.c:131-146 | only `retval` changes, to pam_start's code when that is not `PAM_SUCCESS` and to pam_authenticate's otherwise |
| `AuthPam.Context.Kill` | src/auth-pam.c:185-188 | only `retval` changes, to `NODE_PAM_ERR` |
| `AuthPam.Context.Cleanup` | src/auth-pam.c:167-174 | the kill branch is taken exactly when `retval` is `NODE_PAM_ERR`, and the join otherwise; that one event is recorded; the mailbox is unchanged |
| `AuthPam.ConvMessage` | src/auth-pam.c:67-124 | one turn goes on exactly when the message's exchange completes, and then extends the loop state by that exchange (slot, events, mailbox); a turn that stops gives the outcome, events and mailbox of `ExchangeRun` |
| `AuthPam.RunExchanges` | src/auth-pam.c:59-128 | the loop's outcome, events and final mailbox are those of `ExchangeRun`, and on success the fresh array holds `ExchangeRun`'s responses |
| `AuthPam.Conv` | src/auth-pam.c:53-129 | the outcome, the events, the final mailbox and what is stored through `resp` are those of `ConvSpec` for the same inputs; `*resp` gets a fresh array only on success and is otherwise untouched |
| `SessionSpec.Reach` | src/auth-pam.c:65-125 | the result is the first index whose exchange does not complete (unknown style, no reply, or a failed reply), or the message count when every exchange completes |
| `SessionSpec.Slots` | src/auth-pam.c:86-87 | the array after n completed exchanges has n slots, and slot j is message j's prompt reply with `resp_retcode` 0, or zero-filled for a text style |
| `SessionProperties.RejectedBatchHasNoEffect` | src/auth-pam.c:55-57 | a null `msg`, `resp` or application pointer, or a count outside 1 to `PAM_MAX_NUM_MSG`, gives `PAM_CONV_ERR` with nothing stored, the context untouched and no event |
| `SessionProperties.SuccessIffAllAnswered` | src/auth-pam.c:65-128 | an accepted batch returns `PAM_SUCCESS` if and only if every message has a known style and gets a reply that is stored |
| `SessionProperties.ExchangeRunStopsAt` | src/auth-pam.c:65-124 | when exchange i is the first that does not complete, the loop returns `PAM_CONV_ERR` for an unknown style and blocks otherwise, with the events and mailbox of the first i exchanges plus the armed message |
| `SessionProperties.ExchangeRunCompletes` | src/auth-pam.c:65-128 | when every exchange completes, the loop returns `PAM_SUCCESS` with the slots of all messages |
| `SessionProperties.PromptAnswerIsDelivered` | src/auth-pam.c:69-95 | on success the array has `num_msg` slots, and the slot of an echo-off or echo-on prompt holds the text delivered for it up to its first NUL, which is exactly that text when it has no NUL, with `resp_retcode` 0 |
| `SessionProperties.TextSlotStaysZero` | src/auth-pam.c:97-120 | on success the slot of an error or info message stays zero-filled, whatever text was delivered for it |
| `SessionProperties.UnknownStyleAborts` | src/auth-pam.c:122-123 | a message of unknown style, reached after all earlier messages were answered, ends the call with `PAM_CONV_ERR` at once: `*resp` is not assigned and only the earlier messages were announced |
| `SessionProperties.ExchangeAt` | src/auth-pam.c:65-120 | after k completed exchanges the trace has 2k events; position 2j is the notification of message j and position 2j+1 is the reply to it |
| `SessionProperties.ConvKeepsOneOutstanding` | src/auth-pam.c:65-128 | in every call, announcements and replies strictly alternate, so at most one prompt is outstanding; a call that returns leaves none outstanding, and a call that blocks leaves exactly its last prompt outstanding |
| `SessionProperties.SuccessAnnouncesEachOnce` | src/auth-pam.c:65-128 | a successful call announced each of the `num_msg` messages exactly once, in index order |
| `SessionProperties.BlockedTeardown` | src/auth-pam.c:152-174 | a blocked call leaves `respFlag` false; teardown then takes the kill branch exactly when the thread-safe function was released, that is, when storing the reply failed |
| `SessionProperties.FailedDeliveryTakesKillBranch` | src/auth-pam.c:152-158 | a failed reply leaves the ready flag as it was and makes teardown take the kill branch |
| `SessionProperties.CancelTakesKillBranch` | src/auth-pam.c:185-188 | after `nodepamKill`, teardown takes the kill branch and never joins |
| `SessionProperties.OtherResultsJoin` | src/auth-pam.c:169-174 | every result other than `NODE_PAM_ERR` leads teardown to join the worker |
| `SessionProperties.AuthResultSelects` | src/auth-pam.c:138-145 | the stored code is pam_start's when that failed and pam_authenticate's otherwise, so it is `PAM_SUCCESS` exactly when both calls succeed |
| `SessionProperties.AuthenticatedSessionJoins` | src/auth-pam.c:138-174 | a teardown that directly follows the worker's store of a PAM return code joins the worker |
| `SessionProperties.LaterPromptOverridesCancel` | src/auth-pam.c:36 | a cancel is best effort: a message armed after it resets `retval` to `NODE_PAM_JS_CONV`, and teardown would then join |
| `Sessions.PasswordLogin` | src/auth-pam.c:69-95 | an echo-off "Password:" prompt answered with "hunter2", followed by a successful authentication, gives the slot "hunter2", the result `PAM_SUCCESS` and a join at teardown |
| `Sessions.LockedAccount` | src/auth-pam.c:97-120 | an info message answered with an empty reply, followed by a failed authentication, gives a zero-filled slot, the result `PAM_AUTH_ERR` and a join at teardown |
| `Sessions.CancelledPrompt` | src/auth-pam.c:167-188 | a prompt that gets no reply blocks the conversation; after `nodepamKill`, teardown takes the kill branch |
| `Sessions.StrayDeliveryThenPrompt` | src/auth-pam.c:27-37 | a reply delivered with no prompt outstanding, then a new prompt, leaves exactly the freshly armed mailbox; only the stray delivery's event is recorded, and a failed stray delivery's release stays in the trace |
| `CString.TextEndsAtNul` | src/auth-pam.c:32 | the copied text holds no NUL, and the character after it, if any, is the first NUL of the original |
| `CString.TextOfNulFree` | src/auth-pam.c:161 | a string without NUL is copied whole |
| `CString.TextIdempotent` | src/auth-pam.c:86 | copying an already copied C string changes nothing, so the slot copy of the stored reply is that reply |

## Left out

- Threads and locking: the `pthread` mutex, its lock, unlock and destroy, and the spin-waits at src/auth-pam.c:78-91 and 106-117 exist for concurrency. The wait is modelled as "the reply was delivered and `respFlag` is true".
- N-API: `napi_call_threadsafe_function` and `napi_release_threadsafe_function` are foreign runtime calls. They appear only as events in the ghost trace.
- The PAM library: `pam_start` and `pam_authenticate` are arguments of `Authenticate`, and `pam_end` is not modelled. PAM's calls of the conversation function happen inside `pam_authenticate`. They are modelled by `Conv` on its own and are not sequenced inside `Authenticate`. The flags `PAM_SILENT | PAM_DISALLOW_NULL_AUTHTOK` are not modelled.
- Signals and joins: `pthread_join` is recorded as the `Joined` event only. The kill branch calls `kill(ctx->thread, SIGTERM)` (line 170), which passes a `pthread_t` where `kill` expects a process id. What signal reaches which process is therefore not modelled: the `KillCalled` event records only that this branch ran, not that the worker stops.
- Use after free: `nodepamCleanup` frees the context at line 182 even on the kill branch, while the worker may still be spinning on it. The model keeps the context alive and does not capture that.
- NUL bytes: a reply or message is modelled as the text before its first NUL, as `strdup` copies it. The round-trip from a delivered reply to its slot is exact only for NUL-free replies (`PromptAnswerIsDelivered`).
- Memory: buffers are strings, and `free` is not modelled, nor are the frees and the clearing of `tsfn` in `nodepamCleanup`. So the model does not capture using or freeing a buffer that is already free.
- Allocation failure: failure of the response array and of the reply buffer are boolean inputs. Failure of `strdup` is not modelled. The source calls `memset` on `malloc`'s result before testing it for NULL (lines 60-61 and 152-154). As written, a failed allocation would fault inside `memset` before the test. The model follows the test.
- `responseSize` is not modelled. The zero-filled reply buffer kept for error and info styles is modelled as the empty string.
- The PAM library must pass `num_msg` readable messages when the count is in range (`BatchReadable`). A NULL `msg[i]` is not modelled.
- "The thread-safe function is released exactly once" is not claimed, because the code does not enforce it.
- The `malloc` leak in `prepareMessage` (lines 31-32) and the mutex left locked on the failure path of `nodepamSetResponse` (lines 154-157) are not modelled, and no property depends on them.
- `src/auth-pam.h` declares `nodepamTerminate`, but the source defines `nodepamKill`. The model follows the definition.
- The context is allocated by the addon's bindings, which are not part of this model. The constructor `AuthPam.Context` stands for that allocation, with zero and NULL fields.
