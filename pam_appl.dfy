/**
 * The part of the PAM application interface (<security/pam_appl.h>) that the
 * conversation function relies on. The values are those of Linux-PAM.
 */
module PamAppl {
  import opened Wrappers

  // Return codes (Linux-PAM numbers them 0 .. 31).
  const PAM_SUCCESS: int := 0
  const PAM_AUTH_ERR: int := 7
  const PAM_CONV_ERR: int := 19
  const PAM_RETURN_VALUES: int := 32

  /** Largest number of messages PAM passes to one conversation call. */
  const PAM_MAX_NUM_MSG: int := 32

  // Message styles.
  const PAM_PROMPT_ECHO_OFF: int := 1
  const PAM_PROMPT_ECHO_ON: int := 2
  const PAM_ERROR_MSG: int := 3
  const PAM_TEXT_INFO: int := 4

  /** A code that pam_start or pam_authenticate can return. */
  predicate IsPamCode(code: int) {
    0 <= code < PAM_RETURN_VALUES
  }

  /** Styles that ask the user for a reply. */
  predicate IsPrompt(style: int) {
    style == PAM_PROMPT_ECHO_OFF || style == PAM_PROMPT_ECHO_ON
  }

  /** Styles that only show text to the user. */
  predicate IsText(style: int) {
    style == PAM_ERROR_MSG || style == PAM_TEXT_INFO
  }

  predicate KnownStyle(style: int) {
    IsPrompt(style) || IsText(style)
  }

  /** struct pam_message */
  datatype PamMessage = PamMessage(style: int, msg: string)

  /** struct pam_response; `resp` is None for a NULL pointer. */
  datatype PamResponse = PamResponse(resp: Option<string>, retcode: int)

  /** A response slot as the zero-filled allocation leaves it. */
  const ZeroResponse: PamResponse := PamResponse(None, 0)
}
