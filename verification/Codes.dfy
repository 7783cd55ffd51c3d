/** The numeric constants of the mailbox module. */
module Codes {
  const MAILBOX_FULL := 1001
  const MAILBOX_EMPTY := 1002
  const MAILBOX_STOPPED := 1003
  const MAILBOX_INVALID := 1004
  const MSG_LENGTH_ERROR := 1005
  const MSG_ARG_ERROR := 1006
  const MAILBOX_ERROR := 1007

  const STOPPED := 1
  const EXITING := 2
  /** EXITING | STOPPED */
  const EXITING_AND_STOPPED := 3

  const MAX_MSG_SIZE := 128
  /** message_max, set when a mailbox is created */
  const CAPACITY := 32

  /** stopped & EXITING */
  predicate HasExiting(word: int) {
    (word / EXITING) % 2 == 1
  }
}
