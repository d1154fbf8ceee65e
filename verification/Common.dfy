/** What several parts share: options, bytes, session ids and the error codes of const.h. */
module Common {

  datatype Option<+T> = None | Some(value: T)

  type byte = b: int | 0 <= b < 256

  /** A session id; a random uuid, taken as unique. */
  type Sid = nat

  const SUCCESS := 0
  const CHAT_NOT_FRIEND := 1101
  const CHAT_TARGET_OFFLINE := 1102
  const CHAT_DATA_INVALID := 1103
  const CHAT_DATABASE_FAILED := 1104
}
