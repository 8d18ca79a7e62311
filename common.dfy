/** Small shared vocabulary: optional values, the `{ ok, message, error }`
    objects the server actions return, and JavaScript truthiness of strings. */
module Common {

  datatype Option<+T> = None | Some(value: T) {
    function GetOr(default: T): T {
      match this
      case Some(v) => v
      case None => default
    }
  }

  /** The plain object a server action returns. `message` and `error` are
      optional properties: an action sets one, the other, or neither. */
  datatype ActionResult = ActionResult(ok: bool, message: Option<string>, error: Option<string>)

  function Succeeded(message: string): ActionResult {
    ActionResult(true, Some(message), None)
  }

  function FailedWithError(error: string): ActionResult {
    ActionResult(false, None, Some(error))
  }

  function FailedWithMessage(message: string): ActionResult {
    ActionResult(false, Some(message), None)
  }

  /** `a || b` on optional strings: the first operand when it is a non-empty string. */
  function OrElse(s: Option<string>, fallback: string): string {
    if s.Some? && s.value != "" then s.value else fallback
  }

  /** JavaScript's `\s` class (WhiteSpace and LineTerminator code points). */
  predicate IsSpace(c: char) {
    c == '\t' || c == '\n' || c == '\U{000B}' || c == '\U{000C}' || c == '\r' || c == ' '
    || c == '\U{00A0}' || c == '\U{1680}' || ('\U{2000}' <= c <= '\U{200A}')
    || c == '\U{2028}' || c == '\U{2029}' || c == '\U{202F}' || c == '\U{205F}'
    || c == '\U{3000}' || c == '\U{FEFF}'
  }

  function Min(a: int, b: int): int { if a <= b then a else b }
  function Max(a: int, b: int): int { if a >= b then a else b }
}
