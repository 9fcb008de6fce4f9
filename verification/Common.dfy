/** Values shared by every module: optional values, results with the framework's
    error codes, the clock resolution and Python's notion of a blank string. */
module Common {

  datatype Option<+T> = None | Some(value: T)

  /** The error codes that the modelled operations raise. */
  datatype AppError =
    | ValidationError
    | Conflict
    | KeyConflict
    | InProgress(retryAfter: int)
    | LockNotAcquired
    | NotFound
    | NoHandler
    | QuotaExceeded
    | TenantContextConflict
    | IntegrityError
    | ValueError
    | HandlerRaised(name: string, message: string)

  datatype Result<+T> = Ok(value: T) | Err(error: AppError)

  /** A `timedelta(seconds=n)` on the integer clock, whose ticks are microseconds. */
  function Seconds(n: int): int {
    n * 1_000_000
  }

  function Max(a: int, b: int): int {
    if a < b then b else a
  }

  function Min(a: int, b: int): int {
    if a < b then a else b
  }

  /** The characters that `str.strip` removes. */
  predicate IsSpace(c: char) {
    || '\U{0009}' <= c <= '\U{000D}'
    || '\U{001C}' <= c <= '\U{0020}'
    || c == '\U{0085}' || c == '\U{00A0}' || c == '\U{1680}'
    || '\U{2000}' <= c <= '\U{200A}'
    || c == '\U{2028}' || c == '\U{2029}' || c == '\U{202F}' || c == '\U{205F}' || c == '\U{3000}'
  }

  /** True of the strings whose `strip()` is empty. */
  predicate Blank(s: string) {
    forall i | 0 <= i < |s| :: IsSpace(s[i])
  }

  function Elements(s: seq<string>): set<string> {
    set x | x in s
  }

  predicate Distinct(s: seq<string>) {
    forall i, j | 0 <= i < j < |s| :: s[i] != s[j]
  }

  predicate Increasing(s: seq<int>) {
    forall i, j | 0 <= i < j < |s| :: s[i] < s[j]
  }

  /** A column after a write: a value that equals the one read is not sent. */
  function Sent<T(==)>(current: T, read: T, target: T): T {
    if target == read then current else target
  }
}
