/** The values every part of the service exchanges: rows, aliases, roles, errors, and the
    64-bit arithmetic of the host language. */
module Entities {

  type Alias = string
  type Bytes = seq<bv8>
  type Role = string

  const ROLE_USER: Role := "user"
  const ROLE_VIP: Role := "vip"
  const ROLE_ADMIN: Role := "admin"

  /** One row of table `files`; its alias is the key of the table map. */
  datatype Row = Row(
    name: string,
    size: int,
    left: int,
    loadedAt: int,
    expiresAt: int,
    hash: string,
    owner: int)

  /** What an upload request asks for; `bytes` is the content of its file. */
  datatype UploadCommand = UploadCommand(
    bytes: Bytes,
    name: string,
    size: int,
    max: int,
    ttl: int,
    password: string,
    user: int,
    roles: seq<Role>)

  /** The most rows one sweep takes. */
  const BATCH_LIMIT: nat := 100

  datatype Option<+T> = None | Some(value: T)

  datatype Result<+T, +E> = Ok(value: T) | Err(error: E)

  /** The errors the service distinguishes; `Other` is any error of a driver, a context or the disk. */
  datatype Error =
    | AliasTaken
    | FileNotFound
    | NoDownloadsLeft
    | FileSizeTooBig
    | UploadLimitExceeded
    | Forbidden
    | FilePasswordRequired
    | FilePasswordInvalid
    | Other(code: int)

  const MAX_INT64: int := 0x7FFF_FFFF_FFFF_FFFF
  const TWO_TO_THE_64: int := 0x1_0000_0000_0000_0000

  predicate InInt64(x: int) {
    -MAX_INT64 - 1 <= x <= MAX_INT64
  }

  /** Two's-complement wrap-around of a mathematical result into int64. */
  function Wrap64(x: int): (r: int)
    ensures -0x8000_0000_0000_0000 <= r <= 0x7FFF_FFFF_FFFF_FFFF
    ensures (r - x) % 0x1_0000_0000_0000_0000 == 0
    ensures -0x8000_0000_0000_0000 <= x <= 0x7FFF_FFFF_FFFF_FFFF ==> r == x
  {
    var m := x % TWO_TO_THE_64;
    if m <= MAX_INT64 then m else m - TWO_TO_THE_64
  }

  /** `n` times `x`, as a sum. */
  function Times(n: nat, x: int): int {
    if n == 0 then 0 else Times(n - 1, x) + x
  }

  lemma {:induction false} TimesIsProduct(n: nat, x: int)
    ensures Times(n, x) == n * x
    decreases n
  {
    if n > 0 {
      TimesIsProduct(n - 1, x);
      OneMore(n - 1, x);
    }
  }

  lemma OneMore(n: int, x: int)
    ensures (n + 1) * x == n * x + x
  {
  }

  lemma {:induction false} TimesGrows(n: nat, m: nat, x: int)
    requires n <= m && x >= 0
    ensures 0 <= Times(n, x) <= Times(m, x)
    decreases m
  {
    if n < m {
      TimesGrows(n, m - 1, x);
    } else if n > 0 {
      TimesGrows(n - 1, m - 1, x);
    }
  }

  lemma WrapOfProduct(n: nat, m: nat)
    ensures n * m >= 0
    ensures Wrap64(n * m) == n * m <==> n * m <= MAX_INT64
  {
    WrapIsExactInRange(n * m);
  }

  /** A non-negative result survives the wrap exactly when it is in range. */
  lemma WrapIsExactInRange(x: nat)
    ensures Wrap64(x) == x <==> x <= MAX_INT64
  {
  }
}
