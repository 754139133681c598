/** Names shared by every module of the model. */
module Types {
  datatype Option<+T> = None | Some(value: T)

  datatype Result<+T, +E> = Ok(value: T) | Err(error: E)

  type UserId = nat
  type SessionId = nat
  type PermissionId = nat

  /** SHA-256 of a refresh token; the hash is taken as injective, so it stands for the token itself. */
  type Hash = nat

  /** Instants and durations are integer ticks of one non-decreasing clock. */
  type Time = nat

  const SECOND: nat := 1_000_000

  const MINUTE: nat := 60 * SECOND

  const HOUR: nat := 60 * MINUTE

  datatype User = User(name: string, email: string, passwordHash: string, roleId: Option<nat>, active: bool)
}
