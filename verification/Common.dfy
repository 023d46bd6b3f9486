/** Datatypes shared by the modules of the project. */
module Common {
  datatype Option<+T> = None | Some(value: T)

  datatype Result<+T, +E> = Ok(value: T) | Err(error: E)

  /** UUIDs as 128-bit numbers: their canonical lower-case text has a fixed width, so
      text order and numeric order agree. */
  type Uuid = nat

  /** contracts/v1.py TenantScope. */
  datatype Scope = Scope(tenant: Uuid, project: Uuid, user: Uuid, roles: seq<string>, permissionVersion: string)

  /** What the scope contract demands: at least one role and a permission version. */
  predicate ValidScope(s: Scope) {
    s.roles != [] && 1 <= |s.permissionVersion| <= 128
  }

  /** One component of the flat tuples the sources use as dictionary keys. */
  datatype KeyPart = KeyId(id: Uuid) | KeyText(text: string)

  function ScopeKey(s: Scope): seq<KeyPart> {
    [KeyId(s.tenant), KeyId(s.project), KeyId(s.user), KeyText(s.permissionVersion)]
    + seq(|s.roles|, i requires 0 <= i < |s.roles| => KeyText(s.roles[i]))
  }
}
