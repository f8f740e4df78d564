/**
 * Record shapes shared by the modelled routes and helpers (lib/types.ts).
 * Database ids (`bigint`) are unbounded integers.
 */
module Types {

  /** A role row: `Role` in lib/types.ts. */
  datatype Role = Role(id: int, code: string, name: string, status: int)

  /** A permission row: `Permission` in lib/types.ts (its `module` field is `moduleName`, `module` being a Dafny keyword). */
  datatype Permission = Permission(id: int, code: string, name: string, moduleName: string, action: string)

  /** What a bearer token carries: `JwtPayload` in lib/types.ts. */
  datatype JwtPayload = JwtPayload(userId: string, username: string, roles: seq<string>)
}
