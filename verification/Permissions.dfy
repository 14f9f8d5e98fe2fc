/** The permission test that the outbox panels share. */
module Permissions {

  predicate Can(permissions: set<string>, permission: string) {
    "*" in permissions || permission in permissions
  }
}
