/**
 * The logged-in user record (`current_user`) the boss-only operations
 * consult: its role and the store it is working in. A missing key and a
 * falsy value (0, the empty string) are treated alike, as the code's
 * `if not ...` tests do.
 */
module Session {
  import opened Wrappers

  datatype CurrentUser = CurrentUser(id: int, role: string, storeId: Option<int>, storeCode: Option<string>)

  predicate IsBoss(u: CurrentUser) {
    u.role == "boss"
  }

  /** `current_store_id` is present and truthy. */
  predicate HasStore(u: CurrentUser) {
    u.storeId.Some? && u.storeId.value != 0
  }

  /** `current_store_code` is present and truthy. */
  predicate HasStoreCode(u: CurrentUser) {
    u.storeCode.Some? && u.storeCode.value != ""
  }
}
