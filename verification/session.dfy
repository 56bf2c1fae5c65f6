/** The browser-local key-value store that holds the session between pages. */
module Session {

  /** `localStorage`, kept in memory. */
  type Store = map<string, string>

  const UserIdKey := "userId"
  const TokenKey := "token"
  const UsernameKey := "username"

  /** Keys cleared on logout. */
  const SessionKeys: set<string> := {UserIdKey, TokenKey, UsernameKey}

  /** Either both credentials are present or neither is. */
  predicate Paired(store: Store) {
    UserIdKey in store <==> TokenKey in store
  }

  /** `localStorage.getItem(key)` is neither null nor "". */
  predicate HasValue(store: Store, key: string) {
    key in store && store[key] != ""
  }
}
