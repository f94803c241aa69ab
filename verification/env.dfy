/** The process environment, passed in as an immutable map instead of being
    read through `os.getenv`. */
module Env {
  import opened Wrappers

  type Env = map<string, string>

  /** `os.getenv(name)`. */
  function Getenv(env: Env, name: string): Option<string> {
    if name in env then Some(env[name]) else None
  }

  /** `os.getenv(name, default)`: the default only when the variable is unset. */
  function GetenvOr(env: Env, name: string, default: string): string {
    Getenv(env, name).GetOr(default)
  }

  /** Python truthiness of an optional string: set and non-empty. */
  predicate Truthy(v: Option<string>) {
    v.Some? && v.value != ""
  }
}
