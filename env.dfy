/** The process environment, passed in as a value instead of read from `os.environ`. */
module Environment {
  import opened Wrappers

  /** Environment variables by name. */
  type Env = map<string, string>

  /** `if os.environ.get(name):` holds: the variable exists and is not empty. */
  predicate IsSet(env: Env, name: string) {
    name in env && env[name] != ""
  }

  /** Python truthiness of an optional string argument. */
  predicate Given(arg: Option<string>) {
    arg.Some? && arg.value != ""
  }
}
