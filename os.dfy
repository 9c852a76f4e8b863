/** The process environment and the host facts the core reads. */
module Os {
  import opened Wrappers
  import opened Strconv

  /** A snapshot of the environment, fixed for the duration of one call. */
  type Env = map<string, string>

  /**
   * os.LookupEnv: the variable's value, or nothing when it is unset. Go's
   * syscall.Getenv reports an empty name as unset, even when the raw
   * environment holds an entry "=v" that the map stores under the key "".
   */
  function LookupEnv(env: Env, k: string): (r: Option<string>)
    ensures r.Some? <==> k != "" && k in env
    ensures r.Some? ==> r.value == env[k]
  {
    if k != "" && k in env then Some(env[k]) else None
  }

  /** The variable named k is set, as os.LookupEnv sees it. */
  predicate Present(env: Env, k: string)
  {
    k != "" && k in env
  }

  /** The environment, bits.UintSize and strconv.ParseFloat of the running program. */
  datatype Host = Host(env: Env, uintSize: UintSize, parseFloat: FloatParser)
}
