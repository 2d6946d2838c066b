/** Values shared by every part of the model: Java's `null` as an absent
    option, the exceptions the library throws as an error datatype, and the
    few string helpers the library's checks rely on. */
module Common {

  /** A reference that may be `null` (None). */
  datatype Option<+T> = None | Some(value: T)

  /** The exceptions the modelled code throws, each with the message it is built with. */
  datatype Error =
    | IllegalArgument(message: string)      // java.lang.IllegalArgumentException
    | IllegalState(message: string)         // java.lang.IllegalStateException
    | FileNotFound                          // java.io.FileNotFoundException, thrown without a message
    | UniqueElementNotFound(message: string)

  /** The outcome of a call that either returns a value or throws. */
  datatype Result<+T> = Ok(value: T) | Err(error: Error)

  /** `s.endsWith(suffix)` of java.lang.String. */
  predicate EndsWith(s: string, suffix: string)
  {
    |suffix| <= |s| && s[|s| - |suffix|..] == suffix
  }

  /** `s.startsWith(prefix)` of java.lang.String. */
  predicate StartsWith(s: string, prefix: string)
  {
    |prefix| <= |s| && s[..|prefix|] == prefix
  }

  /** `m.containsKey(k) ? m.get(k) : new HashSet<>()`, the lookup the fixture's indices use. */
  function Lookup<K, V>(m: map<K, set<V>>, k: K): set<V>
  {
    if k in m then m[k] else {}
  }
}
