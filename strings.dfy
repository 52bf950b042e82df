/** String helpers shared by the gate and the sidebar. */
module Strings {
  /** `s.startsWith(prefix)`: a raw character prefix, no segment boundary. */
  predicate StartsWith(s: string, prefix: string)
  {
    |prefix| <= |s| && s[..|prefix|] == prefix
  }
}
