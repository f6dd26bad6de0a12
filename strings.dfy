/** Small facts about strings shared by the URL and path modules. */
module Strings {

  /** `r` is a suffix of `p`. */
  predicate IsSuffix(r: string, p: string) {
    |r| <= |p| && r == p[|p| - |r|..]
  }
}
