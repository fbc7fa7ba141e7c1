/** String helpers shared by the bundle model; strings are `seq<char>`. */
module Strings {

  /** `String.startsWith`: `prefix` is an initial segment of `s`. */
  predicate StartsWith(s: string, prefix: string) {
    |prefix| <= |s| && s[..|prefix|] == prefix
  }

  /** The rest of `s` after `prefix`, when `s` starts with it. */
  function StripPrefix(s: string, prefix: string): (r: string)
    requires StartsWith(s, prefix)
    ensures prefix + r == s
    ensures |r| == |s| - |prefix|
  {
    assert s == s[..|prefix|] + s[|prefix|..];
    s[|prefix|..]
  }

  lemma StartsWithConcat(prefix: string, rest: string)
    ensures StartsWith(prefix + rest, prefix)
    ensures StripPrefix(prefix + rest, prefix) == rest
  {
  }
}
