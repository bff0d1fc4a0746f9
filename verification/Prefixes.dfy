/** The two facts about prefixes that every loop over a sequence uses. */
module Prefixes {
  lemma {:induction false} PrefixGrows<T>(s: seq<T>, i: nat)
    requires i < |s|
    ensures s[..i + 1] == s[..i] + [s[i]]
  {
  }

  lemma {:induction false} PrefixIsWhole<T>(s: seq<T>)
    ensures s[..|s|] == s
  {
  }
}
