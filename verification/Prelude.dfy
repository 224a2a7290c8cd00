/** Small helpers shared by every module of the model. */
module Prelude {

  datatype Option<+T> = None | Some(value: T)

  /** What is compared after lowering is ASCII, so this is too. */
  function Lower(s: string): string {
    seq(|s|, i requires 0 <= i < |s| => if 'A' <= s[i] <= 'Z' then s[i] - 'A' + 'a' else s[i])
  }

  predicate StartsWith(s: string, prefix: string) {
    |prefix| <= |s| && s[..|prefix|] == prefix
  }

}
