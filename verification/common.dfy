/**
  Shared vocabulary of the model: Java's nullable references as `Option`,
  the `trim`-based blankness test the wizard steps use, the way Java's
  string concatenation prints a null reference, and substring containment
  (used to state what the failure messages embed).
 */
module Common {

  /** A nullable Java reference: `None` is `null`. */
  datatype Option<+T> = None | Some(value: T)

  /** Java's `String.trim()` treats every char at or below U+0020 as white space. */
  predicate IsTrimmable(c: char) {
    c <= ' '
  }

  /** Drops the leading trimmable chars: what remains is a suffix of `s`. */
  function TrimLeading(s: string): (r: string)
    ensures |r| <= |s| && r == s[|s| - |r|..]
    ensures |r| > 0 ==> !IsTrimmable(r[0])
    ensures forall i :: 0 <= i < |s| - |r| ==> IsTrimmable(s[i])
  {
    if |s| > 0 && IsTrimmable(s[0]) then TrimLeading(s[1..]) else s
  }

  /** Drops the trailing trimmable chars: what remains is a prefix of `s`. */
  function TrimTrailing(s: string): (r: string)
    ensures |r| <= |s| && r == s[..|r|]
    ensures |r| > 0 ==> !IsTrimmable(r[|r| - 1])
    ensures forall i :: |r| <= i < |s| ==> IsTrimmable(s[i])
  {
    if |s| > 0 && IsTrimmable(s[|s| - 1]) then TrimTrailing(s[..|s| - 1]) else s
  }

  /** Java's `String.trim()`: both ends stripped of trimmable chars. */
  function Trim(s: string): (r: string)
    ensures |r| <= |s|
    ensures |r| > 0 ==> !IsTrimmable(r[0]) && !IsTrimmable(r[|r| - 1])
  {
    TrimTrailing(TrimLeading(s))
  }

  /**
    The `Strings.isNotBlank` test of the fabric8 utilities: the reference is
    not null and trimming leaves something.
   */
  predicate IsNotBlank(s: Option<string>) {
    s.Some? && |Trim(s.value)| > 0
  }

  /** A string is blank exactly when every char in it is trimmable. */
  lemma {:induction false} BlankIffAllTrimmable(s: string)
    ensures |Trim(s)| == 0 <==> forall i :: 0 <= i < |s| ==> IsTrimmable(s[i])
  {
  }

  /** How Java's `+` on strings prints a possibly-null string. */
  function Show(s: Option<string>): string {
    match s
    case None => "null"
    case Some(t) => t
  }

  /** `sub` occurs in `s` starting at index `i`. */
  predicate OccursAt(s: string, sub: string, i: int) {
    0 <= i <= |s| - |sub| && s[i..i + |sub|] == sub
  }

  /** `sub` occurs somewhere inside `s`. */
  ghost predicate Contains(s: string, sub: string) {
    exists i :: OccursAt(s, sub, i)
  }

  /** A string built around `mid` contains `mid`. */
  lemma ContainsMiddle(pre: string, mid: string, post: string)
    ensures Contains(pre + mid + post, mid)
  {
    var s := pre + mid + post;
    assert s[|pre|..|pre| + |mid|] == mid;
    assert OccursAt(s, mid, |pre|);
  }
}
