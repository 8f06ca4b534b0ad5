/** Small shared vocabulary: optional values, string prefixes and the
    JavaScript truthiness test that the handlers apply to request fields. */
module Common {

  datatype Option<+T> = None | Some(value: T)

  /** `s.startsWith(prefix)` */
  predicate StartsWith(s: string, prefix: string)
  {
    |prefix| <= |s| && s[..|prefix|] == prefix
  }

  /** An optional string field is truthy in JavaScript exactly when it is
      present and non-empty (`undefined`, `null` and `""` are falsy). */
  predicate Truthy(v: Option<string>)
  {
    v.Some? && v.value != ""
  }

  /** The claims of a verified session token (`sub` and `email`). */
  datatype Payload = Payload(sub: string, email: string)

  lemma PrefixTransitive(s: string, p: string, q: string)
    requires StartsWith(s, p) && StartsWith(p, q)
    ensures StartsWith(s, q)
  {
    assert s[..|q|] == s[..|p|][..|q|];
  }

  /** Two prefixes that differ at some position cannot both start `s`. */
  lemma PrefixesExclude(s: string, p: string, q: string, i: nat)
    requires i < |p| && i < |q| && p[i] != q[i]
    requires StartsWith(s, p)
    ensures !StartsWith(s, q)
  {
    assert s[i] == s[..|p|][i];
  }

  lemma PrefixExtend(s: string, t: string, p: string)
    requires StartsWith(s, p)
    ensures StartsWith(s + t, p)
  {
    assert (s + t)[..|p|] == s[..|p|];
  }
}
