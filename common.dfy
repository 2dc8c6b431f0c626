/** Values shared by every route: optional values, JavaScript truthiness of
    request fields, and the two string tests the handlers use
    (`String.prototype.startsWith` and `String.prototype.includes`). */
module Common {

  datatype Option<T> = None | Some(value: T)

  /** The outcome of a collaborator call that either yields a value or
      throws with a message. */
  datatype Result<T> = Ok(value: T) | Err(msg: string)

  /** A JSON request field that holds a string: `None` is an absent (or
      null) field. In JavaScript both that and the empty string are falsy. */
  predicate Falsy(field: Option<string>)
    ensures !Falsy(field) <==> field.Some? && |field.value| > 0
  {
    field.None? || field.value == ""
  }

  /** `s.startsWith(prefix)` */
  predicate StartsWith(s: string, prefix: string) {
    |prefix| <= |s| && s[..|prefix|] == prefix
  }

  /** `sub` occurs in `s` starting at position `i`. */
  predicate OccursAt(s: string, sub: string, i: int) {
    0 <= i <= |s| - |sub| && s[i..i + |sub|] == sub
  }

  /** `s.includes(sub)`: `sub` occurs somewhere in `s`. */
  predicate Contains(s: string, sub: string) {
    exists i | 0 <= i <= |s| :: OccursAt(s, sub, i)
  }

  /** An occurrence in `m` is still one once text is put around `m`. */
  lemma ContainsWithin(a: string, m: string, c: string, sub: string)
    requires Contains(m, sub)
    ensures Contains(a + m + c, sub)
  {
    var i :| 0 <= i <= |m| && OccursAt(m, sub, i);
    assert 0 <= i <= |m| - |sub| && m[i..i + |sub|] == sub;
    var s := a + m + c;
    assert s[|a| + i..|a| + i + |sub|] == m[i..i + |sub|];
    assert OccursAt(s, sub, |a| + i);
  }

  /** A string occurs in every text built around it. */
  lemma ContainsInfix(a: string, sub: string, c: string)
    ensures Contains(a + sub + c, sub)
  {
    var s := a + sub + c;
    assert s[|a|..|a| + |sub|] == sub;
    assert OccursAt(s, sub, |a|);
  }
}
