/** Values shared by every component: optional values, results, thrown
    JavaScript errors, truthiness of optional strings and substring search. */
module Common {

  datatype Option<+T> = None | Some(value: T)

  datatype Result<+T, +E> = Ok(value: T) | Err(error: E)

  datatype Outcome<+E> = Pass | Fail(error: E)

  /** A thrown JavaScript value as the callers read it: `error.status`,
      `error.name`, `error.message` and `error.details`, each possibly
      `undefined`. */
  datatype JsError = JsError(status: Option<int>, name: Option<string>,
                             message: Option<string>, details: Option<map<string, string>>)

  /** `new Error(message)`: its name is "Error"; it has no status and no details. */
  function Error(message: string): JsError
  {
    JsError(None, Some("Error"), Some(message), None)
  }

  /** JavaScript truthiness of a value that is a string or `undefined`:
      `undefined` and `''` are falsy. */
  predicate Truthy(s: Option<string>)
  {
    s.Some? && s.value != ""
  }

  /** `s || ''` */
  function OrEmpty(s: Option<string>): string
  {
    if s.Some? then s.value else ""
  }

  /** Template-string interpolation `${s}` of a string or `undefined`. */
  function Interpolate(s: Option<string>): string
  {
    if s.Some? then s.value else "undefined"
  }

  /** `t` occurs in `s` at offset `i`. */
  predicate OccursAt(s: string, t: string, i: int)
  {
    0 <= i && i + |t| <= |s| && s[i..i + |t|] == t
  }

  /** `s.includes(t)`: `t` occurs at some offset of `s`. */
  predicate Includes(s: string, t: string)
  {
    exists i :: 0 <= i <= |s| - |t| && OccursAt(s, t, i)
  }

  /** A string holding a character that `s` lacks does not occur in `s`. */
  lemma CharAbsentNotIncluded(s: string, t: string, c: char)
    requires c in t && c !in s
    ensures !Includes(s, t)
  {
    var k :| 0 <= k < |t| && t[k] == c;
    forall i | 0 <= i <= |s| - |t| ensures !OccursAt(s, t, i) {
      assert s[i..i + |t|][k] == s[i + k] != c;
    }
  }
}
