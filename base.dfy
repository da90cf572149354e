/** Shared value types: optional JavaScript values, the errors the hook
    scripts can raise, and a few sequence predicates used throughout. */
module Base {

  /** A JavaScript value that may be `undefined`/`null` (None). */
  datatype Option<T> = None | Some(value: T)

  /** The failures the modelled code paths can run into. */
  datatype Error =
    | NoPlatformsDirectory          // the `platforms` directory does not exist
    | MissingRootDict               // `getItem(0)` of the plist root is undefined
    | ArrayNodeNotFound(key: string)  // `findArrayNode` returned null, `node.clear()` throws
    | VersionNodeNotFound           // no node follows `CFBundleVersion`, `theNode.text` throws

  datatype Result<T> = Ok(value: T) | Err(error: Error)

  /** JavaScript truthiness of an optional string: present and non-empty. */
  predicate Truthy(s: Option<string>) {
    s.Some? && s.value != ""
  }

  predicate EndsWith(s: string, suffix: string) {
    |suffix| <= |s| && s[|s| - |suffix|..] == suffix
  }

  /** `a` can be obtained from `b` by deleting elements: order is kept. */
  predicate IsSubsequence<T(==)>(a: seq<T>, b: seq<T>)
    decreases |b|
  {
    |a| == 0 ||
    (|b| > 0 && ((a[0] == b[0] && IsSubsequence(a[1..], b[1..])) || IsSubsequence(a, b[1..])))
  }

  lemma {:induction false} SubsequenceRefl<T>(a: seq<T>)
    ensures IsSubsequence(a, a)
    decreases |a|
  {
    if |a| > 0 {
      SubsequenceRefl(a[1..]);
    }
  }

  lemma {:induction false} SubsequenceTrans<T>(a: seq<T>, b: seq<T>, c: seq<T>)
    requires IsSubsequence(a, b) && IsSubsequence(b, c)
    ensures IsSubsequence(a, c)
    decreases |c|
  {
    if |a| > 0 {
      if b[0] == c[0] && IsSubsequence(b[1..], c[1..]) {
        if a[0] == b[0] && IsSubsequence(a[1..], b[1..]) {
          SubsequenceTrans(a[1..], b[1..], c[1..]);
        } else {
          SubsequenceTrans(a, b[1..], c[1..]);
        }
      } else {
        SubsequenceTrans(a, b, c[1..]);
      }
    }
  }

  /** The characters JavaScript's `.` does not match and `$` stops at. */
  predicate IsLineTerminator(c: char) {
    c == '\n' || c == '\r' || c == '\U{2028}' || c == '\U{2029}'
  }
}
