/** Values shared by every service: optional values (Java's nullable
    references and Optional), the exceptions the services throw, and roles. */
module Common {

  /** A Java reference that may be null, or a repository's Optional result. */
  datatype Option<T> = None | Some(value: T)

  /** The exception classes a service request can end in. */
  datatype ErrorKind =
    | NullPointer     // java.lang.NullPointerException, thrown explicitly by signup
    | InvalidRequest  // InvalidRequestException, the common validation failure
    | Auth            // AuthException, a credential mismatch at signin

  /** A thrown exception: its class and the message the caller sees. */
  datatype Error = Error(kind: ErrorKind, message: string)

  /** Either the value a service returns or the exception it throws. */
  datatype Result<T> = Ok(value: T) | Err(error: Error)

  /** UserRole: an ordinary user or an administrator. */
  datatype UserRole = USER | ADMIN
}

/** java.lang.String.trim and the blank test signup builds on it. */
module JavaText {

  /** String.trim drops every leading and trailing char whose code is at most U+0020. */
  predicate IsTrimmable(c: char)
  {
    c <= ' '
  }

  /** How many leading chars of `s` trim drops. */
  function LeadCount(s: string): (n: nat)
    ensures n <= |s|
    ensures forall i :: 0 <= i < n ==> IsTrimmable(s[i])
    ensures n == |s| || !IsTrimmable(s[n])
  {
    if s != [] && IsTrimmable(s[0]) then 1 + LeadCount(s[1..]) else 0
  }

  /** How many trailing chars of `s` trim drops. */
  function TrailCount(s: string): (n: nat)
    ensures n <= |s|
    ensures forall i :: |s| - n <= i < |s| ==> IsTrimmable(s[i])
    ensures n == |s| || !IsTrimmable(s[|s| - n - 1])
  {
    if s != [] && IsTrimmable(s[|s| - 1]) then 1 + TrailCount(s[..|s| - 1]) else 0
  }

  /** String.trim: the slice of the input left once its leading and trailing
      trimmable chars are dropped; when not empty it starts and ends with a
      char trim keeps. These two facts fix the result for every input. */
  function Trim(s: string): (r: string)
    ensures exists a, b ::
      && 0 <= a <= b <= |s| && r == s[a..b]
      && (forall i :: 0 <= i < a ==> IsTrimmable(s[i]))
      && (forall i :: b <= i < |s| ==> IsTrimmable(s[i]))
    ensures r != [] ==> !IsTrimmable(r[0]) && !IsTrimmable(r[|r| - 1])
  {
    var a := LeadCount(s);
    var b := if a == |s| then a else |s| - TrailCount(s);
    s[a..b]
  }

  /** `s.trim().isEmpty()`. */
  predicate IsBlank(s: string)
  {
    Trim(s) == []
  }

  /** A string is blank exactly when it holds no char above U+0020. */
  lemma BlankIffAllTrimmable(s: string)
    ensures IsBlank(s) <==> forall i :: 0 <= i < |s| ==> IsTrimmable(s[i])
  {
  }
}
