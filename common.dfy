/** Values shared by every service: optional values, the two exception kinds the
    services throw, a failure-compatible result type, and the string tests the
    services use on user input (Spring's StringUtils.hasText, String.toUpperCase). */
module Common {

  /** A Java reference that may be null. */
  datatype Option<+T> = None | Some(value: T)

  /** NotFoundException and BadRequestException, the only exceptions the core throws. */
  datatype Error = NotFound | BadRequest

  /** The outcome of a service call: the value it returns or the exception it throws.
      Failure-compatible, so a method can write `var x :- Lookup(...);`. */
  datatype Result<+T> = Ok(value: T) | Err(error: Error) {
    predicate IsFailure() { Err? }

    function PropagateFailure<U>(): Result<U>
      requires Err?
    {
      Err(error)
    }

    function Extract(): T
      requires Ok?
    {
      value
    }
  }

  /** The HTTP status the global exception handler answers with for each error kind. */
  function HttpStatus(e: Error): (code: int)
    ensures code == 404 <==> e == NotFound
    ensures code == 400 <==> e == BadRequest
  {
    match e
    case NotFound => 404
    case BadRequest => 400
  }

  /** Java's Character.isWhitespace: the ASCII control whitespace, the information
      separators U+001C..U+001F, and the Unicode space, line and paragraph separators
      other than the non-breaking ones (U+00A0, U+2007, U+202F). */
  predicate IsWhitespace(c: char) {
    || c == ' '
    || ('\t' <= c <= '\r')
    || ('\U{1C}' <= c <= '\U{1F}')
    || c == '\U{1680}'
    || ('\U{2000}' <= c <= '\U{2006}')
    || ('\U{2008}' <= c <= '\U{200A}')
    || c == '\U{2028}'
    || c == '\U{2029}'
    || c == '\U{205F}'
    || c == '\U{3000}'
  }

  /** StringUtils.hasText: the value is non-null and holds a non-whitespace character.
      Its negation on a non-null string is Java's String.isBlank. */
  predicate HasText(s: Option<string>) {
    s.Some? && exists i :: 0 <= i < |s.value| && !IsWhitespace(s.value[i])
  }

  lemma HasTextCases(s: string)
    ensures !HasText(None)
    ensures |s| == 0 ==> !HasText(Some(s))
    ensures (forall i :: 0 <= i < |s| ==> IsWhitespace(s[i])) <==> !HasText(Some(s))
  {
  }

  /** String.toUpperCase restricted to ASCII letters; every other character is kept. */
  function UpperChar(c: char): (u: char)
    ensures 'a' <= c <= 'z' ==> 'A' <= u <= 'Z' && u as int == c as int - 32
    ensures !('a' <= c <= 'z') ==> u == c
    ensures !('a' <= u <= 'z')
  {
    if 'a' <= c <= 'z' then (c as int - 32) as char else c
  }

  function ToUpper(s: string): (u: string)
    ensures |u| == |s|
    ensures forall i :: 0 <= i < |s| ==> u[i] == UpperChar(s[i])
  {
    seq(|s|, i requires 0 <= i < |s| => UpperChar(s[i]))
  }

  /** Upper-casing twice is upper-casing once, so a name already in upper case is kept. */
  lemma ToUpperIdempotent(s: string)
    ensures ToUpper(ToUpper(s)) == ToUpper(s)
  {
  }
}
