/** Shared vocabulary of the backend and frontend models: optional values,
    thrown errors as results, validation issues, HTTP replies and the few
    string operations the source relies on (`includes`, `replace`). */
module Base {

  datatype Option<+T> = None | Some(value: T) {
    function GetOr(default: T): T {
      match this
      case Some(v) => v
      case None => default
    }
  }

  /** A call that either returns a value or throws an `Error` carrying a message. */
  datatype Result<+T> = Ok(value: T) | Err(message: string)

  /** One issue reported by a schema validator: the field path and its message. */
  datatype Issue = Issue(path: string, message: string)

  /** Outcome of parsing a request body against a schema. */
  datatype Parsed<+T> = Valid(value: T) | Invalid(issues: seq<Issue>)

  /** The JSON body of an HTTP reply: data on success, a message otherwise. */
  datatype Body<+T> = Payload(data: T) | Note(text: string) | Problem(text: string)

  datatype Reply<+T> = Reply(status: int, body: Body<T>)

  /** Messages of errors raised by the database layer itself. Their wording
      belongs to the object-mapping library and is not modelled. */
  const RecordNotFound: string := "Record not found"
  const UniqueViolation: string := "Unique constraint failed"
  const ForeignKeyViolation: string := "Foreign key constraint failed"

  /** Built-in messages of the schema library for checks without a custom message. */
  const Required: string := "Required"
  const InvalidDatetime: string := "Invalid datetime"
  const TooLong100: string := "String must contain at most 100 character(s)"
  const TooShort1: string := "String must contain at least 1 character(s)"

  /** A value in single quotes, as the schema library quotes it in a message. */
  function Quote(s: string): string {
    "'" + s + "'"
  }

  /** The enum options as the schema library lists them in a message: each
      quoted, separated by " | ". */
  function QuotedOptions(options: seq<string>): string {
    if options == [] then ""
    else if |options| == 1 then Quote(options[0])
    else Quote(options[0]) + " | " + QuotedOptions(options[1..])
  }

  /** The schema library's built-in message for a string outside an enum. */
  function EnumMessage(options: seq<string>, received: string): string {
    "Invalid enum value. Expected " + QuotedOptions(options) + ", received " + Quote(received)
  }

  /** A string's length as JavaScript's `length` counts it, and so as the
      schema library's `min` and `max` checks measure it: in UTF-16 code
      units, two for a character outside the Basic Multilingual Plane. */
  function Utf16Length(s: string): (n: nat)
    ensures |s| <= n <= 2 * |s|
    ensures n == 0 <==> s == []
  {
    if s == [] then 0 else (if s[0] as int >= 0x1_0000 then 2 else 1) + Utf16Length(s[1..])
  }

  /** A string of Basic Multilingual Plane characters has one code unit per
      character. */
  lemma {:induction false} BmpLength(s: string)
    requires forall i :: 0 <= i < |s| ==> s[i] as int < 0x1_0000
    ensures Utf16Length(s) == |s|
  {
    if s != [] {
      BmpLength(s[1..]);
    }
  }

  /** Every character outside the Basic Multilingual Plane adds a second
      code unit. */
  lemma {:induction false} AstralLength(s: string)
    requires forall i :: 0 <= i < |s| ==> s[i] as int >= 0x1_0000
    ensures Utf16Length(s) == 2 * |s|
  {
    if s != [] {
      AstralLength(s[1..]);
    }
  }

  lemma {:induction false} Utf16LengthAppend(a: string, b: string)
    ensures Utf16Length(a + b) == Utf16Length(a) + Utf16Length(b)
  {
    if a == [] {
      assert a + b == b;
    } else {
      assert (a + b)[0] == a[0];
      assert (a + b)[1..] == a[1..] + b;
      Utf16LengthAppend(a[1..], b);
    }
  }

  /** A query-string or body value that the source tests for truthiness:
      absent and the empty string both count as "not supplied". */
  predicate Supplied(o: Option<string>) {
    o.Some? && o.value != ""
  }

  predicate OccursAt(s: string, sub: string, j: nat) {
    j + |sub| <= |s| && s[j..j + |sub|] == sub
  }

  /** An occurrence past the first character is an occurrence in the tail. */
  lemma OccursInTail(s: string, sub: string, j: nat)
    requires 1 <= j && s != []
    ensures OccursAt(s, sub, j) <==> OccursAt(s[1..], sub, j - 1)
  {
    if j + |sub| <= |s| {
      assert s[1..][j - 1..j - 1 + |sub|] == s[j..j + |sub|];
    }
  }

  /** Index of the first occurrence of `sub` in `s`, as `indexOf` gives it. */
  function IndexOf(s: string, sub: string): (r: Option<nat>)
    ensures r.Some? ==> OccursAt(s, sub, r.value)
    ensures r.Some? ==> forall j :: 0 <= j < r.value ==> !OccursAt(s, sub, j)
    ensures r.None? ==> forall j :: 0 <= j <= |s| ==> !OccursAt(s, sub, j)
    decreases |s|
  {
    if sub <= s then
      assert s[0..|sub|] == sub;
      Some(0)
    else if |s| == 0 then
      None
    else
      var tail := IndexOf(s[1..], sub);
      assert forall j :: 1 <= j <= |s| ==> (OccursAt(s, sub, j) <==> OccursAt(s[1..], sub, j - 1)) by {
        forall j | 1 <= j <= |s| {
          OccursInTail(s, sub, j);
        }
      }
      if tail.None? then None else Some(tail.value + 1)
  }

  /** `s.includes(sub)`. */
  predicate Contains(s: string, sub: string) {
    IndexOf(s, sub).Some?
  }

  /** `s.replace(pattern, replacement)` with a string pattern: only the first
      occurrence is replaced. */
  function ReplaceFirst(s: string, pattern: string, replacement: string): (r: string)
    ensures IndexOf(s, pattern).None? ==> r == s
    ensures IndexOf(s, pattern).Some? ==>
      var i := IndexOf(s, pattern).value;
      r == s[..i] + replacement + s[i + |pattern|..]
  {
    match IndexOf(s, pattern)
    case None => s
    case Some(i) => s[..i] + replacement + s[i + |pattern|..]
  }

  /** A pattern at the front of `s` is the one `replace` removes. */
  lemma {:induction false} ReplaceLeadingPattern(pattern: string, rest: string)
    ensures ReplaceFirst(pattern + rest, pattern, "") == rest
  {
    var s := pattern + rest;
    assert pattern <= s;
    assert IndexOf(s, pattern) == Some(0);
    assert s[|pattern|..] == rest;
  }
}
