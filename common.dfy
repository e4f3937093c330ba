// Shared vocabulary of the three controllers: optional values, the
// ApiResponse / ApiError envelope, and the request validation they all use.

module Wrappers {
  datatype Option<+T> = None | Some(value: T)
}

/** The result envelope every handler ends in: `new ApiResponse(status, data, message)`
    on success, or a thrown `new ApiError(statusCode, message)` that asyncHandler
    forwards to the client. */
module Api {
  import opened Wrappers

  /** What the handler passed as ApiError's first argument. Normally an HTTP
      status code; one call site passes a message string there instead. */
  datatype Status = Code(code: int) | Text(text: string)

  /** `reason` is None when the handler did not pass one, so ApiError's own
      default applies (ApiError is not part of this model). */
  datatype Response<+T> =
    | Ok(status: int, data: T, message: string)
    | Err(error: Status, reason: Option<string>)

  function Fail<T>(code: int, message: string): Response<T>
  {
    Err(Code(code), Some(message))
  }
}

/** Request validation shared by the comment, like and tweet handlers. */
module Validation {
  import opened Wrappers

  type Id = string
  type UserId = Id

  predicate IsHexDigit(c: char)
  {
    ('0' <= c <= '9') || ('a' <= c <= 'f') || ('A' <= c <= 'F')
  }

  /** mongoose's `isValidObjectId`, taken as the 24-hex-digit ObjectId format. */
  predicate ValidId(s: string)
  {
    |s| == 24 && forall i :: 0 <= i < |s| ==> IsHexDigit(s[i])
  }

  /** The value of one hex digit, in either letter case. */
  function HexValue(c: char): nat
    requires IsHexDigit(c)
  {
    if '0' <= c <= '9' then c as int - '0' as int
    else if 'a' <= c <= 'f' then c as int - 'a' as int + 10
    else c as int - 'A' as int + 10
  }

  /** The digits of the ObjectId a valid id is cast to: the cast reads the
      hex digits' values, so the letter case of the spelling is lost. */
  function DigitValues(s: string): seq<nat>
    requires ValidId(s)
  {
    seq(|s|, i requires 0 <= i < |s| => HexValue(s[i]))
  }

  function LowerCase(c: char): char
  {
    if 'A' <= c <= 'Z' then (c as int - 'A' as int + 'a' as int) as char else c
  }

  /** No upper-case ASCII letter: the spelling `ObjectId.toString` produces. */
  predicate IsCanonical(s: string)
  {
    forall i :: 0 <= i < |s| ==> !('A' <= s[i] <= 'Z')
  }

  /** The spelling under which the store keeps the ObjectId a path id is cast
      to. A canonical spelling is its own canonical form, and a valid id keeps
      its digits' values. */
  function Canonical(s: string): (r: string)
    ensures |r| == |s| && IsCanonical(r)
    ensures IsCanonical(s) ==> r == s
    ensures ValidId(s) ==> ValidId(r) && DigitValues(r) == DigitValues(s)
  {
    seq(|s|, i requires 0 <= i < |s| => LowerCase(s[i]))
  }

  /** Two valid spellings are cast to the same ObjectId exactly when their
      canonical spellings agree, whatever their letter case. */
  lemma SameObjectId(s: string, t: string)
    requires ValidId(s) && ValidId(t)
    ensures Canonical(s) == Canonical(t) <==> DigitValues(s) == DigitValues(t)
  {
    if DigitValues(s) == DigitValues(t) {
      forall i | 0 <= i < |s| ensures Canonical(s)[i] == Canonical(t)[i] {
        assert DigitValues(s)[i] == DigitValues(t)[i];
      }
    }
  }

  /** The characters JavaScript's String.prototype.trim removes: WhiteSpace and
      LineTerminator of ECMAScript. */
  predicate IsWhiteSpace(c: char)
  {
    || c == '\t' || c == '\n' || c == '\U{000B}' || c == '\U{000C}' || c == '\r'
    || c == ' ' || c == '\U{00A0}' || c == '\U{1680}'
    || ('\U{2000}' <= c <= '\U{200A}')
    || c == '\U{2028}' || c == '\U{2029}' || c == '\U{202F}' || c == '\U{205F}'
    || c == '\U{3000}' || c == '\U{FEFF}'
  }

  predicate AllWhiteSpace(s: string)
  {
    forall i :: 0 <= i < |s| ==> IsWhiteSpace(s[i])
  }

  /** Drops leading white space: the result is the suffix of `s` that starts at
      its first non-white-space character. */
  function TrimStart(s: string): (r: string)
    ensures |r| <= |s| && r == s[|s| - |r|..]
    ensures AllWhiteSpace(s[..|s| - |r|])
    ensures r == [] || !IsWhiteSpace(r[0])
  {
    if s != [] && IsWhiteSpace(s[0]) then
      var r := TrimStart(s[1..]);
      DropOneMore(s, r);
      r
    else s
  }

  /** One more white-space character in front keeps `r` a suffix after a
      white-space-only prefix. */
  lemma DropOneMore(s: string, r: string)
    requires s != [] && IsWhiteSpace(s[0]) && |r| < |s|
    requires r == s[1..][|s| - 1 - |r|..] && AllWhiteSpace(s[1..][..|s| - 1 - |r|])
    ensures r == s[|s| - |r|..] && AllWhiteSpace(s[..|s| - |r|])
  {
    assert s[1..][|s| - 1 - |r|..] == s[|s| - |r|..];
    forall i | 0 <= i < |s| - |r| ensures IsWhiteSpace(s[i]) {
      if i > 0 {
        assert s[i] == s[1..][..|s| - 1 - |r|][i - 1];
      }
    }
  }

  /** Drops trailing white space: the result is the prefix of `s` that ends at
      its last non-white-space character. */
  function TrimEnd(s: string): (r: string)
    ensures |r| <= |s| && r == s[..|r|]
    ensures AllWhiteSpace(s[|r|..])
    ensures r == [] || !IsWhiteSpace(r[|r| - 1])
  {
    if s != [] && IsWhiteSpace(s[|s| - 1]) then
      var r := TrimEnd(s[..|s| - 1]);
      DropOneMoreAtEnd(s, r);
      r
    else s
  }

  /** One more white-space character at the end keeps `r` a prefix before a
      white-space-only suffix. */
  lemma DropOneMoreAtEnd(s: string, r: string)
    requires s != [] && IsWhiteSpace(s[|s| - 1]) && |r| < |s|
    requires r == s[..|s| - 1][..|r|] && AllWhiteSpace(s[..|s| - 1][|r|..])
    ensures r == s[..|r|] && AllWhiteSpace(s[|r|..])
  {
    assert s[..|s| - 1][..|r|] == s[..|r|];
    forall i | |r| <= i < |s| ensures IsWhiteSpace(s[i]) {
      if i < |s| - 1 {
        assert s[i] == s[..|s| - 1][|r|..][i - |r|];
      }
    }
  }

  /** Trimming both ends leaves nothing exactly when every character is
      white space, and otherwise keeps a non-white-space first character. */
  lemma TrimBothEnds(s: string)
    ensures TrimEnd(TrimStart(s)) == [] <==> AllWhiteSpace(s)
    ensures TrimEnd(TrimStart(s)) != [] ==> !IsWhiteSpace(TrimEnd(TrimStart(s))[0])
  {
    var t := TrimStart(s);
    var r := TrimEnd(t);
    var k := |s| - |t|;
    if r == [] {
      assert t[|r|..] == t;
      assert t == [];
      assert s[..k] == s;
    }
    assert t != [] ==> t[0] == s[k];
    assert r != [] ==> r[0] == t[0];
  }

  /** String.prototype.trim: empty exactly when the input is white space
      only, and otherwise starting and ending with a non-white-space
      character. */
  function Trim(s: string): (r: string)
    ensures |r| <= |s|
    ensures r == [] <==> AllWhiteSpace(s)
    ensures r != [] ==> !IsWhiteSpace(r[0]) && !IsWhiteSpace(r[|r| - 1])
  {
    TrimBothEnds(s);
    TrimEnd(TrimStart(s))
  }

  /** `!content || content.trim() === ''`: the body field is missing, or it is
      the empty string or white space only. */
  predicate IsBlank(content: Option<string>)
    ensures IsBlank(content) <==> content.None? || AllWhiteSpace(content.value)
  {
    content.None? || content.value == "" || Trim(content.value) == ""
  }
}
