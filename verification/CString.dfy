/** Bytes and NUL-terminated strings. A byte is a character below 256, so that the protocol's
    texts can be written as string literals. */
module CString {
  type Byte = c: char | c < 256 as char witness '\0'
  type Bytes = seq<Byte>

  /** The pieces of a stream put back together. */
  function Concat<T>(parts: seq<seq<T>>): seq<T>
  {
    if parts == [] then [] else Concat(parts[..|parts| - 1]) + parts[|parts| - 1]
  }

  /** The C string that starts a byte sequence: everything before the first NUL. */
  function CStr(s: seq<char>): (r: seq<char>)
    ensures r <= s && '\0' !in r
    ensures '\0' !in s ==> r == s
  {
    if s == [] || s[0] == '\0' then [] else [s[0]] + CStr(s[1..])
  }

  /** Index of the first c, or the length when there is none (`strchr`). */
  function Find(s: seq<char>, c: char): (k: nat)
    ensures k <= |s| && c !in s[..k]
    ensures k < |s| ==> s[k] == c
  {
    if s == [] || s[0] == c then 0 else 1 + Find(s[1..], c)
  }

  lemma {:induction false} FindIs(s: seq<char>, c: char, k: nat)
    requires k < |s| && s[k] == c && c !in s[..k]
    ensures Find(s, c) == k
  {
    if k > 0 {
      assert s[0] in s[..k];
      assert s[1..][..k - 1] == s[..k][1..];
      FindIs(s[1..], c, k - 1);
    }
  }

  lemma {:induction false} CStrAppendNul(s: seq<char>, rest: seq<char>)
    ensures CStr(s + ['\0'] + rest) == CStr(s)
  {
    var t := s + ['\0'] + rest;
    if s == [] || s[0] == '\0' {
    } else {
      assert t[1..] == s[1..] + ['\0'] + rest;
      CStrAppendNul(s[1..], rest);
    }
  }

  /** What fits, with its NUL, a buffer of `cap` bytes. */
  function Truncate(s: seq<char>, cap: nat): seq<char>
    requires cap >= 1
  {
    if |s| < cap then s else s[..cap - 1]
  }

  /** It is the longest prefix that leaves room for the NUL. */
  lemma TruncateLongest(s: seq<char>, cap: nat, k: nat)
    requires cap >= 1
    ensures Truncate(s, cap) <= s && |Truncate(s, cap)| < cap
    ensures k <= |s| && k < cap ==> k <= |Truncate(s, cap)|
  {}

  lemma TruncateShort(s: seq<char>, cap: nat)
    requires cap >= 1
    ensures |Truncate(s, cap)| < cap && (|s| < cap ==> Truncate(s, cap) == s)
  {}

  /** `tolower` in the C locale. */
  function Lower(c: char): char
  {
    if 'A' <= c <= 'Z' then (c as int + 32) as char else c
  }

  /** Two characters are the same without case exactly when they are equal or the two cases of one
      letter. */
  lemma LowerExact(a: char, b: char)
    ensures Lower(a) == Lower(b)
       <==> || a == b
            || ('A' <= a <= 'Z' && 'a' <= b <= 'z' && b as int - 'a' as int == a as int - 'A' as int)
            || ('A' <= b <= 'Z' && 'a' <= a <= 'z' && a as int - 'a' as int == b as int - 'A' as int)
  {}

  function LowerAll(s: seq<char>): seq<char>
  {
    seq(|s|, i requires 0 <= i < |s| => Lower(s[i]))
  }

  /** `strcasecmp(a, b) == 0`. */
  predicate EqualIgnoringCase(a: seq<char>, b: seq<char>)
  {
    LowerAll(a) == LowerAll(b)
  }

  predicate IsDigit(c: char) { '0' <= c <= '9' }
  predicate IsHexDigit(c: char) { IsDigit(c) || 'a' <= c <= 'f' || 'A' <= c <= 'F' }

  function DigitValue(c: char): nat
    requires IsHexDigit(c)
  {
    if IsDigit(c) then c as int - '0' as int
    else if 'a' <= c <= 'f' then c as int - 'a' as int + 10
    else c as int - 'A' as int + 10
  }

  /** The number a digit string denotes. */
  function Value(s: seq<char>, radix: nat): nat
    requires forall c | c in s :: IsHexDigit(c)
  {
    if s == [] then 0 else Value(s[..|s| - 1], radix) * radix + DigitValue(s[|s| - 1])
  }

  /** Length of the longest prefix of decimal digits. */
  function DigitRun(s: seq<char>): (k: nat)
    ensures k <= |s| && forall c | c in s[..k] :: IsDigit(c)
    ensures k < |s| ==> !IsDigit(s[k])
  {
    if s == [] || !IsDigit(s[0]) then 0 else
      var k := 1 + DigitRun(s[1..]);
      assert s[..k] == [s[0]] + s[1..][..k - 1];
      k
  }
}
