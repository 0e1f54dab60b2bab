/**
 * The few Python string operations the application relies on: truthiness of a
 * form value, `str.strip()`, `str.split(sep)` and `"sep".join`,
 * `str.replace('%20', ' ')` and `str(n)` for the form field names.
 */
module Text {
  import opened Wrappers

  /** A form value in a boolean context: `None` and `""` are false. */
  predicate Truthy(v: Option<string>) {
    v.Some? && v.value != ""
  }

  /** The characters for which Python's `str.isspace()` holds; `strip()` removes them. */
  predicate IsSpace(c: char) {
    || c == ' '
    || ('\t' <= c <= '\r')
    || ('\U{1c}' <= c <= '\U{1f}')
    || c == '\U{85}' || c == '\U{a0}' || c == '\U{1680}'
    || ('\U{2000}' <= c <= '\U{200a}')
    || c == '\U{2028}' || c == '\U{2029}' || c == '\U{202f}' || c == '\U{205f}' || c == '\U{3000}'
  }

  /** Number of whitespace characters at the start of `s`. */
  function LeadingSpaces(s: string): (n: nat)
    ensures n <= |s|
    ensures forall k :: 0 <= k < n ==> IsSpace(s[k])
    ensures n < |s| ==> !IsSpace(s[n])
  {
    if s != [] && IsSpace(s[0]) then 1 + LeadingSpaces(s[1..]) else 0
  }

  /** Number of whitespace characters at the end of `s`. */
  function TrailingSpaces(s: string): (n: nat)
    ensures n <= |s|
    ensures forall k :: |s| - n <= k < |s| ==> IsSpace(s[k])
    ensures n < |s| ==> !IsSpace(s[|s| - n - 1])
  {
    if s != [] && IsSpace(s[|s| - 1]) then 1 + TrailingSpaces(s[..|s| - 1]) else 0
  }

  /** Python's `s.strip()`: `s` without its leading and trailing whitespace. */
  function Strip(s: string): (r: string)
    ensures |r| <= |s|
    ensures r != [] ==> !IsSpace(r[0]) && !IsSpace(r[|r| - 1])
    ensures (forall k :: 0 <= k < |s| ==> IsSpace(s[k])) ==> r == []
  {
    var t := s[LeadingSpaces(s)..];
    t[..|t| - TrailingSpaces(t)]
  }

  /** A string without whitespace at either end is left as it is by `strip()`. */
  lemma StripTrimmed(s: string)
    requires s != [] ==> !IsSpace(s[0]) && !IsSpace(s[|s| - 1])
    ensures Strip(s) == s
  {
    assert LeadingSpaces(s) == 0;
    assert s[0..] == s;
    assert TrailingSpaces(s) == 0;
  }

  /** `strip()` is idempotent. */
  lemma StripIdempotent(s: string)
    ensures Strip(Strip(s)) == Strip(s)
  {
    StripTrimmed(Strip(s));
  }

  /** Index of the first occurrence of `c` in `s`. */
  function IndexOf(s: string, c: char): (i: nat)
    requires c in s
    ensures i < |s| && s[i] == c && c !in s[..i]
  {
    if s[0] == c then 0 else 1 + IndexOf(s[1..], c)
  }

  /** `sep.join(parts)` for a one-character separator. */
  function Join(parts: seq<string>, sep: char): string
  {
    if |parts| == 0 then ""
    else if |parts| == 1 then parts[0]
    else parts[0] + [sep] + Join(parts[1..], sep)
  }

  /**
   * Python's `s.split(sep)` for a one-character separator: never empty, no part
   * holds the separator, the first part is the text before the first separator,
   * and joining the parts gives `s` back.
   */
  function Split(s: string, sep: char): (parts: seq<string>)
    ensures |parts| >= 1
    ensures forall i :: 0 <= i < |parts| ==> sep !in parts[i]
    ensures |parts[0]| <= |s| && parts[0] == s[..|parts[0]|]
    ensures |parts[0]| < |s| ==> s[|parts[0]|] == sep
    ensures Join(parts, sep) == s
    decreases |s|
  {
    if sep !in s then [s]
    else
      var i := IndexOf(s, sep);
      var rest := Split(s[i + 1..], sep);
      assert ([s[..i]] + rest)[1..] == rest;
      assert s == s[..i] + [sep] + s[i + 1..];
      [s[..i]] + rest
  }

  /** Splitting a join of separator-free parts gives the parts back. */
  lemma {:induction false} SplitJoin(parts: seq<string>, sep: char)
    requires |parts| >= 1
    requires forall i :: 0 <= i < |parts| ==> sep !in parts[i]
    ensures Split(Join(parts, sep), sep) == parts
  {
    if |parts| > 1 {
      var s := Join(parts, sep);
      var p := parts[0];
      assert s == p + [sep] + Join(parts[1..], sep);
      assert s[|p|] == sep;
      assert s[..|p|] == p;
      assert sep in s;
      assert IndexOf(s, sep) == |p|;
      assert s[|p| + 1..] == Join(parts[1..], sep);
      SplitJoin(parts[1..], sep);
      assert parts == [p] + parts[1..];
    }
  }

  /** `i` is where an encoded space `%20` starts in `s`. */
  predicate EncodedSpaceAt(s: string, i: int) {
    0 <= i && i + 3 <= |s| && s[i] == '%' && s[i + 1] == '2' && s[i + 2] == '0'
  }

  /** Python's `s.replace('%20', ' ')`: occurrences are replaced left to right, without overlap. */
  function DecodeSpaces(s: string): (r: string)
    ensures |r| <= |s|
    ensures (forall i :: !EncodedSpaceAt(s, i)) ==> r == s
  {
    if s == [] then []
    else if EncodedSpaceAt(s, 0) then " " + DecodeSpaces(s[3..])
    else
      assert forall i :: EncodedSpaceAt(s[1..], i) ==> EncodedSpaceAt(s, i + 1);
      [s[0]] + DecodeSpaces(s[1..])
  }

  /**
   * Replacement proceeds occurrence by occurrence: an occurrence of `%20` is
   * replaced by a space and the text on either side is decoded on its own.
   */
  lemma {:induction false} DecodeSpacesSplice(a: string, b: string)
    ensures DecodeSpaces(a + "%20" + b) == DecodeSpaces(a) + " " + DecodeSpaces(b)
  {
    var s := a + "%20" + b;
    if a == [] {
      assert s == "%20" + b && s[3..] == b;
    } else {
      assert s[0] == a[0];
      assert EncodedSpaceAt(s, 0) <==> EncodedSpaceAt(a, 0) by {
        if |a| == 1 { assert s[1] == '%'; }
        else if |a| == 2 { assert s[2] == '%'; }
        else { assert s[..3] == a[..3]; }
      }
      if EncodedSpaceAt(a, 0) {
        assert s[3..] == a[3..] + "%20" + b;
        DecodeSpacesSplice(a[3..], b);
      } else {
        assert s[1..] == a[1..] + "%20" + b;
        DecodeSpacesSplice(a[1..], b);
      }
    }
  }

  /** The first character of a decoded string is a decoded space or the first input character. */
  lemma DecodeSpacesHead(s: string)
    requires DecodeSpaces(s) != [] && DecodeSpaces(s)[0] != ' '
    ensures s != [] && !EncodedSpaceAt(s, 0)
    ensures DecodeSpaces(s) == [s[0]] + DecodeSpaces(s[1..])
  {
  }

  /** No `%20` is left after `replace('%20', ' ')`. */
  lemma {:induction false} DecodeSpacesComplete(s: string)
    ensures forall i :: !EncodedSpaceAt(DecodeSpaces(s), i)
  {
    if s != [] {
      var r := DecodeSpaces(s);
      if EncodedSpaceAt(s, 0) {
        var rest := DecodeSpaces(s[3..]);
        DecodeSpacesComplete(s[3..]);
        assert r == " " + rest;
        forall i ensures !EncodedSpaceAt(r, i) {
          assert i > 0 && EncodedSpaceAt(r, i) ==> EncodedSpaceAt(rest, i - 1);
        }
      } else {
        var rest := DecodeSpaces(s[1..]);
        DecodeSpacesComplete(s[1..]);
        assert r == [s[0]] + rest;
        forall i ensures !EncodedSpaceAt(r, i) {
          assert i > 0 && EncodedSpaceAt(r, i) ==> EncodedSpaceAt(rest, i - 1);
          if i == 0 && EncodedSpaceAt(r, 0) {
            DecodeSpacesHead(s[1..]);
          }
        }
      }
    }
  }

  /** Python's `str(n)` for a natural number. */
  function NatToString(n: nat): (r: string)
    ensures r != []
  {
    var digit := "0123456789"[n % 10];
    if n < 10 then [digit] else NatToString(n / 10) + [digit]
  }
}
