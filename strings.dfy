/**
 * The handful of Python `str` operations the core relies on, over `seq<char>`:
 * `split` on one character, `endswith`, `replace` of one character, `strip()`,
 * ASCII `lower()` and `isdigit()`, `int()` of a digit string and `str()` of an int.
 */
module Strings {

  import opened Wrappers

  // ---- prefixes and suffixes ----

  predicate StartsWith(s: string, prefix: string) {
    |prefix| <= |s| && s[..|prefix|] == prefix
  }

  predicate EndsWith(s: string, suffix: string) {
    |suffix| <= |s| && s[|s| - |suffix|..] == suffix
  }

  // ---- str.split(c) for a one-character separator ----

  /** The index of the first `c` in `s`, or `|s|` when there is none. */
  function Find(s: string, c: char): (i: nat)
    ensures i <= |s|
    decreases |s|
  {
    if |s| == 0 || s[0] == c then 0 else 1 + Find(s[1..], c)
  }

  /** `Find` gives the first occurrence: no `c` before it, and `c` at it unless it is `|s|`. */
  lemma {:induction false} FindFirst(s: string, c: char)
    ensures forall k :: 0 <= k < Find(s, c) ==> s[k] != c
    ensures Find(s, c) < |s| ==> s[Find(s, c)] == c
    decreases |s|
  {
    if |s| > 0 && s[0] != c {
      FindFirst(s[1..], c);
      forall k | 0 < k < Find(s, c) ensures s[k] != c {
        assert s[k] == s[1..][k - 1];
      }
    }
  }

  /** The first occurrence is determined by the characters before it. */
  lemma FindOf(s: string, c: char, i: nat)
    requires i <= |s|
    requires forall k :: 0 <= k < i ==> s[k] != c
    requires i < |s| ==> s[i] == c
    ensures Find(s, c) == i
  {
    FindFirst(s, c);
    var j := Find(s, c);
    assert j < |s| ==> s[j] == c;
    assert i < |s| ==> s[i] == c;
  }

  /** Python's `s.split(c)`: the maximal pieces between occurrences of `c`. */
  function Split(s: string, c: char): (parts: seq<string>)
    ensures |parts| >= 1
    decreases |s|
  {
    var i := Find(s, c);
    if i == |s| then [s] else [s[..i]] + Split(s[i + 1..], c)
  }

  /** Python's `c.join(parts)`. */
  function Join(parts: seq<string>, c: char): string
    requires |parts| >= 1
  {
    if |parts| == 1 then parts[0] else parts[0] + [c] + Join(parts[1..], c)
  }

  /** Joining a list of at least two pieces: the first piece, the separator, the rest joined. */
  lemma JoinCons(p: string, tail: seq<string>, c: char)
    requires |tail| >= 1
    ensures Join([p] + tail, c) == p + [c] + Join(tail, c)
  {
    assert ([p] + tail)[1..] == tail;
  }

  /** Splitting and joining again gives the original string back. */
  lemma {:induction false} JoinSplit(s: string, c: char)
    ensures Join(Split(s, c), c) == s
    decreases |s|
  {
    var i := Find(s, c);
    FindFirst(s, c);
    if i < |s| {
      var rest := s[i + 1..];
      JoinSplit(rest, c);
      JoinCons(s[..i], Split(rest, c), c);
      Around(s, i);
    }
  }

  /** A string is what comes before position `i`, the character at `i` and what follows it. */
  lemma Around(s: string, i: nat)
    requires i < |s|
    ensures s == s[..i] + [s[i]] + s[i + 1..]
  {
  }

  /** No piece contains the separator. */
  lemma {:induction false} SplitPieces(s: string, c: char)
    ensures forall k :: 0 <= k < |Split(s, c)| ==> c !in Split(s, c)[k]
    decreases |s|
  {
    var i := Find(s, c);
    FindFirst(s, c);
    if i < |s| {
      SplitPieces(s[i + 1..], c);
    }
  }

  /** A string without the separator is a single piece. */
  lemma SplitNoSeparator(s: string, c: char)
    requires c !in s
    ensures Split(s, c) == [s]
  {
    FindOf(s, c, |s|);
  }

  /** Splitting at an occurrence of the separator splits the pieces list there. */
  lemma {:induction false} SplitAppend(a: string, c: char, b: string)
    ensures Split(a + [c] + b, c) == Split(a, c) + Split(b, c)
    decreases |a|
  {
    var s := a + [c] + b;
    var i := Find(a, c);
    FindFirst(a, c);
    FindOf(s, c, i);
    if i == |a| {
      assert s[..i] == a;
      assert s[i + 1..] == b;
    } else {
      assert s[..i] == a[..i];
      assert s[i + 1..] == a[i + 1..] + [c] + b;
      SplitAppend(a[i + 1..], c, b);
    }
  }

  /** The element `k` positions from the end (Python's `parts[-k]`), when there is one. */
  function FromEnd(parts: seq<string>, k: nat): (r: Option<string>)
    requires k >= 1
    ensures r.Some? <==> k <= |parts|
    ensures r.Some? ==> r.value == parts[|parts| - k]
  {
    if k <= |parts| then Some(parts[|parts| - k]) else None
  }

  // ---- str.replace(a, b) for one-character a and b ----

  /** `s.replace(from, to)` for single characters: every `from` becomes `to`. */
  function ReplaceChar(s: string, from: char, to: char): (r: string)
    ensures |r| == |s|
    ensures forall i :: 0 <= i < |s| ==> r[i] == if s[i] == from then to else s[i]
  {
    seq(|s|, i requires 0 <= i < |s| => if s[i] == from then to else s[i])
  }

  /** Replacing `a` by `b` and then `b` by `a` is the identity when `b` did not occur. */
  lemma ReplaceCharBack(s: string, a: char, b: char)
    requires b !in s
    ensures ReplaceChar(ReplaceChar(s, a, b), b, a) == s
  {
    var r := ReplaceChar(ReplaceChar(s, a, b), b, a);
    assert forall i :: 0 <= i < |s| ==> r[i] == s[i];
  }

  // ---- ASCII lower() ----

  function LowerChar(c: char): char {
    if 'A' <= c <= 'Z' then (c as int - 'A' as int + 'a' as int) as char else c
  }

  function Lower(s: string): (r: string)
    ensures |r| == |s|
    ensures forall i :: 0 <= i < |s| ==> r[i] == LowerChar(s[i])
  {
    seq(|s|, i requires 0 <= i < |s| => LowerChar(s[i]))
  }

  // ---- strip() ----

  /** The characters for which Python's `str.isspace()` holds. */
  predicate IsSpace(c: char) {
    var n := c as int;
    || 0x09 <= n <= 0x0D || 0x1C <= n <= 0x20 || n == 0x85 || n == 0xA0 || n == 0x1680
    || 0x2000 <= n <= 0x200A || n == 0x2028 || n == 0x2029 || n == 0x202F || n == 0x205F || n == 0x3000
  }

  /** The number of whitespace characters `s` starts with. */
  function LeadingSpaces(s: string): (n: nat)
    ensures n <= |s|
    ensures forall k :: 0 <= k < n ==> IsSpace(s[k])
    ensures n < |s| ==> !IsSpace(s[n])
    decreases |s|
  {
    if |s| > 0 && IsSpace(s[0]) then 1 + LeadingSpaces(s[1..]) else 0
  }

  /** The number of whitespace characters `s` ends with. */
  function TrailingSpaces(s: string): (n: nat)
    ensures n <= |s|
    ensures forall k :: |s| - n <= k < |s| ==> IsSpace(s[k])
    ensures n < |s| ==> !IsSpace(s[|s| - n - 1])
    decreases |s|
  {
    if |s| > 0 && IsSpace(s[|s| - 1]) then 1 + TrailingSpaces(s[..|s| - 1]) else 0
  }

  /** Python's `s.strip()`: drops leading and trailing whitespace. */
  function Strip(s: string): (r: string)
    ensures |r| > 0 ==> !IsSpace(r[0]) && !IsSpace(r[|r| - 1])
  {
    var i := LeadingSpaces(s);
    s[i..|s| - TrailingSpaces(s[i..])]
  }

  /**
   * What is left after `strip()` is the part of `s` between its leading and
   * its trailing whitespace.
   */
  lemma StripIsInfix(s: string)
    ensures var r, i := Strip(s), LeadingSpaces(s);
              && i + |r| <= |s| && r == s[i..i + |r|]
              && (forall k :: 0 <= k < i ==> IsSpace(s[k]))
              && (forall k :: i + |r| <= k < |s| ==> IsSpace(s[k]))
  {
    var i := LeadingSpaces(s);
    var t := s[i..];
    var j := |s| - TrailingSpaces(t);
    assert Strip(s) == s[i..j];
    forall k | j <= k < |s| ensures IsSpace(s[k]) {
      assert s[k] == t[k - i];
    }
  }

  /** Surrounding whitespace never survives, so stripping twice is stripping once. */
  lemma StripIdempotent(s: string)
    ensures Strip(Strip(s)) == Strip(s)
  {
    var r := Strip(s);
    assert LeadingSpaces(r) == 0;
    assert r[0..] == r;
    assert TrailingSpaces(r) == 0;
    assert r[..|r|] == r;
  }

  // ---- isdigit(), int() and str() on ASCII digits ----

  predicate IsDigit(c: char) { '0' <= c <= '9' }

  /** Python's `s.isdigit()` restricted to ASCII: non-empty and all digits. */
  predicate IsDigits(s: string) {
    |s| > 0 && forall i :: 0 <= i < |s| ==> IsDigit(s[i])
  }

  /** Python's `int(s)` for a string of ASCII digits (leading zeros allowed). */
  function DigitsValue(s: string): nat
    requires forall i :: 0 <= i < |s| ==> IsDigit(s[i])
  {
    if |s| == 0 then 0
    else
      assert IsDigit(s[|s| - 1]);
      DigitsValue(s[..|s| - 1]) * 10 + (s[|s| - 1] as int - '0' as int)
  }

  /** A digit string denotes a non-zero number exactly when some digit is not `0`. */
  lemma {:induction false} DigitsValueNonZero(s: string)
    requires forall i :: 0 <= i < |s| ==> IsDigit(s[i])
    ensures DigitsValue(s) != 0 <==> exists i :: 0 <= i < |s| && s[i] != '0'
    decreases |s|
  {
    if |s| > 0 {
      var p := s[..|s| - 1];
      DigitsValueNonZero(p);
      if DigitsValue(s) != 0 {
        if DigitsValue(p) != 0 {
          var i :| 0 <= i < |p| && p[i] != '0';
          assert s[i] != '0';
        } else {
          assert s[|s| - 1] != '0';
        }
      } else {
        forall i | 0 <= i < |s| ensures s[i] == '0' {
          if i < |p| {
            assert p[i] == s[i];
          }
        }
      }
    }
  }

  function DigitChar(d: nat): char
    requires d < 10
  {
    ('0' as int + d) as char
  }

  /** Python's `str(n)` for a natural number: the shortest decimal representation. */
  function NatToString(n: nat): (r: string)
    ensures IsDigits(r)
    ensures |r| > 1 ==> r[0] != '0'
    decreases n
  {
    if n < 10 then [DigitChar(n)] else NatToString(n / 10) + [DigitChar(n % 10)]
  }

  /** Python's `str(i)` for an integer. */
  function IntToString(i: int): (r: string)
    ensures |r| > 0
    ensures ':' !in r
  {
    if i < 0 then "-" + NatToString(-i) else NatToString(i)
  }

  /** `int(str(n)) == n`: reading back the decimal representation gives the number. */
  lemma {:induction false} NatToStringValue(n: nat)
    ensures DigitsValue(NatToString(n)) == n
    decreases n
  {
    if n >= 10 {
      NatToStringValue(n / 10);
      var s := NatToString(n);
      assert s[..|s| - 1] == NatToString(n / 10);
    }
  }

  // ---- maximal runs ----

  /** The end of the longest run of characters outside `stop` that starts at `i`. */
  function RunEnd(s: string, i: nat, stop: set<char>): (e: nat)
    requires i <= |s|
    ensures i <= e <= |s|
    decreases |s| - i
  {
    if i < |s| && s[i] !in stop then RunEnd(s, i + 1, stop) else i
  }

  /** The run holds no stop character and is followed by one, or by the end of `s`. */
  lemma {:induction false} RunEndSpec(s: string, i: nat, stop: set<char>)
    requires i <= |s|
    ensures forall k :: i <= k < RunEnd(s, i, stop) ==> s[k] !in stop
    ensures RunEnd(s, i, stop) < |s| ==> s[RunEnd(s, i, stop)] in stop
    decreases |s| - i
  {
    if i < |s| && s[i] !in stop {
      RunEndSpec(s, i + 1, stop);
    }
  }

  /** A run is determined by its content: a run that ends at a stop character, or at the end, is the maximal one. */
  lemma {:induction false} RunEndOf(s: string, i: nat, stop: set<char>, e: nat)
    requires i <= e <= |s|
    requires forall k :: i <= k < e ==> s[k] !in stop
    requires e < |s| ==> s[e] in stop
    ensures RunEnd(s, i, stop) == e
    decreases e - i
  {
    if i < e {
      RunEndOf(s, i + 1, stop, e);
    }
  }

  /** A run without stop characters up to `j` reaches at least `j`. */
  lemma {:induction false} RunEndPast(s: string, i: nat, stop: set<char>, j: nat)
    requires i <= j <= |s|
    requires forall k :: i <= k < j ==> s[k] !in stop
    ensures j <= RunEnd(s, i, stop)
    decreases j - i
  {
    if i < j {
      RunEndPast(s, i + 1, stop, j);
    }
  }
}
