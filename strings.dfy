/**
 * The parts of Go's `strings` and `strconv` packages that the sidecar relies on,
 * over Dafny strings: `strings.TrimSpace`, `strings.HasSuffix`,
 * `strings.TrimSuffix`, `strings.Join`, decimal formatting of a
 * non-negative integer (`%d`) and double-quoting (`%q`).
 */
module Strings {

  /** `unicode.IsSpace`: the Latin-1 spaces and the Unicode White_Space characters above Latin-1. */
  predicate IsSpace(c: char)
  {
    || c == '\t' || c == '\n' || c == '\U{b}' || c == '\U{c}' || c == '\r' || c == ' '
    || c == '\U{85}' || c == '\U{a0}' || c == '\U{1680}'
    || ('\U{2000}' <= c <= '\U{200a}')
    || c == '\U{2028}' || c == '\U{2029}' || c == '\U{202f}' || c == '\U{205f}' || c == '\U{3000}'
  }

  predicate AllSpace(s: string)
  {
    forall i :: 0 <= i < |s| ==> IsSpace(s[i])
  }

  /** Number of leading white-space characters of `s`: the longest all-space prefix. */
  function LeadingSpaces(s: string): (k: nat)
    ensures k <= |s|
    ensures forall i :: 0 <= i < k ==> IsSpace(s[i])
    ensures k == |s| || !IsSpace(s[k])
  {
    if |s| > 0 && IsSpace(s[0]) then 1 + LeadingSpaces(s[1..]) else 0
  }

  /** Number of trailing white-space characters of `s`: the longest all-space suffix. */
  function TrailingSpaces(s: string): (k: nat)
    ensures k <= |s|
    ensures forall i :: |s| - k <= i < |s| ==> IsSpace(s[i])
    ensures k == |s| || !IsSpace(s[|s| - k - 1])
  {
    if |s| > 0 && IsSpace(s[|s| - 1]) then 1 + TrailingSpaces(s[..|s| - 1]) else 0
  }

  /** `strings.TrimSpace`: drop leading and trailing white space. */
  function TrimSpace(s: string): string
  {
    var t := s[LeadingSpaces(s)..];
    t[..|t| - TrailingSpaces(t)]
  }

  /** A string is blank when nothing is left of it after `strings.TrimSpace`. */
  predicate Blank(s: string)
  {
    TrimSpace(s) == ""
  }

  /** The bounds `TrimSpace` cuts `s` at: its longest all-space prefix and suffix. */
  function TrimStart(s: string): (i: nat)
    ensures i <= |s|
  {
    LeadingSpaces(s)
  }

  function TrimEnd(s: string): (j: nat)
    ensures TrimStart(s) <= j <= |s|
  {
    |s| - TrailingSpaces(s[TrimStart(s)..])
  }

  /** `TrimSpace(s)` is the middle `s[TrimStart(s)..TrimEnd(s)]` of `s`. */
  lemma TrimSpaceIsMiddle(s: string)
    ensures TrimSpace(s) == s[TrimStart(s)..TrimEnd(s)]
  {
    var t := s[TrimStart(s)..];
    assert t[..|t| - TrailingSpaces(t)] == s[TrimStart(s)..TrimEnd(s)];
  }

  /** What `TrimSpace` drops is white space. */
  lemma TrimSpaceDropsSpace(s: string)
    ensures forall m :: 0 <= m < TrimStart(s) ==> IsSpace(s[m])
    ensures forall m :: TrimEnd(s) <= m < |s| ==> IsSpace(s[m])
  {
    forall m | TrimEnd(s) <= m < |s| ensures IsSpace(s[m]) {
      TrailingOfRest(s, TrimStart(s), m);
    }
  }

  /** What `TrimSpace` keeps neither starts nor ends with white space. */
  lemma TrimSpaceKeepsNoEdgeSpace(s: string)
    ensures TrimStart(s) < TrimEnd(s) ==> !IsSpace(s[TrimStart(s)]) && !IsSpace(s[TrimEnd(s) - 1])
  {
    var t := s[TrimStart(s)..];
    if TrimStart(s) < TrimEnd(s) {
      assert s[TrimEnd(s) - 1] == t[|t| - TrailingSpaces(t) - 1];
    }
  }

  lemma TrailingOfRest(s: string, i: nat, m: int)
    requires i <= |s|
    requires |s| - TrailingSpaces(s[i..]) <= m < |s|
    ensures IsSpace(s[m])
  {
    var t := s[i..];
    assert IsSpace(t[m - i]);
  }

  /** Blank means made of white space only, in both directions. */
  lemma BlankIffAllSpace(s: string)
    ensures Blank(s) <==> AllSpace(s)
  {
    TrimSpaceIsMiddle(s);
    TrimSpaceDropsSpace(s);
    TrimSpaceKeepsNoEdgeSpace(s);
  }

  /** Trimming twice is trimming once. */
  lemma TrimSpaceIdempotent(s: string)
    ensures TrimSpace(TrimSpace(s)) == TrimSpace(s)
  {
    var r := TrimSpace(s);
    TrimSpaceIsMiddle(s);
    TrimSpaceKeepsNoEdgeSpace(s);
    if r != "" {
      assert LeadingSpaces(r) == 0;
      assert r[0..] == r;
      assert TrailingSpaces(r) == 0;
    }
  }

  predicate HasSuffix(s: string, suffix: string)
  {
    |suffix| <= |s| && s[|s| - |suffix|..] == suffix
  }

  /** `strings.TrimSuffix`: `s` without `suffix` when it ends with it, `s` otherwise. */
  function TrimSuffix(s: string, suffix: string): (r: string)
    ensures HasSuffix(s, suffix) ==> r + suffix == s
    ensures !HasSuffix(s, suffix) ==> r == s
  {
    if HasSuffix(s, suffix) then s[..|s| - |suffix|] else s
  }

  /** Appending a suffix and trimming it again gives back the original string. */
  lemma TrimSuffixOfAppended(s: string, suffix: string)
    ensures HasSuffix(s + suffix, suffix)
    ensures TrimSuffix(s + suffix, suffix) == s
  {
    assert (s + suffix)[|s|..] == suffix;
    assert (s + suffix)[..|s|] == s;
  }

  /** `strings.Join`: the elements in order with `sep` between consecutive ones. */
  function Join(ss: seq<string>, sep: string): string
  {
    if |ss| == 0 then ""
    else if |ss| == 1 then ss[0]
    else Join(ss[..|ss| - 1], sep) + sep + ss[|ss| - 1]
  }

  /** Joining one more element onto a prefix. */
  lemma JoinPrefixStep(ss: seq<string>, sep: string, i: nat)
    requires i < |ss|
    ensures i == 0 ==> Join(ss[..i + 1], sep) == ss[0]
    ensures 0 < i ==> Join(ss[..i + 1], sep) == Join(ss[..i], sep) + sep + ss[i]
  {
    assert ss[..i + 1][..i] == ss[..i];
  }

  /** Reference reading of `Join` from the front: first element, then `sep` and the join of the rest. */
  lemma {:induction false} JoinFront(ss: seq<string>, sep: string)
    requires |ss| >= 2
    ensures Join(ss, sep) == ss[0] + sep + Join(ss[1..], sep)
  {
    if |ss| == 2 {
      assert ss[..1] == [ss[0]];
      assert ss[1..] == [ss[1]];
    } else {
      var init := ss[..|ss| - 1];
      JoinFront(init, sep);
      assert init[1..] == ss[1..][..|ss| - 2];
      assert ss[1..][|ss| - 2] == ss[|ss| - 1];
    }
  }

  function Sum(ns: seq<nat>): nat
  {
    if ns == [] then 0 else Sum(ns[..|ns| - 1]) + ns[|ns| - 1]
  }

  /** The joined string is as long as its parts together plus one `sep` per seam. */
  lemma {:induction false} JoinLength(ss: seq<string>, sep: string)
    requires |ss| > 0
    ensures |Join(ss, sep)| == Sum(seq(|ss|, i requires 0 <= i < |ss| => |ss[i]|)) + (|ss| - 1) * |sep|
  {
    var lens := seq(|ss|, i requires 0 <= i < |ss| => |ss[i]|);
    if |ss| == 1 {
      assert lens[..0] == [];
    } else {
      var init := ss[..|ss| - 1];
      JoinLength(init, sep);
      assert lens[..|lens| - 1] == seq(|init|, i requires 0 <= i < |init| => |init[i]|);
    }
  }

  predicate IsDigit(c: char)
  {
    '0' <= c <= '9'
  }

  function DigitValue(c: char): (d: nat)
    requires IsDigit(c)
    ensures d < 10
  {
    assert c as int >= '0' as int;
    c as int - '0' as int
  }

  function DigitChar(d: nat): (c: char)
    requires d < 10
    ensures IsDigit(c)
  {
    "0123456789"[d]
  }

  /** `fmt.Sprintf("%d", n)` for a non-negative `n`: its decimal digits, with no leading zero. */
  function Itoa(n: nat): (r: string)
    ensures |r| > 0
    ensures forall i :: 0 <= i < |r| ==> IsDigit(r[i])
    ensures r[0] == '0' ==> n == 0
  {
    if n < 10 then [DigitChar(n)] else Itoa(n / 10) + [DigitChar(n % 10)]
  }

  /** The number a string of decimal digits stands for. */
  function DigitsValue(s: string): nat
    requires forall i :: 0 <= i < |s| ==> IsDigit(s[i])
  {
    if s == [] then 0 else 10 * DigitsValue(s[..|s| - 1]) + DigitValue(s[|s| - 1])
  }

  /** Reading back the decimal digits of `n` gives `n`. */
  lemma {:induction false} ItoaRoundTrip(n: nat)
    ensures DigitsValue(Itoa(n)) == n
  {
    if n >= 10 {
      ItoaRoundTrip(n / 10);
      var r := Itoa(n);
      assert r[..|r| - 1] == Itoa(n / 10);
    }
  }

  /** `%q` of a string that needs no escaping: the string between double quotes. */
  function Quote(s: string): string
  {
    "\"" + s + "\""
  }
}
