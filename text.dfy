/**
 * String operations as the Python 2 and C++ sources use them: decimal rendering of
 * integers (`str(n)`, `'%d' % n`, `lexical_cast<std::string>(n)`), prefix/suffix
 * tests, substring search (`sub in s`), `str.replace`, ASCII lower-casing
 * (`boost::algorithm::to_lower` in the "C" locale), `str.strip`, the last token of
 * `str.split()` and `sep.join(xs)`.
 */
module Text {
  import opened Wrappers

  // ---------------------------------------------------------------------------
  // Decimal rendering of integers
  // ---------------------------------------------------------------------------

  predicate IsDigit(c: char) { '0' <= c <= '9' }

  predicate AllDigits(s: string) { forall i :: 0 <= i < |s| ==> IsDigit(s[i]) }

  function Digit(d: nat): (c: char)
    requires d < 10
    ensures IsDigit(c) && c as int == '0' as int + d
  {
    (d + '0' as int) as char
  }

  /** Decimal rendering of a natural number, most significant digit first. */
  function NatToString(n: nat): (s: string)
    ensures |s| >= 1 && AllDigits(s)
    ensures n >= 10 ==> |s| >= 2
    decreases n
  {
    if n < 10 then [Digit(n)] else NatToString(n / 10) + [Digit(n % 10)]
  }

  /** Distinct numbers have distinct renderings. */
  lemma {:induction false} NatToStringInjective(a: nat, b: nat)
    requires NatToString(a) == NatToString(b)
    ensures a == b
  {
    if a >= 10 && b >= 10 {
      var sa, sb := NatToString(a), NatToString(b);
      assert sa == NatToString(a / 10) + [Digit(a % 10)];
      assert sb == NatToString(b / 10) + [Digit(b % 10)];
      assert sa[|sa| - 1] == Digit(a % 10) && sb[|sb| - 1] == Digit(b % 10);
      assert NatToString(a / 10) == sa[..|sa| - 1];
      assert NatToString(b / 10) == sb[..|sb| - 1];
      NatToStringInjective(a / 10, b / 10);
    }
  }

  /** Decimal rendering of an integer, with a leading '-' when it is negative. */
  function IntToString(i: int): (s: string)
    ensures |s| >= 1
    ensures i < 0 <==> s[0] == '-'
    ensures i >= 0 ==> AllDigits(s)
  {
    if i < 0 then "-" + NatToString(-i) else NatToString(i)
  }

  lemma {:induction false} IntToStringInjective(a: int, b: int)
    requires IntToString(a) == IntToString(b)
    ensures a == b
  {
    if a < 0 && b < 0 {
      assert NatToString(-a) == IntToString(a)[1..];
      assert NatToString(-b) == IntToString(b)[1..];
      NatToStringInjective(-a, -b);
    } else if a >= 0 && b >= 0 {
      NatToStringInjective(a, b);
    }
  }

  /** Distinct numbers are rendered distinctly even inside a fixed context. */
  lemma {:induction false} IntToStringInContext(pre: string, a: int, b: int, post: string)
    requires pre + IntToString(a) + post == pre + IntToString(b) + post
    ensures a == b
  {
    ConcatCancelRight(pre + IntToString(a), pre + IntToString(b), post);
    ConcatCancelLeft(pre, IntToString(a), IntToString(b));
    IntToStringInjective(a, b);
  }

  /** A rendering has no '/' in it. */
  lemma {:induction false} IntToStringNoSlash(i: int)
    ensures '/' !in IntToString(i)
  {
    if i >= 0 {
      assert AllDigits(IntToString(i));
    } else {
      assert AllDigits(IntToString(i)[1..]);
    }
  }

  /** The value of a string of decimal digits, most significant first. */
  function DigitsValue(s: string): nat
    requires AllDigits(s)
  {
    if s == [] then 0 else DigitsValue(s[..|s| - 1]) * 10 + (s[|s| - 1] as int - '0' as int)
  }

  /**
   * Python's `int(s)` on a string without surrounding whitespace: an optional sign and at
   * least one decimal digit, else None (Python raises ValueError).
   */
  function ParseInt(s: string): (r: Option<int>)
    ensures r.Some? <==> (|s| > 0 && AllDigits(s)) || (|s| > 1 && (s[0] == '-' || s[0] == '+') && AllDigits(s[1..]))
  {
    if |s| > 0 && AllDigits(s) then Some(DigitsValue(s))
    else if |s| > 1 && s[0] == '-' && AllDigits(s[1..]) then (var v: int := DigitsValue(s[1..]); Some(-v))
    else if |s| > 1 && s[0] == '+' && AllDigits(s[1..]) then Some(DigitsValue(s[1..]))
    else None
  }

  /** Reading back a rendered natural number gives the number. */
  lemma {:induction false} DigitsValueOfNatToString(n: nat)
    ensures DigitsValue(NatToString(n)) == n
    decreases n
  {
    if n >= 10 {
      var s := NatToString(n);
      assert s == NatToString(n / 10) + [Digit(n % 10)];
      assert s[..|s| - 1] == NatToString(n / 10);
      DigitsValueOfNatToString(n / 10);
    }
  }

  /** `int(str(i)) == i`: parsing is the inverse of rendering. */
  lemma {:induction false} ParseIntOfIntToString(i: int)
    ensures ParseInt(IntToString(i)) == Some(i)
  {
    var s := IntToString(i);
    if i < 0 {
      var d := NatToString(-i);
      assert s == "-" + d;
      assert s[1..] == d;
      assert !IsDigit(s[0]);
      DigitsValueOfNatToString(-i);
      var v: int := DigitsValue(d);
      assert ParseInt(s) == Some(-v);
    } else {
      assert s == NatToString(i);
      DigitsValueOfNatToString(i);
    }
  }

  lemma {:induction false} ConcatCancelRight<T>(a: seq<T>, b: seq<T>, c: seq<T>)
    requires a + c == b + c
    ensures a == b
  {
    assert |a| == |b|;
    assert a == (a + c)[..|a|];
    assert b == (b + c)[..|b|];
  }

  lemma {:induction false} ConcatCancelLeft<T>(c: seq<T>, a: seq<T>, b: seq<T>)
    requires c + a == c + b
    ensures a == b
  {
    assert a == (c + a)[|c|..];
    assert b == (c + b)[|c|..];
  }

  // ---------------------------------------------------------------------------
  // Prefixes, suffixes, substrings
  // ---------------------------------------------------------------------------

  predicate StartsWith<T(==)>(s: seq<T>, p: seq<T>) { |p| <= |s| && s[..|p|] == p }

  predicate EndsWith<T(==)>(s: seq<T>, p: seq<T>) { |p| <= |s| && s[|s| - |p|..] == p }

  /** Regrouping a concatenation, for proofs that compare long string or list expressions. */
  lemma {:induction false} ConcatAssoc<T>(a: seq<T>, b: seq<T>, c: seq<T>)
    ensures a + b + c == a + (b + c)
  {
  }

  /** An element of the tail of a concatenation is an element of the whole. */
  lemma {:induction false} InTail<T>(s: seq<T>, head: seq<T>, tail: seq<T>, k: int)
    requires s == head + tail && 0 <= k < |tail|
    ensures tail[k] in s
  {
    assert s[|head| + k] == tail[k];
  }

  /** `p` occurs in `s` at position `k`. */
  predicate IsAt(s: string, p: string, k: int) {
    0 <= k && k + |p| <= |s| && s[k..k + |p|] == p
  }

  /** The first position at or after `i` where `p` occurs in `s` (`s.find(p, i)`). */
  function FindFrom(s: string, p: string, i: nat): (r: Option<nat>)
    decreases |s| - i
    ensures r.Some? ==> i <= r.value && IsAt(s, p, r.value)
    ensures r.Some? ==> forall k :: i <= k < r.value ==> !IsAt(s, p, k)
    ensures r.None? ==> forall k :: i <= k ==> !IsAt(s, p, k)
  {
    if i + |p| > |s| then None
    else if s[i..i + |p|] == p then Some(i)
    else FindFrom(s, p, i + 1)
  }

  /** Python's `p in s` on strings. */
  predicate Contains(s: string, p: string) {
    FindFrom(s, p, 0).Some?
  }

  lemma {:induction false} ContainsAt(s: string, p: string, k: int)
    requires IsAt(s, p, k)
    ensures Contains(s, p)
  {
  }

  /** Where `p` occurs, each of its characters sits at its offset. */
  lemma {:induction false} IsAtChar(s: string, p: string, k: int, i: int)
    requires IsAt(s, p, k) && 0 <= i < |p|
    ensures s[k + i] == p[i]
  {
    assert s[k..k + |p|][i] == s[k + i];
  }

  /** A string contains whatever was put in its middle. */
  lemma {:induction false} ContainsMiddle(a: string, p: string, b: string)
    ensures Contains(a + p + b, p)
  {
    var s := a + p + b;
    assert s[|a|..|a| + |p|] == p;
    ContainsAt(s, p, |a|);
  }

  // ---------------------------------------------------------------------------
  // str.replace(old, new): every non-overlapping occurrence, scanning from the left;
  // an empty `old` inserts `new` before every character and at the end.
  // ---------------------------------------------------------------------------

  /** `s[i..].replace(p, r)` for a non-empty `p`. */
  function ReplaceFrom(s: string, p: string, r: string, i: nat): string
    requires |p| > 0 && i <= |s|
    decreases |s| - i
  {
    if i == |s| then []
    else if IsAt(s, p, i) then r + ReplaceFrom(s, p, r, i + |p|)
    else [s[i]] + ReplaceFrom(s, p, r, i + 1)
  }

  /** `s.replace("", r)`. */
  function InsertEverywhere(s: string, r: string): string
  {
    if s == [] then r else r + [s[0]] + InsertEverywhere(s[1..], r)
  }

  /** Python's `s.replace(p, r)`. */
  function ReplaceAll(s: string, p: string, r: string): string
  {
    if |p| == 0 then InsertEverywhere(s, r) else ReplaceFrom(s, p, r, 0)
  }

  lemma {:induction false} ReplaceFromAbsent(s: string, p: string, r: string, i: nat)
    requires |p| > 0 && i <= |s|
    requires forall k :: i <= k ==> !IsAt(s, p, k)
    ensures ReplaceFrom(s, p, r, i) == s[i..]
    decreases |s| - i
  {
    if i < |s| {
      ReplaceFromAbsent(s, p, r, i + 1);
      assert s[i..] == [s[i]] + s[i + 1..];
    }
  }

  /** A string without an occurrence of the (non-empty) pattern is left unchanged. */
  lemma {:induction false} ReplaceAbsent(s: string, p: string, r: string)
    requires |p| > 0 && !Contains(s, p)
    ensures ReplaceAll(s, p, r) == s
  {
    ReplaceFromAbsent(s, p, r, 0);
  }

  lemma {:induction false} ReplaceFromUpTo(s: string, p: string, r: string, i: nat, k: nat)
    requires |p| > 0 && i <= k <= |s|
    requires forall j :: i <= j < k ==> !IsAt(s, p, j)
    ensures ReplaceFrom(s, p, r, i) == s[i..k] + ReplaceFrom(s, p, r, k)
    decreases k - i
  {
    if i < k {
      assert !IsAt(s, p, i);
      var tail := ReplaceFrom(s, p, r, i + 1);
      assert ReplaceFrom(s, p, r, i) == [s[i]] + tail;
      ReplaceFromUpTo(s, p, r, i + 1, k);
      assert s[i..k] == [s[i]] + s[i + 1..k];
    }
  }

  /** With exactly one occurrence of the pattern, exactly that occurrence is replaced. */
  lemma {:induction false} ReplaceOnce(s: string, p: string, r: string, k: nat)
    requires |p| > 0 && IsAt(s, p, k)
    requires forall j :: j != k ==> !IsAt(s, p, j)
    ensures ReplaceAll(s, p, r) == s[..k] + r + s[k + |p|..]
  {
    ReplaceFromUpTo(s, p, r, 0, k);
    ReplaceFromAbsent(s, p, r, k + |p|);
  }

  lemma {:induction false} ReplaceFromNotShorter(s: string, p: string, r: string, i: nat)
    requires |p| > 0 && i <= |s| && |r| >= |p|
    ensures |ReplaceFrom(s, p, r, i)| >= |s| - i
    decreases |s| - i
  {
    if i < |s| {
      if IsAt(s, p, i) {
        ReplaceFromNotShorter(s, p, r, i + |p|);
      } else {
        ReplaceFromNotShorter(s, p, r, i + 1);
      }
    }
  }

  lemma {:induction false} ReplaceFromLonger(s: string, p: string, r: string, i: nat, k: nat)
    requires |p| > 0 && i <= k && |r| > |p| && IsAt(s, p, k)
    ensures |ReplaceFrom(s, p, r, i)| > |s| - i
    decreases |s| - i
  {
    if IsAt(s, p, i) {
      ReplaceFromNotShorter(s, p, r, i + |p|);
    } else {
      ReplaceFromLonger(s, p, r, i + 1, k);
    }
  }

  /** Replacing by something strictly longer changes the string iff the pattern occurs. */
  lemma {:induction false} ReplaceByLongerChanges(s: string, p: string, r: string)
    requires |p| > 0 && |r| > |p|
    ensures ReplaceAll(s, p, r) != s <==> Contains(s, p)
  {
    if Contains(s, p) {
      ReplaceFromLonger(s, p, r, 0, FindFrom(s, p, 0).value);
    } else {
      ReplaceAbsent(s, p, r);
    }
  }

  /** Removing a leading occurrence of `p` from a remainder in which `p` does not occur. */
  lemma {:induction false} RemoveLeading(p: string, rest: string)
    requires |p| > 0 && !Contains(rest, p)
    ensures ReplaceAll(p + rest, p, "") == rest
  {
    var s := p + rest;
    assert s[0..|p|] == p;
    forall k | |p| <= k
      ensures IsAt(s, p, k) == IsAt(rest, p, k - |p|)
    {
      if k + |p| <= |s| {
        assert s[k..k + |p|] == rest[k - |p|..k - |p| + |p|];
      }
    }
    ReplaceFromAbsent(s, p, "", |p|);
    assert s[|p|..] == rest;
  }

  /**
   * A template filled by a chain of `replace` calls, each acting on the previous result:
   * `s.replace(p1, r1).replace(p2, r2)...`.
   */
  function ReplaceChain(s: string, pairs: seq<(string, string)>): string
    decreases |pairs|
  {
    if pairs == [] then s else ReplaceChain(ReplaceAll(s, pairs[0].0, pairs[0].1), pairs[1..])
  }

  /** The last pair of a chain is applied last, to the result of all the others. */
  lemma {:induction false} ReplaceChainLast(s: string, pairs: seq<(string, string)>, p: string, r: string)
    ensures ReplaceChain(s, pairs + [(p, r)]) == ReplaceAll(ReplaceChain(s, pairs), p, r)
    decreases |pairs|
  {
    if pairs == [] {
      assert ReplaceChain(s, [(p, r)]) == ReplaceChain(ReplaceAll(s, p, r), []);
    } else {
      assert (pairs + [(p, r)])[1..] == pairs[1..] + [(p, r)];
      ReplaceChainLast(ReplaceAll(s, pairs[0].0, pairs[0].1), pairs[1..], p, r);
    }
  }

  /** A template without any of the (non-empty) placeholders comes out unchanged. */
  lemma {:induction false} ReplaceChainAbsent(s: string, pairs: seq<(string, string)>)
    requires forall i :: 0 <= i < |pairs| ==> |pairs[i].0| > 0 && !Contains(s, pairs[i].0)
    ensures ReplaceChain(s, pairs) == s
    decreases |pairs|
  {
    if pairs != [] {
      ReplaceAbsent(s, pairs[0].0, pairs[0].1);
      ReplaceChainAbsent(s, pairs[1..]);
    }
  }

  // ---------------------------------------------------------------------------
  // Case, whitespace, tokens, joining
  // ---------------------------------------------------------------------------

  function LowerChar(c: char): char {
    if 'A' <= c <= 'Z' then (c as int + 32) as char else c
  }

  /** ASCII lower-casing, as `to_lower` does in the "C" locale. */
  function Lower(s: string): (t: string)
    ensures |t| == |s| && forall i :: 0 <= i < |s| ==> t[i] == LowerChar(s[i])
  {
    seq(|s|, i requires 0 <= i < |s| => LowerChar(s[i]))
  }

  predicate IsLower(s: string) { forall i :: 0 <= i < |s| ==> LowerChar(s[i]) == s[i] }

  /** The whitespace of Python 2's `str.strip()` and `str.split()`. */
  predicate IsSpace(c: char) { c == ' ' || '\t' <= c <= '\r' }

  predicate NoSpace(s: string) { forall i :: 0 <= i < |s| ==> !IsSpace(s[i]) }

  predicate HasNonSpace(s: string) { exists i :: 0 <= i < |s| && !IsSpace(s[i]) }

  function RStrip(s: string): (t: string)
    ensures |t| <= |s| && t == s[..|t|]
    ensures |t| > 0 ==> !IsSpace(t[|t| - 1])
  {
    if |s| > 0 && IsSpace(s[|s| - 1]) then RStrip(s[..|s| - 1]) else s
  }

  function LStrip(s: string): (t: string)
    ensures |t| <= |s| && t == s[|s| - |t|..]
    ensures |t| > 0 ==> !IsSpace(t[0])
  {
    if |s| > 0 && IsSpace(s[0]) then LStrip(s[1..]) else s
  }

  /** Python's `s.strip()`. */
  function Strip(s: string): string { LStrip(RStrip(s)) }

  /** The trailing run of non-whitespace characters of `s`. */
  function LastWord(s: string): (w: string)
    ensures NoSpace(w) && EndsWith(s, w)
  {
    if |s| == 0 || IsSpace(s[|s| - 1]) then [] else LastWord(s[..|s| - 1]) + [s[|s| - 1]]
  }

  /** `s.strip().split()[-1]`, which raises IndexError on an all-blank string. */
  function LastToken(s: string): (r: Result<string>)
    ensures r.Err? <==> !HasNonSpace(s)
    ensures r.Ok? ==> |r.value| > 0 && NoSpace(r.value)
  {
    var t := Strip(s);
    StripEmptyIffBlank(s);
    if t == [] then Err(IndexError) else Ok(LastWord(t))
  }

  lemma {:induction false} RStripKeepsNonSpace(s: string)
    ensures HasNonSpace(s) <==> RStrip(s) != []
  {
    if |s| > 0 && IsSpace(s[|s| - 1]) {
      RStripKeepsNonSpace(s[..|s| - 1]);
      if HasNonSpace(s) {
        var i :| 0 <= i < |s| && !IsSpace(s[i]);
        assert s[..|s| - 1][i] == s[i];
      }
      if HasNonSpace(s[..|s| - 1]) {
        var i :| 0 <= i < |s| - 1 && !IsSpace(s[..|s| - 1][i]);
        assert !IsSpace(s[i]);
      }
    } else if |s| > 0 {
      assert !IsSpace(s[|s| - 1]);
    }
  }

  lemma {:induction false} LStripKeepsNonSpace(s: string)
    ensures HasNonSpace(s) <==> LStrip(s) != []
  {
    if |s| > 0 && IsSpace(s[0]) {
      LStripKeepsNonSpace(s[1..]);
      LeadingSpaceNotCounted(s);
    } else if |s| > 0 {
      assert !IsSpace(s[0]);
    }
  }

  /** A leading space is not the non-space character a string may hold. */
  lemma {:induction false} LeadingSpaceNotCounted(s: string)
    requires |s| > 0 && IsSpace(s[0])
    ensures HasNonSpace(s) <==> HasNonSpace(s[1..])
  {
    var t := s[1..];
    if HasNonSpace(s) {
      var i :| 0 <= i < |s| && !IsSpace(s[i]);
      assert t[i - 1] == s[i];
    }
    if HasNonSpace(t) {
      var i :| 0 <= i < |t| && !IsSpace(t[i]);
      assert s[i + 1] == t[i];
    }
  }

  lemma {:induction false} StripEmptyIffBlank(s: string)
    ensures Strip(s) == [] <==> !HasNonSpace(s)
  {
    RStripKeepsNonSpace(s);
    var t := RStrip(s);
    LStripKeepsNonSpace(t);
    if HasNonSpace(t) {
      var i :| 0 <= i < |t| && !IsSpace(t[i]);
      assert s[i] == t[i];
    }
  }

  /** Python's `sep.join(xs)`. */
  function Join(sep: string, xs: seq<string>): string
  {
    if |xs| == 0 then [] else if |xs| == 1 then xs[0] else xs[0] + sep + Join(sep, xs[1..])
  }
}
