/**
 * The few pieces of Python's str semantics the analysis relies on:
 * whitespace (str.isspace, which is also what the regex class \s matches
 * on str patterns), str.strip(), str.lower(), the substring test `k in s`
 * and the code-point order used when strings are compared or sorted.
 */
module Text {

  /** Python's str.isspace() for a single character. */
  predicate IsSpace(c: char)
  {
    || c == ' '
    || ('\t' <= c <= '\r')             // \t \n \v \f \r
    || ('\U{1c}' <= c <= '\U{1f}')     // file, group, record and unit separators
    || c == '\U{85}' || c == '\U{a0}' || c == '\U{1680}'
    || ('\U{2000}' <= c <= '\U{200a}')
    || c == '\U{2028}' || c == '\U{2029}' || c == '\U{202f}' || c == '\U{205f}' || c == '\U{3000}'
  }

  /** str.lower() restricted to ASCII letters. */
  function LowerChar(c: char): char
  {
    if 'A' <= c <= 'Z' then (c as int + 32) as char else c
  }

  function Lower(s: string): (r: string)
    ensures |r| == |s|
    ensures forall i :: 0 <= i < |s| ==> r[i] == LowerChar(s[i])
  {
    seq(|s|, i requires 0 <= i < |s| => LowerChar(s[i]))
  }

  lemma LowerIdempotent(s: string)
    ensures Lower(Lower(s)) == Lower(s)
  {
    assert forall i :: 0 <= i < |s| ==> LowerChar(LowerChar(s[i])) == LowerChar(s[i]);
  }

  // ---------------------------------------------------------------------------
  // Substrings

  predicate StartsWith(s: string, k: string)
  {
    |k| <= |s| && s[..|k|] == k
  }

  /** Python's `k in s` for strings. */
  predicate Contains(s: string, k: string)
    decreases |s|
  {
    StartsWith(s, k) || (|s| > 0 && Contains(s[1..], k))
  }

  predicate OccursAt(s: string, k: string, i: int)
  {
    0 <= i && i + |k| <= |s| && s[i..i + |k|] == k
  }

  /** An occurrence at position i is found by the recursive test. */
  lemma {:induction false} OccursContains(s: string, k: string, i: int)
    requires OccursAt(s, k, i)
    ensures Contains(s, k)
    decreases i
  {
    if i == 0 {
      assert StartsWith(s, k);
    } else {
      assert s[1..][i - 1..i - 1 + |k|] == s[i..i + |k|];
      OccursContains(s[1..], k, i - 1);
    }
  }

  /** The recursive test finds only actual occurrences. */
  lemma {:induction false} ContainsOccurs(s: string, k: string) returns (i: nat)
    requires Contains(s, k)
    ensures OccursAt(s, k, i)
    decreases |s|
  {
    if StartsWith(s, k) {
      i := 0;
    } else {
      var j := ContainsOccurs(s[1..], k);
      assert s[1..][j..j + |k|] == s[j + 1..j + 1 + |k|];
      i := j + 1;
    }
  }

  /** The recursive substring test agrees with "k occurs at some position". */
  lemma ContainsIffOccurs(s: string, k: string)
    ensures Contains(s, k) <==> exists i :: OccursAt(s, k, i)
  {
    if Contains(s, k) {
      var i := ContainsOccurs(s, k);
    }
    forall i | OccursAt(s, k, i) ensures Contains(s, k) {
      OccursContains(s, k, i);
    }
  }

  /** A substring of a substring is a substring. */
  lemma ContainsTransitive(s: string, k: string, j: string)
    requires Contains(s, k) && Contains(k, j)
    ensures Contains(s, j)
  {
    ContainsIffOccurs(s, k);
    ContainsIffOccurs(k, j);
    var a :| OccursAt(s, k, a);
    var b :| OccursAt(k, j, b);
    assert forall m :: 0 <= m < |k| ==> s[a + m] == k[m];
    assert s[a + b..a + b + |j|] == k[b..b + |j|];
    OccursContains(s, j, a + b);
  }

  /** Every character of a substring occurs in the string. */
  lemma ContainsChars(s: string, k: string)
    requires Contains(s, k)
    ensures forall c :: c in k ==> c in s
  {
    ContainsIffOccurs(s, k);
    var a :| OccursAt(s, k, a);
    forall c | c in k ensures c in s {
      var m :| 0 <= m < |k| && k[m] == c;
      assert s[a + m] == k[m];
    }
  }

  /** A string lacking one of k's characters does not contain k. */
  lemma MissingCharNotContained(s: string, k: string, c: char)
    requires c in k && c !in s
    ensures !Contains(s, k)
  {
    if Contains(s, k) {
      ContainsChars(s, k);
    }
  }

  // ---------------------------------------------------------------------------
  // str.strip()

  function LeadingSpaces(s: string): (n: nat)
    ensures n <= |s|
    ensures forall i :: 0 <= i < n ==> IsSpace(s[i])
    ensures n < |s| ==> !IsSpace(s[n])
  {
    if |s| > 0 && IsSpace(s[0]) then 1 + LeadingSpaces(s[1..]) else 0
  }

  function TrailingSpaces(s: string): (n: nat)
    ensures n <= |s|
    ensures forall i :: |s| - n <= i < |s| ==> IsSpace(s[i])
    ensures n < |s| ==> !IsSpace(s[|s| - 1 - n])
  {
    if |s| > 0 && IsSpace(s[|s| - 1]) then 1 + TrailingSpaces(s[..|s| - 1]) else 0
  }

  predicate IsStripped(s: string)
  {
    |s| > 0 ==> !IsSpace(s[0]) && !IsSpace(s[|s| - 1])
  }

  /**
   * Python's str.strip(): the result is the middle of s, what was removed on
   * either side is whitespace, and the result neither starts nor ends with
   * whitespace (so the removed runs are maximal).
   */
  function Strip(s: string): (r: string)
    ensures LeadingSpaces(s) + |r| <= |s|
    ensures r == s[LeadingSpaces(s)..LeadingSpaces(s) + |r|]
    ensures forall i :: 0 <= i < LeadingSpaces(s) ==> IsSpace(s[i])
    ensures forall i :: LeadingSpaces(s) + |r| <= i < |s| ==> IsSpace(s[i])
    ensures IsStripped(r)
  {
    var a := LeadingSpaces(s);
    var t := s[a..];
    var r := t[..|t| - TrailingSpaces(t)];
    StripFacts(s, a, t, r);
    StripTail(s, a, t, TrailingSpaces(t));
    StripEnds(s, a, t, r);
    r
  }

  lemma StripFacts(s: string, a: nat, t: string, r: string)
    requires a == LeadingSpaces(s) && t == s[a..] && r == t[..|t| - TrailingSpaces(t)]
    ensures a + |r| <= |s| && r == s[a..a + |r|]
  {
    assert s[a..a + |r|] == s[a..][..|r|];
  }

  /** Whitespace at the end of a suffix of s is whitespace at the end of s. */
  lemma StripTail(s: string, a: nat, t: string, n: nat)
    requires a <= |s| && t == s[a..] && n <= |t|
    requires forall j :: |t| - n <= j < |t| ==> IsSpace(t[j])
    ensures forall i :: a + |t| - n <= i < |s| ==> IsSpace(s[i])
  {
    forall i | a + |t| - n <= i < |s| ensures IsSpace(s[i]) {
      assert s[i] == t[i - a];
    }
  }

  lemma StripEnds(s: string, a: nat, t: string, r: string)
    requires a == LeadingSpaces(s) && t == s[a..] && r == t[..|t| - TrailingSpaces(t)]
    ensures IsStripped(r)
  {
    if |r| > 0 {
      assert r[0] == s[a];
      assert r[|r| - 1] == t[|t| - 1 - TrailingSpaces(t)];
    }
  }

  lemma StripStripped(s: string)
    requires IsStripped(s)
    ensures Strip(s) == s
  {
    assert LeadingSpaces(s) == 0;
    var t := s[LeadingSpaces(s)..];
    assert t == s;
    assert TrailingSpaces(s) == 0;
  }

  // ---------------------------------------------------------------------------
  // Code-point order on strings (Python's < on str)

  predicate StrLt(a: string, b: string)
    decreases |a|
  {
    if |a| == 0 then |b| > 0
    else if |b| == 0 then false
    else if a[0] != b[0] then a[0] < b[0]
    else StrLt(a[1..], b[1..])
  }

  lemma {:induction false} StrLtIrreflexive(a: string)
    ensures !StrLt(a, a)
    decreases |a|
  {
    if |a| > 0 {
      StrLtIrreflexive(a[1..]);
    }
  }

  lemma {:induction false} StrLtTransitive(a: string, b: string, c: string)
    requires StrLt(a, b) && StrLt(b, c)
    ensures StrLt(a, c)
    decreases |a|
  {
    if |a| > 0 && |b| > 0 && |c| > 0 && a[0] == b[0] && b[0] == c[0] {
      StrLtTransitive(a[1..], b[1..], c[1..]);
    }
  }

  /** Two strings that first differ at k compare as their characters at k. */
  lemma {:induction false} StrLtAt(a: string, b: string, k: nat)
    requires k < |a| && k < |b| && a[..k] == b[..k] && a[k] < b[k]
    ensures StrLt(a, b)
    decreases k
  {
    if k > 0 {
      assert a[0] == a[..k][0] == b[..k][0] == b[0];
      assert a[1..][..k - 1] == a[1..k] == a[..k][1..];
      assert b[1..][..k - 1] == b[1..k] == b[..k][1..];
      StrLtAt(a[1..], b[1..], k - 1);
    }
  }
  lemma {:induction false} StrLtAsymmetric(a: string, b: string)
    requires StrLt(a, b)
    ensures !StrLt(b, a)
    decreases |a|
  {
    if |a| > 0 && a[0] == b[0] {
      StrLtAsymmetric(a[1..], b[1..]);
    }
  }

  /** Two different strings are ordered one way or the other. */
  lemma {:induction false} StrLtTotal(a: string, b: string)
    requires a != b
    ensures StrLt(a, b) || StrLt(b, a)
    decreases |a|
  {
    if |a| > 0 && |b| > 0 && a[0] == b[0] {
      assert a == [a[0]] + a[1..] && b == [b[0]] + b[1..];
      StrLtTotal(a[1..], b[1..]);
    }
  }

  /** Ascending in code-point order: no string is smaller than one before it. */
  predicate StrSorted(s: seq<string>)
  {
    forall i, j :: 0 <= i < j < |s| ==> !StrLt(s[j], s[i])
  }

  lemma StrLeTransitive(a: string, b: string, c: string)
    requires !StrLt(b, a) && !StrLt(c, b)
    ensures !StrLt(c, a)
  {
    if StrLt(c, a) {
      if a == b {
      } else {
        StrLtTotal(a, b);
        StrLtTransitive(c, a, b);
      }
    }
  }

  function InsertStr(x: string, s: seq<string>): (r: seq<string>)
    requires StrSorted(s)
    ensures multiset(r) == multiset(s) + multiset{x}
    ensures StrSorted(r)
  {
    if s == [] then [x]
    else if !StrLt(s[0], x) then
      forall j | 0 <= j < |s| ensures !StrLt(s[j], x) {
        if j > 0 { StrLeTransitive(x, s[0], s[j]); }
      }
      [x] + s
    else
      var rest := InsertStr(x, s[1..]);
      assert s == [s[0]] + s[1..];
      forall j | 0 <= j < |rest| ensures !StrLt(rest[j], s[0]) {
        assert rest[j] in multiset(s[1..]) + multiset{x};
        if rest[j] != x {
          assert rest[j] in s[1..];
        } else {
          StrLtAsymmetric(s[0], x);
        }
      }
      [s[0]] + rest
  }

  /** The strings in ascending code-point order, as sorted() and groupby order them. */
  function SortStrings(s: seq<string>): (r: seq<string>)
    ensures multiset(r) == multiset(s)
    ensures StrSorted(r)
  {
    if s == [] then []
    else
      var init := s[..|s| - 1];
      assert s == init + [s[|s| - 1]];
      InsertStr(s[|s| - 1], SortStrings(init))
  }
}
