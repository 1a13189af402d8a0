/** Sequence and string utilities: the `Array.prototype` and `String.prototype`
    operations the handlers use (`filter`, reversed index order, `includes`,
    `toLowerCase`, `Number.prototype.toString`). */
module Seqs {

  /** `r` is an order-preserving subsequence of `s`. */
  ghost predicate Subseq<T>(r: seq<T>, s: seq<T>)
    decreases |s|
  {
    if r == [] then true
    else if s == [] then false
    else if r[0] == s[0] then Subseq(r[1..], s[1..])
    else Subseq(r, s[1..])
  }

  /** `Array.prototype.filter`: keeps, in order, the elements that satisfy `p`. */
  function Filter<T>(s: seq<T>, p: T -> bool): (r: seq<T>)
    ensures |r| <= |s|
    ensures forall x | x in r :: x in s && p(x)
    ensures forall x | x in s && p(x) :: x in r
    ensures Subseq(r, s)
  {
    if s == [] then []
    else if p(s[0]) then [s[0]] + Filter(s[1..], p)
    else Filter(s[1..], p)
  }

  /** Filtering keeps every copy of a kept value and no copy of a dropped one. */
  lemma {:induction false} FilterCounts<T>(s: seq<T>, p: T -> bool, x: T)
    ensures multiset(Filter(s, p))[x] == if p(x) then multiset(s)[x] else 0
  {
    if s != [] {
      FilterCounts(s[1..], p, x);
      assert s == [s[0]] + s[1..];
    }
  }

  lemma {:induction false} FilterAppend<T>(a: seq<T>, b: seq<T>, p: T -> bool)
    ensures Filter(a + b, p) == Filter(a, p) + Filter(b, p)
  {
    if a == [] {
      assert a + b == b;
    } else {
      assert (a + b)[0] == a[0];
      assert (a + b)[1..] == a[1..] + b;
      FilterAppend(a[1..], b, p);
    }
  }

  /** Filtering keeps everything when every element qualifies. */
  lemma {:induction false} FilterKeepsAll<T>(s: seq<T>, p: T -> bool)
    requires forall i | 0 <= i < |s| :: p(s[i])
    ensures Filter(s, p) == s
  {
    if s != [] {
      FilterKeepsAll(s[1..], p);
    }
  }

  /** The position of the last element `Filter` keeps: it qualifies and no
      later element does. */
  lemma {:induction false} LastKept<T>(s: seq<T>, p: T -> bool) returns (i: nat)
    requires Filter(s, p) != []
    ensures i < |s| && s[i] == Filter(s, p)[|Filter(s, p)| - 1] && p(s[i])
    ensures forall j | i < j < |s| :: !p(s[j])
  {
    var n := |s| - 1;
    var front := s[..n];
    assert s == front + [s[n]];
    FilterAppend(front, [s[n]], p);
    if p(s[n]) {
      assert Filter([s[n]], p) == [s[n]];
      i := n;
    } else {
      assert Filter([s[n]], p) == [];
      i := LastKept(front, p);
      assert s[i] == front[i];
      forall j | i < j < |s| ensures !p(s[j]) {
        if j < n { assert s[j] == front[j]; }
      }
    }
  }

  /** The last element `Filter` keeps is the last qualifying element of `s`. */
  lemma FilterLast<T>(s: seq<T>, p: T -> bool)
    requires Filter(s, p) != []
    ensures exists i | 0 <= i < |s| ::
              && s[i] == Filter(s, p)[|Filter(s, p)| - 1]
              && p(s[i])
              && forall j | i < j < |s| :: !p(s[j])
  {
    var i := LastKept(s, p);
  }

  /** Filtering by two conditions that agree on every element gives the same
      result. */
  lemma {:induction false} FilterSame<T>(s: seq<T>, p: T -> bool, q: T -> bool)
    requires forall i | 0 <= i < |s| :: p(s[i]) == q(s[i])
    ensures Filter(s, p) == Filter(s, q)
  {
    if s != [] {
      FilterSame(s[1..], p, q);
    }
  }

  /** The elements of `s` from last to first (an index read in `desc` order). */
  function Reverse<T>(s: seq<T>): (r: seq<T>)
    ensures |r| == |s|
    ensures forall i | 0 <= i < |s| :: r[i] == s[|s| - 1 - i]
    ensures multiset(r) == multiset(s)
  {
    if s == [] then []
    else
      assert s == [s[0]] + s[1..];
      Reverse(s[1..]) + [s[0]]
  }

  /** Reversing keeps the same elements. */
  lemma ReverseMembers<T>(s: seq<T>)
    ensures forall x | x in s :: x in Reverse(s)
    ensures forall x | x in Reverse(s) :: x in s
  {
    assert forall x | x in s :: x in multiset(Reverse(s));
    assert forall x | x in Reverse(s) :: x in multiset(s);
  }

  /** Reading in descending order and then filtering is filtering and then
      reading in descending order. */
  lemma {:induction false} FilterReverse<T>(s: seq<T>, p: T -> bool)
    ensures Filter(Reverse(s), p) == Reverse(Filter(s, p))
  {
    if s != [] {
      calc {
        Filter(Reverse(s), p);
        Filter(Reverse(s[1..]) + [s[0]], p);
        { FilterAppend(Reverse(s[1..]), [s[0]], p); }
        Filter(Reverse(s[1..]), p) + Filter([s[0]], p);
        { FilterReverse(s[1..], p); }
        Reverse(Filter(s[1..], p)) + Filter([s[0]], p);
      }
      if p(s[0]) {
        assert ([s[0]] + Filter(s[1..], p))[1..] == Filter(s[1..], p);
      }
    }
  }

  /** `x` occurs in `s` starting at position `i`. */
  predicate InfixAt(s: string, x: string, i: nat) {
    i + |x| <= |s| && s[i..i + |x|] == x
  }

  /** `String.prototype.includes`. */
  predicate Includes(s: string, x: string) {
    exists i: nat | i <= |s| :: InfixAt(s, x, i)
  }

  lemma IncludesEmpty(s: string)
    ensures Includes(s, "")
  {
    assert InfixAt(s, "", 0);
  }

  /** A piece placed between two others is included in the whole. */
  lemma IncludesMiddle(a: string, x: string, b: string)
    ensures Includes(a + x + b, x)
  {
    var s := a + x + b;
    assert s[|a|..|a| + |x|] == x;
    assert InfixAt(s, x, |a|);
  }

  /** Whatever a string includes, a longer string ending in it includes too. */
  lemma IncludesAfter(a: string, s: string, x: string)
    requires Includes(s, x)
    ensures Includes(a + s, x)
  {
    var i: nat :| i <= |s| && InfixAt(s, x, i);
    assert (a + s)[|a| + i..|a| + i + |x|] == s[i..i + |x|];
    assert InfixAt(a + s, x, |a| + i);
  }

  /** `Array.prototype.join`: the parts with `sep` between neighbours. A
      multi-line template literal is the join of its lines with a newline. */
  function Join(parts: seq<string>, sep: string): string
    decreases |parts|
  {
    if parts == [] then ""
    else if |parts| == 1 then parts[0]
    else parts[0] + sep + Join(parts[1..], sep)
  }

  predicate StartsWith(s: string, x: string) {
    |x| <= |s| && s[..|x|] == x
  }

  predicate EndsWith(s: string, x: string) {
    |x| <= |s| && s[|s| - |x|..] == x
  }

  lemma StartsWithAfter(c: string, s: string, t: string, x: string)
    requires StartsWith(s, x)
    ensures StartsWith(c + s + t, c + x)
  {
    assert (c + s + t)[..|c + x|] == c + x;
  }

  /** The last part of a join of two or more is what the joined text ends with. */
  lemma JoinEndsWithLast(parts: seq<string>, sep: string)
    requires |parts| >= 2
    ensures EndsWith(Join(parts, sep), parts[|parts| - 1])
  {
    var front := parts[..|parts| - 1];
    var last := parts[|parts| - 1];
    assert parts == front + [last];
    JoinSplit(front, [last], sep);
    var r := Join(front, sep) + sep + last;
    assert r[|r| - |last|..] == last;
  }

  /** Joining two non-empty runs of parts is joining each and putting one
      separator between them. */
  lemma {:induction false} JoinSplit(a: seq<string>, b: seq<string>, sep: string)
    requires a != [] && b != []
    ensures Join(a + b, sep) == Join(a, sep) + sep + Join(b, sep)
    decreases |a|
  {
    assert (a + b)[0] == a[0];
    if |a| == 1 {
      assert (a + b)[1..] == b;
    } else {
      assert (a + b)[1..] == a[1..] + b;
      JoinSplit(a[1..], b, sep);
    }
  }

  /** The first two parts of a join of three or more. */
  lemma JoinFirstTwo(parts: seq<string>, sep: string)
    requires |parts| >= 3
    ensures Join(parts, sep) == parts[0] + sep + parts[1] + (sep + Join(parts[2..], sep))
  {
    assert parts[1..][0] == parts[1];
    assert parts[1..][1..] == parts[2..];
  }

  /** What a piece includes, a text containing the piece includes too. */
  lemma IncludesWithin(a: string, s: string, b: string, x: string)
    requires Includes(s, x)
    ensures Includes(a + s + b, x)
  {
    var i: nat :| i <= |s| && InfixAt(s, x, i);
    assert (a + s + b)[|a| + i..|a| + i + |x|] == s[i..i + |x|];
    assert InfixAt(a + s + b, x, |a| + i);
  }

  /** Inclusion is transitive: a text includes whatever a piece of it includes. */
  lemma IncludesTransitive(s: string, x: string, y: string)
    requires Includes(s, x) && Includes(x, y)
    ensures Includes(s, y)
  {
    var i: nat :| i <= |s| && InfixAt(s, x, i);
    var j: nat :| j <= |x| && InfixAt(x, y, j);
    assert x == s[i..i + |x|] && y == x[j..j + |y|];
    assert forall m | 0 <= m < |y| :: s[i + j + m] == x[j + m] == y[m];
    assert s[i + j..i + j + |y|] == y;
    assert InfixAt(s, y, i + j);
  }

  /** Every part appears in the joined text. */
  lemma {:induction false} JoinIncludes(parts: seq<string>, sep: string, k: nat)
    requires k < |parts|
    ensures Includes(Join(parts, sep), parts[k])
    decreases k
  {
    if |parts| == 1 {
      assert InfixAt(parts[0], parts[0], 0);
    } else if k == 0 {
      IncludesMiddle("", parts[0], sep + Join(parts[1..], sep));
      assert "" + parts[0] + (sep + Join(parts[1..], sep)) == Join(parts, sep);
    } else {
      JoinIncludes(parts[1..], sep, k - 1);
      IncludesAfter(parts[0] + sep, Join(parts[1..], sep), parts[k]);
    }
  }

  /** ASCII case folding, the part of `toLowerCase` this model keeps. */
  function LowerChar(c: char): char {
    if 'A' <= c <= 'Z' then (c as int + 32) as char else c
  }

  /** `String.prototype.toLowerCase`, restricted to ASCII letters. */
  function Lower(s: string): (r: string)
    ensures |r| == |s|
    ensures forall i | 0 <= i < |s| :: r[i] == LowerChar(s[i])
  {
    seq(|s|, i requires 0 <= i < |s| => LowerChar(s[i]))
  }

  lemma LowerIdempotent(s: string)
    ensures Lower(Lower(s)) == Lower(s)
  {
  }

  /** `text.toLowerCase().includes(search.toLowerCase())`. */
  predicate ContainsIgnoringCase(text: string, search: string) {
    Includes(Lower(text), Lower(search))
  }

  /** The empty search is contained in every text. */
  lemma ContainsEmpty(text: string)
    ensures ContainsIgnoringCase(text, "")
  {
    IncludesEmpty(Lower(text));
  }

  /** Lowering the search first changes nothing. */
  lemma ContainsLowered(text: string, search: string)
    ensures ContainsIgnoringCase(text, Lower(search)) == ContainsIgnoringCase(text, search)
  {
    LowerIdempotent(search);
  }

  predicate IsDigit(c: char) {
    '0' <= c <= '9'
  }

  function DigitChar(d: nat): (c: char)
    requires d < 10
    ensures IsDigit(c) && c as int - '0' as int == d
  {
    (d + '0' as int) as char
  }

  /** Decimal digits of a natural number, most significant first, no leading zeros. */
  function NatText(n: nat): (r: string)
    ensures |r| > 0
    ensures forall i | 0 <= i < |r| :: IsDigit(r[i])
    ensures |r| > 1 ==> r[0] != '0'
    decreases n
  {
    if n < 10 then [DigitChar(n)] else NatText(n / 10) + [DigitChar(n % 10)]
  }

  /** The value of a string of decimal digits. */
  function DigitsValue(s: string): nat
    requires forall i | 0 <= i < |s| :: IsDigit(s[i])
  {
    if s == [] then 0
    else
      assert IsDigit(s[|s| - 1]);
      DigitsValue(s[..|s| - 1]) * 10 + (s[|s| - 1] as int - '0' as int)
  }

  /** Reading back the digits gives the number: the text determines the age. */
  lemma {:induction false} NatTextValue(n: nat)
    ensures DigitsValue(NatText(n)) == n
    decreases n
  {
    if n >= 10 {
      var t := NatText(n);
      assert t[..|t| - 1] == NatText(n / 10);
      NatTextValue(n / 10);
    }
  }

  /** `Number.prototype.toString()` on an integer. */
  function DecimalText(n: int): (r: string)
    ensures n >= 0 ==> r == NatText(n)
    ensures n < 0 ==> r == "-" + NatText(-n)
  {
    if n < 0 then "-" + NatText(-n) else NatText(n)
  }

  /** Two different integers never render to the same text. */
  lemma DecimalTextInjective(m: int, n: int)
    requires DecimalText(m) == DecimalText(n)
    ensures m == n
  {
    if m >= 0 && n >= 0 {
      NatTextValue(m);
      NatTextValue(n);
    } else if m < 0 && n < 0 {
      var tm, tn := NatText(-m), NatText(-n);
      assert tm == DecimalText(m)[1..];
      assert tn == DecimalText(n)[1..];
      NatTextValue(-m);
      NatTextValue(-n);
    }
  }
}
