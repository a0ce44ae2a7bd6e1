/** The small part of Python's string semantics that the scanner relies on:
    `str.find` for one character, slicing with negative and out-of-range
    bounds, `'{:d}'.format`, `sep.join`, `str.split` on one character and
    the ordering `<` of two strings (code point by code point). */
module PyStrings {

  datatype Option<+T> = None | Some(value: T)

  /* ---------------------------------------------------------------------
     str.find
     --------------------------------------------------------------------- */

  /** `s.find(c)`: the index of the first `c` in `s`, or -1 when there is none. */
  function Find(s: string, c: char): (r: int)
    ensures -1 <= r < |s|
    ensures r == -1 <==> c !in s
    ensures 0 <= r ==> s[r] == c && c !in s[..r]
  {
    if |s| == 0 then -1
    else if s[0] == c then 0
    else
      var k := Find(s[1..], c);
      if k == -1 then -1
      else
        assert s[..k + 1] == [s[0]] + s[1..][..k];
        k + 1
  }

  /** Finding `c` in `p + q` when `p` holds no `c` looks in `q` only. */
  lemma {:induction false} FindAfterPrefix(p: string, q: string, c: char)
    requires c !in p
    ensures Find(p + q, c) == if c in q then |p| + Find(q, c) else -1
  {
    var s := p + q;
    if c in q {
      var k := Find(q, c);
      assert s[|p| + k] == c;
      assert s[..|p| + k] == p + q[..k];
      assert forall i :: 0 <= i < |p| + k ==> s[i] != c by {
        forall i | 0 <= i < |p| + k ensures s[i] != c {
          assert s[i] in s[..|p| + k];
        }
      }
      var r := Find(s, c);
      assert s[r] == c;
      assert r <= |p| + k ==> c !in s[..r];
    } else {
      assert forall i :: 0 <= i < |s| ==> s[i] != c by {
        forall i | 0 <= i < |s| ensures s[i] != c {
          if i < |p| { assert s[i] == p[i]; } else { assert s[i] == q[i - |p|]; }
        }
      }
    }
  }

  /** The first `c` of `p + [c] + q`, when `p` holds none, is the one after `p`. */
  lemma FindFirst(p: string, c: char, q: string)
    requires c !in p
    ensures Find(p + [c] + q, c) == |p|
  {
    assert p + [c] + q == p + ([c] + q);
    FindAfterPrefix(p, [c] + q, c);
    assert Find([c] + q, c) == 0;
  }

  /* ---------------------------------------------------------------------
     Slicing with step 1: s[i:j] and s[i:]
     --------------------------------------------------------------------- */

  /** How Python turns one slice bound into a position of a sequence of
      length `n`: a negative bound counts from the end, and the result is
      clamped to `0..n`. */
  function SliceBound(i: int, n: nat): (b: nat)
    ensures b <= n
    ensures 0 <= i <= n ==> b == i
    ensures i < 0 && -i <= n ==> b + -i == n
  {
    if i < 0 then (if i + n < 0 then 0 else i + n)
    else if i > n then n
    else i
  }

  /** `s[i:j]`. */
  function Slice(s: string, i: int, j: int): (r: string)
    ensures |r| <= |s|
    // as many characters as lie from the start bound up to the stop bound
    ensures var a, b := SliceBound(i, |s|), SliceBound(j, |s|);
            |r| == if a < b then b - a else 0
  {
    var a, b := SliceBound(i, |s|), SliceBound(j, |s|);
    if a < b then s[a..b] else ""
  }

  /** `s[i:]`. */
  function SliceFrom(s: string, i: int): (r: string)
    ensures |r| <= |s| && r == s[|s| - |r|..]
    ensures 0 <= i <= |s| ==> |r| == |s| - i
  {
    Slice(s, i, |s|)
  }

  /** A slice holds no character that is absent before its stop bound. */
  lemma SliceAvoids(s: string, i: int, j: int, c: char)
    requires c !in s[..SliceBound(j, |s|)]
    ensures c !in Slice(s, i, j)
  {
    var a, b := SliceBound(i, |s|), SliceBound(j, |s|);
    if a < b {
      forall k | a <= k < b ensures s[k] != c {
        assert s[k] == s[..b][k];
      }
    }
  }

  /** Within bounds, Python's slice is Dafny's. */
  lemma SliceWithin(s: string, i: int, j: int)
    requires 0 <= i <= j <= |s|
    ensures Slice(s, i, j) == s[i..j]
  {
  }

  /** A negative stop counts from the end: `s[i:-k]` drops the last `k` characters. */
  lemma SliceNegativeStop(s: string, i: int, j: int)
    requires 0 <= i && j < 0 && i <= |s| + j
    ensures Slice(s, i, j) == s[i..|s| + j]
  {
  }

  /** `s[i:-1]` for a start within the sequence: everything from `i` up to
      the last character, or nothing when that is empty. */
  lemma SliceToLast(s: string, i: int)
    requires 0 <= i <= |s|
    ensures Slice(s, i, -1) == if i < |s| - 1 then s[i..|s| - 1] else ""
  {
    assert SliceBound(i, |s|) == i;
  }

  /** `s[0:]` is `s`. */
  lemma SliceFromStart(s: string)
    ensures SliceFrom(s, 0) == s
  {
    assert s[0..|s|] == s;
  }

  /* ---------------------------------------------------------------------
     '{:d}'.format(n)
     --------------------------------------------------------------------- */

  predicate IsDigit(c: char) {
    '0' <= c <= '9'
  }

  predicate AllDigits(s: string) {
    forall i :: 0 <= i < |s| ==> IsDigit(s[i])
  }

  function DigitChar(d: nat): (c: char)
    requires d < 10
    ensures IsDigit(c)
  {
    ('0' as int + d) as char
  }

  /** The decimal digits of `n`, most significant first, without leading zeros. */
  function NatDigits(n: nat): (r: string)
    ensures |r| >= 1
    ensures AllDigits(r)
    ensures r[0] == '0' ==> n == 0
    decreases n
  {
    if n < 10 then [DigitChar(n)] else NatDigits(n / 10) + [DigitChar(n % 10)]
  }

  /** `'{:d}'.format(n)`: a minus sign for negative numbers, then the digits. */
  function Decimal(n: int): (r: string)
    ensures |r| >= 1
    ensures forall i :: 0 <= i < |r| ==> IsDigit(r[i]) || r[i] == '-'
    ensures n >= 0 <==> AllDigits(r)
  {
    if n < 0 then
      var r := "-" + NatDigits(-n);
      assert !IsDigit(r[0]);
      r
    else NatDigits(n)
  }

  /** The value of a string of decimal digits. */
  function DigitsValue(s: string): nat
    requires AllDigits(s)
  {
    if |s| == 0 then 0
    else DigitsValue(s[..|s| - 1]) * 10 + (s[|s| - 1] as int - '0' as int)
  }

  /** Reads back what `Decimal` writes: an optional minus sign followed by at least one digit. */
  function ParseDecimal(s: string): Option<int>
  {
    if |s| >= 1 && AllDigits(s) then Some(DigitsValue(s))
    else if |s| >= 2 && s[0] == '-' && AllDigits(s[1..]) then
      var v: int := DigitsValue(s[1..]);
      Some(-v)
    else None
  }

  lemma {:induction false} NatDigitsValue(n: nat)
    ensures DigitsValue(NatDigits(n)) == n
    decreases n
  {
    if n >= 10 {
      var r := NatDigits(n);
      assert r[..|r| - 1] == NatDigits(n / 10);
      NatDigitsValue(n / 10);
    }
  }

  /** `Decimal` loses nothing: its text parses back to the number. */
  lemma DecimalRoundTrip(n: int)
    ensures ParseDecimal(Decimal(n)) == Some(n)
  {
    if n < 0 {
      assert Decimal(n)[1..] == NatDigits(-n);
      NatDigitsValue(-n);
    } else {
      NatDigitsValue(n);
    }
  }

  /** Distinct numbers are rendered as distinct texts. */
  lemma DecimalInjective(m: int, n: int)
    requires Decimal(m) == Decimal(n)
    ensures m == n
  {
    DecimalRoundTrip(m);
    DecimalRoundTrip(n);
  }

  /* ---------------------------------------------------------------------
     sep.join(parts) and s.split(c)
     --------------------------------------------------------------------- */

  /** `sep.join(parts)`. */
  function Join(parts: seq<string>, sep: string): string {
    if |parts| == 0 then ""
    else if |parts| == 1 then parts[0]
    else parts[0] + sep + Join(parts[1..], sep)
  }

  /** Joining one more part adds the separator and the part at the end. */
  lemma {:induction false} JoinAppend(parts: seq<string>, x: string, sep: string)
    requires |parts| >= 1
    ensures Join(parts + [x], sep) == Join(parts, sep) + sep + x
  {
    if |parts| > 1 {
      assert (parts + [x])[1..] == parts[1..] + [x];
      JoinAppend(parts[1..], x, sep);
    } else {
      assert (parts + [x])[1..] == [x];
    }
  }

  /** Joining a part in front of at least one more adds the part and the separator at the front. */
  lemma JoinCons(x: string, rest: seq<string>, sep: string)
    requires |rest| >= 1
    ensures Join([x] + rest, sep) == x + sep + Join(rest, sep)
  {
    assert ([x] + rest)[1..] == rest;
  }

  /** Three parts joined, spelled out. */
  lemma Join3(a: string, b: string, c: string, sep: string)
    ensures Join([a, b, c], sep) == a + sep + b + sep + c
  {
    JoinCons(b, [c], sep);
    JoinCons(a, [b, c], sep);
    assert [a, b, c] == [a] + [b, c];
  }

  /** Four parts joined, spelled out. */
  lemma Join4(a: string, b: string, c: string, d: string, sep: string)
    ensures Join([a, b, c, d], sep) == a + sep + b + sep + c + sep + d
  {
    Join3(b, c, d, sep);
    JoinCons(a, [b, c, d], sep);
    assert [a, b, c, d] == [a] + [b, c, d];
  }

  /** A join starts with its first part and ends with its last. */
  lemma JoinEnds(parts: seq<string>, sep: string)
    requires |parts| >= 1
    ensures var r, a, z := Join(parts, sep), parts[0], parts[|parts| - 1];
            |a| <= |r| && r[..|a|] == a && |z| <= |r| && r[|r| - |z|..] == z
  {
    if |parts| > 1 {
      assert Join(parts, sep) == parts[0] + (sep + Join(parts[1..], sep));
    }
    JoinLast(parts, sep);
  }

  lemma {:induction false} JoinLast(parts: seq<string>, sep: string)
    requires |parts| >= 1
    ensures var r, z := Join(parts, sep), parts[|parts| - 1];
            |z| <= |r| && r[|r| - |z|..] == z
  {
    if |parts| > 1 {
      var rest := parts[1..];
      JoinLast(rest, sep);
      var z, j := parts[|parts| - 1], Join(rest, sep);
      assert rest[|rest| - 1] == z;
      var front := parts[0] + sep;
      assert Join(parts, sep) == front + j;
      SuffixOfAppend(front, j, |z|);
    }
  }

  /** The tail of `x + y` no longer than `y` is a tail of `y`. */
  lemma SuffixOfAppend(x: string, y: string, n: nat)
    requires n <= |y|
    ensures (x + y)[|x + y| - n..] == y[|y| - n..]
  {
  }

  /** `s.split(c)` for a one-character separator: the pieces between the separators. */
  function Split(s: string, c: char): (r: seq<string>)
    ensures |r| >= 1
    ensures forall i :: 0 <= i < |r| ==> c !in r[i]
    // nothing is lost: joining the pieces with the separator gives `s` back
    ensures Join(r, [c]) == s
    decreases |s|
  {
    var k := Find(s, c);
    if k == -1 then [s]
    else
      var rest := Split(s[k + 1..], c);
      JoinCons(s[..k], rest, [c]);
      assert s == s[..k] + [c] + s[k + 1..];
      [s[..k]] + rest
  }

  lemma SplitAfterFirst(head: string, rest: string, c: char)
    requires c !in head
    ensures Split(head + [c] + rest, c) == [head] + Split(rest, c)
  {
    var s := head + [c] + rest;
    assert s == head + ([c] + rest);
    FindAfterPrefix(head, [c] + rest, c);
    assert Find([c] + rest, c) == 0;
    assert s[..|head|] == head;
    assert s[|head| + 1..] == rest;
  }

  /** Splitting on a separator that occurs in none of the parts undoes the join. */
  lemma {:induction false} SplitJoin(parts: seq<string>, c: char)
    requires |parts| >= 1
    requires forall i :: 0 <= i < |parts| ==> c !in parts[i]
    ensures Split(Join(parts, [c]), c) == parts
  {
    if |parts| > 1 {
      var rest := Join(parts[1..], [c]);
      assert Join(parts, [c]) == parts[0] + [c] + rest;
      SplitAfterFirst(parts[0], rest, c);
      SplitJoin(parts[1..], c);
      assert [parts[0]] + parts[1..] == parts;
    } else {
      assert Find(parts[0], c) == -1;
    }
  }

  /* ---------------------------------------------------------------------
     Python's order on str
     --------------------------------------------------------------------- */

  /** `a <= b` for Python strings: the first differing character decides,
      and a proper prefix comes first. */
  predicate StrLe(a: string, b: string)
    // a prefix comes first
    ensures |a| <= |b| && a == b[..|a|] ==> StrLe(a, b)
  {
    if |a| == 0 then true
    else if |b| == 0 then false
    else if a[0] != b[0] then a[0] < b[0]
    else StrLe(a[1..], b[1..])
  }

  /** The order is decided by the first position where the strings differ. */
  lemma {:induction false} StrLeFirstDifference(a: string, b: string, k: nat)
    requires k < |a| && k < |b| && a[..k] == b[..k] && a[k] != b[k]
    ensures StrLe(a, b) <==> a[k] < b[k]
  {
    if k > 0 {
      assert a[0] == a[..k][0] && b[0] == b[..k][0];
      assert a[1..][..k - 1] == a[..k][1..] && b[1..][..k - 1] == b[..k][1..];
      StrLeFirstDifference(a[1..], b[1..], k - 1);
    }
  }

  lemma {:induction false} StrLeTotal(a: string, b: string)
    ensures StrLe(a, b) || StrLe(b, a)
  {
    if |a| > 0 && |b| > 0 && a[0] == b[0] {
      StrLeTotal(a[1..], b[1..]);
    }
  }

  lemma {:induction false} StrLeAntisymmetric(a: string, b: string)
    requires StrLe(a, b) && StrLe(b, a)
    ensures a == b
  {
    if |a| > 0 && |b| > 0 {
      StrLeAntisymmetric(a[1..], b[1..]);
      assert a == [a[0]] + a[1..] && b == [b[0]] + b[1..];
    }
  }

  lemma {:induction false} StrLeTransitive(a: string, b: string, c: string)
    requires StrLe(a, b) && StrLe(b, c)
    ensures StrLe(a, c)
  {
    if |a| > 0 && |b| > 0 && |c| > 0 && a[0] == b[0] && b[0] == c[0] {
      StrLeTransitive(a[1..], b[1..], c[1..]);
    }
  }
}
