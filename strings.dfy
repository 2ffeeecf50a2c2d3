/**
 * The few pieces of Python's `str`, `bytes` and `sorted` behaviour that the
 * build logic relies on: case folding, suffix tests, `sep.join`, `str.split`,
 * code-point ordering with a stable sort, and UTF-8 encoding.
 */
module Strings {

  type byte = x: int | 0 <= x < 256

  // ---------------------------------------------------------------- case folding

  /** `str.casefold` on one character, restricted to ASCII upper-case letters. */
  function FoldChar(c: char): char
  {
    if 'A' <= c <= 'Z' then (c as int + 32) as char else c
  }

  function Casefold(s: string): (r: string)
    ensures |r| == |s|
    ensures forall i :: 0 <= i < |s| ==> r[i] == FoldChar(s[i])
  {
    if s == [] then [] else [FoldChar(s[0])] + Casefold(s[1..])
  }

  lemma CasefoldConcat(a: string, b: string)
    ensures Casefold(a + b) == Casefold(a) + Casefold(b)
  {
    assert forall i :: 0 <= i < |a + b| ==> Casefold(a + b)[i] == (Casefold(a) + Casefold(b))[i];
  }

  // ---------------------------------------------------------------- affixes

  predicate StartsWith(s: string, prefix: string)
  {
    |prefix| <= |s| && s[..|prefix|] == prefix
  }

  /** `s.endswith(suffix)`. */
  predicate EndsWith(s: string, suffix: string)
  {
    |suffix| <= |s| && s[|s| - |suffix|..] == suffix
  }

  lemma EndsWithConcat(s: string, suffix: string)
    ensures EndsWith(s + suffix, suffix)
  {
    assert (s + suffix)[|s + suffix| - |suffix|..] == suffix;
  }

  // ---------------------------------------------------------------- join and split

  /** `sep.join(parts)`. */
  function Join(parts: seq<string>, sep: string): string
  {
    if |parts| == 0 then ""
    else if |parts| == 1 then parts[0]
    else parts[0] + sep + Join(parts[1..], sep)
  }

  /** Index of the first occurrence of `c` in `s`. */
  function IndexOf(s: string, c: char): (i: nat)
    requires c in s
    ensures i < |s| && s[i] == c && c !in s[..i]
  {
    if s[0] == c then 0 else 1 + IndexOf(s[1..], c)
  }

  /** Number of occurrences of `c` in `s`. */
  function Count(s: string, c: char): nat
  {
    if s == [] then 0 else (if s[0] == c then 1 else 0) + Count(s[1..], c)
  }

  /** `s.split(sep)` for a one-character separator: never empty, no part contains `sep`. */
  function Split(s: string, sep: char): (parts: seq<string>)
    ensures |parts| >= 1
    ensures forall i :: 0 <= i < |parts| ==> sep !in parts[i]
    decreases |s|
  {
    if sep !in s then [s]
    else
      var i := IndexOf(s, sep);
      [s[..i]] + Split(s[i + 1..], sep)
  }

  lemma {:induction false} CountConcat(a: string, b: string, c: char)
    ensures Count(a + b, c) == Count(a, c) + Count(b, c)
    decreases |a|
  {
    if a == [] {
      assert a + b == b;
    } else {
      assert (a + b)[1..] == a[1..] + b;
      CountConcat(a[1..], b, c);
    }
  }

  lemma {:induction false} CountAbsent(s: string, c: char)
    requires c !in s
    ensures Count(s, c) == 0
    decreases |s|
  {
    if s != [] {
      assert c !in s[1..];
      CountAbsent(s[1..], c);
    }
  }

  /** `s.split(sep)` has exactly one more part than `s` has separators. */
  lemma {:induction false} SplitLength(s: string, sep: char)
    ensures |Split(s, sep)| == Count(s, sep) + 1
    decreases |s|
  {
    if sep !in s {
      CountAbsent(s, sep);
    } else {
      var i := IndexOf(s, sep);
      assert s == s[..i] + [sep] + s[i + 1..];
      CountConcat(s[..i] + [sep], s[i + 1..], sep);
      CountConcat(s[..i], [sep], sep);
      CountAbsent(s[..i], sep);
      assert Count([sep], sep) == 1 by {
        assert [sep][1..] == [];
      }
      SplitLength(s[i + 1..], sep);
    }
  }

  /** Joining the parts of a split with the separator gives back the string. */
  lemma {:induction false} JoinSplit(s: string, sep: char)
    ensures Join(Split(s, sep), [sep]) == s
    decreases |s|
  {
    if sep in s {
      var i := IndexOf(s, sep);
      var rest := Split(s[i + 1..], sep);
      JoinSplit(s[i + 1..], sep);
      assert Split(s, sep) == [s[..i]] + rest;
      assert ([s[..i]] + rest)[1..] == rest;
      assert s == s[..i] + [sep] + s[i + 1..];
    }
  }

  /** Splitting a join of separator-free parts gives back the parts. */
  lemma {:induction false} SplitJoin(parts: seq<string>, sep: char)
    requires |parts| >= 1
    requires forall i :: 0 <= i < |parts| ==> sep !in parts[i]
    ensures Split(Join(parts, [sep]), sep) == parts
    decreases |parts|
  {
    if |parts| > 1 {
      var tail := Join(parts[1..], [sep]);
      assert Join(parts, [sep]) == parts[0] + [sep] + tail;
      SplitAfterFirst(parts[0], sep, tail);
      SplitJoin(parts[1..], sep);
      assert parts == [parts[0]] + parts[1..];
    }
  }

  /** Splitting at a first separator that follows the separator-free `p`. */
  lemma SplitAfterFirst(p: string, sep: char, rest: string)
    requires sep !in p
    ensures Split(p + [sep] + rest, sep) == [p] + Split(rest, sep)
  {
    var s := p + [sep] + rest;
    assert s[|p|] == sep;
    IndexOfAfter(p, sep, rest);
    assert s[..|p|] == p;
    assert s[|p| + 1..] == rest;
  }

  /** The first separator of `p + [c] + rest` is the one right after a separator-free `p`. */
  lemma {:induction false} IndexOfAfter(p: string, c: char, rest: string)
    requires c !in p
    ensures IndexOf(p + [c] + rest, c) == |p|
    decreases |p|
  {
    if p != [] {
      assert (p + [c] + rest)[1..] == p[1..] + [c] + rest;
      assert c !in p[1..];
      IndexOfAfter(p[1..], c, rest);
    }
  }

  /** A string splits around its first separator in only one way. */
  lemma SeparatedUnique(x: string, y: string, u: string, v: string, c: char)
    requires c !in x && c !in u
    requires x + [c] + y == u + [c] + v
    ensures x == u && y == v
  {
    var s := x + [c] + y;
    IndexOfAfter(x, c, y);
    IndexOfAfter(u, c, v);
    assert s[..|x|] == x && s[|x| + 1..] == y;
    assert (u + [c] + v)[..|u|] == u && (u + [c] + v)[|u| + 1..] == v;
  }

  // ---------------------------------------------------------------- ordering and sorting

  /** Python's `<` on `str`: lexicographic by code point, a proper prefix first. */
  predicate Less(a: string, b: string)
  {
    if a == [] then b != []
    else if b == [] then false
    else if a[0] != b[0] then a[0] < b[0]
    else Less(a[1..], b[1..])
  }

  lemma {:induction false} LessIrreflexive(a: string)
    ensures !Less(a, a)
  {
    if a != [] {
      LessIrreflexive(a[1..]);
    }
  }

  lemma {:induction false} LessTransitive(a: string, b: string, c: string)
    requires Less(a, b) && Less(b, c)
    ensures Less(a, c)
  {
    if a != [] && b != [] && c != [] && a[0] == b[0] && b[0] == c[0] {
      LessTransitive(a[1..], b[1..], c[1..]);
    }
  }

  lemma {:induction false} LessTotal(a: string, b: string)
    requires a != b
    ensures Less(a, b) || Less(b, a)
  {
    if a != [] && b != [] && a[0] == b[0] {
      assert a == [a[0]] + a[1..] && b == [b[0]] + b[1..];
      LessTotal(a[1..], b[1..]);
    }
  }

  lemma {:induction false} LessAsymmetric(a: string, b: string)
    requires Less(a, b)
    ensures !Less(b, a)
  {
    if Less(b, a) {
      LessTransitive(a, b, a);
      LessIrreflexive(a);
    }
  }

  /** The identity key: `sorted` on strings themselves. */
  function Id(s: string): string
  {
    s
  }

  /** `s` is ordered by `key` as Python's `sorted(s, key=key)` orders it. */
  ghost predicate SortedBy<T>(s: seq<T>, key: T -> string)
  {
    forall i, j :: 0 <= i < j < |s| ==> !Less(key(s[j]), key(s[i]))
  }

  /** Insert `x` into sorted `t` before the first element whose key is not smaller. */
  function Insert<T>(x: T, t: seq<T>, key: T -> string): (r: seq<T>)
    ensures multiset(r) == multiset(t) + multiset{x}
    ensures |r| == |t| + 1
  {
    if t == [] then [x]
    else if !Less(key(t[0]), key(x)) then [x] + t
    else
      assert t == [t[0]] + t[1..];
      [t[0]] + Insert(x, t[1..], key)
  }

  /** Python's stable `sorted(s, key=key)`, as an insertion sort. */
  function SortBy<T>(s: seq<T>, key: T -> string): (r: seq<T>)
    ensures multiset(r) == multiset(s)
    ensures |r| == |s|
  {
    if s == [] then []
    else
      assert s == [s[0]] + s[1..];
      Insert(s[0], SortBy(s[1..], key), key)
  }

  lemma {:induction false} InsertSorted<T>(x: T, t: seq<T>, key: T -> string)
    requires SortedBy(t, key)
    ensures SortedBy(Insert(x, t, key), key)
    decreases |t|
  {
    if t != [] && Less(key(t[0]), key(x)) {
      InsertSorted(x, t[1..], key);
      var r := Insert(x, t, key);
      var tail := Insert(x, t[1..], key);
      assert r == [t[0]] + tail;
      forall j | 0 < j < |r|
        ensures !Less(key(r[j]), key(t[0]))
      {
        assert r[j] in multiset(tail);
        assert r[j] in multiset(t[1..]) + multiset{x};
        if r[j] in multiset(t[1..]) {
          var k :| 0 <= k < |t[1..]| && t[1..][k] == r[j];
          assert t[k + 1] == r[j];
        } else {
          assert r[j] == x;
          LessAsymmetric(key(t[0]), key(x));
        }
      }
    } else if t != [] {
      var r := Insert(x, t, key);
      forall i, j | 0 <= i < j < |r|
        ensures !Less(key(r[j]), key(r[i]))
      {
        if i == 0 && Less(key(r[j]), key(x)) {
          assert r[j] == t[j - 1];
          if j - 1 > 0 {
            assert !Less(key(t[j - 1]), key(t[0]));
            if Less(key(t[0]), key(t[j - 1])) {
              LessTransitive(key(t[0]), key(t[j - 1]), key(x));
            } else {
              LessTotalOrEqual(key(t[0]), key(t[j - 1]));
            }
          }
        }
      }
    }
  }

  lemma LessTotalOrEqual(a: string, b: string)
    requires !Less(a, b) && !Less(b, a)
    ensures a == b
  {
    if a != b {
      LessTotal(a, b);
    }
  }

  lemma {:induction false} SortBySorted<T>(s: seq<T>, key: T -> string)
    ensures SortedBy(SortBy(s, key), key)
    decreases |s|
  {
    if s != [] {
      SortBySorted(s[1..], key);
      InsertSorted(s[0], SortBy(s[1..], key), key);
    }
  }

  /** No two distinct elements of `s` share a key (the names of one directory listing). */
  ghost predicate KeysUnique<T>(s: seq<T>, key: T -> string)
  {
    forall i, j :: 0 <= i < |s| && 0 <= j < |s| && key(s[i]) == key(s[j]) ==> s[i] == s[j]
  }

  /**
   * Two sorted arrangements of the same elements, with unique keys, are equal: the result of
   * sorting does not depend on the order in which the elements were listed.
   */
  lemma {:induction false} SortedUnique<T>(a: seq<T>, b: seq<T>, key: T -> string)
    requires SortedBy(a, key) && SortedBy(b, key)
    requires multiset(a) == multiset(b)
    requires KeysUnique(a, key)
    ensures a == b
    decreases |a|
  {
    assert |a| == |multiset(a)| == |b|;
    if a != [] {
      SortedHeads(a, b, key);
      TailsPermuted(a, b);
      SortedUnique(a[1..], b[1..], key);
      assert a == [a[0]] + a[1..] && b == [b[0]] + b[1..];
    }
  }

  lemma SortedHeads<T>(a: seq<T>, b: seq<T>, key: T -> string)
    requires a != [] && SortedBy(a, key) && SortedBy(b, key)
    requires multiset(a) == multiset(b)
    requires KeysUnique(a, key)
    ensures b != [] && a[0] == b[0]
  {
    assert a[0] in multiset(b) && b[0] in multiset(a);
    var i :| 0 <= i < |b| && b[i] == a[0];
    var j :| 0 <= j < |a| && a[j] == b[0];
    assert !Less(key(b[0]), key(a[0])) by {
      if j == 0 { LessIrreflexive(key(a[0])); }
    }
    assert !Less(key(a[0]), key(b[0])) by {
      if i == 0 { LessIrreflexive(key(b[0])); }
    }
    LessTotalOrEqual(key(a[0]), key(b[0]));
    assert key(a[j]) == key(a[0]);
  }

  lemma TailsPermuted<T>(a: seq<T>, b: seq<T>)
    requires a != [] && b != [] && a[0] == b[0]
    requires multiset(a) == multiset(b)
    ensures multiset(a[1..]) == multiset(b[1..])
  {
    assert a == [a[0]] + a[1..] && b == [b[0]] + b[1..];
    assert multiset(a) == multiset{a[0]} + multiset(a[1..]);
    assert multiset(b) == multiset{b[0]} + multiset(b[1..]);
    assert multiset(a[1..]) == multiset(a) - multiset{a[0]};
    assert multiset(b[1..]) == multiset(b) - multiset{b[0]};
  }

  /** Sorting `a` and sorting any rearrangement of it give the same sequence. */
  lemma SortByPermutation<T>(a: seq<T>, b: seq<T>, key: T -> string)
    requires multiset(a) == multiset(b)
    requires KeysUnique(a, key)
    ensures SortBy(a, key) == SortBy(b, key)
  {
    SortBySorted(a, key);
    SortBySorted(b, key);
    var sa := SortBy(a, key);
    forall i, j | 0 <= i < |sa| && 0 <= j < |sa| && key(sa[i]) == key(sa[j])
      ensures sa[i] == sa[j]
    {
      assert sa[i] in multiset(a) && sa[j] in multiset(a);
      var k :| 0 <= k < |a| && a[k] == sa[i];
      var l :| 0 <= l < |a| && a[l] == sa[j];
    }
    SortedUnique(sa, SortBy(b, key), key);
  }

  // ---------------------------------------------------------------- encoding

  /** The UTF-8 encoding of one Unicode scalar value. */
  function EncodeChar(c: char): (b: seq<byte>)
    ensures 1 <= |b| <= 4
    ensures (c as int < 0x80) <==> |b| == 1
    ensures |b| == 1 ==> b[0] == c as int
    ensures |b| > 1 ==> forall i :: 0 <= i < |b| ==> b[i] >= 0x80
  {
    var n := c as int;
    if n < 0x80 then [n]
    else if n < 0x800 then [0xC0 + n / 0x40, 0x80 + n % 0x40]
    else if n < 0x10000 then [0xE0 + n / 0x1000, 0x80 + (n / 0x40) % 0x40, 0x80 + n % 0x40]
    else [0xF0 + n / 0x40000, 0x80 + (n / 0x1000) % 0x40, 0x80 + (n / 0x40) % 0x40, 0x80 + n % 0x40]
  }

  /** `s.encode("utf-8")`, as `ZipFile.writestr` does for `str` data. */
  function Utf8(s: string): seq<byte>
  {
    if s == [] then [] else EncodeChar(s[0]) + Utf8(s[1..])
  }

  predicate IsAscii(s: string)
  {
    forall i :: 0 <= i < |s| ==> s[i] as int < 0x80
  }

  /** An ASCII string encodes to one byte per character, the character's code. */
  lemma {:induction false} Utf8Ascii(s: string)
    requires IsAscii(s)
    ensures |Utf8(s)| == |s|
    ensures forall i :: 0 <= i < |s| ==> Utf8(s)[i] == s[i] as int
    decreases |s|
  {
    if s != [] {
      Utf8Ascii(s[1..]);
      assert Utf8(s) == [s[0] as int] + Utf8(s[1..]);
    }
  }

  /** A string without a line feed encodes to bytes without the byte 10. */
  lemma {:induction false} Utf8NoNewline(s: string)
    requires '\n' !in s
    ensures 10 !in Utf8(s)
    decreases |s|
  {
    if s != [] {
      assert '\n' !in s[1..] by {
        assert forall i :: 0 <= i < |s| - 1 ==> s[1..][i] == s[i + 1];
      }
      Utf8NoNewline(s[1..]);
      assert s[0] != '\n';
      var e := EncodeChar(s[0]);
      assert 10 !in e;
      assert Utf8(s) == e + Utf8(s[1..]);
    }
  }

  /** The bytes of an ASCII literal such as `b"#!"`. */
  function AsciiBytes(s: string): (b: seq<byte>)
    requires IsAscii(s)
    ensures b == Utf8(s)
  {
    Utf8Ascii(s);
    seq(|s|, i requires 0 <= i < |s| => s[i] as int)
  }
}
