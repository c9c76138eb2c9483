/** The JavaScript string operations that the service relies on:
    `split` and `join` on a one-character separator, `trim`, `toLowerCase`
    and `indexOf`, over strings of characters (`seq<char>`). */
module Strings {

  /** `m[key]` is a string that `if (m[key])` accepts: present and not empty. */
  predicate TruthyAt(m: map<string, string>, key: string)
  {
    key in m && m[key] != ""
  }

  /** Number of occurrences of `c` in `s`. */
  function Count(s: string, c: char): nat
  {
    if s == [] then 0 else (if s[0] == c then 1 else 0) + Count(s[1..], c)
  }

  /** `s.split(sep)`: the pieces between the occurrences of `sep`, never an
      empty list (`"".split(sep)` is `[""]`). */
  function Split(s: string, sep: char): (parts: seq<string>)
    ensures |parts| >= 1
  {
    if s == [] then [[]]
    else
      var rest := Split(s[1..], sep);
      if s[0] == sep then [[]] + rest
      else [[s[0]] + rest[0]] + rest[1..]
  }

  /** `parts.join(sep)`. */
  function Join(parts: seq<string>, sep: char): string
  {
    if |parts| == 0 then []
    else if |parts| == 1 then parts[0]
    else parts[0] + [sep] + Join(parts[1..], sep)
  }

  /** `parts.reverse()` on a copy. */
  function Reverse<T>(xs: seq<T>): (r: seq<T>)
    ensures |r| == |xs|
  {
    if xs == [] then [] else Reverse(xs[1..]) + [xs[0]]
  }

  /** No piece contains the separator. */
  predicate FreeOf(parts: seq<string>, sep: char)
  {
    forall i :: 0 <= i < |parts| ==> sep !in parts[i]
  }

  /** Joining the pieces of a split gives back the string. */
  lemma {:induction false} JoinSplit(s: string, sep: char)
    ensures Join(Split(s, sep), sep) == s
  {
    if s != [] {
      JoinSplit(s[1..], sep);
      var rest := Split(s[1..], sep);
      if s[0] == sep {
        assert Split(s, sep) == [[]] + rest;
        assert ([[]] + rest)[1..] == rest;
      } else if |rest| > 1 {
        assert Join(rest, sep) == rest[0] + [sep] + Join(rest[1..], sep);
        assert Split(s, sep)[1..] == rest[1..];
        assert s == [s[0]] + s[1..];
      } else {
        assert s == [s[0]] + s[1..];
      }
    }
  }

  /** The pieces of a split never contain the separator. */
  lemma {:induction false} SplitFreeOf(s: string, sep: char)
    ensures FreeOf(Split(s, sep), sep)
  {
    if s != [] {
      SplitFreeOf(s[1..], sep);
    }
  }

  /** `c` occurs nowhere in `s` exactly when it is counted zero times. */
  lemma {:induction false} CountZero(s: string, c: char)
    ensures Count(s, c) == 0 <==> c !in s
  {
    if s != [] {
      CountZero(s[1..], c);
      assert s == [s[0]] + s[1..];
    }
  }

  /** A split yields one more piece than there are separators. */
  lemma {:induction false} SplitLength(s: string, sep: char)
    ensures |Split(s, sep)| == Count(s, sep) + 1
  {
    if s != [] {
      SplitLength(s[1..], sep);
    }
  }

  /** A string without the separator splits into itself. */
  lemma {:induction false} SplitPlain(s: string, sep: char)
    requires sep !in s
    ensures Split(s, sep) == [s]
  {
    if s != [] {
      assert sep !in s[1..];
      SplitPlain(s[1..], sep);
      assert s == [s[0]] + s[1..];
    }
  }

  /** Splitting at the first separator. */
  lemma {:induction false} SplitFirst(a: string, b: string, sep: char)
    requires sep !in a
    ensures Split(a + [sep] + b, sep) == [a] + Split(b, sep)
  {
    if a == [] {
      assert a + [sep] + b == [sep] + b;
      assert ([sep] + b)[1..] == b;
    } else {
      var s := a + [sep] + b;
      assert s[1..] == a[1..] + [sep] + b;
      assert sep !in a[1..];
      SplitFirst(a[1..], b, sep);
      assert [a[0]] + a[1..] == a;
    }
  }

  /** Splitting at the last separator. */
  lemma {:induction false} SplitLast(p: string, l: string, sep: char)
    requires sep !in l
    ensures Split(p + [sep] + l, sep) == Split(p, sep) + [l]
  {
    if p == [] {
      assert p + [sep] + l == [] + [sep] + l;
      SplitFirst([], l, sep);
      SplitPlain(l, sep);
    } else {
      var s := p + [sep] + l;
      assert s[1..] == p[1..] + [sep] + l;
      SplitLast(p[1..], l, sep);
      var r := Split(p[1..], sep);
      if p[0] != sep {
        assert (r + [l])[0] == r[0];
        assert (r + [l])[1..] == r[1..] + [l];
      }
    }
  }

  /** Splitting a join of separator-free pieces gives back the pieces. */
  lemma {:induction false} SplitJoin(parts: seq<string>, sep: char)
    requires |parts| >= 1 && FreeOf(parts, sep)
    ensures Split(Join(parts, sep), sep) == parts
  {
    if |parts| == 1 {
      SplitPlain(parts[0], sep);
    } else {
      SplitJoin(parts[1..], sep);
      SplitFirst(parts[0], Join(parts[1..], sep), sep);
      assert [parts[0]] + parts[1..] == parts;
    }
  }

  lemma {:induction false} ReverseReverse<T>(xs: seq<T>)
    ensures Reverse(Reverse(xs)) == xs
  {
    if xs != [] {
      ReverseReverse(xs[1..]);
      ReverseAppend(Reverse(xs[1..]), [xs[0]]);
      assert Reverse([xs[0]]) == [xs[0]];
      assert [xs[0]] + xs[1..] == xs;
    }
  }

  lemma {:induction false} ReverseAppend<T>(xs: seq<T>, ys: seq<T>)
    ensures Reverse(xs + ys) == Reverse(ys) + Reverse(xs)
  {
    if xs == [] {
      assert xs + ys == ys;
    } else {
      assert (xs + ys)[1..] == xs[1..] + ys;
      assert (xs + ys)[0] == xs[0];
      ReverseAppend(xs[1..], ys);
    }
  }

  /** Reversal keeps exactly the same elements. */
  lemma {:induction false} ReverseElements<T>(xs: seq<T>, i: nat)
    requires i < |xs|
    ensures Reverse(xs)[i] == xs[|xs| - 1 - i]
  {
    if i < |xs| - 1 {
      ReverseElements(xs[1..], i);
    }
  }

  lemma ReverseFreeOf(parts: seq<string>, sep: char)
    requires FreeOf(parts, sep)
    ensures FreeOf(Reverse(parts), sep)
  {
    forall i | 0 <= i < |parts| ensures sep !in Reverse(parts)[i] {
      ReverseElements(parts, i);
    }
  }

  /** The characters that `String.prototype.trim` removes: the ECMAScript
      WhiteSpace and LineTerminator code points. */
  predicate IsSpace(c: char)
  {
    || c == ' ' || c == '\t' || c == '\n' || c == '\r'
    || c == '\U{000B}' || c == '\U{000C}' || c == '\U{00A0}' || c == '\U{1680}'
    || ('\U{2000}' <= c <= '\U{200A}')
    || c == '\U{2028}' || c == '\U{2029}' || c == '\U{202F}' || c == '\U{205F}'
    || c == '\U{3000}' || c == '\U{FEFF}'
  }

  function TrimStart(s: string): (r: string)
    ensures r == [] || !IsSpace(r[0])
    ensures exists k :: 0 <= k <= |s| && r == s[k..] && forall j :: 0 <= j < k ==> IsSpace(s[j])
  {
    if s != [] && IsSpace(s[0]) then
      var t := s[1..];
      var r := TrimStart(t);
      var k :| 0 <= k <= |t| && r == t[k..] && forall j :: 0 <= j < k ==> IsSpace(t[j]);
      assert r == s[k + 1..];
      r
    else
      assert s == s[0..];
      s
  }

  function TrimEnd(s: string): (r: string)
    ensures r == [] || !IsSpace(r[|r| - 1])
    ensures exists k :: 0 <= k <= |s| && r == s[..k] && forall j :: k <= j < |s| ==> IsSpace(s[j])
  {
    if s != [] && IsSpace(s[|s| - 1]) then
      var t := s[..|s| - 1];
      var r := TrimEnd(t);
      var k :| 0 <= k <= |t| && r == t[..k] && forall j :: k <= j < |t| ==> IsSpace(t[j]);
      assert r == s[..k];
      r
    else
      assert s == s[..|s|];
      s
  }

  /** `s.trim()`. */
  function Trim(s: string): string
  {
    TrimEnd(TrimStart(s))
  }

  /** A string that neither starts nor ends with white space is its own trim. */
  lemma TrimNoop(s: string)
    requires s == [] || (!IsSpace(s[0]) && !IsSpace(s[|s| - 1]))
    ensures Trim(s) == s
  {
  }

  /** One character of `toLowerCase`. Only A-Z and KELVIN SIGN (which lower-cases
      to `k`) are mapped: they are the only characters whose lower case is ASCII,
      so for comparisons against ASCII words this is exact. */
  function LowerChar(c: char): char
  {
    if 'A' <= c <= 'Z' then (c as int + 32) as char
    else if c == '\U{212A}' then 'k'
    else c
  }

  /** `s.toLowerCase()`, in the sense of `LowerChar`. */
  function ToLower(s: string): (r: string)
    ensures |r| == |s|
    ensures forall i :: 0 <= i < |s| ==> r[i] == LowerChar(s[i])
  {
    if s == [] then [] else [LowerChar(s[0])] + ToLower(s[1..])
  }

  /** `d` occurs in `h` at position `j`. */
  predicate OccursAt(h: string, d: string, j: int)
  {
    0 <= j && j + |d| <= |h| && h[j..j + |d|] == d
  }

  /** `h.indexOf(d, from)`: the first position at or after `from` where `d`
      occurs in `h`, or -1. */
  function IndexOfFrom(h: string, d: string, from: nat): (r: int)
    ensures r == -1 || (from <= r && OccursAt(h, d, r))
    ensures r == -1 ==> forall j :: from <= j ==> !OccursAt(h, d, j)
    ensures r != -1 ==> forall j :: from <= j < r ==> !OccursAt(h, d, j)
    decreases |h| - from
  {
    if from + |d| > |h| then -1
    else if h[from..from + |d|] == d then from
    else IndexOfFrom(h, d, from + 1)
  }

  /** `h.indexOf(d)`. */
  function IndexOf(h: string, d: string): int
  {
    IndexOfFrom(h, d, 0)
  }

  /** `h` contains `d` somewhere. */
  ghost predicate Contains(h: string, d: string)
  {
    exists j :: OccursAt(h, d, j)
  }

  /** `indexOf` is 0 exactly when `d` is a prefix of `h`. */
  lemma IndexOfZero(h: string, d: string)
    ensures IndexOf(h, d) == 0 <==> d <= h
  {
    if d <= h {
      assert h[0..|d|] == d;
    }
  }

  /** `indexOf` is -1 exactly when `d` does not occur in `h`. */
  lemma IndexOfAbsent(h: string, d: string)
    ensures IndexOf(h, d) == -1 <==> !Contains(h, d)
  {
  }
}
