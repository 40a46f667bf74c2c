/**
 * The slice of Rust's `str` API the session code relies on: `split` by a
 * pattern, `join`, `split_inclusive`, `starts_with`, `ends_with`, and the
 * "take text before / after the first occurrence of a character" views
 * that the platform scanner produces.
 */
module Strings {

  /** `s.starts_with(p)` */
  predicate StartsWith(s: string, p: string) {
    |p| <= |s| && s[..|p|] == p
  }

  /** `s.ends_with([c])` */
  predicate EndsWith(s: string, c: char) {
    |s| > 0 && s[|s| - 1] == c
  }

  /** `parts.join(sep)`; joining no parts gives the empty string. */
  function Join(parts: seq<string>, sep: string): string
    decreases |parts|
  {
    if |parts| == 0 then ""
    else if |parts| == 1 then parts[0]
    else parts[0] + sep + Join(parts[1..], sep)
  }

  /**
   * `s.split(sep)` for a non-empty pattern: the leftmost non-overlapping
   * occurrences of `sep` cut `s` into pieces. There is always at least one
   * piece, and joining the pieces with `sep` gives `s` back.
   */
  function Split(s: string, sep: string): (r: seq<string>)
    requires |sep| > 0
    ensures |r| >= 1
    ensures Join(r, sep) == s
    decreases |s|
  {
    if |s| < |sep| then [s]
    else if s[..|sep|] == sep then
      var t := Split(s[|sep|..], sep);
      assert Join([[]] + t, sep) == sep + Join(t, sep);
      [[]] + t
    else
      var t := Split(s[1..], sep);
      JoinConsHead(s[0], t, sep);
      [[s[0]] + t[0]] + t[1..]
  }

  /** Prepending a character to the first piece prepends it to the join. */
  lemma JoinConsHead(c: char, t: seq<string>, sep: string)
    requires |t| >= 1
    ensures Join([[c] + t[0]] + t[1..], sep) == [c] + Join(t, sep)
  {
    var u := [[c] + t[0]] + t[1..];
    assert u[1..] == t[1..];
  }

  /** Number of occurrences of `c` in `s`. */
  function Count(s: string, c: char): nat
    decreases |s|
  {
    if |s| == 0 then 0 else (if s[0] == c then 1 else 0) + Count(s[1..], c)
  }

  /** All pieces glued together without separators. */
  function Concat(parts: seq<string>): string
    decreases |parts|
  {
    if |parts| == 0 then "" else parts[0] + Concat(parts[1..])
  }

  /**
   * `s.split_inclusive(c)`: pieces that each end just after an occurrence
   * of `c`, followed by the trailing rest when it is non-empty. The empty
   * string has no pieces at all.
   */
  function SplitInclusive(s: string, c: char): (r: seq<string>)
    ensures Concat(r) == s
    ensures forall i :: 0 <= i < |r| ==> |r[i]| > 0
    ensures |s| > 0 <==> |r| > 0
    decreases |s|
  {
    if |s| == 0 then []
    else if s[0] == c then [[c]] + SplitInclusive(s[1..], c)
    else
      var t := SplitInclusive(s[1..], c);
      if |t| == 0 then [[s[0]]]
      else
        assert [s[0]] + t[0] + Concat(t[1..]) == [s[0]] + Concat(t);
        assert ([[s[0]] + t[0]] + t[1..])[1..] == t[1..];
        [[s[0]] + t[0]] + t[1..]
  }

  /** The text before the first `c`, or all of `s` when `c` does not occur. */
  function Before(s: string, c: char): (r: string)
    ensures c !in r
    ensures c !in s ==> r == s
    decreases |s|
  {
    if |s| == 0 then "" else if s[0] == c then "" else [s[0]] + Before(s[1..], c)
  }

  /** The text after the first `c`, or the empty string when `c` does not occur. */
  function After(s: string, c: char): (r: string)
    ensures c !in s ==> r == ""
    ensures c in s ==> Before(s, c) + [c] + r == s
    decreases |s|
  {
    if |s| == 0 then "" else if s[0] == c then s[1..] else After(s[1..], c)
  }

  /** `s` with every occurrence of `c` removed. */
  function Remove(s: string, c: char): string
    decreases |s|
  {
    if |s| == 0 then "" else (if s[0] == c then "" else [s[0]]) + Remove(s[1..], c)
  }

  /** The pieces that are not empty, in their original order (`filter(|s| !s.is_empty())`). */
  function NonEmpty(parts: seq<string>): (r: seq<string>)
    ensures forall i :: 0 <= i < |r| ==> |r[i]| > 0
    ensures Concat(r) == Concat(parts)
    decreases |parts|
  {
    if |parts| == 0 then []
    else if |parts[0]| == 0 then NonEmpty(parts[1..])
    else [parts[0]] + NonEmpty(parts[1..])
  }

  /** Elements kept by NonEmpty are elements of the input. */
  lemma {:induction false} NonEmptySubset(parts: seq<string>)
    ensures forall x :: x in NonEmpty(parts) ==> x in parts
    decreases |parts|
  {
    if |parts| > 0 {
      NonEmptySubset(parts[1..]);
    }
  }

  /** A string without the pattern's first character is a single piece. */
  lemma {:induction false} SplitWithoutSep(a: string, sep: string)
    requires |sep| > 0 && sep[0] !in a
    ensures Split(a, sep) == [a]
    decreases |a|
  {
    if |a| >= |sep| {
      assert a[..|sep|][0] == a[0] != sep[0];
      SplitWithoutSep(a[1..], sep);
      assert [a[0]] + a[1..] == a;
    }
  }

  /** A leading piece free of the pattern's first character is cut off intact. */
  lemma {:induction false} SplitLeadingPiece(a: string, sep: string, b: string)
    requires |sep| > 0 && sep[0] !in a
    ensures Split(a + sep + b, sep) == [a] + Split(b, sep)
    decreases |a|
  {
    var s := a + sep + b;
    if |a| == 0 {
      assert s[..|sep|] == sep;
      assert s[|sep|..] == b;
    } else {
      assert s[..|sep|][0] == a[0] != sep[0];
      assert s[1..] == a[1..] + sep + b;
      SplitLeadingPiece(a[1..], sep, b);
      assert [a[0]] + a[1..] == a;
    }
  }

  /**
   * Splitting undoes joining, provided that no part contains the pattern's
   * first character and there is at least one part (joining no parts gives
   * "", which splits into the single piece "").
   */
  lemma {:induction false} SplitJoin(parts: seq<string>, sep: string)
    requires |sep| > 0 && |parts| >= 1
    requires forall i :: 0 <= i < |parts| ==> sep[0] !in parts[i]
    ensures Split(Join(parts, sep), sep) == parts
    decreases |parts|
  {
    if |parts| == 1 {
      SplitWithoutSep(parts[0], sep);
    } else {
      SplitJoin(parts[1..], sep);
      SplitLeadingPiece(parts[0], sep, Join(parts[1..], sep));
      assert [parts[0]] + parts[1..] == parts;
    }
  }

  /** Splitting on a single character leaves no piece containing it. */
  lemma {:induction false} SplitCharPieces(s: string, c: char)
    ensures forall i :: 0 <= i < |Split(s, [c])| ==> c !in Split(s, [c])[i]
    decreases |s|
  {
    if |s| >= 1 {
      SplitCharPieces(s[1..], c);
      if s[..1] != [c] {
        assert s[0] != c;
      }
    }
  }

  /** Every character of a join comes from a part or from the separator. */
  lemma {:induction false} JoinChars(parts: seq<string>, sep: string, x: char)
    requires x !in sep
    requires forall i :: 0 <= i < |parts| ==> x !in parts[i]
    ensures x !in Join(parts, sep)
    decreases |parts|
  {
    if |parts| > 1 {
      JoinChars(parts[1..], sep, x);
    }
  }

  /** Removing the separator character from a join glues the parts together. */
  lemma {:induction false} RemoveJoin(parts: seq<string>, c: char)
    requires forall i :: 0 <= i < |parts| ==> c !in parts[i]
    ensures Remove(Join(parts, [c]), c) == Concat(parts)
    decreases |parts|
  {
    if |parts| == 1 {
      RemoveAbsent(parts[0], c);
      assert Concat(parts) == parts[0] + Concat([]);
    } else if |parts| > 1 {
      RemoveJoin(parts[1..], c);
      RemoveAppend(parts[0], [c] + Join(parts[1..], [c]), c);
      RemoveAbsent(parts[0], c);
      assert parts[0] + [c] + Join(parts[1..], [c]) == parts[0] + ([c] + Join(parts[1..], [c]));
      assert ([c] + Join(parts[1..], [c]))[1..] == Join(parts[1..], [c]);
    }
  }

  lemma {:induction false} RemoveAbsent(s: string, c: char)
    requires c !in s
    ensures Remove(s, c) == s
    decreases |s|
  {
    if |s| > 0 {
      RemoveAbsent(s[1..], c);
    }
  }

  lemma {:induction false} RemoveAppend(a: string, b: string, c: char)
    ensures Remove(a + b, c) == Remove(a, c) + Remove(b, c)
    decreases |a|
  {
    if |a| == 0 {
      assert a + b == b;
    } else {
      assert (a + b)[1..] == a[1..] + b;
      RemoveAppend(a[1..], b, c);
    }
  }

  /** Every piece of `split_inclusive` but the last ends with `c`. */
  lemma {:induction false} SplitInclusiveEnds(s: string, c: char)
    ensures forall i :: 0 <= i < |SplitInclusive(s, c)| - 1 ==> EndsWith(SplitInclusive(s, c)[i], c)
    decreases |s|
  {
    if |s| > 0 {
      SplitInclusiveEnds(s[1..], c);
      var t := SplitInclusive(s[1..], c);
      var r := SplitInclusive(s, c);
      if s[0] == c {
        assert r == [[c]] + t;
        forall i | 0 <= i < |r| - 1 ensures EndsWith(r[i], c) {
          if i > 0 {
            assert r[i] == t[i - 1];
            assert EndsWith(t[i - 1], c);
          } else {
            assert r[0] == [c];
          }
        }
      } else if |t| > 0 {
        assert r == [[s[0]] + t[0]] + t[1..];
        forall i | 0 <= i < |r| - 1 ensures EndsWith(r[i], c) {
          if i > 0 {
            assert r[i] == t[i];
            assert EndsWith(t[i], c);
          } else {
            assert EndsWith(t[0], c);
            assert r[0] == [s[0]] + t[0];
          }
        }
      }
    }
  }

  /** No piece of `split_inclusive` holds `c` anywhere but in its final position. */
  lemma {:induction false} SplitInclusiveInner(s: string, c: char)
    ensures forall i :: 0 <= i < |SplitInclusive(s, c)| ==>
      c !in SplitInclusive(s, c)[i][..|SplitInclusive(s, c)[i]| - 1]
    decreases |s|
  {
    if |s| > 0 {
      SplitInclusiveInner(s[1..], c);
      var t := SplitInclusive(s[1..], c);
      var r := SplitInclusive(s, c);
      if s[0] == c {
        assert r == [[c]] + t;
        forall i | 0 <= i < |r| ensures c !in r[i][..|r[i]| - 1] {
          if i > 0 {
            assert r[i] == t[i - 1];
            assert c !in t[i - 1][..|t[i - 1]| - 1];
          } else {
            assert r[0] == [c];
            assert r[0][..0] == [];
          }
        }
      } else if |t| > 0 {
        assert r == [[s[0]] + t[0]] + t[1..];
        forall i | 0 <= i < |r| ensures c !in r[i][..|r[i]| - 1] {
          if i > 0 {
            assert r[i] == t[i];
            assert c !in t[i][..|t[i]| - 1];
          } else {
            assert c !in t[0][..|t[0]| - 1];
            assert r[0] == [s[0]] + t[0];
            assert r[0][..|r[0]| - 1] == [s[0]] + t[0][..|t[0]| - 1];
          }
        }
      } else {
        assert r == [[s[0]]];
        assert r[0][..0] == [];
      }
    }
  }

  /** One step of `split_inclusive`: how the pieces of `s` arise from those of its tail. */
  lemma SplitInclusiveStep(s: string, c: char)
    requires |s| > 0
    ensures var r, t := SplitInclusive(s, c), SplitInclusive(s[1..], c);
      && (s[0] == c ==> r == [[c]] + t)
      && (s[0] != c && |t| == 0 ==> r == [[s[0]]])
      && (s[0] != c && |t| > 0 ==> r == [[s[0]] + t[0]] + t[1..])
  {
  }

  /** Prefixing a non-empty piece does not change whether it ends with `c`. */
  lemma EndsWithPrefixed(x: char, u: string, c: char)
    requires |u| > 0
    ensures EndsWith([x] + u, c) == EndsWith(u, c)
  {
    assert ([x] + u)[|u|] == u[|u| - 1];
  }

  /**
   * The counting step of `SplitInclusiveCount`: given the pieces of the
   * tail and how the first character extends them, the pieces of the
   * whole string count one more occurrence exactly when that character
   * is `c`.
   */
  lemma CountPiecesStep(x: char, c: char, t: seq<string>, r: seq<string>, n: nat)
    requires x == c ==> r == [[c]] + t
    requires x != c && |t| == 0 ==> r == [[x]]
    requires x != c && |t| > 0 ==> r == [[x] + t[0]] + t[1..]
    requires |t| == 0 ==> n == 0
    requires |t| > 0 ==> |t[0]| > 0 && n == |t| - (if EndsWith(t[|t| - 1], c) then 0 else 1)
    ensures |r| > 0
    ensures (if x == c then 1 else 0) + n == |r| - (if EndsWith(r[|r| - 1], c) then 0 else 1)
  {
    if x != c && |t| == 1 {
      EndsWithPrefixed(x, t[0], c);
    }
  }

  /**
   * `split_inclusive` yields one piece per occurrence of `c`, plus one
   * for a trailing rest that does not end with `c`.
   */
  lemma {:induction false} SplitInclusiveCount(s: string, c: char)
    ensures var r := SplitInclusive(s, c);
      |r| > 0 ==> Count(s, c) == |r| - (if EndsWith(r[|r| - 1], c) then 0 else 1)
    decreases |s|
  {
    if |s| > 0 {
      SplitInclusiveCount(s[1..], c);
      SplitInclusiveStep(s, c);
      var t := SplitInclusive(s[1..], c);
      assert |t| > 0 ==> |t[0]| > 0;
      assert |t| == 0 ==> Count(s[1..], c) == 0;
      CountPiecesStep(s[0], c, t, SplitInclusive(s, c), Count(s[1..], c));
    }
  }

  /** How `Before` grows by one character: the scanner's view of a prefix. */
  lemma {:induction false} BeforeSnoc(p: string, x: char, c: char)
    ensures Before(p + [x], c) == if c in p || x == c then Before(p, c) else p + [x]
    decreases |p|
  {
    if |p| == 0 {
      assert p + [x] == [x];
    } else {
      assert (p + [x])[1..] == p[1..] + [x];
      BeforeSnoc(p[1..], x, c);
    }
  }

  /** How `After` grows by one character. */
  lemma {:induction false} AfterSnoc(p: string, x: char, c: char)
    ensures After(p + [x], c) == if c in p then After(p, c) + [x] else []
    decreases |p|
  {
    if |p| == 0 {
      assert p + [x] == [x];
    } else {
      assert (p + [x])[1..] == p[1..] + [x];
      AfterSnoc(p[1..], x, c);
      if p[0] == c {
        assert (p + [x])[1..] == p[1..] + [x];
      }
    }
  }

  /** One more character before the first `c` has been seen. */
  lemma SnocFirst(p: string, x: char, c: char)
    requires c !in p
    ensures x == c ==> c in p + [x] && Before(p + [x], c) == p && After(p + [x], c) == ""
    ensures x != c ==> c !in p + [x] && Before(p + [x], c) == p + [x] && After(p + [x], c) == ""
  {
    BeforeSnoc(p, x, c);
    AfterSnoc(p, x, c);
    assert (c in p + [x]) == (c in p || x == c);
  }

  /** One more character after the first `c`: it extends `After` only. */
  lemma SnocAfter(p: string, x: char, c: char)
    requires c in p
    ensures c in p + [x] && Before(p + [x], c) == Before(p, c) && After(p + [x], c) == After(p, c) + [x]
  {
    BeforeSnoc(p, x, c);
    AfterSnoc(p, x, c);
    assert p[..|p|] + [x] == p + [x];
  }

  /** Joining three parts, written out. */
  lemma JoinThree(a: string, b: string, c: string, sep: string)
    ensures Join([a, b, c], sep) == a + sep + b + sep + c
  {
    assert [a, b, c][1..] == [b, c];
    assert [b, c][1..] == [c];
    assert Join([b, c], sep) == b + sep + c;
    assert Join([a, b, c], sep) == a + sep + (b + sep + c);
  }

  /** Joining five parts, written out. */
  lemma JoinFive(a: string, b: string, c: string, d: string, e: string, sep: string)
    ensures Join([a, b, c, d, e], sep) == a + sep + b + sep + c + sep + d + sep + e
  {
    assert [a, b, c, d, e][1..] == [b, c, d, e];
    assert [b, c, d, e][1..] == [c, d, e];
    JoinThree(c, d, e, sep);
  }
}
