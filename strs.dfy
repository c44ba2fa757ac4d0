/**
 * The part of Go's `strings` package the client relies on: Split, Join,
 * ReplaceAll, TrimSpace and TrimLeft, on strings of Unicode scalar values.
 */
module Strs {

  /** `sep` occurs in `s` starting at index `i`. */
  predicate MatchAt(s: string, i: nat, sep: string) {
    i + |sep| <= |s| && s[i..i + |sep|] == sep
  }

  /** `sep` occurs nowhere in `s`. */
  predicate Free(s: string, sep: string) {
    forall i | 0 <= i < |s| :: !MatchAt(s, i, sep)
  }

  /**
   * strings.Split(s, sep) for a non-empty separator: the pieces between the
   * leftmost non-overlapping occurrences of sep; at least one piece.
   */
  function Split(s: string, sep: string): (r: seq<string>)
    requires |sep| > 0
    ensures |r| >= 1
    decreases |s|
  {
    if |s| < |sep| then [s]
    else if s[..|sep|] == sep then [""] + Split(s[|sep|..], sep)
    else
      var rest := Split(s[1..], sep);
      [[s[0]] + rest[0]] + rest[1..]
  }

  /** strings.Join(parts, sep). */
  function Join(parts: seq<string>, sep: string): string
    decreases |parts|
  {
    if |parts| == 0 then ""
    else if |parts| == 1 then parts[0]
    else parts[0] + sep + Join(parts[1..], sep)
  }

  /** strings.ReplaceAll(s, pat, rep) for a non-empty pat: every leftmost non-overlapping occurrence replaced. */
  function ReplaceAll(s: string, pat: string, rep: string): string
    requires |pat| > 0
  {
    Join(Split(s, pat), rep)
  }

  /** The first index of `c` in `s`, or |s| when there is none. */
  function IndexOf(s: string, c: char): (k: nat)
    ensures k <= |s|
    ensures k < |s| ==> s[k] == c
    ensures c !in s[..k]
  {
    if |s| == 0 then 0
    else if s[0] == c then 0
    else 1 + IndexOf(s[1..], c)
  }

  /** Go's unicode.IsSpace: the ASCII white space and the Unicode White_Space characters. */
  predicate IsSpace(c: char) {
    c == '\t' || c == '\n' || c == '\U{B}' || c == '\U{C}' || c == '\r' || c == ' '
    || c == '\U{85}' || c == '\U{A0}' || c == '\U{1680}'
    || ('\U{2000}' <= c <= '\U{200A}')
    || c == '\U{2028}' || c == '\U{2029}' || c == '\U{202F}' || c == '\U{205F}' || c == '\U{3000}'
  }

  function TrimLeftSpace(s: string): (r: string)
    ensures |r| <= |s| && r == s[|s| - |r|..]
    ensures |r| > 0 ==> !IsSpace(r[0])
  {
    if |s| > 0 && IsSpace(s[0]) then TrimLeftSpace(s[1..]) else s
  }

  function TrimRightSpace(s: string): (r: string)
    ensures |r| <= |s| && r == s[..|r|]
    ensures |r| > 0 ==> !IsSpace(r[|r| - 1])
  {
    if |s| > 0 && IsSpace(s[|s| - 1]) then TrimRightSpace(s[..|s| - 1]) else s
  }

  /** strings.TrimSpace: leading and trailing white space removed. */
  function TrimSpace(s: string): (r: string)
    ensures |r| > 0 ==> !IsSpace(r[0]) && !IsSpace(r[|r| - 1])
  {
    TrimRightSpace(TrimLeftSpace(s))
  }

  /** strings.TrimLeft(s, cutset): every leading character that belongs to the cutset removed. */
  function TrimLeft(s: string, cutset: string): (r: string)
    ensures |r| <= |s| && r == s[|s| - |r|..]
    ensures |r| > 0 ==> r[0] !in cutset
  {
    if |s| > 0 && s[0] in cutset then TrimLeft(s[1..], cutset) else s
  }

  /** Each `a` in `s` turned into `b`, every other character kept. */
  function SubstChar(s: string, a: char, b: char): (r: string)
    ensures |r| == |s|
    ensures forall i | 0 <= i < |s| :: r[i] == if s[i] == a then b else s[i]
  {
    if |s| == 0 then "" else [if s[0] == a then b else s[0]] + SubstChar(s[1..], a, b)
  }

  // ---------------------------------------------------------------- lemmas

  /** Joining the pieces of a split with the same separator gives the string back. */
  lemma {:induction false} JoinSplit(s: string, sep: string)
    requires |sep| > 0
    ensures Join(Split(s, sep), sep) == s
    decreases |s|
  {
    if |s| < |sep| {
    } else if s[..|sep|] == sep {
      JoinSplit(s[|sep|..], sep);
      JoinCons("", Split(s[|sep|..], sep), sep);
      assert "" + sep + s[|sep|..] == s;
    } else {
      JoinSplit(s[1..], sep);
      JoinPrepend(s[0], Split(s[1..], sep), sep);
      assert [s[0]] + s[1..] == s;
    }
  }

  /** A string in which the separator does not occur splits into itself. */
  lemma {:induction false} SplitFree(s: string, sep: string)
    requires |sep| > 0 && Free(s, sep)
    ensures Split(s, sep) == [s]
    decreases |s|
  {
    if |s| < |sep| {
    } else {
      assert !MatchAt(s, 0, sep);
      assert Free(s[1..], sep) by {
        forall i | 0 <= i < |s[1..]| ensures !MatchAt(s[1..], i, sep) {
          assert !MatchAt(s, i + 1, sep);
          if i + |sep| <= |s[1..]| {
            assert s[1..][i..i + |sep|] == s[i + 1..i + 1 + |sep|];
          }
        }
      }
      SplitFree(s[1..], sep);
      assert [s[0]] + s[1..] == s;
    }
  }

  /** When the separator first occurs right after `a`, the split yields `a` and then the split of what follows. */
  lemma {:induction false} SplitAfter(a: string, sep: string, b: string)
    requires |sep| > 0
    requires forall i | 0 <= i < |a| :: !MatchAt(a + sep + b, i, sep)
    ensures Split(a + sep + b, sep) == [a] + Split(b, sep)
    decreases |a|
  {
    var s := a + sep + b;
    if |a| == 0 {
      assert s == sep + b;
      assert s[..|sep|] == sep;
      assert s[|sep|..] == b;
    } else {
      assert !MatchAt(s, 0, sep);
      assert |s| >= |sep|;
      assert s[..|sep|] != sep;
      assert s[1..] == a[1..] + sep + b;
      forall i | 0 <= i < |a[1..]| ensures !MatchAt(a[1..] + sep + b, i, sep) {
        assert !MatchAt(s, i + 1, sep);
        if i + |sep| <= |s[1..]| {
          assert s[1..][i..i + |sep|] == s[i + 1..i + 1 + |sep|];
        }
      }
      SplitAfter(a[1..], sep, b);
      assert [s[0]] + a[1..] == a;
    }
  }

  /** For a one-character separator absent from `a`: splitting `a + [c] + b` yields `a` first. */
  lemma SplitCharAfter(a: string, c: char, b: string)
    requires c !in a
    ensures Split(a + [c] + b, [c]) == [a] + Split(b, [c])
  {
    forall i | 0 <= i < |a| ensures !MatchAt(a + [c] + b, i, [c]) {
      assert (a + [c] + b)[i..i + 1] == [a[i]];
    }
    SplitAfter(a, [c], b);
  }

  /** A string without the separator character splits into itself. */
  lemma SplitCharFree(s: string, c: char)
    requires c !in s
    ensures Split(s, [c]) == [s]
  {
    forall i | 0 <= i < |s| ensures !MatchAt(s, i, [c]) {
      assert s[i..i + 1] == [s[i]];
    }
    SplitFree(s, [c]);
  }

  /** Splitting a join of separator-free pieces on a one-character separator gives the pieces back. */
  lemma {:induction false} SplitJoinChar(parts: seq<string>, c: char)
    requires |parts| >= 1
    requires forall k | 0 <= k < |parts| :: c !in parts[k]
    ensures Split(Join(parts, [c]), [c]) == parts
    decreases |parts|
  {
    if |parts| == 1 {
      SplitCharFree(parts[0], c);
    } else {
      SplitJoinChar(parts[1..], c);
      SplitCharAfter(parts[0], c, Join(parts[1..], [c]));
      assert [parts[0]] + parts[1..] == parts;
    }
  }

  /** The first piece of a split on `c` is everything before the first `c`. */
  lemma {:induction false} SplitCharFirst(s: string, c: char)
    ensures Split(s, [c])[0] == s[..IndexOf(s, c)]
    ensures IndexOf(s, c) < |s| ==> |Split(s, [c])| >= 2 && Split(s, [c])[1..] == Split(s[IndexOf(s, c) + 1..], [c])
  {
    var k := IndexOf(s, c);
    if k < |s| {
      assert s == s[..k] + [c] + s[k + 1..];
      SplitCharAfter(s[..k], c, s[k + 1..]);
    } else {
      assert s[..k] == s;
      SplitCharFree(s, c);
    }
  }

  /** Replacing one character by another character, string-wise, is a character-wise substitution. */
  lemma {:induction false} ReplaceAllChar(s: string, a: char, b: char)
    ensures ReplaceAll(s, [a], [b]) == SubstChar(s, a, b)
    decreases |s|
  {
    if |s| == 0 {
    } else {
      ReplaceAllChar(s[1..], a, b);
      var rest := Split(s[1..], [a]);
      if s[0] == a {
        assert s[..1] == [a];
        assert Split(s, [a]) == [""] + rest;
        JoinCons("", rest, [b]);
      } else {
        assert s[..1] != [a];
        assert Split(s, [a]) == [[s[0]] + rest[0]] + rest[1..];
        JoinPrepend(s[0], rest, [b]);
      }
    }
  }

  lemma JoinCons(x: string, rest: seq<string>, sep: string)
    requires |rest| >= 1
    ensures Join([x] + rest, sep) == x + sep + Join(rest, sep)
  {
    assert ([x] + rest)[1..] == rest;
  }

  lemma JoinPrepend(c: char, rest: seq<string>, sep: string)
    requires |rest| >= 1
    ensures Join([[c] + rest[0]] + rest[1..], sep) == [c] + Join(rest, sep)
  {
    if |rest| > 1 {
      assert ([[c] + rest[0]] + rest[1..])[1..] == rest[1..];
    }
  }

  lemma SubstCharAppend(x: string, y: string, a: char, b: char)
    ensures SubstChar(x + y, a, b) == SubstChar(x, a, b) + SubstChar(y, a, b)
  {
    var l, r := SubstChar(x + y, a, b), SubstChar(x, a, b) + SubstChar(y, a, b);
    assert |l| == |r|;
    forall i | 0 <= i < |l| ensures l[i] == r[i] {
      if i < |x| { assert (x + y)[i] == x[i]; } else { assert (x + y)[i] == y[i - |x|]; }
    }
  }

  /** A string starting and ending with non-space characters is left alone by TrimSpace. */
  lemma TrimSpaceNoop(s: string)
    requires |s| > 0 ==> !IsSpace(s[0]) && !IsSpace(s[|s| - 1])
    ensures TrimSpace(s) == s
  {
  }

  /** A join starts with the first character of its first piece. */
  lemma JoinFirst(parts: seq<string>, sep: string)
    requires |parts| >= 1 && |parts[0]| > 0
    ensures |Join(parts, sep)| > 0 && Join(parts, sep)[0] == parts[0][0]
  {
  }

  /** A join ends with the last character of its last piece. */
  lemma {:induction false} JoinLast(parts: seq<string>, sep: string)
    requires |parts| >= 1 && |parts[|parts| - 1]| > 0
    ensures |Join(parts, sep)| > 0
    ensures Join(parts, sep)[|Join(parts, sep)| - 1] == parts[|parts| - 1][|parts[|parts| - 1]| - 1]
    decreases |parts|
  {
    if |parts| > 1 {
      JoinLast(parts[1..], sep);
    }
  }

  /** A character absent from the pieces and the separator is absent from their join. */
  lemma {:induction false} JoinFree(parts: seq<string>, sep: string, c: char)
    requires c !in sep && forall k | 0 <= k < |parts| :: c !in parts[k]
    ensures c !in Join(parts, sep)
    decreases |parts|
  {
    if |parts| > 1 {
      JoinFree(parts[1..], sep, c);
      assert parts[0] + sep + Join(parts[1..], sep) == Join(parts, sep);
    }
  }

  lemma JoinThree(a: string, b: string, c: string, sep: string)
    ensures Join([a, b, c], sep) == a + sep + b + sep + c
  {
    assert [a, b, c][1..] == [b, c];
    assert [b, c][1..] == [c];
    assert Join([c], sep) == c;
    assert Join([b, c], sep) == b + sep + c;
    assert Join([a, b, c], sep) == a + sep + (b + sep + c);
  }

  /** Three pieces without the separator come back from a split on it. */
  lemma SplitThree(a: string, b: string, c: string, sep: char)
    requires sep !in a && sep !in b && sep !in c
    ensures Split(a + [sep] + b + [sep] + c, [sep]) == [a, b, c]
  {
    JoinThree(a, b, c, [sep]);
    SplitJoinChar([a, b, c], sep);
  }

  /** Two pieces without the separator come back from a split on it. */
  lemma SplitTwo(a: string, b: string, sep: char)
    requires sep !in a && sep !in b
    ensures Split(a + [sep] + b, [sep]) == [a, b]
  {
    SplitCharFree(b, sep);
    SplitCharAfter(a, sep, b);
  }

  /** A text with a line break in it splits into at least two lines. */
  lemma SplitHasBreak(s: string, c: char)
    requires c in s
    ensures |Split(s, [c])| >= 2
  {
    SplitCharFirst(s, c);
  }

  /** Removing a prefix that does not occur again leaves the rest. */
  lemma ReplaceAllPrefix(pat: string, rest: string)
    requires |pat| > 0 && Free(rest, pat)
    ensures ReplaceAll(pat + rest, pat, "") == rest
  {
    SplitAfter("", pat, rest);
    assert "" + pat + rest == pat + rest;
    SplitFree(rest, pat);
    assert Join(["", rest], "") == rest;
  }
  /** No occurrence of `sep` starts inside `p`, even with `sep` itself following it. */
  predicate SepSafe(p: string, sep: string) {
    forall i | 0 <= i < |p| :: !MatchAt(p + sep, i, sep)
  }

  lemma SepSafeFree(p: string, sep: string)
    requires SepSafe(p, sep)
    ensures Free(p, sep)
  {
    forall i | 0 <= i < |p| ensures !MatchAt(p, i, sep) {
      assert !MatchAt(p + sep, i, sep);
      if i + |sep| <= |p| {
        assert (p + sep)[i..i + |sep|] == p[i..i + |sep|];
      }
    }
  }

  /** Pieces in which the separator cannot start come back from a split of their join. */
  lemma {:induction false} SplitJoinSep(parts: seq<string>, sep: string)
    requires |sep| > 0 && |parts| >= 1
    requires forall k | 0 <= k < |parts| :: SepSafe(parts[k], sep)
    ensures Split(Join(parts, sep), sep) == parts
    decreases |parts|
  {
    if |parts| == 1 {
      SepSafeFree(parts[0], sep);
      SplitFree(parts[0], sep);
    } else {
      var a, b := parts[0], Join(parts[1..], sep);
      forall i | 0 <= i < |a| ensures !MatchAt(a + sep + b, i, sep) {
        assert !MatchAt(a + sep, i, sep);
        if i + |sep| <= |a + sep| {
          assert (a + sep + b)[i..i + |sep|] == (a + sep)[i..i + |sep|];
        }
      }
      SplitAfter(a, sep, b);
      SplitJoinSep(parts[1..], sep);
      assert [a] + parts[1..] == parts;
    }
  }

  /** Joining one more piece appends the separator and the piece. */
  lemma {:induction false} JoinSnoc(parts: seq<string>, x: string, sep: string)
    requires |parts| >= 1
    ensures Join(parts + [x], sep) == Join(parts, sep) + sep + x
    decreases |parts|
  {
    if |parts| == 1 {
      assert (parts + [x])[1..] == [x];
    } else {
      assert (parts + [x])[1..] == parts[1..] + [x];
      JoinSnoc(parts[1..], x, sep);
    }
  }
  /** A position whose character differs from the separator's first does not start it. */
  lemma NoMatchAt(s: string, i: nat, sep: string)
    requires |sep| > 0 && i < |s| && s[i] != sep[0]
    ensures !MatchAt(s, i, sep)
  {
    if i + |sep| <= |s| {
      assert s[i..i + |sep|][0] == s[i];
    }
  }
  /** TrimLeft removes a prefix made of cut-set characters when the rest starts outside the cut set. */
  lemma {:induction false} TrimLeftCut(a: string, b: string, cutset: string)
    requires forall i | 0 <= i < |a| :: a[i] in cutset
    requires |b| > 0 && b[0] !in cutset
    ensures TrimLeft(a + b, cutset) == b
    decreases |a|
  {
    if |a| == 0 {
      assert a + b == b;
    } else {
      assert (a + b)[0] == a[0];
      assert (a + b)[1..] == a[1..] + b;
      TrimLeftCut(a[1..], b, cutset);
    }
  }
}
