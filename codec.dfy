/**
 * The ServerQuery escaping codec of utils.go: Encode substitutes each of the
 * eleven reserved characters by a backslash and a letter; Decode scans left to
 * right, replaces each known two-character escape and copies everything else.
 */
module Codec {
  import opened Wrappers

  const BEL: char := '\U{7}'
  const BS: char := '\U{8}'
  const VT: char := '\U{B}'
  const FF: char := '\U{C}'

  /** The letter that follows the backslash in the escape of `c`, if `c` is reserved. */
  function EscapeOf(c: char): Option<char> {
    if c == '\\' then Some('\\')
    else if c == '/' then Some('/')
    else if c == ' ' then Some('s')
    else if c == '|' then Some('p')
    else if c == BEL then Some('a')
    else if c == BS then Some('b')
    else if c == FF then Some('f')
    else if c == '\n' then Some('n')
    else if c == '\r' then Some('r')
    else if c == '\t' then Some('t')
    else if c == VT then Some('v')
    else None
  }

  /** The character a backslash followed by `l` stands for, if that escape is known. */
  function UnescapeOf(l: char): (r: Option<char>)
    ensures r.Some? ==> EscapeOf(r.value) == Some(l)
  {
    if l == '\\' then Some('\\')
    else if l == '/' then Some('/')
    else if l == 's' then Some(' ')
    else if l == 'p' then Some('|')
    else if l == 'a' then Some(BEL)
    else if l == 'b' then Some(BS)
    else if l == 'f' then Some(FF)
    else if l == 'n' then Some('\n')
    else if l == 'r' then Some('\r')
    else if l == 't' then Some('\t')
    else if l == 'v' then Some(VT)
    else None
  }

  /** The two tables are inverse to each other. */
  lemma EscapeInverse(c: char)
    ensures EscapeOf(c).Some? ==> UnescapeOf(EscapeOf(c).value) == Some(c)
  {
  }

  predicate IsReserved(c: char) { EscapeOf(c).Some? }

  function EncodeChar(c: char): string {
    match EscapeOf(c)
    case Some(l) => ['\\', l]
    case None => [c]
  }

  /** Encode (utils.go:47-49): the encoder table of utils.go:11-23 applied to each character. */
  function Encode(s: string): (r: string)
    ensures |s| <= |r| <= 2 * |s|
    decreases |s|
  {
    if |s| == 0 then "" else EncodeChar(s[0]) + Encode(s[1..])
  }

  /** Decode (utils.go:43-45): the decoder table of utils.go:27-39, scanning once from the left. */
  function Decode(t: string): (r: string)
    ensures |r| <= |t| <= 2 * |r|
    decreases |t|
  {
    if |t| == 0 then ""
    else if |t| >= 2 && t[0] == '\\' && UnescapeOf(t[1]).Some? then [UnescapeOf(t[1]).value] + Decode(t[2..])
    else [t[0]] + Decode(t[1..])
  }

  /**
   * Wire text as Encode produces it: no raw reserved character other than a
   * backslash, and every backslash opens a known two-character escape.
   */
  predicate Escaped(t: string)
    decreases |t|
  {
    if |t| == 0 then true
    else if t[0] == '\\' then |t| >= 2 && UnescapeOf(t[1]).Some? && Escaped(t[2..])
    else !IsReserved(t[0]) && Escaped(t[1..])
  }

  function CountReserved(s: string): nat
    decreases |s|
  {
    if |s| == 0 then 0 else (if IsReserved(s[0]) then 1 else 0) + CountReserved(s[1..])
  }

  // ---------------------------------------------------------------- lemmas

  /** Decoding undoes encoding, for every string. */
  lemma {:induction false} DecodeEncode(s: string)
    ensures Decode(Encode(s)) == s
    decreases |s|
  {
    if |s| > 0 {
      DecodeEncode(s[1..]);
      var rest := Encode(s[1..]);
      assert Encode(s) == EncodeChar(s[0]) + rest;
      EscapeInverse(s[0]);
      if IsReserved(s[0]) {
        var t := EncodeChar(s[0]) + rest;
        assert t[2..] == rest;
      } else {
        var t := [s[0]] + rest;
        assert t[1..] == rest;
      }
      assert [s[0]] + s[1..] == s;
    }
  }

  /** Encode's output is well escaped. */
  lemma {:induction false} EncodeEscaped(s: string)
    ensures Escaped(Encode(s))
    decreases |s|
  {
    if |s| > 0 {
      EncodeEscaped(s[1..]);
      var t := Encode(s);
      EscapeInverse(s[0]);
      if IsReserved(s[0]) {
        assert t[2..] == Encode(s[1..]);
      } else {
        assert t[1..] == Encode(s[1..]);
      }
    }
  }

  /** On well-escaped text, encoding undoes decoding: Encode is onto the escaped strings. */
  lemma {:induction false} EncodeDecode(t: string)
    requires Escaped(t)
    ensures Encode(Decode(t)) == t
    decreases |t|
  {
    if |t| > 0 {
      if t[0] == '\\' {
        EncodeDecode(t[2..]);
        var c := UnescapeOf(t[1]).value;
        assert Decode(t) == [c] + Decode(t[2..]);
        assert ([c] + Decode(t[2..]))[1..] == Decode(t[2..]);
        assert t == ['\\', t[1]] + t[2..];
      } else {
        EncodeDecode(t[1..]);
        assert Decode(t) == [t[0]] + Decode(t[1..]);
        assert ([t[0]] + Decode(t[1..]))[1..] == Decode(t[1..]);
        assert t == [t[0]] + t[1..];
      }
    }
  }

  /**
   * Well-escaped text holds no raw space, `|` or control character of the
   * table; `/` can appear, but only as the letter of the escape of `/` itself.
   */
  lemma {:induction false} EscapedHasNoRawReserved(t: string)
    requires Escaped(t)
    ensures forall i | 0 <= i < |t| :: t[i] == '\\' || t[i] == '/' || !IsReserved(t[i])
    decreases |t|
  {
    if |t| > 0 {
      if t[0] == '\\' {
        EscapedHasNoRawReserved(t[2..]);
        forall i | 2 <= i < |t| ensures t[i] == '\\' || t[i] == '/' || !IsReserved(t[i]) {
          assert t[i] == t[2..][i - 2];
        }
      } else {
        EscapedHasNoRawReserved(t[1..]);
        forall i | 1 <= i < |t| ensures t[i] == '\\' || t[i] == '/' || !IsReserved(t[i]) {
          assert t[i] == t[1..][i - 1];
        }
      }
    }
  }

  /** Encoding distributes over concatenation. */
  lemma {:induction false} EncodeAppend(a: string, b: string)
    ensures Encode(a + b) == Encode(a) + Encode(b)
    decreases |a|
  {
    if |a| > 0 {
      EncodeAppend(a[1..], b);
      assert (a + b)[1..] == a[1..] + b;
      assert (a + b)[0] == a[0];
      calc {
        Encode(a + b);
        EncodeChar(a[0]) + Encode(a[1..] + b);
        EncodeChar(a[0]) + (Encode(a[1..]) + Encode(b));
        (EncodeChar(a[0]) + Encode(a[1..])) + Encode(b);
      }
    } else {
      assert a + b == b;
    }
  }

  /** Each reserved character grows the text by exactly one character. */
  lemma {:induction false} EncodeLength(s: string)
    ensures |Encode(s)| == |s| + CountReserved(s)
    decreases |s|
  {
    if |s| > 0 { EncodeLength(s[1..]); }
  }

  /** Encode leaves a string unchanged exactly when it has no reserved character. */
  lemma {:induction false} EncodeFixpoint(s: string)
    ensures Encode(s) == s <==> forall i | 0 <= i < |s| :: !IsReserved(s[i])
    decreases |s|
  {
    EncodeLength(s);
    if |s| > 0 {
      EncodeFixpoint(s[1..]);
      if forall i | 0 <= i < |s| :: !IsReserved(s[i]) {
        assert forall i | 0 <= i < |s[1..]| :: !IsReserved(s[1..][i]) by {
          forall i | 0 <= i < |s[1..]| ensures !IsReserved(s[1..][i]) { assert s[1..][i] == s[i + 1]; }
        }
        assert [s[0]] + s[1..] == s;
      } else {
        var i :| 0 <= i < |s| && IsReserved(s[i]);
        CountReservedPositive(s, i);
      }
    }
  }

  lemma {:induction false} CountReservedPositive(s: string, i: nat)
    requires i < |s| && IsReserved(s[i])
    ensures CountReserved(s) > 0
    decreases i
  {
    if i > 0 { CountReservedPositive(s[1..], i - 1); }
  }

  /** Text without a backslash comes out of Decode unchanged. */
  lemma {:induction false} DecodePlain(t: string)
    requires '\\' !in t
    ensures Decode(t) == t
    decreases |t|
  {
    if |t| > 0 {
      DecodePlain(t[1..]);
      assert [t[0]] + t[1..] == t;
    }
  }

  /**
   * Decode does not rescan its output: an escaped backslash becomes one
   * backslash and decoding resumes after it, so `\\s` gives a backslash
   * and an `s`, not a space.
   */
  lemma DecodeNoRescan(t: string)
    ensures Decode(['\\', '\\'] + t) == ['\\'] + Decode(t)
  {
    assert (['\\', '\\'] + t)[2..] == t;
  }

  /** A backslash before a letter of no known escape is copied, and decoding resumes at that letter. */
  lemma DecodeUnknownEscape(c: char, t: string)
    requires UnescapeOf(c).None?
    ensures Decode(['\\', c] + t) == ['\\'] + Decode([c] + t)
  {
    assert (['\\', c] + t)[1..] == [c] + t;
  }

  predicate IsEscapeLetter(c: char) { UnescapeOf(c).Some? }

  /** Every character of Encode(s) is a character of s, a backslash or an escape letter. */
  lemma {:induction false} EncodeChars(s: string)
    ensures forall j | 0 <= j < |Encode(s)| :: Encode(s)[j] in s || Encode(s)[j] == '\\' || IsEscapeLetter(Encode(s)[j])
    decreases |s|
  {
    if |s| > 0 {
      EncodeChars(s[1..]);
      EscapeInverse(s[0]);
      var head, rest := EncodeChar(s[0]), Encode(s[1..]);
      forall j | 0 <= j < |head + rest| ensures (head + rest)[j] in s || (head + rest)[j] == '\\' || IsEscapeLetter((head + rest)[j]) {
        if j >= |head| {
          assert (head + rest)[j] == rest[j - |head|];
          if rest[j - |head|] in s[1..] { assert rest[j - |head|] in s; }
        }
      }
    }
  }

  /** No reserved character other than a backslash or `/` occurs raw in an encoded string. */
  lemma EncodeNoRaw(s: string, c: char)
    requires IsReserved(c) && c != '\\' && c != '/'
    ensures c !in Encode(s)
  {
    EncodeEscaped(s);
    EscapedHasNoRawReserved(Encode(s));
  }
}
