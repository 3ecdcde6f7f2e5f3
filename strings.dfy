/**
 * The few Python `str` operations the descriptor store relies on: the `in`
 * operator on strings (substring test), `str.split(sep)` with a one-character
 * separator, and `str.strip()` / `str.rstrip(ch)`.
 */
module Strings {

  /** `sub` occurs in `s` starting at position `i`. */
  predicate OccursAt(s: string, sub: string, i: nat)
  {
    i + |sub| <= |s| && s[i..i + |sub|] == sub
  }

  /** Python's `sub in s` for two strings. The empty string occurs in every string. */
  predicate Contains(s: string, sub: string)
    decreases |s|
  {
    sub <= s || (|s| > 0 && Contains(s[1..], sub))
  }

  /** The recursive definition agrees with "some slice of `s` equals `sub`". */
  lemma {:induction false} ContainsIffOccurs(s: string, sub: string)
    ensures Contains(s, sub) <==> exists i: nat :: OccursAt(s, sub, i)
    decreases |s|
  {
    if sub <= s {
      assert OccursAt(s, sub, 0);
    } else if |s| > 0 {
      ContainsIffOccurs(s[1..], sub);
      if Contains(s[1..], sub) {
        var i: nat :| OccursAt(s[1..], sub, i);
        assert s[i + 1..i + 1 + |sub|] == s[1..][i..i + |sub|];
        assert OccursAt(s, sub, i + 1);
      }
      if i: nat :| OccursAt(s, sub, i) {
        assert i != 0;
        assert s[1..][i - 1..i - 1 + |sub|] == s[i..i + |sub|];
        assert OccursAt(s[1..], sub, i - 1);
      }
    }
  }

  /** An occurrence in `b` is an occurrence in `a + b`. */
  lemma {:induction false} ContainsAppendLeft(a: string, b: string, w: string)
    requires Contains(b, w)
    ensures Contains(a + b, w)
    decreases |a|
  {
    if a != [] {
      ContainsAppendLeft(a[1..], b, w);
      assert (a + b)[1..] == a[1..] + b;
    } else {
      assert a + b == b;
    }
  }

  /** An occurrence in `a` is an occurrence in `a + c`. */
  lemma {:induction false} ContainsAppendRight(a: string, c: string, w: string)
    requires Contains(a, w)
    ensures Contains(a + c, w)
    decreases |a|
  {
    if !(w <= a) {
      ContainsAppendRight(a[1..], c, w);
      assert (a + c)[1..] == a[1..] + c;
    }
  }

  /** A prefix none of whose characters starts `w` cannot hold the start of an occurrence of `w`. */
  lemma {:induction false} ContainsSkipPrefix(p: string, s: string, w: string)
    requires |w| > 0 && w[0] !in p
    requires Contains(p + s, w)
    ensures Contains(s, w)
    decreases |p|
  {
    if p != [] {
      assert (p + s)[0] == p[0];
      assert (p + s)[1..] == p[1..] + s;
      ContainsSkipPrefix(p[1..], s, w);
    } else {
      assert p + s == s;
    }
  }

  /**
   * Python's `s.split(sep)` for a one-character separator: the pieces of `s`
   * between separators, in order; there is always at least one piece.
   */
  function Split(s: string, sep: char): (r: seq<string>)
    ensures |r| >= 1
    decreases |s|
  {
    if s == [] then [""]
    else if s[0] == sep then [""] + Split(s[1..], sep)
    else
      var rest := Split(s[1..], sep);
      [[s[0]] + rest[0]] + rest[1..]
  }

  /** No piece of a split holds the separator. */
  lemma {:induction false} SplitPiecesAvoidSeparator(s: string, sep: char)
    ensures forall k :: 0 <= k < |Split(s, sep)| ==> sep !in Split(s, sep)[k]
    decreases |s|
  {
    if s != [] {
      SplitPiecesAvoidSeparator(s[1..], sep);
      var rest := Split(s[1..], sep);
      if s[0] != sep {
        var first := [s[0]] + rest[0];
        assert sep !in rest[0];
        assert forall i :: 0 <= i < |first| ==> first[i] != sep by {
          forall i | 0 <= i < |first|
            ensures first[i] != sep
          {
            if i > 0 {
              assert first[i] == rest[0][i - 1];
            }
          }
        }
      }
    }
  }

  /** A string without the separator splits into itself. */
  lemma {:induction false} SplitNoSeparator(s: string, sep: char)
    requires sep !in s
    ensures Split(s, sep) == [s]
    decreases |s|
  {
    if s != [] {
      SplitNoSeparator(s[1..], sep);
      assert [s[0]] + s[1..] == s;
    }
  }

  /** Splitting distributes over a separator: `(a + sep + b).split(sep) == a.split(sep) + b.split(sep)`. */
  lemma {:induction false} SplitConcat(a: string, sep: char, b: string)
    ensures Split(a + [sep] + b, sep) == Split(a, sep) + Split(b, sep)
    decreases |a|
  {
    var s := a + [sep] + b;
    var sb := Split(b, sep);
    if a == [] {
      assert s[0] == sep && s[1..] == b;
    } else {
      assert s[0] == a[0];
      assert s[1..] == a[1..] + [sep] + b;
      SplitConcat(a[1..], sep, b);
      var ra := Split(a[1..], sep);
      if a[0] == sep {
        PiecesAssoc([""], ra, sb);
      } else {
        PiecesGlue([a[0]] + ra[0], ra, sb);
      }
    }
  }

  /** Concatenation of piece lists is associative. */
  lemma PiecesAssoc(x: seq<string>, y: seq<string>, z: seq<string>)
    ensures x + (y + z) == (x + y) + z
  {
  }

  /** Gluing text onto the first of the pieces `ra` commutes with appending the pieces `sb`. */
  lemma PiecesGlue(x: string, ra: seq<string>, sb: seq<string>)
    requires |ra| >= 1
    ensures (ra + sb)[0] == ra[0]
    ensures [x] + (ra + sb)[1..] == ([x] + ra[1..]) + sb
  {
    assert (ra + sb)[1..] == ra[1..] + sb;
  }

  /** The first piece of `a + sep + b` is `a` when `a` holds no separator. */
  lemma SplitFirstPiece(a: string, sep: char, b: string)
    requires sep !in a
    ensures Split(a + [sep] + b, sep)[0] == a
  {
    SplitConcat(a, sep, b);
    SplitNoSeparator(a, sep);
  }

  /** Two separator-free fields joined by one separator split back into exactly those two fields. */
  lemma SplitTwoFields(a: string, sep: char, b: string)
    requires sep !in a && sep !in b
    ensures Split(a + [sep] + b, sep) == [a, b]
  {
    SplitConcat(a, sep, b);
    SplitNoSeparator(a, sep);
    SplitNoSeparator(b, sep);
  }

  /** A trailing separator adds exactly one empty last piece. */
  lemma SplitTrailingSeparator(a: string, sep: char)
    ensures Split(a + [sep], sep) == Split(a, sep) + [""]
  {
    SplitConcat(a, sep, "");
    assert a + [sep] + "" == a + [sep];
  }

  /** The characters Python's `str.isspace()` accepts (and so `str.strip()` removes). */
  predicate IsSpace(c: char)
  {
    || '\t' <= c <= '\r'
    || '\U{1C}' <= c <= '\U{1F}'
    || c == ' '
    || c == '\U{85}'
    || c == '\U{A0}'
    || c == '\U{1680}'
    || '\U{2000}' <= c <= '\U{200A}'
    || c == '\U{2028}'
    || c == '\U{2029}'
    || c == '\U{202F}'
    || c == '\U{205F}'
    || c == '\U{3000}'
  }

  predicate NoSpace(s: string)
  {
    forall i :: 0 <= i < |s| ==> !IsSpace(s[i])
  }

  /** `s.lstrip()`: the longest suffix of `s` that does not start with white space. */
  function TrimLeft(s: string): (r: string)
    ensures |r| <= |s| && r == s[|s| - |r|..]
    ensures forall i :: 0 <= i < |s| - |r| ==> IsSpace(s[i])
    ensures r == [] || !IsSpace(r[0])
    decreases |s|
  {
    if |s| > 0 && IsSpace(s[0]) then TrimLeft(s[1..]) else s
  }

  /** `s.rstrip()`: the longest prefix of `s` that does not end with white space. */
  function TrimRight(s: string): (r: string)
    ensures |r| <= |s| && r == s[..|r|]
    ensures forall i :: |r| <= i < |s| ==> IsSpace(s[i])
    ensures r == [] || !IsSpace(r[|r| - 1])
    decreases |s|
  {
    if |s| > 0 && IsSpace(s[|s| - 1]) then TrimRight(s[..|s| - 1]) else s
  }

  /** `s.strip()`: white space removed from both ends. */
  function Strip(s: string): string
  {
    TrimRight(TrimLeft(s))
  }

  /** Stripping only removes characters, so whatever occurs in the stripped text occurs in the original. */
  lemma ContainsOfStrip(s: string, w: string)
    requires Contains(Strip(s), w)
    ensures Contains(s, w)
  {
    var t := TrimLeft(s);
    var r := TrimRight(t);
    var i := |s| - |t|;
    PrefixOfSuffix(s, i, t, r);
    ContainsInSlice(s, i, i + |r|, w);
  }

  /** A prefix of a suffix of `s` is a slice of `s`. */
  lemma PrefixOfSuffix(s: string, i: nat, t: string, r: string)
    requires i <= |s| && t == s[i..] && |r| <= |t| && r == t[..|r|]
    ensures i + |r| <= |s| && r == s[i..i + |r|]
  {
  }

  /** Whatever occurs in a slice of `s` occurs in `s`. */
  lemma ContainsInSlice(s: string, i: nat, j: nat, w: string)
    requires i <= j <= |s| && Contains(s[i..j], w)
    ensures Contains(s, w)
  {
    assert s[i..] == s[i..j] + s[j..];
    ContainsAppendRight(s[i..j], s[j..], w);
    assert s == s[..i] + s[i..];
    ContainsAppendLeft(s[..i], s[i..], w);
  }

  /** Leading white space is dropped by `lstrip` whatever follows it. */
  lemma {:induction false} TrimLeftIndented(pad: string, b: string)
    requires forall i :: 0 <= i < |pad| ==> IsSpace(pad[i])
    ensures TrimLeft(pad + b) == TrimLeft(b)
    decreases |pad|
  {
    if pad == [] {
      assert pad + b == b;
    } else {
      assert (pad + b)[0] == pad[0];
      assert (pad + b)[1..] == pad[1..] + b;
      TrimLeftIndented(pad[1..], b);
    }
  }

  /** A name without white space, indented by white space, strips back to itself. */
  lemma StripIndented(pad: string, b: string)
    requires forall i :: 0 <= i < |pad| ==> IsSpace(pad[i])
    requires NoSpace(b)
    ensures Strip(pad + b) == b
  {
    TrimLeftIndented(pad, b);
  }

  /** `s.rstrip(ch)`: the longest prefix of `s` that does not end with `ch`. */
  function RStrip(s: string, ch: char): (r: string)
    ensures |r| <= |s| && r == s[..|r|]
    ensures forall i :: |r| <= i < |s| ==> s[i] == ch
    ensures r == [] || r[|r| - 1] != ch
    decreases |s|
  {
    if |s| > 0 && s[|s| - 1] == ch then RStrip(s[..|s| - 1], ch) else s
  }
}
