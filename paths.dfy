/**
 * The parts of POSIX `os.path` the store uses: `normpath`, `join` and the
 * descriptor name taken as the last `/`-separated segment of a normalised path.
 */
module Paths {
  import opened Strings

  const SEP := '/'

  /**
   * The component pass of `posixpath.normpath`, read left to right: empty and
   * "." components vanish, ".." removes the component before it, and a ".."
   * that has nothing to remove is kept in a relative path and dropped in an
   * absolute one.
   */
  function Resolve(comps: seq<string>, absolute: bool): (r: seq<string>)
    ensures forall k :: 0 <= k < |r| ==> r[k] in comps && r[k] != "" && r[k] != "."
    ensures absolute ==> forall k :: 0 <= k < |r| ==> r[k] != ".."
    decreases |comps|
  {
    if comps == [] then []
    else
      var done := Resolve(comps[..|comps| - 1], absolute);
      var c := comps[|comps| - 1];
      if c == "" || c == "." then done
      else if c != ".." || (!absolute && done == []) || (done != [] && done[|done| - 1] == "..") then done + [c]
      else if done != [] then done[..|done| - 1]
      else done
  }

  /** How many leading slashes `normpath` keeps: POSIX lets exactly two stand, three or more become one. */
  function InitialSlashes(p: string): nat
  {
    if |p| >= 2 && p[0] == SEP && p[1] == SEP && !(|p| >= 3 && p[2] == SEP) then 2
    else if |p| >= 1 && p[0] == SEP then 1
    else 0
  }

  /** `"/".join(comps)`. */
  function JoinSep(comps: seq<string>): string
    decreases |comps|
  {
    if comps == [] then ""
    else if |comps| == 1 then comps[0]
    else JoinSep(comps[..|comps| - 1]) + [SEP] + comps[|comps| - 1]
  }

  function Slashes(n: nat): string
  {
    seq(n, _ => SEP)
  }

  /** The components `normpath` keeps. */
  function Components(p: string): seq<string>
  {
    Resolve(Split(p, SEP), InitialSlashes(p) > 0)
  }

  /** `os.path.normpath(p)` on POSIX. */
  function NormPath(p: string): string
  {
    var path := Slashes(InitialSlashes(p)) + JoinSep(Components(p));
    if path == "" then "." else path
  }

  /** `os.path.join(a, b)` with two arguments on POSIX. */
  function PathJoin(a: string, b: string): string
  {
    if |b| > 0 && b[0] == SEP then b
    else if a == "" || a[|a| - 1] == SEP then a + b
    else a + [SEP] + b
  }

  /**
   * The joined path ends with the name, and a separator stands before it
   * whenever the base contributes anything; a relative name keeps the base
   * as prefix and an absolute one replaces it.
   */
  lemma PathJoinEndsWithName(a: string, b: string)
    ensures var r := PathJoin(a, b);
      |b| <= |r| && r[|r| - |b|..] == b &&
      (|r| > |b| ==> r[|r| - |b| - 1] == SEP) &&
      ((|b| == 0 || b[0] != SEP) ==> a <= r) &&
      (|b| > 0 && b[0] == SEP ==> r == b)
  {
  }

  /**
   * The descriptor name `upload` derives from a folder path:
   * `os.path.normpath(p).split(os.sep)[-1]`.
   */
  function DescriptorName(p: string): string
  {
    var pieces := Split(NormPath(p), SEP);
    pieces[|pieces| - 1]
  }

  /** The last piece of `a + "/" + b` is `b` when `b` has no separator. */
  lemma LastPieceAfterSeparator(a: string, b: string)
    requires SEP !in b
    ensures var pieces := Split(a + [SEP] + b, SEP); pieces[|pieces| - 1] == b
  {
    SplitConcat(a, SEP, b);
    SplitNoSeparator(b, SEP);
  }

  /** The last piece of a joined path is its last component. */
  lemma {:induction false} LastPieceOfJoin(prefix: string, comps: seq<string>)
    requires |comps| > 0
    requires forall k :: 0 <= k < |comps| ==> SEP !in comps[k]
    requires forall i :: 0 <= i < |prefix| ==> prefix[i] == SEP
    ensures var pieces := Split(prefix + JoinSep(comps), SEP); pieces[|pieces| - 1] == comps[|comps| - 1]
  {
    var last := comps[|comps| - 1];
    if |comps| == 1 {
      if prefix == [] {
        assert prefix + JoinSep(comps) == last;
        SplitNoSeparator(last, SEP);
      } else {
        assert prefix + JoinSep(comps) == prefix[..|prefix| - 1] + [SEP] + last;
        LastPieceAfterSeparator(prefix[..|prefix| - 1], last);
      }
    } else {
      assert prefix + JoinSep(comps) == (prefix + JoinSep(comps[..|comps| - 1])) + [SEP] + last;
      LastPieceAfterSeparator(prefix + JoinSep(comps[..|comps| - 1]), last);
    }
  }

  /**
   * The descriptor name is the last component `normpath` keeps; with no
   * component left it is "" for an absolute path and "." for a relative one.
   */
  lemma DescriptorNameIsLastComponent(p: string)
    ensures var comps := Components(p);
      DescriptorName(p) ==
        if comps == [] then (if InitialSlashes(p) > 0 then "" else ".")
        else comps[|comps| - 1]
  {
    if Components(p) == [] {
      NameWithoutComponents(p);
    } else {
      NameWithComponents(p);
    }
  }

  /** With no component left, the name is "" for an absolute path and "." for a relative one. */
  lemma NameWithoutComponents(p: string)
    requires Components(p) == []
    ensures DescriptorName(p) == if InitialSlashes(p) > 0 then "" else "."
  {
    var n := InitialSlashes(p);
    assert Slashes(n) + JoinSep([]) == Slashes(n);
    assert NormPath(p) == BareRoot(n);
    LastPieceOfBareRoot(n);
  }

  /** What `normpath` yields when no component is left: the kept slashes, or "." when there are none. */
  function BareRoot(n: nat): string
  {
    if n == 0 then "." else Slashes(n)
  }

  /** The last piece of a bare root is "" when it has slashes and "." otherwise. */
  lemma LastPieceOfBareRoot(n: nat)
    requires n <= 2
    ensures var pieces := Split(BareRoot(n), SEP); pieces[|pieces| - 1] == if n > 0 then "" else "."
  {
    if n == 0 {
      SplitNoSeparator(".", SEP);
    } else if n == 1 {
      assert BareRoot(n) == "" + [SEP] + "";
      SplitConcat("", SEP, "");
    } else {
      assert BareRoot(n) == [SEP] + [SEP] + "";
      LastPieceAfterSeparator([SEP], "");
    }
  }

  /** Otherwise the name is the last component. */
  lemma NameWithComponents(p: string)
    requires Components(p) != []
    ensures DescriptorName(p) == Components(p)[|Components(p)| - 1]
  {
    var comps := Components(p);
    var prefix := Slashes(InitialSlashes(p));
    var pieces := Split(p, SEP);
    SplitPiecesAvoidSeparator(p, SEP);
    forall k | 0 <= k < |comps|
      ensures SEP !in comps[k]
    {
      assert comps[k] in pieces;
    }
    LastPieceOfJoin(prefix, comps);
    assert NormPath(p) == prefix + JoinSep(comps);
  }

  /** An empty last component changes nothing. */
  lemma ResolveDropsEmptyLast(comps: seq<string>, absolute: bool)
    ensures Resolve(comps + [""], absolute) == Resolve(comps, absolute)
  {
    assert (comps + [""])[..|comps|] == comps;
  }

  /** Appending a slash to a non-empty path does not change whether it is absolute. */
  lemma TrailingSlashKeepsAbsolute(p: string)
    requires p != ""
    ensures InitialSlashes(p + [SEP]) > 0 <==> InitialSlashes(p) > 0
  {
    assert (p + [SEP])[0] == p[0];
  }

  /** `X/` and `X` name the same descriptor, for every non-empty `X`. */
  lemma TrailingSlashKeepsName(p: string)
    requires p != ""
    ensures DescriptorName(p + [SEP]) == DescriptorName(p)
  {
    var q := p + [SEP];
    SplitTrailingSeparator(p, SEP);
    TrailingSlashKeepsAbsolute(p);
    ResolveDropsEmptyLast(Split(p, SEP), InitialSlashes(p) > 0);
    assert Components(q) == Components(p);
    DescriptorNameIsLastComponent(p);
    DescriptorNameIsLastComponent(q);
  }
}
