/**
 * Go's `path/filepath.Base` on a system whose only separator is `/` (no
 * volume names): trailing slashes are dropped, the text after the last
 * remaining `/` is kept, the empty path gives "." and a path made only of
 * slashes gives "/".
 */
module GoFilePath {

  const SEPARATOR := '/'

  /** `p` without its trailing separators. */
  function StripTrailingSlashes(p: string): (r: string)
    ensures |r| <= |p| && r == p[..|r|]
    ensures r == [] || r[|r| - 1] != SEPARATOR
    ensures forall i :: |r| <= i < |p| ==> p[i] == SEPARATOR
  {
    if |p| > 0 && p[|p| - 1] == SEPARATOR then StripTrailingSlashes(p[..|p| - 1]) else p
  }

  /** The longest suffix of `p` that holds no separator. */
  function AfterLastSlash(p: string): (r: string)
    ensures |r| <= |p| && r == p[|p| - |r|..]
    ensures SEPARATOR !in r
    ensures |r| < |p| ==> p[|p| - |r| - 1] == SEPARATOR
  {
    if |p| == 0 then []
    else if p[|p| - 1] == SEPARATOR then []
    else
      var r' := AfterLastSlash(p[..|p| - 1]);
      assert p[..|p| - 1][|p| - 1 - |r'|..] + [p[|p| - 1]] == p[|p| - |r'| - 1..];
      r' + [p[|p| - 1]]
  }

  /** `filepath.Base(path)`. */
  function Base(path: string): (r: string)
    ensures r != []
    ensures SEPARATOR in r ==> r == [SEPARATOR]
  {
    if path == [] then "."
    else
      var last := AfterLastSlash(StripTrailingSlashes(path));
      if last == [] then [SEPARATOR] else last
  }

  /** A non-empty path without separators is its own base name. */
  lemma BaseOfPlainName(p: string)
    requires p != [] && SEPARATOR !in p
    ensures Base(p) == p
  {
    var s := StripTrailingSlashes(p);
    assert s == p by { assert p[|p| - 1] != SEPARATOR; }
  }

  /**
   * The self-equality check `Base(p) == p` rejects every path that holds a
   * separator, the lone "/" excepted.
   */
  lemma BaseEqualityExcludesSeparators(p: string)
    requires SEPARATOR in p
    ensures Base(p) == p <==> p == [SEPARATOR]
  {
  }

  lemma BaseIdempotent(p: string)
    ensures Base(Base(p)) == Base(p)
  {
    var b := Base(p);
    if b == [SEPARATOR] {
      assert StripTrailingSlashes(b) == StripTrailingSlashes([]);
    } else {
      BaseOfPlainName(b);
    }
  }

  /**
   * The base name is "." for the empty path, "/" exactly for a path made of
   * slashes, and otherwise the tail of the path once trailing slashes are gone.
   */
  lemma BaseIsLastElement(p: string)
    ensures p == [] ==> Base(p) == "."
    ensures Base(p) == [SEPARATOR] <==> p != [] && forall i :: 0 <= i < |p| ==> p[i] == SEPARATOR
    ensures p != [] && Base(p) != [SEPARATOR] ==>
      var s := StripTrailingSlashes(p);
      |Base(p)| <= |s| && Base(p) == s[|s| - |Base(p)|..]
    ensures p != [] && Base(p) != [SEPARATOR] ==> Base(p) == AfterLastSlash(StripTrailingSlashes(p))
  {
  }
}
