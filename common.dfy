/** Values and string operations shared by the three settings panels: an
    Option type for JavaScript's `undefined`/missing values, and the few
    `String.prototype` operations the panels use (`trim`, `startsWith`,
    `endsWith`, `includes`, a trailing-slash `replace`) together with the
    `s || fallback` idiom. */
module Common {

  datatype Option<+T> = None | Some(value: T)

  /** The characters removed by `String.prototype.trim`: ECMAScript
      WhiteSpace and LineTerminator code points. */
  predicate IsJsSpace(c: char)
  {
    || c == ' ' || c == '\t' || c == '\n' || c == '\r' || c == '\U{000B}' || c == '\U{000C}'
    || c == '\U{00A0}' || c == '\U{1680}' || ('\U{2000}' <= c <= '\U{200A}')
    || c == '\U{2028}' || c == '\U{2029}' || c == '\U{202F}' || c == '\U{205F}'
    || c == '\U{3000}' || c == '\U{FEFF}'
  }

  /** `s.trimEnd()`: the longest prefix of `s` that does not end in white space;
      everything it drops is white space. */
  function TrimEnd(s: string): (r: string)
    ensures |r| <= |s| && r == s[..|r|]
    ensures r == [] || !IsJsSpace(r[|r| - 1])
    ensures forall k :: |r| <= k < |s| ==> IsJsSpace(s[k])
  {
    if |s| > 0 && IsJsSpace(s[|s| - 1]) then TrimEnd(s[..|s| - 1]) else s
  }

  /** `s.trimStart()`: the longest suffix of `s` that does not start with white
      space; everything it drops is white space. */
  function TrimStart(s: string): (r: string)
    ensures |r| <= |s| && r == s[|s| - |r|..]
    ensures r == [] || !IsJsSpace(r[0])
    ensures forall k :: 0 <= k < |s| - |r| ==> IsJsSpace(s[k])
  {
    if |s| > 0 && IsJsSpace(s[0]) then TrimStart(s[1..]) else s
  }

  /** `s.trim()`. */
  function Trim(s: string): (r: string)
  {
    TrimEnd(TrimStart(s))
  }

  /** `s.trim()` is the piece of `s` that starts where `trimStart` stops. */
  lemma TrimIsTrimmedSlice(s: string)
    ensures var i := |s| - |TrimStart(s)|;
      i + |Trim(s)| <= |s| && Trim(s) == s[i..i + |Trim(s)|]
  {
    var t := TrimStart(s);
    var r := TrimEnd(t);
    var i := |s| - |t|;
    assert t == s[i..] && r == t[..|r|];
    SliceOfSlice(s, i, |r|);
  }

  lemma SliceOfSlice(s: string, i: nat, n: nat)
    requires i + n <= |s|
    ensures s[i..][..n] == s[i..i + n]
  {
  }

  /** `s.trim()` has no white space at either end. */
  lemma TrimHasNoOuterSpace(s: string)
    ensures Trim(s) == [] || (!IsJsSpace(Trim(s)[0]) && !IsJsSpace(Trim(s)[|Trim(s)| - 1]))
  {
    var t := TrimStart(s);
    var r := TrimEnd(t);
    if r != [] {
      assert r[0] == t[0];
    }
  }

  /** A string of white space trims from the start to nothing. */
  lemma {:induction false} TrimStartAllSpace(s: string)
    requires forall k :: 0 <= k < |s| ==> IsJsSpace(s[k])
    ensures TrimStart(s) == []
  {
    if |s| > 0 {
      TrimStartAllSpace(s[1..]);
    }
  }

  /** `!s.trim()` holds exactly when `s` is empty or all white space. */
  lemma TrimEmptyIffAllSpace(s: string)
    ensures Trim(s) == [] <==> forall k :: 0 <= k < |s| ==> IsJsSpace(s[k])
  {
    if forall k :: 0 <= k < |s| ==> IsJsSpace(s[k]) {
      TrimStartAllSpace(s);
    }
  }

  /** `s.startsWith(p)`. */
  predicate StartsWith(s: string, p: string)
  {
    |p| <= |s| && s[..|p|] == p
  }

  /** `s.endsWith(p)`. */
  predicate EndsWith(s: string, p: string)
  {
    |p| <= |s| && s[|s| - |p|..] == p
  }

  /** `s.includes(sub)`, computed by scanning the start positions in order. */
  predicate Contains(s: string, sub: string)
    decreases |s|
  {
    StartsWith(s, sub) || (|s| > 0 && Contains(s[1..], sub))
  }

  /** `sub` occurs in `s` at position `i`. */
  predicate OccursAt(s: string, sub: string, i: int)
  {
    0 <= i <= |s| - |sub| && s[i..i + |sub|] == sub
  }

  /** The scan agrees with the definition "`sub` occurs at some position". */
  lemma {:induction false} ContainsIffOccurs(s: string, sub: string)
    ensures Contains(s, sub) <==> exists i :: OccursAt(s, sub, i)
    decreases |s|
  {
    if StartsWith(s, sub) {
      assert OccursAt(s, sub, 0);
    } else if |s| > 0 {
      ContainsIffOccurs(s[1..], sub);
      if exists i :: OccursAt(s, sub, i) {
        var i :| OccursAt(s, sub, i);
        assert i != 0;
        assert s[1..][i - 1..i - 1 + |sub|] == s[i..i + |sub|];
        assert OccursAt(s[1..], sub, i - 1);
      }
      if Contains(s[1..], sub) {
        var j :| OccursAt(s[1..], sub, j);
        assert s[1..][j..j + |sub|] == s[j + 1..j + 1 + |sub|];
        assert OccursAt(s, sub, j + 1);
      }
    }
  }

  /** The JavaScript idiom `s || fallback` on a string: the empty string is falsy. */
  function OrElse(s: string, fallback: string): (r: string)
    ensures r == (if s == "" then fallback else s)
    ensures r != "" || fallback == ""
  {
    if s == "" then fallback else s
  }

  /** `s.replace(/\/+$/, '')`: every trailing `/` is removed. */
  function StripTrailingSlashes(s: string): (r: string)
    ensures |r| <= |s| && r == s[..|r|]
    ensures r == [] || r[|r| - 1] != '/'
    ensures forall k :: |r| <= k < |s| ==> s[k] == '/'
  {
    if |s| > 0 && s[|s| - 1] == '/' then StripTrailingSlashes(s[..|s| - 1]) else s
  }

  /** The base-URL normaliser of both `refreshOptions` methods:
      `input.replace(/\/+$/, '') || fallback`. */
  function NormalizeUrl(input: string, fallback: string): (r: string)
  {
    OrElse(StripTrailingSlashes(input), fallback)
  }

  /** The normalised URL never ends in `/` (for a fallback that does not), and it
      is either a prefix of the input that drops only slashes or the fallback,
      the latter exactly when the input is nothing but slashes. */
  lemma NormalizeUrlShape(input: string, fallback: string)
    requires fallback == [] || fallback[|fallback| - 1] != '/'
    ensures var r := NormalizeUrl(input, fallback);
      && (r == [] || r[|r| - 1] != '/')
      && (r == fallback <== forall k :: 0 <= k < |input| ==> input[k] == '/')
      && ((exists k :: 0 <= k < |input| && input[k] != '/') ==>
            r != [] && StartsWith(input, r) && forall k :: |r| <= k < |input| ==> input[k] == '/')
  {
    var t := StripTrailingSlashes(input);
    if exists k :: 0 <= k < |input| && input[k] != '/' {
      var k :| 0 <= k < |input| && input[k] != '/';
      assert k < |t|;
    }
  }

  /** The request base both `refreshOptions` methods use, for a default
      address that is non-empty and does not end in `/`: never empty, never
      ending in `/`, either the default or the input without its trailing
      slashes, and the default whenever the input is nothing but slashes. */
  lemma NormalizeUrlWithDefault(input: string, fallback: string)
    requires fallback != [] && fallback[|fallback| - 1] != '/'
    ensures var r := NormalizeUrl(input, fallback);
      && r != [] && r[|r| - 1] != '/'
      && (r == fallback || (StartsWith(input, r) && forall k :: |r| <= k < |input| ==> input[k] == '/'))
      && ((forall k :: 0 <= k < |input| ==> input[k] == '/') ==> r == fallback)
  {
    NormalizeUrlShape(input, fallback);
  }

  /** Normalising twice is normalising once. */
  lemma NormalizeUrlIdempotent(input: string, fallback: string)
    requires fallback == [] || fallback[|fallback| - 1] != '/'
    ensures NormalizeUrl(NormalizeUrl(input, fallback), fallback) == NormalizeUrl(input, fallback)
  {
  }
}
