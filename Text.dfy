/** String operations of JavaScript used by the modelled code, restricted to
    what the modelled code needs (`toLowerCase`/`toUpperCase` act on ASCII
    letters only). */
module Text {
  import Seqs

  function LowerChar(c: char): char
  {
    if 'A' <= c <= 'Z' then (c as int + 32) as char else c
  }

  function UpperChar(c: char): char
  {
    if 'a' <= c <= 'z' then (c as int - 32) as char else c
  }

  /** `s.toLowerCase()`. */
  function Lower(s: string): (r: string)
    ensures |r| == |s|
    ensures forall i :: 0 <= i < |s| ==> r[i] == LowerChar(s[i])
  {
    seq(|s|, i requires 0 <= i < |s| => LowerChar(s[i]))
  }

  /** `s.toUpperCase()`. */
  function Upper(s: string): (r: string)
    ensures |r| == |s|
    ensures forall i :: 0 <= i < |s| ==> r[i] == UpperChar(s[i])
  {
    seq(|s|, i requires 0 <= i < |s| => UpperChar(s[i]))
  }

  predicate IsPrefix(p: string, s: string)
  {
    |p| <= |s| && s[..|p|] == p
  }

  /** `s.includes(sub)`. */
  predicate Contains(s: string, sub: string)
    decreases |s|
  {
    IsPrefix(sub, s) || (s != [] && Contains(s[1..], sub))
  }

  /** `sub` occurs in `s` at position `i`. */
  predicate OccursAt(s: string, sub: string, i: int)
  {
    0 <= i <= |s| - |sub| && s[i..i + |sub|] == sub
  }

  /** `Contains` agrees with "`sub` occurs at some position of `s`". */
  lemma {:induction false} ContainsAt(s: string, sub: string)
    ensures Contains(s, sub) <==> exists i :: OccursAt(s, sub, i)
    decreases |s|
  {
    if s != [] {
      ContainsAt(s[1..], sub);
      if IsPrefix(sub, s) {
        assert OccursAt(s, sub, 0);
      } else if Contains(s[1..], sub) {
        var i :| OccursAt(s[1..], sub, i);
        assert s[i + 1..i + 1 + |sub|] == s[1..][i..i + |sub|];
        assert OccursAt(s, sub, i + 1);
      }
      if exists i :: OccursAt(s, sub, i) {
        var i :| OccursAt(s, sub, i);
        if i > 0 {
          assert s[1..][i - 1..i - 1 + |sub|] == s[i..i + |sub|];
          assert OccursAt(s[1..], sub, i - 1);
        }
      }
    } else {
      if exists i :: OccursAt(s, sub, i) {
        var i :| OccursAt(s, sub, i);
        assert sub == s[i..i + |sub|] == [];
      }
      if Contains(s, sub) {
        assert OccursAt(s, sub, 0);
      }
    }
  }

  /** `a.toLowerCase().includes(b.toLowerCase())`. */
  predicate IncludesIgnoreCase(s: string, sub: string)
  {
    Contains(Lower(s), Lower(sub))
  }

  /** The code points `String.prototype.trim` removes: JavaScript's
      WhiteSpace (tab, VT, FF, space, NBSP, BOM and category Zs) and
      LineTerminator (LF, CR, LS, PS). */
  predicate IsSpace(c: char)
  {
    c == '\t' || c == '\n' || c == '\U{000B}' || c == '\U{000C}' || c == '\r' || c == ' '
    || c == '\U{00A0}' || c == '\U{1680}' || ('\U{2000}' <= c <= '\U{200A}')
    || c == '\U{2028}' || c == '\U{2029}' || c == '\U{202F}' || c == '\U{205F}'
    || c == '\U{3000}' || c == '\U{FEFF}'
  }

  function TrimStart(s: string): (r: string)
    ensures |r| <= |s| && r == s[|s| - |r|..]
    ensures r == [] || !IsSpace(r[0])
    ensures forall i :: 0 <= i < |s| - |r| ==> IsSpace(s[i])
    ensures r == [] <==> forall i :: 0 <= i < |s| ==> IsSpace(s[i])
    decreases |s|
  {
    if s != [] && IsSpace(s[0]) then TrimStart(s[1..]) else s
  }

  function TrimEnd(s: string): (r: string)
    ensures |r| <= |s| && r == s[..|r|]
    ensures r == [] || !IsSpace(r[|r| - 1])
    ensures forall i :: |r| <= i < |s| ==> IsSpace(s[i])
    ensures r == [] <==> forall i :: 0 <= i < |s| ==> IsSpace(s[i])
    decreases |s|
  {
    if s != [] && IsSpace(s[|s| - 1]) then TrimEnd(s[..|s| - 1]) else s
  }

  /** `r` is the slice of `s` starting at `a`, and every character of `s`
      outside that slice is a space. */
  predicate SliceBetweenSpaces(s: string, r: string, a: int)
  {
    0 <= a <= |s| - |r| && r == s[a..a + |r|]
    && (forall i :: 0 <= i < a ==> IsSpace(s[i]))
    && (forall i :: a + |r| <= i < |s| ==> IsSpace(s[i]))
  }

  /** `s.trim()`: the slice of `s` left after removing the spaces at both
      ends; it starts and ends with a non-space, and it is empty exactly
      when `s` is blank. */
  function Trim(s: string): (r: string)
    ensures exists a :: SliceBetweenSpaces(s, r, a)
    ensures r == [] || (!IsSpace(r[0]) && !IsSpace(r[|r| - 1]))
    ensures r == [] <==> forall i :: 0 <= i < |s| ==> IsSpace(s[i])
  {
    var a := TrimStart(s);
    var r := TrimEnd(a);
    assert r != [] ==> r[0] == a[0];
    TrimSlice(s);
    r
  }

  /** Trimming the end of what `TrimStart` left keeps a slice of `s` with
      only spaces around it. */
  lemma TrimSlice(s: string)
    ensures SliceBetweenSpaces(s, TrimEnd(TrimStart(s)), |s| - |TrimStart(s)|)
  {
    SliceOfSuffix(s, TrimStart(s), TrimEnd(TrimStart(s)));
  }

  /** A prefix `r` of a suffix `a` of `s`, each cut off only spaces, is a
      slice of `s` with only spaces around it. */
  lemma SliceOfSuffix(s: string, a: string, r: string)
    requires |a| <= |s| && a == s[|s| - |a|..] && forall i :: 0 <= i < |s| - |a| ==> IsSpace(s[i])
    requires |r| <= |a| && r == a[..|r|] && forall i :: |r| <= i < |a| ==> IsSpace(a[i])
    ensures SliceBetweenSpaces(s, r, |s| - |a|)
  {
    var start := |s| - |a|;
    assert r == s[start..start + |r|];
    forall i | start + |r| <= i < |s|
      ensures IsSpace(s[i])
    {
      assert s[i] == a[i - start];
    }
  }

  function IndexOf(s: string, c: char): (i: nat)
    requires c in s
    ensures i < |s| && s[i] == c && c !in s[..i]
  {
    if s[0] == c then 0 else 1 + IndexOf(s[1..], c)
  }

  /** The first occurrence of `c` is found at the position where it occurs
      after no earlier `c`. */
  lemma {:induction false} IndexOfFirst(s: string, c: char, n: nat)
    requires n < |s| && s[n] == c && c !in s[..n]
    ensures IndexOf(s, c) == n
    decreases n
  {
    if n > 0 {
      assert s[0] == s[..n][0];
      assert s[1..][..n - 1] == s[1..n];
      assert forall x :: x in s[1..n] ==> x in s[..n];
      IndexOfFirst(s[1..], c, n - 1);
    }
  }

  /** `s.split(sep)` for a one-character separator: at least one part, and no
      part contains the separator. */
  function Split(s: string, sep: char): (parts: seq<string>)
    ensures |parts| >= 1
    ensures forall k :: 0 <= k < |parts| ==> sep !in parts[k]
    decreases |s|
  {
    if sep !in s then [s]
    else
      var i := IndexOf(s, sep);
      [s[..i]] + Split(s[i + 1..], sep)
  }

  /** `parts.join(sep)`. */
  function Join(parts: seq<string>, sep: string): (r: string)
    ensures |parts| >= 1 ==> IsPrefix(parts[0], r)
    decreases |parts|
  {
    if |parts| == 0 then ""
    else if |parts| == 1 then parts[0]
    else parts[0] + sep + Join(parts[1..], sep)
  }

  /** A join whose first part is non-empty is non-empty, whatever the
      separator. */
  lemma JoinNonEmpty(parts: seq<string>, sep: string)
    requires |parts| >= 1 && parts[0] != ""
    ensures Join(parts, sep) != ""
  {
    if |parts| > 1 {
      assert Join(parts, sep) == parts[0] + sep + Join(parts[1..], sep);
    }
  }

  /** Splitting undoes joining when no part contains the separator. */
  lemma {:induction false} SplitJoin(parts: seq<string>, sep: char)
    requires |parts| >= 1
    requires forall k :: 0 <= k < |parts| ==> sep !in parts[k]
    ensures Split(Join(parts, [sep]), sep) == parts
    decreases |parts|
  {
    if |parts| > 1 {
      var s := Join(parts, [sep]);
      var n := |parts[0]|;
      var rest := Join(parts[1..], [sep]);
      assert s == parts[0] + [sep] + rest;
      assert s[n] == sep;
      assert s[..n] == parts[0];
      IndexOfFirst(s, sep, n);
      assert s[n + 1..] == rest;
      SplitJoin(parts[1..], sep);
      assert Split(s, sep) == [parts[0]] + parts[1..];
    } else {
      assert Join(parts, [sep]) == parts[0];
    }
  }

  /** `path.split('/').filter(Boolean)`: the non-empty segments of a path. */
  function PathSegments(path: string): (segs: seq<string>)
    ensures forall k :: 0 <= k < |segs| ==> segs[k] != "" && '/' !in segs[k]
  {
    var parts := Split(path, '/');
    var segs := Seqs.Filter(parts, (s: string) => s != "");
    assert forall k :: 0 <= k < |segs| ==> segs[k] in parts;
    segs
  }

  /** A path rebuilt from non-empty segments splits back into them. */
  lemma PathSegmentsOfJoin(segs: seq<string>)
    requires |segs| >= 1
    requires forall k :: 0 <= k < |segs| ==> segs[k] != "" && '/' !in segs[k]
    ensures PathSegments("/" + Join(segs, "/")) == segs
  {
    var parts := [""] + segs;
    assert parts[1..] == segs;
    assert Join(parts, "/") == "/" + Join(segs, "/");
    SplitJoin(parts, '/');
    Seqs.FilterKeepsAll(segs, (s: string) => s != "");
    assert Seqs.Filter(parts, (s: string) => s != "") == Seqs.Filter(segs, (s: string) => s != "");
  }

  /** The characters `\w` matches. */
  predicate IsWordChar(c: char)
  {
    'a' <= c <= 'z' || 'A' <= c <= 'Z' || '0' <= c <= '9' || c == '_'
  }

  function CapitalizeAfter(s: string, afterWord: bool): (r: string)
    ensures |r| == |s|
    ensures forall i :: 0 <= i < |s| ==>
      r[i] == if (if i == 0 then afterWord else IsWordChar(s[i - 1])) then s[i] else UpperChar(s[i])
    decreases |s|
  {
    if s == [] then []
    else
      var rest := CapitalizeAfter(s[1..], IsWordChar(s[0]));
      var r := [if afterWord then s[0] else UpperChar(s[0])] + rest;
      assert forall i :: 1 <= i < |s| ==> r[i] == rest[i - 1] && s[1..][i - 1] == s[i];
      r
  }

  /** `s.replace(/\b\w/g, c => c.toUpperCase())`: a character is upper-cased
      exactly when it starts the string or follows a non-word character. */
  function CapitalizeWords(s: string): (r: string)
    ensures |r| == |s|
    ensures forall i :: 0 <= i < |s| ==>
      r[i] == if i == 0 || !IsWordChar(s[i - 1]) then UpperChar(s[i]) else s[i]
  {
    CapitalizeAfter(s, false)
  }

  /** `s.replace(/-/g, ' ')` and the like. */
  function ReplaceChar(s: string, from: char, to: char): (r: string)
    ensures |r| == |s|
    ensures forall i :: 0 <= i < |s| ==> r[i] == if s[i] == from then to else s[i]
  {
    seq(|s|, i requires 0 <= i < |s| => if s[i] == from then to else s[i])
  }

  /** The label derived from one path segment: hyphens become spaces and
      every character that starts the segment or follows a non-word
      character (a hyphen included) is upper-cased. */
  function SegmentLabel(seg: string): (text: string)
    ensures |text| == |seg|
    ensures forall i :: 0 <= i < |seg| ==>
      text[i] == if seg[i] == '-' then ' '
                  else if i == 0 || !IsWordChar(seg[i - 1]) then UpperChar(seg[i])
                  else seg[i]
  {
    CapitalizeWords(ReplaceChar(seg, '-', ' '))
  }
}
