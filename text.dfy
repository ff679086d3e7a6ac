/** The pieces of Go's `strings` and `path/filepath` packages that the
    bookmark tool relies on, written as functions over `string`
    (a sequence of Unicode scalar values). The functions carry only the
    facts their own definitions need; what they compute is stated by the
    lemmas after each. */
module Text {

  /** unicode.IsSpace: the characters with the White_Space property. */
  predicate IsSpace(c: char) {
    c == ' ' || c == '\t' || c == '\n' || c == '\U{000B}' || c == '\U{000C}' || c == '\r'
    || c == '\U{0085}' || c == '\U{00A0}' || c == '\U{1680}'
    || ('\U{2000}' <= c <= '\U{200A}')
    || c == '\U{2028}' || c == '\U{2029}' || c == '\U{202F}' || c == '\U{205F}' || c == '\U{3000}'
  }

  /** strings.HasPrefix */
  predicate HasPrefix(s: string, prefix: string) {
    |prefix| <= |s| && s[..|prefix|] == prefix
  }

  /** strings.HasSuffix */
  predicate HasSuffix(s: string, suffix: string) {
    |suffix| <= |s| && s[|s| - |suffix|..] == suffix
  }

  /** `sub` occurs in `s` starting at index `k`. */
  predicate OccursAt(s: string, sub: string, k: int) {
    0 <= k && k + |sub| <= |s| && s[k..k + |sub|] == sub
  }

  /** The first index at or after `from` at which `sub` occurs in `s`, or -1. */
  function IndexFrom(s: string, sub: string, from: nat): (r: int)
    ensures r == -1 || (from <= r && r + |sub| <= |s|)
    decreases |s| - from
  {
    if from + |sub| > |s| then -1
    else if s[from..from + |sub|] == sub then from
    else IndexFrom(s, sub, from + 1)
  }

  lemma {:induction false} IndexFromIsFirst(s: string, sub: string, from: nat)
    ensures IndexFrom(s, sub, from) >= 0 ==> OccursAt(s, sub, IndexFrom(s, sub, from))
    ensures forall k :: from <= k && (IndexFrom(s, sub, from) == -1 || k < IndexFrom(s, sub, from))
                        ==> !OccursAt(s, sub, k)
    decreases |s| - from
  {
    if from + |sub| <= |s| && s[from..from + |sub|] != sub {
      IndexFromIsFirst(s, sub, from + 1);
    }
  }

  /** strings.Index: the first index at which `sub` occurs in `s`, or -1. */
  function Index(s: string, sub: string): (r: int)
    ensures r == -1 || (0 <= r && r + |sub| <= |s|)
  {
    IndexFrom(s, sub, 0)
  }

  /** strings.Index finds an occurrence, and none occurs before it; -1
      means that none occurs at all. */
  lemma IndexIsFirst(s: string, sub: string)
    ensures Index(s, sub) >= 0 ==> OccursAt(s, sub, Index(s, sub))
    ensures forall k :: 0 <= k && (Index(s, sub) == -1 || k < Index(s, sub)) ==> !OccursAt(s, sub, k)
  {
    IndexFromIsFirst(s, sub, 0);
  }

  /** strings.Contains */
  predicate Contains(s: string, sub: string) {
    Index(s, sub) >= 0
  }

  /** strings.Contains holds exactly when `sub` occurs somewhere in `s`. */
  lemma ContainsIff(s: string, sub: string)
    ensures Contains(s, sub) <==> exists k :: OccursAt(s, sub, k)
  {
    IndexIsFirst(s, sub);
    if Contains(s, sub) {
      assert OccursAt(s, sub, Index(s, sub));
    }
  }

  /** strings.Count for a non-empty `sub`: the number of non-overlapping
      occurrences, found from left to right. */
  function Count(s: string, sub: string): (n: nat)
    requires |sub| > 0
    ensures n > 0 <==> Contains(s, sub)
    decreases |s|
  {
    var i := Index(s, sub);
    if i < 0 then 0 else 1 + Count(s[i + |sub|..], sub)
  }

  /** strings.Split for a non-empty separator. */
  function Split(s: string, sep: string): (parts: seq<string>)
    requires |sep| > 0
    ensures |parts| > 0
    decreases |s|
  {
    var i := Index(s, sep);
    if i < 0 then [s] else [s[..i]] + Split(s[i + |sep|..], sep)
  }

  /** The text before the first occurrence of `sep` does not contain it. */
  lemma PrefixBeforeIndex(s: string, sep: string)
    requires |sep| > 0 && Index(s, sep) >= 0
    ensures !Contains(s[..Index(s, sep)], sep)
  {
    var i := Index(s, sep);
    var first := s[..i];
    IndexIsFirst(s, sep);
    forall k ensures !OccursAt(first, sep, k) {
      if 0 <= k && k + |sep| <= |first| {
        assert first[k..k + |sep|] == s[k..k + |sep|];
        assert !OccursAt(s, sep, k);
      }
    }
    ContainsIff(first, sep);
  }

  /** strings.Split cuts at every occurrence of the separator: one more
      part than occurrences, and no part contains the separator. */
  lemma {:induction false} SplitShape(s: string, sep: string)
    requires |sep| > 0
    ensures |Split(s, sep)| == Count(s, sep) + 1
    ensures forall p :: p in Split(s, sep) ==> !Contains(p, sep)
    decreases |s|
  {
    var i := Index(s, sep);
    if i >= 0 {
      var rest := s[i + |sep|..];
      SplitShape(rest, sep);
      PrefixBeforeIndex(s, sep);
      assert Split(s, sep) == [s[..i]] + Split(rest, sep);
    }
  }

  /** strings.Join */
  function Join(parts: seq<string>, sep: string): string {
    if |parts| == 0 then ""
    else if |parts| == 1 then parts[0]
    else parts[0] + sep + Join(parts[1..], sep)
  }

  lemma JoinCons(first: string, tail: seq<string>, sep: string)
    requires |tail| > 0
    ensures Join([first] + tail, sep) == first + sep + Join(tail, sep)
  {
    assert ([first] + tail)[1..] == tail;
  }

  /** The text before the first occurrence of `sep`, `sep` itself and the
      text after it make up `s`. */
  lemma Reassemble(s: string, sep: string)
    requires Index(s, sep) >= 0
    ensures s[..Index(s, sep)] + sep + s[Index(s, sep) + |sep|..] == s
  {
    var i := Index(s, sep);
    IndexIsFirst(s, sep);
    assert s[i..i + |sep|] == sep;
    assert s == s[..i] + s[i..i + |sep|] + s[i + |sep|..];
  }

  /** Splitting and joining again with the same separator gives back the
      original text. */
  lemma {:induction false} JoinSplit(s: string, sep: string)
    requires |sep| > 0
    ensures Join(Split(s, sep), sep) == s
    decreases |s|
  {
    var i := Index(s, sep);
    if i >= 0 {
      var first, rest := s[..i], s[i + |sep|..];
      var tail := Split(rest, sep);
      assert Join(Split(s, sep), sep) == first + sep + Join(tail, sep) by {
        JoinCons(first, tail, sep);
      }
      JoinSplit(rest, sep);
      Reassemble(s, sep);
    }
  }

  /** strings.TrimSuffix */
  function TrimSuffix(s: string, suffix: string): string {
    if HasSuffix(s, suffix) then s[..|s| - |suffix|] else s
  }

  /** strings.TrimSuffix removes the suffix when it is there, and only
      then. */
  lemma TrimSuffixSpec(s: string, suffix: string)
    ensures HasSuffix(s, suffix) ==> TrimSuffix(s, suffix) + suffix == s
    ensures !HasSuffix(s, suffix) ==> TrimSuffix(s, suffix) == s
  {
    if HasSuffix(s, suffix) {
      assert s == s[..|s| - |suffix|] + s[|s| - |suffix|..];
    }
  }

  /** Drops leading white space. */
  function TrimLeftSpace(s: string): (r: string)
    ensures |r| <= |s|
    ensures r == [] || !IsSpace(r[0])
  {
    if |s| > 0 && IsSpace(s[0]) then TrimLeftSpace(s[1..]) else s
  }

  /** Drops trailing white space. */
  function TrimRightSpace(s: string): (r: string)
    ensures |r| <= |s|
  {
    if |s| > 0 && IsSpace(s[|s| - 1]) then TrimRightSpace(s[..|s| - 1]) else s
  }

  /** TrimLeftSpace drops exactly the leading white space. */
  lemma {:induction false} TrimLeftSpaceShape(s: string)
    ensures TrimLeftSpace(s) == s[|s| - |TrimLeftSpace(s)|..]
    ensures forall k :: 0 <= k < |s| - |TrimLeftSpace(s)| ==> IsSpace(s[k])
  {
    if |s| > 0 && IsSpace(s[0]) {
      TrimLeftSpaceShape(s[1..]);
    }
  }

  /** TrimRightSpace drops exactly the trailing white space. */
  lemma {:induction false} TrimRightSpaceShape(s: string)
    ensures TrimRightSpace(s) == s[..|TrimRightSpace(s)|]
    ensures forall k :: |TrimRightSpace(s)| <= k < |s| ==> IsSpace(s[k])
    ensures TrimRightSpace(s) == [] || !IsSpace(TrimRightSpace(s)[|TrimRightSpace(s)| - 1])
  {
    if |s| > 0 && IsSpace(s[|s| - 1]) {
      TrimRightSpaceShape(s[..|s| - 1]);
    }
  }

  /** strings.TrimSpace */
  function TrimSpace(s: string): string {
    TrimRightSpace(TrimLeftSpace(s))
  }

  /** strings.TrimSpace leaves no white space at either end, and leaves
      nothing exactly when `s` is all white space. */
  lemma TrimSpaceShape(s: string)
    ensures TrimSpace(s) == [] || (!IsSpace(TrimSpace(s)[0]) && !IsSpace(TrimSpace(s)[|TrimSpace(s)| - 1]))
    ensures TrimSpace(s) == [] <==> forall k :: 0 <= k < |s| ==> IsSpace(s[k])
  {
    var left := TrimLeftSpace(s);
    TrimLeftSpaceShape(s);
    TrimRightSpaceShape(left);
    var r := TrimSpace(s);
    if r != [] {
      assert r[0] == left[0];
    } else {
      forall k | |s| - |left| <= k < |s| ensures IsSpace(s[k]) {
        assert s[k] == left[k - (|s| - |left|)];
      }
    }
  }

  /** No character of `s` is white space. */
  predicate NoSpace(s: string) {
    forall k :: 0 <= k < |s| ==> !IsSpace(s[k])
  }

  /** The longest run of non-space characters at the start of `s`. */
  function Word(s: string): (w: string)
    ensures |w| <= |s|
    ensures |s| > 0 && !IsSpace(s[0]) ==> |w| > 0
  {
    if |s| == 0 || IsSpace(s[0]) then "" else [s[0]] + Word(s[1..])
  }

  lemma {:induction false} WordShape(s: string)
    ensures NoSpace(Word(s))
  {
    if |s| > 0 && !IsSpace(s[0]) {
      WordShape(s[1..]);
    }
  }

  /** strings.Fields: the maximal runs of non-space characters. */
  function Fields(s: string): seq<string>
    decreases |s|
  {
    var t := TrimLeftSpace(s);
    if t == [] then []
    else
      var w := Word(t);
      [w] + Fields(t[|w|..])
  }

  /** Every field is non-empty and holds no white space. */
  lemma {:induction false} FieldsShape(s: string)
    ensures forall f :: f in Fields(s) ==> |f| > 0 && NoSpace(f)
    decreases |s|
  {
    var t := TrimLeftSpace(s);
    if t != [] {
      var w := Word(t);
      WordShape(t);
      FieldsShape(t[|w|..]);
      assert Fields(s) == [w] + Fields(t[|w|..]);
    }
  }

  /** Lower-cases an ASCII letter; every other character is kept. */
  function LowerChar(c: char): char {
    if 'A' <= c <= 'Z' then (c as int + 32) as char else c
  }

  /** strings.ToLower, on ASCII letters. */
  function ToLower(s: string): (r: string)
    ensures |r| == |s|
  {
    if |s| == 0 then "" else [LowerChar(s[0])] + ToLower(s[1..])
  }

  /** strings.ToLower maps each character on its own. */
  lemma {:induction false} ToLowerAt(s: string)
    ensures forall k :: 0 <= k < |s| ==> ToLower(s)[k] == LowerChar(s[k])
  {
    if |s| > 0 {
      ToLowerAt(s[1..]);
    }
  }

  /** strings.EqualFold, on ASCII letters. */
  predicate EqualFold(a: string, b: string) {
    ToLower(a) == ToLower(b)
  }

  /** Drops trailing '/' characters. */
  function StripSlashes(path: string): string {
    if |path| > 0 && path[|path| - 1] == '/' then StripSlashes(path[..|path| - 1]) else path
  }

  /** The part of `path` after its last '/' (all of it if there is none). */
  function LastElement(path: string): string {
    if |path| == 0 || path[|path| - 1] == '/' then ""
    else LastElement(path[..|path| - 1]) + [path[|path| - 1]]
  }

  /** filepath.Base on a Unix system. */
  function Base(path: string): string {
    if path == "" then "."
    else
      var e := LastElement(StripSlashes(path));
      if e == "" then "/" else e
  }

  lemma {:induction false} LastElementShape(path: string)
    ensures forall k :: 0 <= k < |LastElement(path)| ==> LastElement(path)[k] != '/'
  {
    if |path| > 0 && path[|path| - 1] != '/' {
      LastElementShape(path[..|path| - 1]);
    }
  }

  /** filepath.Base is never empty, and is "/" or holds no '/'. */
  lemma BaseShape(path: string)
    ensures Base(path) != ""
    ensures Base(path) == "/" || forall k :: 0 <= k < |Base(path)| ==> Base(path)[k] != '/'
  {
    if path != "" {
      LastElementShape(StripSlashes(path));
    }
  }

  /** filepath.Ext: the suffix of the last element of `path` that starts at
      its last '.', or "" when that element has no '.'. */
  function Ext(path: string): string {
    if |path| == 0 || path[|path| - 1] == '/' then ""
    else if path[|path| - 1] == '.' then "."
    else
      var e := Ext(path[..|path| - 1]);
      if e == "" then "" else e + [path[|path| - 1]]
  }

  /** filepath.Ext is empty or a suffix of `path` that starts with '.' and
      holds no '/'. */
  lemma {:induction false} ExtShape(path: string)
    ensures Ext(path) == "" || (Ext(path)[0] == '.' && HasSuffix(path, Ext(path)))
    ensures forall k :: 0 <= k < |Ext(path)| ==> Ext(path)[k] != '/'
  {
    if |path| > 0 && path[|path| - 1] != '/' && path[|path| - 1] != '.' {
      var init, last := path[..|path| - 1], path[|path| - 1];
      ExtShape(init);
      var e := Ext(init);
      if e != "" {
        assert path == init + [last];
        assert path[|path| - |e| - 1..] == init[|init| - |e|..] + [last];
      }
    }
  }

  /** The extension of a name is that of any path that ends with that name
      after a '/'. */
  lemma {:induction false} ExtAfterSlash(dir: string, name: string)
    requires dir == [] || dir[|dir| - 1] == '/'
    ensures Ext(dir + name) == Ext(name)
    decreases |name|
  {
    var path := dir + name;
    if |name| == 0 {
      assert path == dir;
      assert Ext(path) == "" == Ext(name);
    } else {
      var last := name[|name| - 1];
      var init := name[..|name| - 1];
      assert path[|path| - 1] == last;
      assert path[..|path| - 1] == dir + init;
      if last == '/' {
        assert Ext(path) == "" == Ext(name);
      } else if last == '.' {
        assert Ext(path) == "." == Ext(name);
      } else {
        ExtAfterSlash(dir, init);
        var e := Ext(init);
        assert Ext(path) == (if e == "" then "" else e + [last]);
        assert Ext(name) == (if e == "" then "" else e + [last]);
      }
    }
  }
}
