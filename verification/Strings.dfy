/** The string functions of the host language, on sequences of characters. */
module Strings {
  import opened Wrappers

  /** `sub` lies at position i of s. */
  predicate At(s: string, sub: string, i: nat)
  {
    i + |sub| <= |s| && forall k {:trigger sub[k]} :: 0 <= k < |sub| ==> s[i + k] == sub[k]
  }

  lemma SliceAt(s: string, sub: string, i: nat)
    requires i + |sub| <= |s|
    ensures At(s, sub, i) <==> s[i..i + |sub|] == sub
  {
    var t := s[i..i + |sub|];
    assert forall k :: 0 <= k < |sub| ==> t[k] == s[i + k];
  }

  /** strings.Index in the text from position `from` on: the first match. */
  function Index(s: string, sub: string, from: nat): (r: Option<nat>)
    requires from <= |s|
    ensures r.Some? ==> from <= r.value && At(s, sub, r.value) && forall j :: from <= j < r.value ==> !At(s, sub, j)
    ensures r.None? ==> forall j :: from <= j ==> !At(s, sub, j)
    decreases |s| - from
  {
    if At(s, sub, from) then Some(from)
    else if from == |s| then None
    else Index(s, sub, from + 1)
  }

  /** strings.LastIndex in the text before position `to`: the last match. */
  function LastIndex(s: string, sub: string, to: nat): (r: Option<nat>)
    requires to <= |s|
    ensures r.Some? ==> r.value + |sub| <= to && At(s, sub, r.value)
    ensures r.Some? ==> forall j :: r.value < j <= to - |sub| ==> !At(s, sub, j)
    ensures r.None? ==> forall j :: 0 <= j <= to - |sub| ==> !At(s, sub, j)
  {
    if to < |sub| then None
    else if At(s, sub, to - |sub|) then Some(to - |sub|)
    else if to == |sub| then None
    else LastIndex(s, sub, to - 1)
  }

  /** unicode.IsSpace. */
  predicate IsSpace(c: char)
  {
    || '\U{9}' <= c <= '\U{d}' || c == ' ' || c == '\U{85}' || c == '\U{a0}' || c == '\U{1680}'
    || '\U{2000}' <= c <= '\U{200a}' || c == '\U{2028}' || c == '\U{2029}' || c == '\U{202f}' || c == '\U{205f}'
       || c == '\U{3000}'
  }

  /** Trimming leaves nothing. */
  predicate Blank(s: string)
  {
    forall k :: 0 <= k < |s| ==> IsSpace(s[k])
  }

  /** strings.TrimSpace. */
  function TrimSpace(s: string): (r: string)
    ensures r == "" <==> Blank(s)
    ensures r != "" ==> !IsSpace(r[0]) && !IsSpace(r[|r| - 1])
  {
    if s == "" then ""
    else if IsSpace(s[0]) then TrimSpace(s[1..])
    else if IsSpace(s[|s| - 1]) then TrimSpace(s[..|s| - 1])
    else s
  }

  /** strings.Contains. */
  predicate Contains(s: string, sub: string)
  {
    Index(s, sub, 0).Some?
  }

  /** strings.HasPrefix. */
  predicate HasPrefix(s: string, prefix: string)
  {
    |prefix| <= |s| && s[..|prefix|] == prefix
  }

  /** strings.Trim. */
  function Trim(s: string, cutset: string): string
  {
    if s == "" then ""
    else if s[0] in cutset then Trim(s[1..], cutset)
    else if s[|s| - 1] in cutset then Trim(s[..|s| - 1], cutset)
    else s
  }

  /** A mapping of characters applied to a text, as strings.ToLower does. */
  function Folded(s: string, fold: char -> char): (r: string)
    ensures |r| == |s|
  {
    seq(|s|, k requires 0 <= k < |s| => fold(s[k]))
  }

  // ---- What the functions above find, by the text itself ----

  /** `sub` lies somewhere in s. */
  ghost predicate Within(sub: string, s: string)
  {
    exists i :: 0 <= i <= |s| && sub <= s[i..]
  }

  lemma ContainsMeans(s: string, sub: string)
    ensures Contains(s, sub) <==> Within(sub, s)
  {
    if Contains(s, sub) {
      var i := Index(s, sub, 0).value;
      SliceAt(s, sub, i);
      assert s[i..][..|sub|] == s[i..i + |sub|];
    }
    if Within(sub, s) {
      var i :| 0 <= i <= |s| && sub <= s[i..];
      assert s[i..][..|sub|] == s[i..i + |sub|];
      SliceAt(s, sub, i);
      assert At(s, sub, i);
    }
  }

  lemma HasPrefixMeans(s: string, prefix: string)
    ensures HasPrefix(s, prefix) <==> prefix <= s
  {
  }

  /** Everything before `from` and from `to` on is dropped. */
  ghost predicate OutsideOf(s: string, from: int, to: int, drop: char -> bool)
  {
    forall k :: 0 <= k < |s| && (k < from || to <= k) ==> drop(s[k])
  }

  lemma OutsideTail(s: string, from: nat, to: nat, drop: char -> bool)
    requires s != "" && drop(s[0]) && from <= to <= |s| - 1 && OutsideOf(s[1..], from, to, drop)
    ensures s[1..][from..to] == s[from + 1..to + 1] && OutsideOf(s, from + 1, to + 1, drop)
  {
    forall k | 0 <= k < |s| && (k < from + 1 || to + 1 <= k) ensures drop(s[k]) {
      assert k > 0 ==> s[k] == s[1..][k - 1];
    }
  }

  lemma OutsideFront(s: string, from: nat, to: nat, drop: char -> bool)
    requires s != "" && drop(s[|s| - 1]) && from <= to <= |s| - 1 && OutsideOf(s[..|s| - 1], from, to, drop)
    ensures s[..|s| - 1][from..to] == s[from..to] && OutsideOf(s, from, to, drop)
  {
    forall k | 0 <= k < |s| && (k < from || to <= k) ensures drop(s[k]) {
      assert k < |s| - 1 ==> s[k] == s[..|s| - 1][k];
    }
  }

  /** Trimming space takes away space at both ends and nothing else. */
  lemma {:induction false} TrimSpaceIs(s: string) returns (from: nat, to: nat)
    ensures from <= to <= |s| && TrimSpace(s) == s[from..to] && OutsideOf(s, from, to, IsSpace)
    decreases |s|
  {
    if s == "" {
      from, to := 0, 0;
    } else if IsSpace(s[0]) {
      from, to := TrimSpaceIs(s[1..]);
      OutsideTail(s, from, to, IsSpace);
      from, to := from + 1, to + 1;
    } else if IsSpace(s[|s| - 1]) {
      from, to := TrimSpaceIs(s[..|s| - 1]);
      OutsideFront(s, from, to, IsSpace);
    } else {
      from, to := 0, |s|;
    }
  }

  /** The same of trimming other characters. */
  lemma {:induction false} TrimIs(s: string, cutset: string) returns (from: nat, to: nat)
    ensures from <= to <= |s| && Trim(s, cutset) == s[from..to]
    ensures forall k :: 0 <= k < from || to <= k < |s| ==> s[k] in cutset
    ensures from < to ==> s[from] !in cutset && s[to - 1] !in cutset
    decreases |s|
  {
    var drop := (c: char) => c in cutset;
    if s == "" {
      from, to := 0, 0;
    } else if s[0] in cutset {
      from, to := TrimIs(s[1..], cutset);
      OutsideTail(s, from, to, drop);
      from, to := from + 1, to + 1;
    } else if s[|s| - 1] in cutset {
      from, to := TrimIs(s[..|s| - 1], cutset);
      OutsideFront(s, from, to, drop);
    } else {
      from, to := 0, |s|;
    }
    assert forall k :: 0 <= k < from || to <= k < |s| ==> s[k] in cutset;
  }
}
