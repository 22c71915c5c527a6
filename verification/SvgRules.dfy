/** What the SVG filter lets through, in its own words (desktop/remote_markdown_image.go). */
module SvgRules {
  // The names, schemes and references that matter are spelled out here once more, as text
  // and not by way of the filter's tests, and the filter is tied to them in both directions.

  import opened Wrappers
  import opened Strings
  import opened SvgFilter

  // ---- Harmless attributes ----

  /** An attribute that would run a script, load alternatives or move the base. */
  predicate Banned(attr: Attr, fold: char -> char)
  {
    var name := Folded(attr.name.local, fold);
    "on" <= name || name == "srcset"
    || (attr.name.space == "http://www.w3.org/XML/1998/namespace" && name == "base")
  }

  predicate IsReference(attr: Attr, fold: char -> char)
  {
    var name := Folded(attr.name.local, fold);
    name == "href" || name == "src"
  }

  /** A reference into the document itself, or a bitmap that it carries. */
  predicate PointsInside(value: string, fold: char -> char)
  {
    var v := Folded(TrimSpace(value), fold);
    || "#" <= v
    || "data:image/png;base64," <= v || "data:image/jpeg;base64," <= v || "data:image/gif;base64," <= v
    || "data:image/webp;base64," <= v || "data:image/bmp;base64," <= v || "data:image/x-icon;base64," <= v
  }

  /** After space, and then quotes, comes a number sign. */
  ghost predicate PointsToFragment(target: string)
  {
    exists j, k :: Fragment(target, j, k)
  }

  predicate Fragment(target: string, j: int, k: int)
  {
    && 0 <= j <= k < |target| && target[k] == '#'
    && (forall i :: 0 <= i < j ==> IsSpace(target[i]))
    && forall i :: j <= i < k ==> target[i] == '"' || target[i] == '\''
  }

  /** The references of a value all point to fragments, and no import and no expression
      comes after the last. */
  ghost predicate OnlyFragments(refs: seq<Ref>, tail: string)
  {
    && !Within("url(", tail) && !Within("@import", tail) && !Within("expression(", tail)
    && (forall k :: 0 <= k < |refs| ==> !Within("url(", refs[k].before))
    && forall k :: 0 <= k < |refs| ==> ')' !in refs[k].target && PointsToFragment(refs[k].target)
  }

  /** No script scheme anywhere, and no url that leads out of the document. */
  ghost predicate Tame(value: string, fold: char -> char)
  {
    var v := Folded(value, fold);
    && !Within("javascript:", v) && !Within("vbscript:", v) && !Within("data:text/html", v)
    && exists refs, tail :: v == Spelled(refs, tail) && OnlyFragments(refs, tail)
  }

  ghost predicate Harmless(attr: Attr, fold: char -> char)
  {
    && !Banned(attr, fold)
    && if IsReference(attr, fold) then PointsInside(attr.value, fold) else Tame(attr.value, fold)
  }

  /** The first character that is no space is where trimming begins. */
  lemma TrimmedFrom(s: string, j: nat, from: nat, to: nat)
    requires j < |s| && !IsSpace(s[j]) && forall i :: 0 <= i < j ==> IsSpace(s[i])
    requires from <= to <= |s| && TrimSpace(s) == s[from..to]
    requires OutsideOf(s, from, to, IsSpace)
    ensures from == j < to
  {
    assert from < to && s[from] == TrimSpace(s)[0];
  }

  lemma SafeTargetPoints(target: string)
    requires SafeTarget(target)
    ensures PointsToFragment(target)
  {
    var a, b := TrimSpaceIs(target);
    var inner := TrimSpace(target);
    var c, d := TrimIs(inner, "\"'");
    var j, k := a, a + c;
    assert inner[c..d][0] == '#' && inner[c] == target[k];
    forall i | j <= i < k ensures target[i] == '"' || target[i] == '\'' {
      assert inner[i - a] == target[i];
    }
    assert Fragment(target, j, k);
  }

  lemma PointedTargetIsSafe(target: string)
    requires PointsToFragment(target)
    ensures SafeTarget(target)
  {
    var j, k :| Fragment(target, j, k);
    var a, b := TrimSpaceIs(target);
    var inner := TrimSpace(target);
    assert !IsSpace(target[j]);
    TrimmedFrom(target, j, a, b);
    var c, d := TrimIs(inner, "\"'");
    assert k < b;
    QuotesTrimmed(inner, k - j, c, d);
  }

  /** The first character that is no quote is where trimming quotes begins. */
  lemma QuotesTrimmed(inner: string, k: nat, c: nat, d: nat)
    requires k < |inner| && inner[k] == '#' && forall i :: 0 <= i < k ==> inner[i] == '"' || inner[i] == '\''
    requires c <= d <= |inner| && Trim(inner, "\"'") == inner[c..d]
    requires forall i :: 0 <= i < c || d <= i < |inner| ==> inner[i] in "\"'"
    requires c < d ==> inner[c] !in "\"'"
    ensures "#" <= Trim(inner, "\"'")
  {
    assert c <= k < d;
    assert c == k;
  }

  lemma SafeTargetMeans(target: string)
    ensures SafeTarget(target) <==> PointsToFragment(target)
  {
    if SafeTarget(target) {
      SafeTargetPoints(target);
    }
    if PointsToFragment(target) {
      PointedTargetIsSafe(target);
    }
  }

  lemma FragmentsMean(refs: seq<Ref>, tail: string)
    ensures FragmentsOnly(refs, tail) <==> OnlyFragments(refs, tail)
  {
    ContainsMeans(tail, "url(");
    ContainsMeans(tail, "@import");
    ContainsMeans(tail, "expression(");
    forall k | 0 <= k < |refs|
      ensures Contains(refs[k].before, "url(") <==> Within("url(", refs[k].before)
      ensures SafeTarget(refs[k].target) <==> PointsToFragment(refs[k].target)
    {
      ContainsMeans(refs[k].before, "url(");
      SafeTargetMeans(refs[k].target);
    }
  }

  lemma SafeUrlsMean(v: string)
    ensures SafeUrls(v) <==> exists refs, tail :: v == Spelled(refs, tail) && OnlyFragments(refs, tail)
  {
    SafeMeansFragments(v);
    forall refs, tail ensures FragmentsOnly(refs, tail) <==> OnlyFragments(refs, tail) {
      FragmentsMean(refs, tail);
    }
  }

  lemma SafeTextMeans(value: string, fold: char -> char)
    ensures SafeText(Folded(value, fold)) <==> Tame(value, fold)
  {
    var v := Folded(value, fold);
    ContainsMeans(v, "javascript:");
    ContainsMeans(v, "vbscript:");
    ContainsMeans(v, "data:text/html");
    SafeUrlsMean(v);
  }

  /** The filter keeps an attribute if and only if it is harmless. */
  lemma KeptExactly(attr: Attr, fold: char -> char)
    ensures Keeps(attr, fold) <==> Harmless(attr, fold)
  {
    HasPrefixMeans(Folded(attr.name.local, fold), "on");
    SafeTextMeans(attr.value, fold);
  }

  /** `kept` is what lies at the given places of the list, in order, and those are the
      places of what is to be kept. */
  ghost predicate Picks(attrs: seq<Attr>, kept: seq<Attr>, places: seq<nat>, keeps: Attr -> bool)
  {
    && |kept| == |places|
    && (forall k :: 0 <= k < |places| ==> places[k] < |attrs| && kept[k] == attrs[places[k]])
    && (forall j, k :: 0 <= j < k < |places| ==> places[j] < places[k])
    && forall i :: 0 <= i < |attrs| ==> (i in places <==> keeps(attrs[i]))
  }

  lemma PicksOneMore(attrs: seq<Attr>, kept: seq<Attr>, places: seq<nat>, keeps: Attr -> bool)
    requires attrs != [] && Picks(attrs[..|attrs| - 1], kept, places, keeps) && keeps(attrs[|attrs| - 1])
    ensures Picks(attrs, kept + [attrs[|attrs| - 1]], places + [|attrs| - 1], keeps)
  {
    var n := |attrs| - 1;
    var more := places + [n];
    assert more[|places|] == n;
    forall i | 0 <= i < |attrs| ensures i in more <==> keeps(attrs[i]) {
      assert i < n ==> attrs[..n][i] == attrs[i];
    }
  }

  lemma PicksNoMore(attrs: seq<Attr>, kept: seq<Attr>, places: seq<nat>, keeps: Attr -> bool)
    requires attrs != [] && Picks(attrs[..|attrs| - 1], kept, places, keeps) && !keeps(attrs[|attrs| - 1])
    ensures Picks(attrs, kept, places, keeps)
  {
    var n := |attrs| - 1;
    forall i | 0 <= i < |attrs| ensures i in places <==> keeps(attrs[i]) {
      assert i < n ==> attrs[..n][i] == attrs[i];
    }
  }

  lemma {:induction false} KeptPlaces(attrs: seq<Attr>, fold: char -> char, keeps: Attr -> bool)
    returns (places: seq<nat>)
    requires forall attr :: keeps(attr) <==> Keeps(attr, fold)
    ensures Picks(attrs, Kept(attrs, fold), places, keeps)
    decreases |attrs|
  {
    if attrs == [] {
      places := [];
    } else {
      var n := |attrs| - 1;
      places := KeptPlaces(attrs[..n], fold, keeps);
      if keeps(attrs[n]) {
        PicksOneMore(attrs, Kept(attrs[..n], fold), places, keeps);
        places := places + [n];
      } else {
        PicksNoMore(attrs, Kept(attrs[..n], fold), places, keeps);
      }
    }
  }

  /** From a list of attributes the harmless ones stay, in their order, and no other. */
  lemma HarmlessStay(attrs: seq<Attr>, fold: char -> char) returns (places: seq<nat>)
    ensures |Kept(attrs, fold)| == |places|
    ensures forall k :: 0 <= k < |places| ==> places[k] < |attrs| && Kept(attrs, fold)[k] == attrs[places[k]]
    ensures forall j, k :: 0 <= j < k < |places| ==> places[j] < places[k]
    ensures forall i :: 0 <= i < |attrs| ==> (i in places <==> Harmless(attrs[i], fold))
  {
    places := KeptPlaces(attrs, fold, attr => Keeps(attr, fold));
    forall i | 0 <= i < |attrs| ensures Keeps(attrs[i], fold) <==> Harmless(attrs[i], fold) {
      KeptExactly(attrs[i], fold);
    }
  }

  // ---- Elements and documents ----

  const UNWANTED: set<string> := {
    "animate", "animatemotion", "animatetransform", "set", "script", "style", "iframe", "object", "embed",
    "foreignobject", "audio", "video"}

  /** An element with this name is shown. */
  predicate Wanted(name: Name, fold: char -> char)
  {
    Folded(name.local, fold) !in UNWANTED
  }

  /** An SVG element, without a namespace or in its own. */
  predicate IsSvg(name: Name, fold: char -> char)
  {
    Folded(name.local, fold) == "svg" && (name.space == "" || name.space == "http://www.w3.org/2000/svg")
  }

  lemma NamesMean(name: Name, fold: char -> char)
    ensures IsForbidden(name, fold) <==> !Wanted(name, fold)
    ensures IsRoot(name, fold) <==> IsSvg(name, fold)
  {
  }

  /** Whatever tokens come in, everything that goes out is wanted and harmless: no element
      that runs, loads or animates, no handler, no reference out of the document. */
  lemma OutputIsHarmless(tokens: seq<Token>, fold: char -> char)
    requires Filtered(tokens, fold).Some?
    ensures var out := Filtered(tokens, fold).value;
      && out != [] && out[0].Start? && IsSvg(out[0].name, fold)
      && (forall k :: 0 <= k < |out| ==> !out[k].Comment? && !out[k].Directive?)
      && (forall k :: 0 <= k < |out| && out[k].Start? ==> Wanted(out[k].name, fold))
      && forall k, i :: 0 <= k < |out| && out[k].Start? && 0 <= i < |out[k].attrs| ==> Harmless(out[k].attrs[i], fold)
  {
    OutputIsOneCleanElement(tokens, fold);
    var out := Filtered(tokens, fold).value;
    NamesMean(out[0].name, fold);
    forall k | 0 <= k < |out| && out[k].Start? ensures Wanted(out[k].name, fold) {
      assert CleanToken(out[k], fold);
      NamesMean(out[k].name, fold);
    }
    forall k, i | 0 <= k < |out| && out[k].Start? && 0 <= i < |out[k].attrs| ensures Harmless(out[k].attrs[i], fold) {
      assert CleanToken(out[k], fold);
      KeptExactly(out[k].attrs[i], fold);
    }
    forall k | 0 <= k < |out| ensures !out[k].Comment? && !out[k].Directive? {
      assert CleanToken(out[k], fold);
    }
  }

  /** A document is accepted if and only if it has one root, an SVG element in either
      namespace, and nothing but space around it. */
  lemma AcceptedExactly(nodes: seq<Node>, fold: char -> char)
    ensures Filtered(Flatten(nodes), fold).Some?
       <==> |Roots(nodes)| == 1 && IsSvg(Roots(nodes)[0].name, fold)
            && forall k :: 0 <= k < |nodes| && nodes[k].Text? ==> TrimSpace(nodes[k].text) == ""
  {
    FilterIsPruning(nodes, fold);
    if |Roots(nodes)| == 1 {
      NamesMean(Roots(nodes)[0].name, fold);
    }
  }

  /** Nothing in the trees needs filtering. */
  ghost predicate AllHarmless(nodes: seq<Node>, fold: char -> char)
  {
    forall k :: 0 <= k < |nodes| ==> HarmlessNode(nodes[k], fold)
  }

  ghost predicate HarmlessNode(node: Node, fold: char -> char)
  {
    match node
    case Element(name, attrs, children) =>
      && Wanted(name, fold) && (forall i :: 0 <= i < |attrs| ==> Harmless(attrs[i], fold))
      && AllHarmless(children, fold)
    case Text(_) => true
    case Remark(_) => false
    case Instruction(_) => false
  }

  lemma {:induction false} HarmlessIsPruned(nodes: seq<Node>, fold: char -> char)
    requires AllHarmless(nodes, fold)
    ensures Pruned(nodes, fold) == nodes
    decreases nodes, 0
  {
    if nodes != [] {
      HarmlessNodeIsPruned(nodes[0], fold);
      HarmlessIsPruned(nodes[1..], fold);
    }
  }

  lemma {:induction false} HarmlessNodeIsPruned(node: Node, fold: char -> char)
    requires HarmlessNode(node, fold)
    ensures PrunedOne(node, fold) == [node]
    decreases node, 1
  {
    if node.Element? {
      NamesMean(node.name, fold);
      forall i | 0 <= i < |node.attrs| ensures Keeps(node.attrs[i], fold) {
        KeptExactly(node.attrs[i], fold);
      }
      KeptIsKept(node.attrs, fold);
      HarmlessIsPruned(node.children, fold);
    }
  }

  /** A harmless SVG document, in either namespace, comes out token by token as it went in. */
  lemma HarmlessDocumentIsKept(root: Node, fold: char -> char)
    requires root.Element? && IsSvg(root.name, fold) && HarmlessNode(root, fold)
    ensures Filtered(Flatten([root]), fold) == Some(Flatten([root]))
  {
    FilterIsPruning([root], fold);
    NamesMean(root.name, fold);
    assert Roots([root]) == [root] by {
      assert [root][1..] == [];
    }
    HarmlessIsPruned([root], fold);
  }
}
