/** The filter for remote SVG images (desktop/remote_markdown_image.go). */
module SvgFilter {
  // One pass over the XML tokens with two depth counters.  The module proves that on the
  // tokens of a document tree the pass is the pruning of the tree, and what its output is
  // like on any tokens.
  //
  // `fold` is the mapping of characters to lower case; the filter is correct for any.

  import opened Wrappers
  import opened Strings

  datatype Name = Name(space: string, local: string)

  datatype Attr = Attr(name: Name, value: string)

  datatype Token =
    | Start(name: Name, attrs: seq<Attr>)
    | End(name: Name)
    | CharData(text: string)
    | Comment(text: string)
    | Directive(text: string)

  const FORBIDDEN: set<string> := {
    "animate", "animatemotion", "animatetransform", "audio", "embed", "foreignobject", "iframe", "object", "script",
    "set", "style", "video"}

  const SVG_SPACE := "http://www.w3.org/2000/svg"
  const XML_SPACE := "http://www.w3.org/XML/1998/namespace"

  // ---- Attributes ----

  /** safeRemoteMarkdownSVGReference. */
  predicate SafeReference(raw: string, fold: char -> char)
  {
    var value := Folded(TrimSpace(raw), fold);
    || HasPrefix(value, "#")
    || HasPrefix(value, "data:image/png;base64,") || HasPrefix(value, "data:image/jpeg;base64,")
    || HasPrefix(value, "data:image/gif;base64,") || HasPrefix(value, "data:image/webp;base64,")
    || HasPrefix(value, "data:image/bmp;base64,") || HasPrefix(value, "data:image/x-icon;base64,")
  }

  predicate SafeTarget(target: string)
  {
    HasPrefix(Trim(TrimSpace(target), "\"'"), "#")
  }

  predicate SafeRest(value: string)
  {
    !Contains(value, "@import") && !Contains(value, "expression(")
  }

  /** Every url(...) met by the scan refers to a fragment, and the rest holds no import. */
  predicate SafeUrls(value: string)
    decreases |value|
  {
    match Index(value, "url(", 0)
    case None => SafeRest(value)
    case Some(index) =>
      var rest := value[index + 4..];
      match Index(rest, ")", 0)
      case None => false
      case Some(end) => SafeTarget(rest[..end]) && SafeUrls(rest[end + 1..])
  }

  predicate SafeText(value: string)
  {
    !Contains(value, "javascript:") && !Contains(value, "vbscript:") && !Contains(value, "data:text/html")
      && SafeUrls(value)
  }

  /** safeRemoteMarkdownSVGAttributeValue. */
  method SafeValue(raw: string, fold: char -> char) returns (safe: bool)
    ensures safe == SafeText(Folded(raw, fold))
  {
    var value := Folded(raw, fold);
    if Contains(value, "javascript:") || Contains(value, "vbscript:") || Contains(value, "data:text/html") {
      return false;
    }
    while true
      invariant SafeUrls(value) == SafeUrls(Folded(raw, fold))
      decreases |value|
    {
      var index := Index(value, "url(", 0);
      if index.None? {
        return SafeRest(value);
      }
      var rest := value[index.value + 4..];
      var end := Index(rest, ")", 0);
      if end.None? {
        return false;
      }
      if !SafeTarget(rest[..end.value]) {
        return false;
      }
      value := rest[end.value + 1..];
    }
  }

  /** A reference in a value: what precedes it, and what stands between its brackets. */
  datatype Ref = Ref(before: string, target: string)

  function Spelled(refs: seq<Ref>, tail: string): string
  {
    if refs == [] then tail
    else (refs[0].before + "url(") + (refs[0].target + ")" + Spelled(refs[1..], tail))
  }

  /** Every reference of the spelling points into the document. */
  predicate FragmentsOnly(refs: seq<Ref>, tail: string)
  {
    && !Contains(tail, "url(") && SafeRest(tail)
    && (forall k :: 0 <= k < |refs| ==> !Contains(refs[k].before, "url("))
    && forall k :: 0 <= k < |refs| ==> ')' !in refs[k].target && SafeTarget(refs[k].target)
  }

  /** The first reference is found at its place, since no proper end of "url(" begins it. */
  lemma FirstUrl(before: string, rest: string)
    requires !Contains(before, "url(")
    ensures Index(before + "url(" + rest, "url(", 0) == Some(|before|)
  {
    var s, url := before + "url(" + rest, "url(";
    assert At(s, url, |before|) by {
      SliceAt(s, url, |before|);
    }
    forall j | 0 <= j < |before| ensures !At(s, url, j) {
      assert !At(before, url, j);
      if j + 4 > |before| {
        assert s[|before|] == 'u' && url[|before| - j] != 'u';
      }
    }
  }

  lemma FirstBracket(target: string, rest: string)
    requires ')' !in target
    ensures Index(target + ")" + rest, ")", 0) == Some(|target|)
  {
    var s := target + ")" + rest;
    assert At(s, ")", |target|);
    forall j | 0 <= j < |target| ensures !At(s, ")", j) {
      assert s[j] != ")"[0];
    }
  }

  lemma {:induction false} SpelledIsSafe(refs: seq<Ref>, tail: string)
    requires FragmentsOnly(refs, tail)
    ensures SafeUrls(Spelled(refs, tail))
    decreases |refs|
  {
    if refs != [] {
      var r, more := refs[0], Spelled(refs[1..], tail);
      var value := Spelled(refs, tail);
      FirstUrl(r.before, r.target + ")" + more);
      FirstBracket(r.target, more);
      assert value[|r.before| + 4..] == r.target + ")" + more;
      assert (r.target + ")" + more)[..|r.target|] == r.target && (r.target + ")" + more)[|r.target| + 1..] == more;
      SpelledIsSafe(refs[1..], tail);
    }
  }

  lemma {:induction false} SafeIsSpelled(value: string) returns (refs: seq<Ref>, tail: string)
    requires SafeUrls(value)
    ensures value == Spelled(refs, tail) && FragmentsOnly(refs, tail)
    decreases |value|
  {
    var found := Index(value, "url(", 0);
    if found.None? {
      refs, tail := [], value;
    } else {
      var index := found.value;
      var rest := value[index + 4..];
      var end := Index(rest, ")", 0).value;
      var more;
      more, tail := SafeIsSpelled(rest[end + 1..]);
      var r := Ref(value[..index], rest[..end]);
      refs := [r] + more;
      BeforeFirstUrl(value, index);
      TargetAtBracket(rest, end);
      OneMoreRef(r, more, tail);
    }
  }

  lemma OneMoreRef(r: Ref, more: seq<Ref>, tail: string)
    requires FragmentsOnly(more, tail) && !Contains(r.before, "url(") && ')' !in r.target && SafeTarget(r.target)
    ensures FragmentsOnly([r] + more, tail)
    ensures Spelled([r] + more, tail) == (r.before + "url(") + (r.target + ")" + Spelled(more, tail))
  {
    assert ([r] + more)[1..] == more;
  }

  lemma BeforeFirstUrl(value: string, index: nat)
    requires Index(value, "url(", 0) == Some(index)
    ensures value == (value[..index] + "url(") + value[index + 4..] && !Contains(value[..index], "url(")
  {
    SliceAt(value, "url(", index);
    assert value == value[..index] + value[index..index + 4] + value[index + 4..];
    forall j | 0 <= j < index ensures !At(value[..index], "url(", j) {
      assert !At(value, "url(", j);
    }
  }

  lemma TargetAtBracket(rest: string, end: nat)
    requires Index(rest, ")", 0) == Some(end)
    ensures rest == rest[..end] + ")" + rest[end + 1..] && ')' !in rest[..end]
  {
    SliceAt(rest, ")", end);
    assert rest == rest[..end] + rest[end..end + 1] + rest[end + 1..];
    forall j | 0 <= j < end ensures rest[j] != ')' {
      assert !At(rest, ")", j);
    }
  }

  /** A value is safe if and only if it spells references into the document alone, with a
      last part that holds no import and no expression. */
  lemma SafeMeansFragments(value: string)
    ensures SafeUrls(value) <==> exists refs, tail :: value == Spelled(refs, tail) && FragmentsOnly(refs, tail)
  {
    if SafeUrls(value) {
      var refs, tail := SafeIsSpelled(value);
    }
    if exists refs, tail :: value == Spelled(refs, tail) && FragmentsOnly(refs, tail) {
      var refs, tail :| value == Spelled(refs, tail) && FragmentsOnly(refs, tail);
      SpelledIsSafe(refs, tail);
    }
  }

  predicate Keeps(attr: Attr, fold: char -> char)
  {
    var name := Folded(attr.name.local, fold);
    && !HasPrefix(name, "on") && name != "srcset" && !(attr.name.space == XML_SPACE && name == "base")
    && if name == "href" || name == "src" then SafeReference(attr.value, fold) else SafeText(Folded(attr.value, fold))
  }

  function Kept(attrs: seq<Attr>, fold: char -> char): (r: seq<Attr>)
    ensures forall k :: 0 <= k < |r| ==> Keeps(r[k], fold)
  {
    if attrs == [] then []
    else
      var front, last := attrs[..|attrs| - 1], attrs[|attrs| - 1];
      Kept(front, fold) + if Keeps(last, fold) then [last] else []
  }

  lemma {:induction false} KeptIsKept(attrs: seq<Attr>, fold: char -> char)
    requires forall k :: 0 <= k < |attrs| ==> Keeps(attrs[k], fold)
    ensures Kept(attrs, fold) == attrs
  {
    if attrs != [] {
      KeptIsKept(attrs[..|attrs| - 1], fold);
    }
  }

  /** The attribute loop. */
  method FilterAttrs(attrs: seq<Attr>, fold: char -> char) returns (kept: seq<Attr>)
    ensures kept == Kept(attrs, fold)
  {
    kept := [];
    for i := 0 to |attrs|
      invariant kept == Kept(attrs[..i], fold)
    {
      assert attrs[..i + 1][..i] == attrs[..i];
      var attr := attrs[i];
      var name := Folded(attr.name.local, fold);
      if HasPrefix(name, "on") || name == "srcset" || (attr.name.space == XML_SPACE && name == "base") {
        continue;
      }
      if name == "href" || name == "src" {
        if !SafeReference(attr.value, fold) {
          continue;
        }
      } else {
        var safe := SafeValue(attr.value, fold);
        if !safe {
          continue;
        }
      }
      kept := kept + [attr];
    }
    assert attrs[..|attrs|] == attrs;
  }

  // ---- The pass ----

  datatype Pass = Pass(rootSeen: bool, rootDepth: nat, skipDepth: nat, out: seq<Token>)

  predicate IsRoot(name: Name, fold: char -> char)
  {
    Folded(name.local, fold) == "svg" && (name.space == "" || name.space == SVG_SPACE)
  }

  predicate IsForbidden(name: Name, fold: char -> char)
  {
    Folded(name.local, fold) in FORBIDDEN
  }

  /** One token; None is the rejection of the document. */
  function Step(p: Pass, t: Token, fold: char -> char): Option<Pass>
  {
    match t
    case Start(name, attrs) =>
      if p.skipDepth > 0 then Some(p.(skipDepth := p.skipDepth + 1))
      else if !p.rootSeen && !IsRoot(name, fold) then None
      else if p.rootSeen && p.rootDepth == 0 then None
      else if IsForbidden(name, fold) then Some(p.(rootSeen := true, skipDepth := 1))
      else Some(Pass(true, p.rootDepth + 1, 0, p.out + [Start(name, Kept(attrs, fold))]))
    case End(name) =>
      if p.skipDepth > 0 then Some(p.(skipDepth := p.skipDepth - 1))
      else if p.rootDepth == 0 then None
      else Some(p.(rootDepth := p.rootDepth - 1, out := p.out + [t]))
    case CharData(text) =>
      if p.skipDepth > 0 then Some(p)
      else if !p.rootSeen || p.rootDepth == 0 then if Blank(text) then Some(p) else None
      else Some(p.(out := p.out + [t]))
    case Comment(_) => Some(p)
    case Directive(_) => Some(p)
  }

  function Run(p: Option<Pass>, tokens: seq<Token>, fold: char -> char): Option<Pass>
  {
    if tokens == [] then p
    else
      match Run(p, tokens[..|tokens| - 1], fold)
      case None => None
      case Some(q) => Step(q, tokens[|tokens| - 1], fold)
  }

  const INITIAL := Pass(false, 0, 0, [])

  /** What the filter makes of a token stream. */
  function Filtered(tokens: seq<Token>, fold: char -> char): Option<seq<Token>>
  {
    match Run(Some(INITIAL), tokens, fold)
    case None => None
    case Some(p) => if p.rootSeen && p.rootDepth == 0 && p.skipDepth == 0 then Some(p.out) else None
  }

  /** sanitizeRemoteMarkdownSVG on the tokens the lexer finds; `broken` says that it ends
      in an error rather than at the end of the file. */
  method Sanitize(tokens: seq<Token>, broken: bool, fold: char -> char) returns (r: Option<seq<Token>>)
    ensures r == if broken then None else Filtered(tokens, fold)
  {
    var rootSeen, rootDepth, skipDepth, out := false, 0, 0, [];
    for i := 0 to |tokens|
      invariant rootDepth >= 0 && skipDepth >= 0
      invariant Run(Some(INITIAL), tokens[..i], fold) == Some(Pass(rootSeen, rootDepth, skipDepth, out))
    {
      assert tokens[..i + 1][..i] == tokens[..i];
      RejectionLasts(tokens, i + 1, fold);
      match tokens[i]
      case Start(name, attrs) =>
        if skipDepth > 0 {
          skipDepth := skipDepth + 1;
          continue;
        }
        if !rootSeen {
          if !IsRoot(name, fold) {
            return None;
          }
          rootSeen := true;
        } else if rootDepth == 0 {
          return None;
        }
        if IsForbidden(name, fold) {
          skipDepth := 1;
          continue;
        }
        var kept := FilterAttrs(attrs, fold);
        out, rootDepth := out + [Start(name, kept)], rootDepth + 1;
      case End(name) =>
        if skipDepth > 0 {
          skipDepth := skipDepth - 1;
          continue;
        }
        if rootDepth <= 0 {
          return None;
        }
        out, rootDepth := out + [tokens[i]], rootDepth - 1;
      case CharData(text) =>
        if skipDepth == 0 && (!rootSeen || rootDepth == 0) {
          if TrimSpace(text) != "" {
            return None;
          }
          continue;
        }
        if skipDepth == 0 {
          out := out + [tokens[i]];
        }
      case Comment(_) =>
      case Directive(_) =>
    }
    assert tokens[..|tokens|] == tokens;
    if broken || !rootSeen || rootDepth != 0 || skipDepth != 0 {
      return None;
    }
    return Some(out);
  }

  lemma {:induction false} RejectionLasts(tokens: seq<Token>, n: nat, fold: char -> char)
    requires n <= |tokens|
    ensures Run(Some(INITIAL), tokens[..n], fold).None? ==> Run(Some(INITIAL), tokens, fold).None?
    decreases |tokens| - n
  {
    if n == |tokens| {
      assert tokens[..n] == tokens;
    } else {
      assert tokens[..n + 1][..n] == tokens[..n];
      RejectionLasts(tokens, n + 1, fold);
    }
  }

  lemma {:induction false} RunConcat(p: Option<Pass>, a: seq<Token>, b: seq<Token>, fold: char -> char)
    ensures Run(p, a + b, fold) == Run(Run(p, a, fold), b, fold)
    decreases |b|
  {
    if b == [] {
      assert a + b == a;
    } else {
      RunConcat(p, a, b[..|b| - 1], fold);
      assert (a + b)[..|a + b| - 1] == a + b[..|b| - 1];
    }
  }

  lemma {:induction false} RunRejected(tokens: seq<Token>, fold: char -> char)
    ensures Run(None, tokens, fold) == None
  {
    if tokens != [] {
      RunRejected(tokens[..|tokens| - 1], fold);
    }
  }

  lemma RunOne(p: Pass, t: Token, fold: char -> char)
    ensures Run(Some(p), [t], fold) == Step(p, t, fold)
  {
    assert [t][..0] == [];
    assert Run(Some(p), [], fold) == Some(p);
  }

  // ---- The tree definition ----

  /** A document: elements with their children, and what lies between them. */
  datatype Node =
    | Element(name: Name, attrs: seq<Attr>, children: seq<Node>)
    | Text(text: string)
    | Remark(text: string)
    | Instruction(text: string)

  function Flatten(nodes: seq<Node>): seq<Token>
  {
    if nodes == [] then [] else One(nodes[0]) + Flatten(nodes[1..])
  }

  function One(node: Node): seq<Token>
  {
    match node
    case Element(name, attrs, children) => [Start(name, attrs)] + Flatten(children) + [End(name)]
    case Text(text) => [CharData(text)]
    case Remark(text) => [Comment(text)]
    case Instruction(text) => [Directive(text)]
  }

  /** The tree without forbidden elements, remarks and instructions, attributes filtered. */
  function Pruned(nodes: seq<Node>, fold: char -> char): seq<Node>
  {
    if nodes == [] then [] else PrunedOne(nodes[0], fold) + Pruned(nodes[1..], fold)
  }

  function PrunedOne(node: Node, fold: char -> char): seq<Node>
  {
    match node
    case Element(name, attrs, children) =>
      if IsForbidden(name, fold) then [] else [Element(name, Kept(attrs, fold), Pruned(children, fold))]
    case Text(text) => [node]
    case Remark(_) => []
    case Instruction(_) => []
  }

  lemma {:induction false} SkippedSubtree(nodes: seq<Node>, p: Pass, fold: char -> char)
    requires p.skipDepth > 0
    ensures Run(Some(p), Flatten(nodes), fold) == Some(p)
  {
    if nodes != [] {
      SkippedNode(nodes[0], p, fold);
      SkippedSubtree(nodes[1..], p, fold);
      RunConcat(Some(p), One(nodes[0]), Flatten(nodes[1..]), fold);
    }
  }

  lemma {:induction false} SkippedNode(node: Node, p: Pass, fold: char -> char)
    requires p.skipDepth > 0
    ensures Run(Some(p), One(node), fold) == Some(p)
  {
    match node
    case Element(name, attrs, children) =>
      var q := p.(skipDepth := p.skipDepth + 1);
      SkippedSubtree(children, q, fold);
      RunElement(p, name, attrs, Flatten(children), q, q, fold);
    case Text(_) => RunOne(p, One(node)[0], fold);
    case Remark(_) => RunOne(p, One(node)[0], fold);
    case Instruction(_) => RunOne(p, One(node)[0], fold);
  }

  /** Running an element, given its start and its children. */
  lemma RunElement(p: Pass, name: Name, attrs: seq<Attr>, inner: seq<Token>, q: Pass, r: Pass, fold: char -> char)
    requires Step(p, Start(name, attrs), fold) == Some(q) && Run(Some(q), inner, fold) == Some(r)
    ensures Run(Some(p), [Start(name, attrs)] + inner + [End(name)], fold) == Step(r, End(name), fold)
  {
    RunOne(p, Start(name, attrs), fold);
    RunConcat(Some(p), [Start(name, attrs)], inner, fold);
    RunConcat(Some(p), [Start(name, attrs)] + inner, [End(name)], fold);
    RunOne(r, End(name), fold);
  }

  function Emitted(p: Pass, tokens: seq<Token>): Pass
  {
    p.(out := p.out + tokens)
  }

  lemma EmittedTwice(p: Pass, a: seq<Token>, b: seq<Token>)
    ensures Emitted(Emitted(p, a), b) == Emitted(p, a + b) && Emitted(p, []) == p
  {
    assert p.out + a + b == p.out + (a + b);
    assert p.out + [] == p.out;
  }

  lemma FlattenConcat(a: seq<Node>, b: seq<Node>)
    requires |a| <= 1
    ensures Flatten(a + b) == Flatten(a) + Flatten(b)
  {
    if a == [] {
      assert a + b == b;
    } else {
      assert (a + b)[1..] == b;
      FlattenOne(a[0]);
      assert a == [a[0]];
    }
  }

  lemma FlattenOne(node: Node)
    ensures Flatten([node]) == One(node)
  {
    assert [node][1..] == [];
    assert One(node) + [] == One(node);
  }

  /** Inside the root the pass emits the pruned subtree. */
  lemma {:induction false} SubtreeIsPruned(nodes: seq<Node>, p: Pass, fold: char -> char)
    requires p.rootSeen && p.rootDepth > 0 && p.skipDepth == 0
    ensures Run(Some(p), Flatten(nodes), fold) == Some(Emitted(p, Flatten(Pruned(nodes, fold))))
    decreases nodes, 0
  {
    if nodes == [] {
      EmittedTwice(p, [], []);
    } else {
      var first, more := PrunedOne(nodes[0], fold), Pruned(nodes[1..], fold);
      NodeIsPruned(nodes[0], p, fold);
      var q := Emitted(p, Flatten(first));
      SubtreeIsPruned(nodes[1..], q, fold);
      RunConcat(Some(p), One(nodes[0]), Flatten(nodes[1..]), fold);
      PrunedOneMore(nodes, p, q, fold);
    }
  }

  lemma PrunedOneMore(nodes: seq<Node>, p: Pass, q: Pass, fold: char -> char)
    requires nodes != [] && q == Emitted(p, Flatten(PrunedOne(nodes[0], fold)))
    ensures Emitted(q, Flatten(Pruned(nodes[1..], fold))) == Emitted(p, Flatten(Pruned(nodes, fold)))
  {
    var first, more := PrunedOne(nodes[0], fold), Pruned(nodes[1..], fold);
    FlattenConcat(first, more);
    EmittedTwice(p, Flatten(first), Flatten(more));
  }

  lemma {:induction false} NodeIsPruned(node: Node, p: Pass, fold: char -> char)
    requires p.rootSeen && p.skipDepth == 0
    requires p.rootDepth > 0
    ensures Run(Some(p), One(node), fold) == Some(Emitted(p, Flatten(PrunedOne(node, fold))))
    decreases node, 0
  {
    match node
    case Element(name, attrs, children) =>
      if IsForbidden(name, fold) {
        var q := p.(skipDepth := 1);
        SkippedSubtree(children, q, fold);
        RunElement(p, name, attrs, Flatten(children), q, q, fold);
        EmittedTwice(p, [], []);
      } else {
        ElementIsPruned(name, attrs, children, p, fold);
      }
    case Text(_) =>
      RunOne(p, One(node)[0], fold);
      FlattenOne(node);
    case Remark(_) =>
      RunOne(p, One(node)[0], fold);
      EmittedTwice(p, [], []);
    case Instruction(_) =>
      RunOne(p, One(node)[0], fold);
      EmittedTwice(p, [], []);
  }

  /** An element that may stand where it does: its pruned form is emitted. */
  lemma {:induction false} ElementIsPruned(name: Name, attrs: seq<Attr>, children: seq<Node>, p: Pass,
                                           fold: char -> char)
    requires p.skipDepth == 0 && !IsForbidden(name, fold)
    requires if p.rootSeen then p.rootDepth > 0 else IsRoot(name, fold)
    ensures Run(Some(p), One(Element(name, attrs, children)), fold)
         == Some(Emitted(p, Flatten([Element(name, Kept(attrs, fold), Pruned(children, fold))])).(rootSeen := true))
    decreases children, 1
  {
    var element := Element(name, Kept(attrs, fold), Pruned(children, fold));
    var inner := Flatten(element.children);
    var q := Pass(true, p.rootDepth + 1, 0, p.out + [Start(name, element.attrs)]);
    SubtreeIsPruned(children, q, fold);
    RunElement(p, name, attrs, Flatten(children), q, Emitted(q, inner), fold);
    FlattenOne(element);
    Bracket(p.out, [Start(name, element.attrs)], inner, [End(name)]);
  }

  lemma Bracket(out: seq<Token>, start: seq<Token>, inner: seq<Token>, end: seq<Token>)
    ensures out + start + inner + end == out + (start + inner + end)
  {
  }

  // ---- Whole documents ----

  function Roots(nodes: seq<Node>): (r: seq<Node>)
    ensures forall k :: 0 <= k < |r| ==> r[k].Element?
  {
    if nodes == [] then [] else (if nodes[0].Element? then [nodes[0]] else []) + Roots(nodes[1..])
  }

  predicate BlankOutside(nodes: seq<Node>)
  {
    forall k :: 0 <= k < |nodes| && nodes[k].Text? ==> Blank(nodes[k].text)
  }

  /** The filter accepts a document if and only if it has one root, an SVG element, and
      nothing but space around it; its output is the root, pruned. */
  lemma FilterIsPruning(nodes: seq<Node>, fold: char -> char)
    ensures var roots := Roots(nodes);
            Filtered(Flatten(nodes), fold)
              == if BlankOutside(nodes) && |roots| == 1 && IsRoot(roots[0].name, fold)
                 then Some(Flatten(Pruned(roots, fold))) else None
  {
    TopRun(nodes, INITIAL, fold);
    assert [] + Flatten(Pruned(Roots(nodes), fold)) == Flatten(Pruned(Roots(nodes), fold));
  }

  ghost predicate TopAccepts(nodes: seq<Node>, rootSeen: bool, fold: char -> char)
  {
    && BlankOutside(nodes) && |Roots(nodes)| <= (if rootSeen then 0 else 1)
    && forall k :: 0 <= k < |Roots(nodes)| ==> IsRoot(Roots(nodes)[k].name, fold)
  }

  lemma {:induction false} TopRun(nodes: seq<Node>, p: Pass, fold: char -> char)
    requires p.rootDepth == 0 && p.skipDepth == 0
    ensures Run(Some(p), Flatten(nodes), fold) == TopResult(nodes, p, fold)
    decreases nodes, 1
  {
    if nodes == [] {
      EmittedTwice(p, [], []);
    } else {
      RunConcat(Some(p), One(nodes[0]), Flatten(nodes[1..]), fold);
      if !nodes[0].Element? {
        TopOther(nodes, p, fold);
      } else if p.rootSeen || !IsRoot(nodes[0].name, fold) {
        TopRejects(nodes, p, fold);
      } else {
        TopElement(nodes, p, fold);
      }
    }
  }

  lemma {:induction false} TopElement(nodes: seq<Node>, p: Pass, fold: char -> char)
    requires p.rootDepth == 0 && p.skipDepth == 0 && !p.rootSeen
    requires nodes != [] && nodes[0].Element? && IsRoot(nodes[0].name, fold)
    ensures Run(Run(Some(p), One(nodes[0]), fold), Flatten(nodes[1..]), fold) == TopResult(nodes, p, fold)
    decreases nodes, 0
  {
    var q := TopRoot(nodes[0], p, fold);
    TopRun(nodes[1..], q, fold);
    RootThenRest(nodes, p, q, fold);
  }

  lemma {:induction false} TopOther(nodes: seq<Node>, p: Pass, fold: char -> char)
    requires p.rootDepth == 0 && p.skipDepth == 0 && nodes != [] && !nodes[0].Element?
    ensures Run(Run(Some(p), One(nodes[0]), fold), Flatten(nodes[1..]), fold) == TopResult(nodes, p, fold)
    decreases nodes, 0
  {
    RunOne(p, One(nodes[0])[0], fold);
    SameRoots(nodes, p, fold);
    if nodes[0].Text? && !Blank(nodes[0].text) {
      RunRejected(Flatten(nodes[1..]), fold);
    } else {
      TopRun(nodes[1..], p, fold);
    }
  }

  /** What a top level makes of its nodes. */
  ghost function TopResult(nodes: seq<Node>, p: Pass, fold: char -> char): Option<Pass>
  {
    if TopAccepts(nodes, p.rootSeen, fold)
    then Some(Emitted(p, Flatten(Pruned(Roots(nodes), fold))).(rootSeen := p.rootSeen || Roots(nodes) != []))
    else None
  }

  lemma SameRoots(nodes: seq<Node>, p: Pass, fold: char -> char)
    requires nodes != [] && !nodes[0].Element?
    ensures TopResult(nodes, p, fold)
         == if nodes[0].Text? && !Blank(nodes[0].text) then None else TopResult(nodes[1..], p, fold)
  {
    BlankOutsideTail(nodes);
    assert Roots(nodes) == Roots(nodes[1..]);
  }

  lemma BlankOutsideTail(nodes: seq<Node>)
    requires nodes != []
    ensures BlankOutside(nodes) <==> (nodes[0].Text? ==> Blank(nodes[0].text)) && BlankOutside(nodes[1..])
  {
    assert forall k :: 0 <= k < |nodes| - 1 ==> nodes[1..][k] == nodes[k + 1];
    if BlankOutside(nodes[1..]) && (nodes[0].Text? ==> Blank(nodes[0].text)) {
      forall k | 0 <= k < |nodes| && nodes[k].Text? ensures Blank(nodes[k].text) {
        assert k > 0 ==> nodes[1..][k - 1] == nodes[k];
      }
    }
  }

  lemma TopRejects(nodes: seq<Node>, p: Pass, fold: char -> char)
    requires p.rootDepth == 0 && p.skipDepth == 0 && nodes != [] && nodes[0].Element?
    requires p.rootSeen || !IsRoot(nodes[0].name, fold)
    ensures TopResult(nodes, p, fold) == None
    ensures Run(Run(Some(p), One(nodes[0]), fold), Flatten(nodes[1..]), fold) == None
  {
    assert Roots(nodes)[0] == nodes[0];
    var start, more := Start(nodes[0].name, nodes[0].attrs), Flatten(nodes[0].children) + [End(nodes[0].name)];
    assert One(nodes[0]) == [start] + more;
    RunConcat(Some(p), [start], more, fold);
    RunOne(p, start, fold);
    RunRejected(more, fold);
    RunRejected(Flatten(nodes[1..]), fold);
  }

  /** The state behind the root. */
  lemma TopRoot(root: Node, p: Pass, fold: char -> char) returns (q: Pass)
    requires p.rootDepth == 0 && p.skipDepth == 0 && !p.rootSeen && root.Element? && IsRoot(root.name, fold)
    ensures q == Emitted(p, Flatten(Pruned([root], fold))).(rootSeen := true)
    ensures Run(Some(p), One(root), fold) == Some(q)
  {
    q := Emitted(p, Flatten(Pruned([root], fold))).(rootSeen := true);
    ElementIsPruned(root.name, root.attrs, root.children, p, fold);
    assert [root][1..] == [];
    assert Pruned([root], fold) == PrunedOne(root, fold) + [];
  }

  lemma RootThenRest(nodes: seq<Node>, p: Pass, q: Pass, fold: char -> char)
    requires nodes != [] && nodes[0].Element? && !p.rootSeen && IsRoot(nodes[0].name, fold)
    requires q == Emitted(p, Flatten(Pruned([nodes[0]], fold))).(rootSeen := true)
    ensures TopResult(nodes, p, fold) == TopResult(nodes[1..], q, fold)
  {
    BlankOutsideTail(nodes);
    assert Roots(nodes) == [nodes[0]] + Roots(nodes[1..]);
    if Roots(nodes[1..]) == [] {
      assert Roots(nodes) == [nodes[0]];
      assert q.out + [] == q.out;
    }
  }

  // ---- Any token stream ----

  /** Elements open behind the tokens. */
  function Depth(tokens: seq<Token>): int
  {
    if tokens == [] then 0
    else
      var t := tokens[|tokens| - 1];
      Depth(tokens[..|tokens| - 1]) + if t.Start? then 1 else if t.End? then -1 else 0
  }

  predicate CleanToken(t: Token, fold: char -> char)
  {
    match t
    case Start(name, attrs) => !IsForbidden(name, fold) && forall k :: 0 <= k < |attrs| ==> Keeps(attrs[k], fold)
    case End(_) => true
    case CharData(_) => true
    case Comment(_) => false
    case Directive(_) => false
  }

  ghost predicate Clean(tokens: seq<Token>, fold: char -> char)
  {
    forall k :: 0 <= k < |tokens| ==> CleanToken(tokens[k], fold)
  }

  /** The tokens open with an SVG element, which nothing before the last token closes. */
  ghost predicate OneRoot(tokens: seq<Token>, fold: char -> char)
  {
    && tokens != [] && tokens[0].Start? && IsRoot(tokens[0].name, fold)
    && forall k :: 0 < k < |tokens| ==> Depth(tokens[..k]) > 0
  }

  ghost predicate Sound(p: Pass, fold: char -> char)
  {
    && Depth(p.out) == p.rootDepth && Clean(p.out, fold)
    && (if p.rootSeen then OneRoot(p.out, fold) else p.out == [] && p.skipDepth == 0)
    && (p.skipDepth > 0 ==> p.rootDepth > 0)
  }

  lemma DepthStep(out: seq<Token>, t: Token)
    ensures Depth(out + [t]) == Depth(out) + if t.Start? then 1 else if t.End? then -1 else 0
  {
    assert (out + [t])[..|out|] == out;
  }

  lemma EmitKeepsSound(out: seq<Token>, t: Token, fold: char -> char)
    requires Clean(out, fold) && CleanToken(t, fold)
    requires if out == [] then t.Start? && IsRoot(t.name, fold) else OneRoot(out, fold) && Depth(out) > 0
    ensures Clean(out + [t], fold) && OneRoot(out + [t], fold)
  {
    var more := out + [t];
    forall k | 0 < k < |more| ensures Depth(more[..k]) > 0 {
      assert more[..k] == out[..k];
      assert k == |out| ==> out[..k] == out;
    }
  }

  lemma StepKeepsSound(p: Pass, t: Token, fold: char -> char)
    requires Sound(p, fold) && Step(p, t, fold).Some?
    ensures Sound(Step(p, t, fold).value, fold)
  {
    var q := Step(p, t, fold).value;
    if q.out != p.out {
      var emitted := if t.Start? then Start(t.name, Kept(t.attrs, fold)) else t;
      assert q.out == p.out + [emitted];
      DepthStep(p.out, emitted);
      EmitKeepsSound(p.out, emitted, fold);
    }
  }

  lemma {:induction false} RunKeepsSound(tokens: seq<Token>, fold: char -> char)
    ensures var p := Run(Some(INITIAL), tokens, fold); p.Some? ==> Sound(p.value, fold)
  {
    if tokens != [] {
      RunKeepsSound(tokens[..|tokens| - 1], fold);
      var p := Run(Some(INITIAL), tokens[..|tokens| - 1], fold);
      if p.Some? && Run(Some(INITIAL), tokens, fold).Some? {
        StepKeepsSound(p.value, tokens[|tokens| - 1], fold);
      }
    }
  }

  /** Whatever tokens come in, what goes out is one balanced SVG element without forbidden
      elements, unsafe attributes, comments and directives. */
  lemma OutputIsOneCleanElement(tokens: seq<Token>, fold: char -> char)
    requires Filtered(tokens, fold).Some?
    ensures var out := Filtered(tokens, fold).value; OneRoot(out, fold) && Depth(out) == 0 && Clean(out, fold)
  {
    RunKeepsSound(tokens, fold);
  }

  /** A pass over its own output so far ends in the same state. */
  ghost predicate Replays(p: Pass, fold: char -> char)
  {
    Run(Some(INITIAL), p.out, fold) == Some(p.(skipDepth := 0))
  }

  lemma StepReplays(p: Pass, t: Token, fold: char -> char)
    requires Sound(p, fold) && Replays(p, fold) && Step(p, t, fold).Some?
    ensures Replays(Step(p, t, fold).value, fold)
  {
    var q := Step(p, t, fold).value;
    if q.out != p.out {
      var emitted := if t.Start? then Start(t.name, Kept(t.attrs, fold)) else t;
      StepsAgain(p, t, emitted, q, fold);
      RunSnoc(p.out, emitted, fold);
    } else {
      SameState(p, t, q, fold);
    }
  }

  /** A token that was emitted takes the pass the same way when it comes in again. */
  lemma StepsAgain(p: Pass, t: Token, emitted: Token, q: Pass, fold: char -> char)
    requires Step(p, t, fold) == Some(q) && q.out != p.out
    requires emitted == if t.Start? then Start(t.name, Kept(t.attrs, fold)) else t
    ensures q.out == p.out + [emitted] && q.skipDepth == 0 && Step(p.(skipDepth := 0), emitted, fold) == Some(q)
  {
    if t.Start? {
      StartAgain(p, t.name, t.attrs, q, fold);
    }
  }

  lemma StartAgain(p: Pass, name: Name, attrs: seq<Attr>, q: Pass, fold: char -> char)
    requires Step(p, Start(name, attrs), fold) == Some(q) && q.out != p.out
    ensures var kept := Start(name, Kept(attrs, fold));
            q.out == p.out + [kept] && q.skipDepth == 0 && Step(p.(skipDepth := 0), kept, fold) == Some(q)
  {
    KeptTwice(attrs, fold);
    assert p.skipDepth == 0;
  }

  lemma KeptTwice(attrs: seq<Attr>, fold: char -> char)
    ensures Kept(Kept(attrs, fold), fold) == Kept(attrs, fold)
  {
    KeptIsKept(Kept(attrs, fold), fold);
  }

  lemma SameState(p: Pass, t: Token, q: Pass, fold: char -> char)
    requires Sound(p, fold) && Step(p, t, fold) == Some(q) && q.out == p.out
    ensures q.(skipDepth := 0) == p.(skipDepth := 0)
  {
    assert t.Start? ==> q.out == p.out;
    assert |p.out + [t]| > |p.out|;
  }

  lemma RunSnoc(tokens: seq<Token>, t: Token, fold: char -> char)
    ensures Run(Some(INITIAL), tokens + [t], fold)
         == match Run(Some(INITIAL), tokens, fold) case None => None case Some(p) => Step(p, t, fold)
  {
    assert (tokens + [t])[..|tokens|] == tokens;
  }

  lemma {:induction false} RunReplays(tokens: seq<Token>, fold: char -> char)
    ensures var p := Run(Some(INITIAL), tokens, fold); p.Some? ==> Sound(p.value, fold) && Replays(p.value, fold)
  {
    RunKeepsSound(tokens, fold);
    if tokens != [] {
      var front := tokens[..|tokens| - 1];
      RunReplays(front, fold);
      var p := Run(Some(INITIAL), front, fold);
      if p.Some? && Run(Some(INITIAL), tokens, fold).Some? {
        StepReplays(p.value, tokens[|tokens| - 1], fold);
      }
    }
  }

  /** Filtering again changes nothing. */
  lemma FilterIsIdempotent(tokens: seq<Token>, fold: char -> char)
    requires Filtered(tokens, fold).Some?
    ensures Filtered(Filtered(tokens, fold).value, fold) == Filtered(tokens, fold)
  {
    RunReplays(tokens, fold);
  }
}
