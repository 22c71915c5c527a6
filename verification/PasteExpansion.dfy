/**
 Text in which pasted blocks are stored expanded, and its collapsing (desktop/app.go).

 A block is stored as text, its label, a gap of space, and the body between markers that
 carry the same label.  One look at such a text finds the first block, part by part: the
 Begin marker, the end of its label, the End marker, and the copy of the label before the
 gap.  Cutting it leaves a text that stores the remaining blocks further left, so by
 induction any number of blocks collapse to their labels.
 */
module PasteExpansion {
  import opened Wrappers
  import opened Strings
  import opened PasteCollapse

  /** A pasted block as stored expanded: text, the label, a gap of space, and the body
      between markers. */
  datatype Block = Block(text: string, tag: string, gap: string, body: string)
  {
    function Head(): string { text + tag + gap }
    function Body(): string { body + EndMarker(tag) }
    function Expanded(): string { Head() + BEGIN + tag + CLOSE + Body() }
    function Shown(): string { text + tag }

    /** The markers of the block are the first ones a reader meets. */
    ghost predicate WellFormed(isLabel: Pattern)
    {
      && isLabel(tag) && Blank(gap)
      && (forall j :: 0 <= j < |Head()| ==> !At(Head() + BEGIN, BEGIN, j))
      && (forall j :: 0 <= j < |body| ==> !At(Body(), EndMarker(tag), j))
    }
  }

  function Expanded(blocks: seq<Block>, tail: string): string
  {
    if blocks == [] then tail else blocks[0].Expanded() + Expanded(blocks[1..], tail)
  }

  function Shown(blocks: seq<Block>, tail: string): string
  {
    if blocks == [] then tail else blocks[0].Shown() + Shown(blocks[1..], tail)
  }

  lemma AtSplit(s: string, x: string, y: string, i: nat)
    ensures At(s, x + y, i) <==> At(s, x, i) && At(s, y, i + |x|)
  {
    if i + |x| + |y| <= |s| {
      var p, q := s[i..i + |x|], s[i + |x|..i + |x| + |y|];
      assert s[i..i + |x + y|] == p + q;
      assert p + q == x + y ==> (p + q)[..|x|] == (x + y)[..|x|] && (p + q)[|x|..] == (x + y)[|x|..];
    }
  }

  /** A marker that `y` ends with, and has nowhere earlier, is the first one where y is. */
  lemma FirstIn(s: string, from: nat, y: string, sub: string)
    requires At(s, y + sub, from)
    requires forall j :: 0 <= j < |y| ==> !At(y + sub, sub, j)
    ensures Index(s, sub, from) == Some(from + |y|)
  {
    AtSplit(s, y, sub, from);
    assert |y + sub| == |y| + |sub|;
    forall j | from <= j < from + |y| ensures !At(s, sub, j) {
      var k := j - from;
      assert s[j..j + |sub|] == s[from..from + |y + sub|][k..k + |sub|];
      assert !At(y + sub, sub, k);
    }
  }

  /** No Close marker begins inside a label. */
  lemma CloseAfterLabel(tag: string)
    requires Plain(tag)
    ensures forall j :: 0 <= j < |tag| ==> !At(tag + CLOSE, CLOSE, j)
  {
    forall j | 0 <= j < |tag| ensures !At(tag + CLOSE, CLOSE, j) {
      var s := tag + CLOSE;
      assert CLOSE[1] == '-' && s[j + 1] != '-';
    }
  }

  /** The copy of the label before the gap is the last one before the Begin marker. */
  lemma LastLabel(s: string, at: nat, tag: string, gap: string)
    requires |tag| > 0 && !IsSpace(tag[|tag| - 1]) && Blank(gap)
    requires at + |tag| + |gap| <= |s| && At(s, tag, at) && At(s, gap, at + |tag|)
    ensures LastIndex(s, tag, at + |tag| + |gap|) == Some(at) && s[at + |tag|..at + |tag| + |gap|] == gap
  {
    SliceAt(s, gap, at + |tag|);
    var n := |tag| - 1;
    forall j | at < j <= at + |gap| ensures !At(s, tag, j) {
      assert s[j + n] == gap[j - at - 1];
      assert s[j + n] != tag[n];
    }
  }

  lemma LooksLabelled(isLabel: Pattern, s: string, scan: nat, begin: nat, labelStart: nat, labelEnd: nat)
    requires scan <= |s| && labelStart == begin + |BEGIN| <= |s|
    requires Index(s, BEGIN, scan) == Some(begin) && Index(s, CLOSE, labelStart) == Some(labelEnd)
    ensures Look(isLabel, s, scan) == LookLabelled(isLabel, s, begin, labelStart, labelEnd)
  {
    LooksMarked(isLabel, s, scan, begin, labelStart);
    LooksClosed(isLabel, s, begin, labelStart, labelEnd);
  }

  lemma LooksMarked(isLabel: Pattern, s: string, scan: nat, begin: nat, labelStart: nat)
    requires scan <= |s| && labelStart == begin + |BEGIN| <= |s| && Index(s, BEGIN, scan) == Some(begin)
    ensures Look(isLabel, s, scan) == LookClosed(isLabel, s, begin, labelStart)
  {
  }

  lemma LooksClosed(isLabel: Pattern, s: string, begin: nat, labelStart: nat, labelEnd: nat)
    requires labelStart == begin + |BEGIN| <= |s| && At(s, BEGIN, begin)
    requires Index(s, CLOSE, labelStart) == Some(labelEnd)
    ensures LookClosed(isLabel, s, begin, labelStart) == LookLabelled(isLabel, s, begin, labelStart, labelEnd)
  {
  }

  lemma LooksAround(isLabel: Pattern, s: string, tag: string, begin: nat, labelStart: nat, labelEnd: nat)
    requires isLabel(tag) && labelStart == begin + |BEGIN| <= labelEnd && At(s, BEGIN, begin) && At(s, CLOSE, labelEnd)
    requires s[labelStart..labelEnd] == tag
    ensures LookLabelled(isLabel, s, begin, labelStart, labelEnd) == LookAround(s, tag, begin, labelEnd + |CLOSE|)
  {
  }

  /** The finds of one look at a stored block, as positions. */
  ghost predicate BeginFound(s: string, i: nat, tag: string, begin: nat)
  {
    MarkFound(s, i, begin) && CloseFound(s, tag, begin + |BEGIN|)
  }

  ghost predicate MarkFound(s: string, i: nat, begin: nat)
  {
    i <= |s| && Index(s, BEGIN, i) == Some(begin)
  }

  ghost predicate CloseFound(s: string, tag: string, labelStart: nat)
  {
    && labelStart <= |s| && Index(s, CLOSE, labelStart) == Some(labelStart + |tag|)
    && s[labelStart..labelStart + |tag|] == tag
  }

  ghost predicate EndFound(s: string, tag: string, beginEnd: nat, body: nat)
  {
    beginEnd <= |s| && Index(s, EndMarker(tag), beginEnd) == Some(body)
  }

  ghost predicate CopyFound(s: string, tag: string, at: nat, begin: nat)
  {
    begin <= |s| && LastIndex(s, tag, begin) == Some(at) && Blank(s[at + |tag|..begin])
  }

  predicate Cuts(found: Found, cut: nat, end: nat)
  {
    found.Cut? && found.cut == cut && found.end == end
  }

  lemma Assemble(isLabel: Pattern, s: string, i: nat, tag: string, at: nat, begin: nat, beginEnd: nat, body: nat)
    requires isLabel(tag) && BeginFound(s, i, tag, begin) && beginEnd == begin + |BEGIN| + |tag| + |CLOSE|
    requires EndFound(s, tag, beginEnd, body) && CopyFound(s, tag, at, begin)
    ensures Look(isLabel, s, i) == Cut(at + |tag|, body + |EndMarker(tag)|, tag, begin, body)
  {
    var labelStart, labelEnd := begin + |BEGIN|, begin + |BEGIN| + |tag|;
    AssembleLabelled(isLabel, s, tag, at, begin, beginEnd, body);
    LooksLabelled(isLabel, s, i, begin, labelStart, labelEnd);
  }

  lemma AssembleLabelled(isLabel: Pattern, s: string, tag: string, at: nat, begin: nat, beginEnd: nat, body: nat)
    requires isLabel(tag) && At(s, BEGIN, begin) && CloseFound(s, tag, begin + |BEGIN|)
    requires beginEnd == begin + |BEGIN| + |tag| + |CLOSE|
    requires EndFound(s, tag, beginEnd, body) && CopyFound(s, tag, at, begin)
    ensures LookLabelled(isLabel, s, begin, begin + |BEGIN|, begin + |BEGIN| + |tag|)
         == Cut(at + |tag|, body + |EndMarker(tag)|, tag, begin, body)
  {
    LooksAround(isLabel, s, tag, begin, begin + |BEGIN|, begin + |BEGIN| + |tag|);
    AroundFound(s, tag, at, begin, beginEnd, body);
  }

  lemma AroundFound(s: string, tag: string, at: nat, begin: nat, beginEnd: nat, body: nat)
    requires begin < beginEnd && EndFound(s, tag, beginEnd, body) && CopyFound(s, tag, at, begin)
    ensures LookAround(s, tag, begin, beginEnd) == Cut(at + |tag|, body + |EndMarker(tag)|, tag, begin, body)
  {
  }

  lemma FindsBeginning(isLabel: Pattern, s: string, i: nat, b: Block, begin: nat)
    requires b.WellFormed(isLabel) && Bracketing(isLabel) && At(s, b.Expanded(), i) && begin == i + |b.Head()|
    ensures BeginFound(s, i, b.tag, begin)
  {
    FindsBegin(isLabel, s, i, b, begin);
    FindsClose(isLabel, s, i, b, begin + |BEGIN|);
  }

  /** Positions of the parts of a stored block, by which one look finds it. */
  ghost predicate Finds(s: string, i: nat, b: Block)
  {
    exists at: nat, begin: nat, beginEnd: nat, body: nat ::
      && at == i + |b.text| && beginEnd == begin + |BEGIN| + |b.tag| + |CLOSE|
         && body + |EndMarker(b.tag)| == i + |b.Expanded()|
      && BeginFound(s, i, b.tag, begin) && EndFound(s, b.tag, beginEnd, body) && CopyFound(s, b.tag, at, begin)
  }

  lemma FindsBlock(isLabel: Pattern, s: string, i: nat, b: Block)
    requires b.WellFormed(isLabel) && Bracketing(isLabel) && At(s, b.Expanded(), i)
    ensures Finds(s, i, b)
  {
    var at, begin := i + |b.text|, i + |b.Head()|;
    var beginEnd := begin + |BEGIN| + |b.tag| + |CLOSE|;
    FindsBeginning(isLabel, s, i, b, begin);
    FindsEnd(isLabel, s, i, b, beginEnd);
    FindsCopy(isLabel, s, i, b, at);
    assert beginEnd + |b.body| + |EndMarker(b.tag)| == i + |b.Expanded()|;
  }

  lemma LooksBlock(isLabel: Pattern, s: string, i: nat, b: Block)
    requires isLabel(b.tag) && Finds(s, i, b)
    ensures i <= |s| && Cuts(Look(isLabel, s, i), i + |b.Shown()|, i + |b.Expanded()|)
  {
    var at: nat, begin: nat, beginEnd: nat, body: nat :|
      && at == i + |b.text| && beginEnd == begin + |BEGIN| + |b.tag| + |CLOSE|
         && body + |EndMarker(b.tag)| == i + |b.Expanded()|
      && BeginFound(s, i, b.tag, begin) && EndFound(s, b.tag, beginEnd, body) && CopyFound(s, b.tag, at, begin);
    Assemble(isLabel, s, i, b.tag, at, begin, beginEnd, body);
  }

  lemma LooksStored(isLabel: Pattern, s: string, i: nat, b: Block)
    requires b.WellFormed(isLabel) && Bracketing(isLabel) && At(s, b.Expanded(), i)
    ensures Cuts(Look(isLabel, s, i), i + |b.Shown()|, i + |b.Expanded()|)
  {
    FindsBlock(isLabel, s, i, b);
    LooksBlock(isLabel, s, i, b);
  }

  lemma FindsBegin(isLabel: Pattern, s: string, i: nat, b: Block, begin: nat)
    requires b.WellFormed(isLabel) && At(s, b.Expanded(), i) && begin == i + |b.Head()|
    ensures MarkFound(s, i, begin)
  {
    Parts(s, i, b);
    FirstIn(s, i, b.Head(), BEGIN);
  }

  lemma FindsClose(isLabel: Pattern, s: string, i: nat, b: Block, labelStart: nat)
    requires isLabel(b.tag) && Bracketing(isLabel) && At(s, b.Expanded(), i) && labelStart == i + |b.Head()| + |BEGIN|
    ensures CloseFound(s, b.tag, labelStart)
  {
    Parts(s, i, b);
    CloseAfter(s, b.tag, labelStart);
  }

  lemma CloseAfter(s: string, tag: string, labelStart: nat)
    requires At(s, tag + CLOSE, labelStart) && Plain(tag)
    ensures CloseFound(s, tag, labelStart)
  {
    CloseAfterLabel(tag);
    FirstIn(s, labelStart, tag, CLOSE);
    AtSplit(s, tag, CLOSE, labelStart);
    SliceAt(s, tag, labelStart);
  }

  lemma FindsEnd(isLabel: Pattern, s: string, i: nat, b: Block, beginEnd: nat)
    requires b.WellFormed(isLabel) && At(s, b.Expanded(), i)
    requires beginEnd == i + |b.Head()| + |BEGIN| + |b.tag| + |CLOSE|
    ensures EndFound(s, b.tag, beginEnd, beginEnd + |b.body|)
  {
    Parts(s, i, b);
    FirstIn(s, beginEnd, b.body, EndMarker(b.tag));
  }

  lemma FindsCopy(isLabel: Pattern, s: string, i: nat, b: Block, at: nat)
    requires isLabel(b.tag) && Blank(b.gap) && Bracketing(isLabel) && At(s, b.Expanded(), i) && at == i + |b.text|
    ensures CopyFound(s, b.tag, at, i + |b.Head()|)
  {
    Front(s, i, b);
    LastLabel(s, at, b.tag, b.gap);
  }

  /** Where the parts of a block lie that is stored at `i`. */
  lemma Parts(s: string, i: nat, b: Block)
    requires At(s, b.Expanded(), i)
    ensures At(s, b.Head() + BEGIN, i)
    ensures At(s, b.tag + CLOSE, i + |b.Head()| + |BEGIN|)
    ensures At(s, b.Body(), i + |b.Head()| + |BEGIN| + |b.tag| + |CLOSE|)
  {
    AtSplit(s, b.Head() + BEGIN + b.tag + CLOSE, b.Body(), i);
    AtSplit(s, b.Head() + BEGIN + b.tag, CLOSE, i);
    AtSplit(s, b.Head() + BEGIN, b.tag, i);
    AtSplit(s, b.tag, CLOSE, i + |b.Head()| + |BEGIN|);
  }

  lemma Front(s: string, i: nat, b: Block)
    requires At(s, b.Expanded(), i)
    ensures At(s, b.Shown(), i) && At(s, b.tag, i + |b.text|) && At(s, b.gap, i + |b.text| + |b.tag|)
  {
    Parts(s, i, b);
    AtSplit(s, b.Head(), BEGIN, i);
    AtSplit(s, b.text + b.tag, b.gap, i);
    AtSplit(s, b.text, b.tag, i);
  }

  lemma CollapsesOne(isLabel: Pattern, s: string, i: nat, b: Block, cut: nat, end: nat, t: string)
    requires b.WellFormed(isLabel) && Bracketing(isLabel) && At(s, b.Expanded(), i)
    requires cut == i + |b.Shown()| <= end == i + |b.Expanded()| && t == s[..cut] + s[end..]
    ensures Collapsed(isLabel, s, i) == Collapsed(isLabel, t, cut)
  {
    LooksStored(isLabel, s, i, b);
    CutStep(isLabel, s, i, cut, end, t);
  }

  lemma CutStep(isLabel: Pattern, s: string, scan: nat, cut: nat, end: nat, t: string)
    requires scan <= |s| && Cuts(Look(isLabel, s, scan), cut, end) && s[..cut] + s[end..] == t
    ensures Collapsed(isLabel, s, scan) == Collapsed(isLabel, t, cut)
  {
  }

  /** From position i on, s is the blocks stored expanded and the tail. */
  ghost predicate Stored(s: string, i: nat, blocks: seq<Block>, tail: string)
    decreases |blocks|
  {
    if blocks == [] then i <= |s| && s[i..] == tail
    else At(s, blocks[0].Expanded(), i) && Stored(s, i + |blocks[0].Expanded()|, blocks[1..], tail)
  }

  lemma {:induction false} StoredTail(s: string, i: nat, t: string, j: nat, blocks: seq<Block>, tail: string)
    requires Stored(s, i, blocks, tail) && i <= |s| && j <= |t| && s[i..] == t[j..]
    ensures Stored(t, j, blocks, tail)
    decreases |blocks|
  {
    if blocks != [] {
      var b := blocks[0].Expanded();
      SliceAt(s, b, i);
      assert s[i..][..|b|] == s[i..i + |b|];
      SliceAt(t, b, j);
      assert t[j..][..|b|] == t[j..j + |b|];
      assert s[i..][|b|..] == s[i + |b|..] && t[j..][|b|..] == t[j + |b|..];
      StoredTail(s, i + |b|, t, j + |b|, blocks[1..], tail);
    }
  }

  lemma {:induction false} ExpandedIsStored(s: string, i: nat, blocks: seq<Block>, tail: string)
    requires i <= |s| && s[i..] == Expanded(blocks, tail)
    ensures Stored(s, i, blocks, tail)
    decreases |blocks|
  {
    if blocks != [] {
      var b := blocks[0].Expanded();
      assert s[i..][..|b|] == b && s[i..][|b|..] == Expanded(blocks[1..], tail);
      SliceAt(s, b, i);
      assert s[i..][..|b|] == s[i..i + |b|] && s[i..][|b|..] == s[i + |b|..];
      ExpandedIsStored(s, i + |b|, blocks[1..], tail);
    }
  }

  lemma {:induction false} StoredCollapses(isLabel: Pattern, s: string, i: nat, blocks: seq<Block>, tail: string)
    requires Bracketing(isLabel) && Stored(s, i, blocks, tail) && i <= |s|
    requires forall k :: 0 <= k < |blocks| ==> blocks[k].WellFormed(isLabel)
    requires forall j :: 0 <= j ==> !At(tail, BEGIN, j)
    ensures Collapsed(isLabel, s, i) == s[..i] + Shown(blocks, tail)
    decreases |blocks|
  {
    if blocks == [] {
      NoMarkerLeft(isLabel, s, i, tail);
    } else {
      var b, more := blocks[0], blocks[1..];
      var cut, end := i + |b.Shown()|, i + |b.Expanded()|;
      var t := s[..cut] + s[end..];
      assert Stored(t, cut, more, tail) && t[..cut] == s[..i] + b.Shown() by {
        CutKeeps(s, i, b, t, cut, end, more, tail);
      }
      CollapsesOne(isLabel, s, i, b, cut, end, t);
      StoredCollapses(isLabel, t, cut, more, tail);
      Regroup(s[..i], b.Shown(), Shown(more, tail));
    }
  }

  /** After the cut the kept label lies before the blocks still to come. */
  lemma CutKeeps(s: string, i: nat, b: Block, t: string, cut: nat, end: nat, more: seq<Block>, tail: string)
    requires At(s, b.Expanded(), i) && Stored(s, end, more, tail)
    requires cut == i + |b.Shown()| <= end == i + |b.Expanded()| && t == s[..cut] + s[end..]
    ensures Stored(t, cut, more, tail) && t[..cut] == s[..i] + b.Shown()
  {
    Front(s, i, b);
    SliceAt(s, b.Shown(), i);
    assert t[cut..] == s[end..];
    StoredTail(s, end, t, cut, more, tail);
  }

  lemma AtTail(s: string, sub: string, i: nat, j: nat)
    requires i <= j && i <= |s|
    ensures At(s, sub, j) <==> At(s[i..], sub, j - i)
  {
  }

  lemma NoMarkerLeft(isLabel: Pattern, s: string, i: nat, tail: string)
    requires i <= |s| && s[i..] == tail
    requires forall j :: 0 <= j ==> !At(tail, BEGIN, j)
    ensures Collapsed(isLabel, s, i) == s[..i] + tail
  {
    forall j | i <= j ensures !At(s, BEGIN, j) {
      AtTail(s, BEGIN, i, j);
    }
  }

  lemma Regroup(x: string, y: string, z: string)
    ensures x + (y + z) == x + y + z
  {
  }

  /** Text stored with its pasted blocks expanded is shown with their labels alone. */
  lemma ExpandedCollapsesBack(blocks: seq<Block>, tail: string)
    requires forall k :: 0 <= k < |blocks| ==> blocks[k].WellFormed(IsLabel)
    requires forall j :: 0 <= j ==> !At(tail, BEGIN, j)
    ensures Collapsed(IsLabel, Expanded(blocks, tail), 0) == Shown(blocks, tail)
  {
    LabelsAreBracketed();
    ExpandedIsStored(Expanded(blocks, tail), 0, blocks, tail);
    StoredCollapses(IsLabel, Expanded(blocks, tail), 0, blocks, tail);
  }

  /** What is stored of a block, and what is shown. */
  lemma BlockIsSpelled(b: Block)
    ensures b.Expanded()
         == b.text + b.tag + b.gap + "--- Begin " + b.tag + " ---" + b.body + "--- End " + b.tag + " ---"
    ensures b.Shown() == b.text + b.tag
  {
    var front := b.text + b.tag + b.gap + "--- Begin " + b.tag + " ---";
    assert front + (b.body + ("--- End " + b.tag + " ---")) == front + b.body + "--- End " + b.tag + " ---";
  }
}
