/**
 Collapsing pasted text that older transcripts stored expanded (desktop/app.go).  A
 label such as "[Pasted text #1 · 3 lines]" followed by a Begin/End block carrying the
 same label is shortened to the label alone.  Strings are sequences of characters.

 The scan works on a text that shrinks under it; it is proved to end, to delete nothing
 but blocks, and to know exactly the labels the shell writes.
 */
module PasteCollapse {
  import opened Wrappers
  import opened Strings

  const BEGIN := "--- Begin "
  const END := "--- End "
  const CLOSE := " ---"

  // ---- Labels ----

  datatype Piece = Text(text: string) | Number

  function Numbered(head: string, unit: string): seq<Piece>
  {
    [Text(head), Number, Text(" · "), Number, Text(unit)]
  }

  /** pastedTextDisplayLabelPattern: the alternatives its groups spell out. */
  const PATTERNS: seq<seq<Piece>> := [
    Numbered("[已粘贴文本 #", " 行]"), Numbered("[已粘贴文本 #", " lines]"),
    Numbered("[已貼上文字 #", " 行]"), Numbered("[已貼上文字 #", " lines]"),
    Numbered("[Pasted text #", " 行]"), Numbered("[Pasted text #", " lines]")]

  predicate IsDigit(c: char)
  {
    '0' <= c <= '9'
  }

  /** How many digits s begins with. */
  function Digits(s: string): (n: nat)
    ensures n <= |s| && forall k :: 0 <= k < n ==> IsDigit(s[k])
  {
    if s == "" || !IsDigit(s[0]) then 0 else 1 + Digits(s[1..])
  }

  /** No pattern has a digit behind a number, so the longest run of digits is the match. */
  predicate Matches(s: string, pieces: seq<Piece>)
    decreases |pieces|
  {
    if pieces == [] then s == ""
    else
      match pieces[0]
      case Text(text) => At(s, text, 0) && Matches(s[|text|..], pieces[1..])
      case Number => Digits(s) > 0 && Matches(s[Digits(s)..], pieces[1..])
  }

  predicate MatchesAny(s: string, patterns: seq<seq<Piece>>)
  {
    patterns != [] && (Matches(s, patterns[0]) || MatchesAny(s, patterns[1..]))
  }

  predicate IsLabel(s: string)
  {
    MatchesAny(s, PATTERNS)
  }

  function EndMarker(tag: string): string
  {
    END + tag + CLOSE
  }

  // ---- The rewriter ----

  type Pattern = string -> bool

  /** What one look at the text finds: nothing more to do, a marker to skip, or a block to
      cut out between the end of its label's copy and the end of its End marker. */
  datatype Found = Nothing | Skip(beginEnd: nat) | Cut(cut: nat, end: nat, tag: string, begin: nat, body: nat)

  /** The first Begin marker at or after `scan`. */
  function Look(isLabel: Pattern, content: string, scan: nat): (r: Found)
    requires scan <= |content|
    ensures r.Skip? ==> scan < r.beginEnd <= |content|
    ensures r.Cut? ==> scan < r.end <= |content| && r.cut <= r.end
  {
    match Index(content, BEGIN, scan)
    case None => Nothing
    case Some(begin) => LookClosed(isLabel, content, begin, begin + |BEGIN|)
  }

  /** The Begin marker whose label, if anything closes it, starts at `labelStart`. */
  function LookClosed(isLabel: Pattern, content: string, begin: nat, labelStart: nat): (r: Found)
    requires labelStart == begin + |BEGIN| <= |content| && At(content, BEGIN, begin)
    ensures r.Skip? ==> begin < r.beginEnd <= |content|
    ensures r.Cut? ==> begin < r.end <= |content| && r.cut <= r.end
  {
    match Index(content, CLOSE, labelStart)
    case None => Nothing
    case Some(labelEnd) => LookLabelled(isLabel, content, begin, labelStart, labelEnd)
  }

  /** The Begin marker whose label lies from `labelStart` to `labelEnd`. */
  function LookLabelled(isLabel: Pattern, content: string, begin: nat, labelStart: nat, labelEnd: nat): (r: Found)
    requires labelStart == begin + |BEGIN| <= labelEnd && At(content, BEGIN, begin) && At(content, CLOSE, labelEnd)
    ensures r == Skip(labelEnd + |CLOSE|) || (r.Cut? && r.cut <= r.end && labelEnd < r.end <= |content|)
  {
    var tag := content[labelStart..labelEnd];
    if isLabel(tag) then LookAround(content, tag, begin, labelEnd + |CLOSE|) else Skip(labelEnd + |CLOSE|)
  }

  /** The block whose Begin marker, with a proper label, is given: its End marker and the
      copy of the label it stands behind. */
  function LookAround(content: string, tag: string, begin: nat, beginEnd: nat): (r: Found)
    requires begin < beginEnd <= |content|
    ensures r == Skip(beginEnd) || (r.Cut? && r.tag == tag && r.begin == begin && Around(content, r, beginEnd))
  {
    match Index(content, EndMarker(tag), beginEnd)
    case None => Skip(beginEnd)
    case Some(body) =>
      match LastIndex(content, tag, begin)
      case None => Skip(beginEnd)
      case Some(labelCopy) =>
        if !Blank(content[labelCopy + |tag|..begin]) then Skip(beginEnd)
        else Cut(labelCopy + |tag|, body + |EndMarker(tag)|, tag, begin, body)
  }

  /** Nothing but space lies between a copy of the label, ending at `cut`, and the Begin
      marker; the first matching End marker after the Begin marker ends at `end`. */
  ghost predicate Around(s: string, c: Found, beginEnd: nat)
    requires c.Cut?
  {
    && |c.tag| <= c.cut <= c.begin < beginEnd <= c.body && c.end == c.body + |EndMarker(c.tag)| <= |s|
    && At(s, c.tag, c.cut - |c.tag|) && Blank(s[c.cut..c.begin])
    && At(s, EndMarker(c.tag), c.body) && forall j :: beginEnd <= j < c.body ==> !At(s, EndMarker(c.tag), j)
  }

  /** A properly labelled Begin marker with what belongs around it. */
  ghost predicate IsBlock(isLabel: Pattern, s: string, c: Found)
    requires c.Cut?
  {
    && isLabel(c.tag) && At(s, BEGIN, c.begin) && At(s, c.tag, c.begin + |BEGIN|)
       && At(s, CLOSE, c.begin + |BEGIN| + |c.tag|)
    && Around(s, c, c.begin + |BEGIN| + |c.tag| + |CLOSE|)
  }

  /** The text once the scan is over. */
  function Collapsed(isLabel: Pattern, content: string, scan: nat): string
    requires scan <= |content|
    decreases |content| - scan
  {
    match Look(isLabel, content, scan)
    case Nothing => content
    case Skip(beginEnd) => Collapsed(isLabel, content, beginEnd)
    case Cut(cut, end, _, _, _) => Collapsed(isLabel, content[..cut] + content[end..], cut)
  }

  /** collapseLegacyExpandedPasteDisplay.  The scan may move left and the content change
      under it; what lies ahead of the scan shrinks all the same. */
  method Collapse(original: string) returns (shown: string)
    ensures shown == TrimSpace(Collapsed(IsLabel, original, 0))
  {
    var content, scan := original, 0;
    while scan < |content|
      invariant 0 <= scan <= |content|
      invariant Collapsed(IsLabel, content, scan) == Collapsed(IsLabel, original, 0)
      decreases |content| - scan
    {
      match Look(IsLabel, content, scan)
      case Nothing =>
        break;
      case Skip(beginEnd) =>
        scan := beginEnd;
      case Cut(cut, end, _, _, _) =>
        content, scan := content[..cut] + content[end..], cut;
    }
    shown := TrimSpace(content);
  }

  // ---- Only blocks are deleted ----

  lemma LabelledIsBlock(isLabel: Pattern, content: string, begin: nat, labelStart: nat, labelEnd: nat)
    requires labelStart == begin + |BEGIN| <= labelEnd && At(content, BEGIN, begin) && At(content, CLOSE, labelEnd)
    requires LookLabelled(isLabel, content, begin, labelStart, labelEnd).Cut?
    ensures IsBlock(isLabel, content, LookLabelled(isLabel, content, begin, labelStart, labelEnd))
  {
    SliceAt(content, content[labelStart..labelEnd], labelStart);
  }

  lemma CutIsBlock(isLabel: Pattern, content: string, scan: nat)
    requires scan <= |content| && Look(isLabel, content, scan).Cut?
    ensures IsBlock(isLabel, content, Look(isLabel, content, scan))
  {
    var begin := Index(content, BEGIN, scan).value;
    var labelStart := begin + |BEGIN|;
    LabelledIsBlock(isLabel, content, begin, labelStart, Index(content, CLOSE, labelStart).value);
  }

  /** `s` becomes `t` by deleting blocks one after another. */
  ghost predicate Reaches(isLabel: Pattern, s: string, t: string)
    decreases |s|
  {
    s == t || exists c: Found {:trigger IsBlock(isLabel, s, c)} ::
                c.Cut? && IsBlock(isLabel, s, c) && Reaches(isLabel, s[..c.cut] + s[c.end..], t)
  }

  /** The rewriter deletes nothing but blocks, each behind a copy of its label. */
  lemma {:induction false} OnlyBlocksAreDeleted(isLabel: Pattern, content: string, scan: nat)
    requires scan <= |content|
    ensures Reaches(isLabel, content, Collapsed(isLabel, content, scan))
    decreases |content| - scan
  {
    var found := Look(isLabel, content, scan);
    match found
    case Nothing =>
    case Skip(beginEnd) =>
      OnlyBlocksAreDeleted(isLabel, content, beginEnd);
    case Cut(cut, end, _, _, _) =>
      CutIsBlock(isLabel, content, scan);
      OnlyBlocksAreDeleted(isLabel, content[..cut] + content[end..], cut);
  }

  // ---- What labels look like ----

  ghost predicate Plain(s: string)
  {
    forall k :: 0 <= k < |s| ==> s[k] != '-'
  }

  /** A pattern without dashes whose last piece closes the bracket. */
  ghost predicate Bracketed(pieces: seq<Piece>)
  {
    && pieces != []
    && (forall k :: 0 <= k < |pieces| && pieces[k].Text? ==> Plain(pieces[k].text))
    && (var last := pieces[|pieces| - 1]; last.Text? && |last.text| > 0 && last.text[|last.text| - 1] == ']')
  }

  lemma FirstIsPlain(s: string, piece: Piece, n: nat)
    requires match piece case Text(text) => n == |text| && At(s, text, 0) && Plain(text) case Number => n == Digits(s)
    ensures n <= |s| && Plain(s[..n]) && (piece.Text? ==> s[..n] == piece.text)
  {
    if piece.Text? {
      SliceAt(s, piece.text, 0);
    }
  }

  lemma {:induction false} MatchShape(s: string, pieces: seq<Piece>)
    requires Matches(s, pieces) && Bracketed(pieces)
    ensures Plain(s) && |s| > 0 && s[|s| - 1] == ']'
    decreases |pieces|
  {
    var n := match pieces[0] case Text(text) => |text| case Number => Digits(s);
    FirstIsPlain(s, pieces[0], n);
    assert s == s[..n] + s[n..];
    if |pieces| > 1 {
      assert forall k :: 0 <= k < |pieces[1..]| ==> pieces[1..][k] == pieces[k + 1];
      MatchShape(s[n..], pieces[1..]);
    }
  }

  lemma {:induction false} AnyShape(s: string, patterns: seq<seq<Piece>>)
    requires MatchesAny(s, patterns) && forall k :: 0 <= k < |patterns| ==> Bracketed(patterns[k])
    ensures Plain(s) && |s| > 0 && s[|s| - 1] == ']'
    decreases |patterns|
  {
    if Matches(s, patterns[0]) {
      MatchShape(s, patterns[0]);
    } else {
      AnyShape(s, patterns[1..]);
    }
  }

  lemma PatternsAreBracketed()
    ensures forall k :: 0 <= k < |PATTERNS| ==> Bracketed(PATTERNS[k])
  {
    NumberedIsBracketed("[已粘贴文本 #");
    NumberedIsBracketed("[已貼上文字 #");
    NumberedIsBracketed("[Pasted text #");
  }

  lemma NumberedIsBracketed(head: string)
    requires Plain(head)
    ensures Bracketed(Numbered(head, " 行]")) && Bracketed(Numbered(head, " lines]"))
  {
  }

  /** What the rewriter relies on: labels have no dash and end in a bracket. */
  ghost predicate Bracketing(isLabel: Pattern)
  {
    forall tag :: isLabel(tag) ==> Plain(tag) && |tag| > 0 && tag[|tag| - 1] == ']'
  }

  lemma LabelsAreBracketed()
    ensures Bracketing(IsLabel)
  {
    forall tag | IsLabel(tag) ensures Plain(tag) && |tag| > 0 && tag[|tag| - 1] == ']' {
      PatternsAreBracketed();
      AnyShape(tag, PATTERNS);
    }
  }

  /** Some digits. */
  predicate Numeral(s: string)
  {
    s != "" && forall k :: 0 <= k < |s| ==> '0' <= s[k] <= '9'
  }

  const HEADS: set<string> := {"[已粘贴文本 #", "[已貼上文字 #", "[Pasted text #"}
  const UNITS: set<string> := {" 行]", " lines]"}

  /** A label in one of three languages: a number, and how many lines. */
  ghost predicate Labels(s: string, head: string, number: string, lines: string, unit: string)
  {
    && head in HEADS && unit in UNITS && Numeral(number) && Numeral(lines)
    && s == head + (number + (" · " + (lines + unit)))
  }

  lemma {:induction false} DigitsOf(number: string, rest: string)
    requires Numeral(number) && (rest == "" || !IsDigit(rest[0]))
    ensures Digits(number + rest) == |number|
  {
    var s := number + rest;
    assert s[1..] == number[1..] + rest;
    if |number| > 1 {
      DigitsOf(number[1..], rest);
    } else {
      assert s[1..] == rest;
    }
  }

  /** A text in front, and what remains. */
  lemma InFront(s: string, text: string)
    ensures At(s, text, 0) <==> |text| <= |s| && s == text + s[|text|..]
  {
    if At(s, text, 0) {
      SliceAt(s, text, 0);
      assert s == s[..|text|] + s[|text|..];
    }
  }

  lemma TextMatches(s: string, text: string, pieces: seq<Piece>, rest: string)
    requires s == text + rest
    ensures Matches(s, [Text(text)] + pieces) <==> Matches(rest, pieces)
  {
    assert s[|text|..] == rest && ([Text(text)] + pieces)[1..] == pieces;
  }

  lemma NumberMatches(s: string, pieces: seq<Piece>, number: string, rest: string)
    requires s == number + rest && Numeral(number) && (rest == "" || !IsDigit(rest[0]))
    ensures Matches(s, [Number] + pieces) <==> Matches(rest, pieces)
  {
    DigitsOf(number, rest);
    assert s[|number|..] == rest && ([Number] + pieces)[1..] == pieces;
  }

  /** What a match begins with. */
  lemma MatchedText(s: string, text: string, pieces: seq<Piece>) returns (rest: string)
    requires Matches(s, [Text(text)] + pieces)
    ensures s == text + rest && Matches(rest, pieces)
  {
    InFront(s, text);
    rest := s[|text|..];
    assert ([Text(text)] + pieces)[1..] == pieces;
  }

  lemma MatchedNumber(s: string, pieces: seq<Piece>) returns (number: string, rest: string)
    requires Matches(s, [Number] + pieces)
    ensures s == number + rest && Numeral(number) && Matches(rest, pieces)
  {
    number, rest := s[..Digits(s)], s[Digits(s)..];
    assert ([Number] + pieces)[1..] == pieces;
  }

  lemma NumberedIs(head: string, unit: string)
    ensures Numbered(head, unit) == [Text(head)] + ([Number] + ([Text(" · ")] + ([Number] + ([Text(unit)] + []))))
  {
  }

  lemma NumbersOf(s: string, head: string, unit: string) returns (number: string, lines: string)
    requires Matches(s, Numbered(head, unit))
    ensures Numeral(number) && Numeral(lines) && s == head + (number + (" · " + (lines + unit)))
  {
    NumberedIs(head, unit);
    var a := MatchedText(s, head, [Number] + ([Text(" · ")] + ([Number] + ([Text(unit)] + []))));
    var b, c, d, none;
    number, b := MatchedNumber(a, [Text(" · ")] + ([Number] + ([Text(unit)] + [])));
    c := MatchedText(b, " · ", [Number] + ([Text(unit)] + []));
    lines, d := MatchedNumber(c, [Text(unit)] + []);
    none := MatchedText(d, unit, []);
    assert none == "" && d == unit;
  }

  lemma NumbersMatch(s: string, head: string, number: string, lines: string, unit: string)
    requires unit != "" && !IsDigit(unit[0]) && Numeral(number) && Numeral(lines)
    requires s == head + (number + (" · " + (lines + unit)))
    ensures Matches(s, Numbered(head, unit))
  {
    NumberedIs(head, unit);
    assert unit == unit + "" && Matches("", []);
    TextMatches(unit, unit, [], "");
    NumberMatches(lines + unit, [Text(unit)] + [], lines, unit);
    TextMatches(" · " + (lines + unit), " · ", [Number] + ([Text(unit)] + []), lines + unit);
    var b := " · " + (lines + unit);
    NumberMatches(number + b, [Text(" · ")] + ([Number] + ([Text(unit)] + [])), number, b);
    TextMatches(s, head, [Number] + ([Text(" · ")] + ([Number] + ([Text(unit)] + []))), number + b);
  }

  lemma {:induction false} MatchesSome(s: string, patterns: seq<seq<Piece>>)
    ensures MatchesAny(s, patterns) <==> exists k :: 0 <= k < |patterns| && Matches(s, patterns[k])
    decreases |patterns|
  {
    if patterns != [] {
      MatchesSome(s, patterns[1..]);
      if MatchesAny(s, patterns[1..]) {
        var k :| 0 <= k < |patterns[1..]| && Matches(s, patterns[1..][k]);
        assert Matches(s, patterns[k + 1]);
      }
      if k :| 0 <= k < |patterns| && Matches(s, patterns[k]) {
        assert k > 0 ==> Matches(s, patterns[1..][k - 1]);
      }
    }
  }

  lemma PatternAt(k: nat) returns (head: string, unit: string)
    requires k < |PATTERNS|
    ensures head in HEADS && unit in UNITS && PATTERNS[k] == Numbered(head, unit)
  {
    head := if k < 2 then "[已粘贴文本 #" else if k < 4 then "[已貼上文字 #" else "[Pasted text #";
    unit := if k == 0 || k == 2 || k == 4 then " 行]" else " lines]";
  }

  lemma PatternOf(head: string, unit: string) returns (k: nat)
    requires head in HEADS && unit in UNITS
    ensures k < |PATTERNS| && PATTERNS[k] == Numbered(head, unit)
  {
    var i := if head == "[已粘贴文本 #" then 0 else if head == "[已貼上文字 #" then 2 else 4;
    k := if unit == " 行]" then i else i + 1;
  }

  lemma LabelMatches(s: string, patterns: seq<seq<Piece>>, head: string, number: string, lines: string, unit: string,
                     k: nat)
    requires Labels(s, head, number, lines, unit) && k < |patterns| && patterns[k] == Numbered(head, unit)
    ensures MatchesAny(s, patterns)
  {
    NumbersMatch(s, head, number, lines, unit);
    MatchesSome(s, patterns);
  }

  lemma MatchIsLabel(s: string, head: string, unit: string)
    requires head in HEADS && unit in UNITS && Matches(s, Numbered(head, unit))
    ensures exists number, lines :: Labels(s, head, number, lines, unit)
  {
    var number, lines := NumbersOf(s, head, unit);
    assert Labels(s, head, number, lines, unit);
  }

  /** Exactly the texts that are labels. */
  lemma LabelsExactly(s: string)
    ensures IsLabel(s) <==> exists head, number, lines, unit :: Labels(s, head, number, lines, unit)
  {
    if IsLabel(s) {
      MatchesSome(s, PATTERNS);
      var k :| 0 <= k < |PATTERNS| && Matches(s, PATTERNS[k]);
      var head, unit := PatternAt(k);
      MatchIsLabel(s, head, unit);
    }
    if head, number, lines, unit :| Labels(s, head, number, lines, unit) {
      var k := PatternOf(head, unit);
      LabelMatches(s, PATTERNS, head, number, lines, unit, k);
    }
  }
}
