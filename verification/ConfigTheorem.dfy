/** The whole trip of a user's configuration: install, import and comment out, uninstall, reactivate. */
module ConfigTheorem {
  import opened Wrappers
  import opened Text
  import opened ConfigLines
  import opened ConfigTokens
  import opened ConfigComment
  import opened ConfigNote
  import opened ConfigParse
  import opened ConfigBlocks
  import opened ConfigInstall
  import opened ConfigShift
  import opened ConfigRoundTrip

  /** A configuration sshstate has not touched. */
  predicate Untouched(text: string) {
    !Within(MARKER_BEGIN, text) && !Within(MARKER_END, text) && !Within(SUPERSEDED, text)
  }

  lemma UntouchedLines(text: string)
    requires Untouched(text)
    ensures NoMarkerLines(Split(text)) && forall k :: 0 <= k < |Split(text)| ==> !IsNote(OURS, Split(text)[k])
  {
    forall k | 0 <= k < |Split(text)|
      ensures TrimSpace(Split(text)[k]) != MARKER_BEGIN && TrimSpace(Split(text)[k]) != MARKER_END &&
              !IsNote(OURS, Split(text)[k])
    {
      NotALine(MARKER_BEGIN, text, k);
      NotALine(MARKER_END, text, k);
      NotALine(SUPERSEDED, text, k);
    }
  }

  // ---------------------------------------------------------------- installing

  lemma HeadOneLine(path: string)
    requires OneLine(path)
    ensures AllOneLine(Head(path))
  {
    MarkerFacts();
    BothLack("Include ", path, '\n');
  }

  lemma SplitBelow(path: string, lines: seq<string>)
    requires OneLine(path) && lines != [] && AllOneLine(lines)
    ensures Split(Managed(path) + ("\n" + Join(lines))) == Head(path) + lines
  {
    HeadOneLine(path);
    JoinHead(path, lines);
    SplitJoin(Head(path) + lines);
  }

  lemma JoinHeadAlone(path: string)
    ensures Join(Head(path)) == Managed(path)
  {
    JoinThree(MARKER_BEGIN, "Include " + path, MARKER_END);
  }

  lemma JoinThree(a: string, b: string, c: string)
    ensures Join([a, b, c, ""]) == a + "\n" + (b + "\n" + (c + "\n"))
  {
    var all := [a, b, c, ""];
    assert all[1..] == [b, c, ""] && [b, c, ""][1..] == [c, ""] && [c, ""][1..] == [""];
    assert Join([""]) == "";
    assert Join([c, ""]) == c + "\n" + "" == c + "\n";
    assert Join([b, c, ""]) == b + "\n" + (c + "\n");
  }

  /** The untouched configuration gets the include put before it. */
  lemma InstallIs(path: string, text: string)
    requires Untouched(text)
    ensures Install(path, text) == if text == "" then Managed(path) else Managed(path) + ("\n" + text)
  {
    SearchNone(text, MARKER_BEGIN);
  }

  lemma InstalledLines(path: string, text: string)
    requires Untouched(text) && OneLine(path)
    ensures Split(Install(path, text)) == if text == "" then Head(path) else Head(path) + Split(text)
  {
    InstallIs(path, text);
    if text == "" {
      HeadOneLine(path);
      JoinHeadAlone(path);
      SplitJoin(Head(path));
    } else {
      JoinSplit(text);
      SplitBelow(path, Split(text));
    }
  }

  function UpImport(i: Import): Import {
    match i
    case Hosts(blocks) => Hosts(UpBlocks(blocks))
    case Problems(problems) => Problems(UpProblems(problems))
  }

  lemma EmptyLine()
    ensures ReadAll([""]) == FRESH
  {
    MarkerStart(BEGIN);
    MarkerStart(END);
    assert [""][..0] == [] && SplitDirective("") == Blank;
  }

  lemma MarkerStart(x: string)
    ensures TrimSpace("") != "# " + x
  {
  }

  lemma NamedUp(blocks: seq<Block>)
    ensures Named(UpBlocks(blocks)) == UpBlocks(Named(blocks))
  {
  }

  lemma InstalledState(path: string, text: string)
    requires Untouched(text) && OneLine(path)
    ensures ReadAll(Split(Install(path, text))) == UpParser(ReadAll(Split(text)))
  {
    InstalledLines(path, text);
    if text == "" {
      EmptyLine();
      HeadRead(path);
      assert UpParser(FRESH) == FRESH;
    } else {
      UpReadAll(path, Split(text));
    }
  }

  /** Parsing the installed configuration gives the blocks and problems of the user's own, four
      lines further down. */
  lemma ParseInstalled(path: string, text: string)
    requires Untouched(text) && OneLine(path)
    ensures ParseImport(Install(path, text)) == UpImport(ParseImport(text))
  {
    var p := ReadAll(Split(text));
    InstalledState(path, text);
    UpClose(p);
    NamedUp(Close(p).hosts);
    assert |UpProblems(Close(p).problems)| == |Close(p).problems|;
  }

  // ---------------------------------------------------------------- commenting out

  /** Blocks of the user's configuration, each with a directive. */
  ghost predicate Chosen(text: string, blocks: seq<Block>) {
    && ParseImport(text).Hosts?
    && forall b :: b in blocks ==> b in ParseImport(text).blocks && HasDirective(Split(text), b.line)
  }

  lemma ChosenReversible(text: string, blocks: seq<Block>)
    requires Untouched(text) && Chosen(text, blocks)
    ensures Reversible(OURS, Split(text), LinesOf(blocks, |Split(text)|))
    ensures forall b :: b in blocks ==> SpanFits(b, |Split(text)|)
  {
    var lines := Split(text);
    var commented := LinesOf(blocks, |lines|);
    OursOk();
    UntouchedLines(text);
    forall b | b in blocks ensures SpanOk(lines, b, b.endLine) && b.line <= b.endLine {
      BlocksSpan(text, b);
      EndsBeforeIff(text, b);
    }
    forall k | k in commented && 0 < k <= |lines| ensures BlockLine(OURS.words, lines[k - 1]) {
      var b :| b in blocks && b.line <= k <= b.endLine;
      assert SpanOk(lines, b, b.endLine);
    }
  }

  /** Of the blocks of a configuration that parses, commenting out refuses exactly a choice with a
      block that has no directive before the next Host line. */
  lemma CommentRefusedIff(text: string, blocks: seq<Block>)
    requires Untouched(text) && ParseImport(text).Hosts? && forall b :: b in blocks ==> b in ParseImport(text).blocks
    ensures CommentOutBlocks(text, blocks) == None <==> exists b :: b in blocks && !HasDirective(Split(text), b.line)
  {
    UntouchedLines(text);
    forall b | b in blocks ensures SpanFits(b, |Split(text)|) <==> HasDirective(Split(text), b.line) {
      BlocksSpan(text, b);
      EndsBeforeIff(text, b);
    }
  }

  lemma ChosenBelow(blocks: seq<Block>, count: nat, commented: set<nat>, lower: set<nat>)
    requires forall b :: b in blocks ==> SpanFits(b, count)
    requires commented == LinesOf(blocks, count) && lower == LinesOf(UpBlocks(blocks), count + SHIFT)
    ensures forall n :: 0 < n <= count ==> (n in commented <==> n + SHIFT in lower)
    ensures forall n :: n in lower ==> n > SHIFT
    ensures 0 !in commented
  {
    forall n: nat | 0 < n <= count ensures n in commented <==> n + SHIFT in lower { SpannedUp(blocks, n); }
    forall n | n in lower ensures n > SHIFT { SpannedLow(blocks, n); }
  }

  lemma FitsBelow(blocks: seq<Block>, count: nat)
    requires forall b :: b in blocks ==> SpanFits(b, count)
    ensures forall b :: b in UpBlocks(blocks) ==> SpanFits(b, count + SHIFT)
  {
    var ups := UpBlocks(blocks);
    forall b | b in ups ensures SpanFits(b, count + SHIFT) {
      var i :| 0 <= i < |ups| && ups[i] == b;
      assert blocks[i] in blocks;
    }
  }

  lemma CommentedLines(s: Style, head: seq<string>, lines: seq<string>, blocks: seq<Block>)
    requires |head| == SHIFT && forall b :: b in blocks ==> SpanFits(b, |lines|)
    ensures CommentOut(s, head + lines, LinesOf(UpBlocks(blocks), |lines| + SHIFT), |lines| + SHIFT) ==
            head + CommentOut(s, lines, LinesOf(blocks, |lines|), |lines|)
  {
    var commented, lower := LinesOf(blocks, |lines|), LinesOf(UpBlocks(blocks), |lines| + SHIFT);
    ChosenBelow(blocks, |lines|, commented, lower);
    CommentBelow(s, head, lines, commented, lower, |lines|);
  }

  lemma CommentedText(s: Style, path: string, lines: seq<string>, blocks: seq<Block>)
    requires OneLine(s.note) && lines != [] && AllOneLine(lines) && forall b :: b in blocks ==> SpanFits(b, |lines|)
    ensures Join(CommentOut(s, Head(path) + lines, LinesOf(UpBlocks(blocks), |lines| + SHIFT), |lines| + SHIFT)) ==
            Managed(path) + ("\n" + Join(CommentOut(s, lines, LinesOf(blocks, |lines|), |lines|)))
  {
    var out := CommentOut(s, lines, LinesOf(blocks, |lines|), |lines|);
    CommentedOneLine(s, lines, LinesOf(blocks, |lines|), |lines|);
    JoinHead(path, out);
    CommentedLines(s, Head(path), lines, blocks);
  }

  /** Commenting out below the include is commenting out the user's own text. */
  lemma CommentInstalled(path: string, text: string, blocks: seq<Block>)
    requires Untouched(text) && OneLine(path) && Chosen(text, blocks) && blocks != [] && text != ""
    ensures CommentOutBlocks(Install(path, text), UpBlocks(blocks)) ==
            Some(Managed(path) +
                 ("\n" + Join(CommentOut(OURS, Split(text), LinesOf(blocks, |Split(text)|), |Split(text)|))))
  {
    InstalledLines(path, text);
    ChosenReversible(text, blocks);
    FitsBelow(blocks, |Split(text)|);
    NoteOneLine();
    CommentedText(OURS, path, Split(text), blocks);
  }

  // ---------------------------------------------------------------- the trip

  function Trip(path: string, text: string, blocks: seq<Block>): Option<string> {
    match CommentOutBlocks(Install(path, text), blocks)
    case None => None
    case Some(commented) => Some(ReactivateBlocks(Uninstall(commented)))
  }

  /** Nothing to comment out: the include goes in and out. */
  lemma TripEmpty(path: string, text: string)
    requires Untouched(text) && PathOk(path)
    ensures Trip(path, text, []) == Some(text)
  {
    InstallIs(path, text);
    UninstallBack(path, text);
  }

  lemma SomeMember(blocks: seq<Block>)
    ensures blocks == [] || exists b :: b in blocks
  {
    if blocks != [] { assert blocks[0] in blocks; }
  }

  lemma EmptyHasNone(blocks: seq<Block>)
    requires Chosen("", blocks)
    ensures blocks == []
  {
    SomeMember(blocks);
    EmptyLine();
    assert ParseImport("").blocks == [];
  }

  /** For every untouched configuration that parses, and every choice of its blocks with a
      directive: the trip gives back exactly the user's text if and only if the line after each
      commented run does not itself read as a commented line of a block. */
  lemma ConfigComesBack(path: string, text: string, blocks: seq<Block>)
    requires Untouched(text) && PathOk(path) && Chosen(text, blocks)
    ensures Trip(path, text, UpBlocks(blocks)).Some?
    ensures Trip(path, text, UpBlocks(blocks)) == Some(text) <==>
            CleanEnds(OURS, Split(text), LinesOf(blocks, |Split(text)|))
  {
    var lines := Split(text);
    var commented := LinesOf(blocks, |lines|);
    if blocks == [] {
      assert UpBlocks(blocks) == [] && commented == {};
      TripEmpty(path, text);
    } else {
      if text == "" { EmptyHasNone(blocks); }
      CommentInstalled(path, text, blocks);
      UninstallBack(path, Join(CommentOut(OURS, lines, commented, |lines|)));
      ChosenReversible(text, blocks);
      var b := blocks[0];
      assert b in blocks && SpanFits(b, |lines|);
      assert Spanned(blocks, b.line) && b.line in commented;
      ReactivateIff(text, commented, b.line);
    }
  }
}
