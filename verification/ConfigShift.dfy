/** Parsing a configuration with the managed include before it: the same blocks, further down. */
module ConfigShift {
  import opened Wrappers
  import opened Text
  import opened ConfigTokens
  import opened ConfigParse
  import opened ConfigInstall

  /** The lines of the managed include, and the empty line after it. */
  const SHIFT: nat := 4

  function Up(n: nat): nat {
    if n == 0 then 0 else n + SHIFT
  }

  function UpBlock(b: Block): Block {
    b.(line := Up(b.line), endLine := Up(b.endLine))
  }

  function UpBlocks(bs: seq<Block>): seq<Block> {
    seq(|bs|, i requires 0 <= i < |bs| => UpBlock(bs[i]))
  }

  function UpProblems(ps: seq<Problem>): seq<Problem> {
    seq(|ps|, i requires 0 <= i < |ps| => ps[i].(line := Up(ps[i].line)))
  }

  function UpCurrent(b: Option<Block>): Option<Block> {
    match b
    case None => None
    case Some(b) => Some(UpBlock(b))
  }

  function UpParser(p: Parser): Parser {
    Parser(UpBlocks(p.hosts), UpCurrent(p.current), p.aliases, p.fields, Up(p.last), p.managed, UpProblems(p.problems))
  }

  lemma UpFail(p: Parser, line: nat, kind: Kind)
    requires line > 0
    ensures Fail(UpParser(p), line + SHIFT, kind) == UpParser(Fail(p, line, kind))
  {
    assert UpProblems(p.problems + [Problem(line, kind)]) == UpProblems(p.problems) + [Problem(line + SHIFT, kind)];
  }

  lemma UpClose(p: Parser)
    ensures Close(UpParser(p)) == UpParser(Close(p))
  {
    if p.current.Some? {
      var b := p.current.value.(endLine := p.last);
      assert UpBlocks(p.hosts + [b]) == UpBlocks(p.hosts) + [UpBlock(b)];
    }
  }

  lemma UpOpen(p: Parser, args: seq<string>, line: nat)
    requires line > 0
    ensures OpenBlock(UpParser(p), args, line + SHIFT) == UpParser(OpenBlock(p, args, line))
  {
    UpClose(p);
    var q := Close(p).(fields := {});
    UpFail(q, line, BadPattern);
    UpFail(q, line, DuplicateHost);
  }

  lemma UpSet(p: Parser, b: Block, word: string, args: seq<string>, line: nat)
    requires line > 0
    ensures SetField(UpParser(p), UpBlock(b), word, args, line + SHIFT) == UpParser(SetField(p, b, word, args, line))
  {
    UpFail(p, line, Arity);
    UpFail(p, line, PercentToken);
    UpFail(p, line, BadPort);
    UpFail(p, line, BadJump);
  }

  lemma UpField(p: Parser, word: string, args: seq<string>, line: nat)
    requires line > 0
    ensures Field(UpParser(p), word, args, line + SHIFT) == UpParser(Field(p, word, args, line))
  {
    UpFail(p, line, OutsideHost);
    if p.current.Some? {
      var q := p.(last := line);
      UpFail(q, line, SetTwice);
      UpSet(if word == "identityfile" then q else q.(fields := q.fields + {word}), p.current.value, word, args, line);
    }
  }

  lemma UpDirective(p: Parser, word: string, args: seq<string>, line: nat)
    requires line > 0
    ensures DirectiveLine(UpParser(p), word, args, line + SHIFT) == UpParser(DirectiveLine(p, word, args, line))
  {
    UpOpen(p, args, line);
    UpFail(p, line, Runs);
    UpFail(p, line, Certificate);
    UpFail(p, line, IncludeLine);
    UpFail(p, line, Unsupported);
    UpField(p, word, args, line);
  }

  lemma UpRead(p: Parser, raw: string, line: nat)
    requires line > 0
    ensures Read(UpParser(p), raw, line + SHIFT) == UpParser(Read(p, raw, line))
  {
    UpFail(p, line, MalformedLine);
    var d := SplitDirective(raw);
    if d.Directive? { UpDirective(p, ToLower(d.keyword), d.args, line); }
  }

  // ---------------------------------------------------------------- the managed lines

  function Head(path: string): seq<string> {
    [MARKER_BEGIN, "Include " + path, MARKER_END, ""]
  }

  lemma MarkerTrims(x: string)
    requires x != "" && !IsSpace(x[|x| - 1])
    ensures TrimSpace("# " + x) == "# " + x
  {
    TrimNothing("# " + x);
  }

  lemma {:induction false} TrimRightFirst(s: string)
    requires s != "" && !IsSpace(s[0])
    ensures TrimRight(s) != "" && TrimRight(s)[0] == s[0]
  {
    if IsSpace(s[|s| - 1]) { TrimRightFirst(s[..|s| - 1]); }
  }

  lemma IncludeNoMarker(path: string, x: string)
    ensures TrimSpace("Include " + path) != "# " + x
  {
    TrimRightFirst("Include " + path);
  }

  lemma MarkersEnd()
    ensures BEGIN != "" && !IsSpace(BEGIN[|BEGIN| - 1]) && END != "" && !IsSpace(END[|END| - 1])
  {
  }

  /** The managed lines leave nothing behind. */
  lemma HeadRead(path: string)
    ensures ReadAll(Head(path)) == FRESH
  {
    MarkerFacts();
    MarkersEnd();
    MarkerTrims(BEGIN);
    MarkerTrims(END);
    IncludeNoMarker(path, BEGIN);
    IncludeNoMarker(path, END);
    var h := Head(path);
    var one := FRESH.(managed := true);
    assert h[..3][..2][..1][..0] == [] && h[..3][..2] == h[..2] && h[..2][..1] == h[..1] && h[..1][..0] == h[..0];
    assert ReadAll(h[..1]) == one;
    assert ReadAll(h[..2]) == one;
    assert ReadAll(h[..3]) == FRESH;
    assert SplitDirective("") == Blank;
  }

  lemma {:induction false} UpReadBelow(head: seq<string>, lines: seq<string>)
    requires |head| == SHIFT && ReadAll(head) == FRESH
    ensures ReadAll(head + lines) == UpParser(ReadAll(lines))
  {
    if lines == [] {
      assert head + [] == head;
      assert UpParser(FRESH) == FRESH;
    } else {
      var front, raw := lines[..|lines| - 1], lines[|lines| - 1];
      UpReadBelow(head, front);
      UpRead(ReadAll(front), raw, |lines|);
      ReadLast(head + lines, head + front, raw);
      ReadLast(lines, front, raw);
    }
  }

  lemma ReadLast(lines: seq<string>, front: seq<string>, raw: string)
    requires lines == front + [raw]
    ensures ReadAll(lines) == Read(ReadAll(front), raw, |lines|)
  {
    assert lines[..|lines| - 1] == front;
  }

  lemma UpReadAll(path: string, lines: seq<string>)
    ensures ReadAll(Head(path) + lines) == UpParser(ReadAll(lines))
  {
    HeadRead(path);
    UpReadBelow(Head(path), lines);
  }
}
