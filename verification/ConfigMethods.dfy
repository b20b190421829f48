/** The configuration's reader and editors as the loops they are. */
module ConfigMethods {
  import opened Wrappers
  import opened Text
  import opened ConfigLines
  import opened ConfigTokens
  import opened ConfigComment
  import opened ConfigNote
  import opened ConfigParse
  import opened ConfigRoundTrip

  // ---------------------------------------------------------------- tokens

  lemma CutAt(raw: string, i: nat)
    requires i < |raw|
    ensures raw[..i] + [raw[i]] == raw[..i + 1] && raw[..i] + [raw[i]] + raw[i + 1..] == raw
  {
  }

  lemma ScanTo(t: Scanner, raw: string, i: nat)
    requires i < |raw|
    ensures Scan(t, raw[..i + 1]) == Step(Scan(t, raw[..i]), raw[i])
    ensures Scan(t, raw) == Scan(Scan(t, raw[..i + 1]), raw[i + 1..])
  {
    CutAt(raw, i);
    ScanParts(t, raw[..i], raw[i], raw[i + 1..], raw);
  }

  lemma ScanParts(t: Scanner, a: string, c: char, b: string, raw: string)
    requires raw == a + [c] + b
    ensures Scan(t, a + [c]) == Step(Scan(t, a), c) && Scan(t, raw) == Scan(Scan(t, a + [c]), b)
  {
    ScanLast(t, a, c);
    ScanAppend(t, a + [c], b);
  }

  method TokenizeLine(raw: string) returns (r: Option<seq<string>>)
    ensures r == Tokenize(raw)
  {
    var tokens, cur, quoted, started := [], "", false, false;
    for i := 0 to |raw|
      invariant Scan(START, raw[..i]) == Scanner(tokens, cur, quoted, started, false)
    {
      var c := raw[i];
      ScanTo(START, raw, i);
      if c == '\"' {
        quoted, started := !quoted, true;
      } else if c == '#' && !quoted {
        if started { tokens := tokens + [cur]; }
        ScanDone(Scan(START, raw[..i + 1]), raw[i + 1..]);
        return Some(tokens);
      } else if Separator(c) && !quoted {
        if started { tokens := tokens + [cur]; }
        cur, started := "", false;
      } else {
        cur, started := cur + [c], true;
      }
    }
    assert raw[..|raw|] == raw;
    if quoted { return None; }
    if started { tokens := tokens + [cur]; }
    r := Some(tokens);
  }

  method ReadDirectiveOf(raw: string) returns (d: Directive)
    ensures d == SplitDirective(raw)
  {
    var tokens := TokenizeLine(raw);
    if tokens.None? { return Malformed; }
    if tokens.value == [] { return Blank; }
    var keyword, args := tokens.value[0], tokens.value[1..];
    var eq := Index(keyword, '=');
    if eq.Some? {
      var rest := keyword[eq.value + 1..];
      keyword := keyword[..eq.value];
      if rest != "" { args := [rest] + args; }
    } else if |args| > 0 {
      if args[0] == "=" { args := args[1..]; }
      else if args[0] != "" && args[0][0] == '=' { args := [args[0][1..]] + args[1..]; }
    }
    if keyword == "" { return Malformed; }
    d := Directive(keyword, args);
  }

  // ---------------------------------------------------------------- parsing

  method ParseConfig(text: string) returns (r: Import)
    ensures r == ParseImport(text)
  {
    var lines := Split(text);
    var p := FRESH;
    for n := 0 to |lines|
      invariant p == ReadAll(lines[..n])
    {
      assert lines[..n + 1][..n] == lines[..n];
      p := ParseLine(p, lines[n], n + 1);
    }
    assert lines[..|lines|] == lines;
    p := CloseBlock(p);
    if p.problems != [] { return Problems(p.problems); }
    var hosts := NameHosts(p.hosts);
    r := Hosts(hosts);
  }

  method NameHosts(blocks: seq<Block>) returns (named: seq<Block>)
    ensures named == Named(blocks)
  {
    named := blocks;
    for i := 0 to |blocks|
      invariant |named| == |blocks| && (forall k :: 0 <= k < i ==> named[k] == Named(blocks)[k]) &&
                forall k :: i <= k < |blocks| ==> named[k] == blocks[k]
    {
      if named[i].hostName == "" { named := named[i := named[i].(hostName := named[i].alias)]; }
    }
  }

  method CloseBlock(p: Parser) returns (q: Parser)
    ensures q == Close(p)
  {
    q := p;
    if q.current.Some? {
      var b := q.current.value.(endLine := q.last);
      q := q.(hosts := q.hosts + [b]);
      q := q.(current := None);
    }
  }

  method ParseLine(p: Parser, raw: string, line: nat) returns (q: Parser)
    ensures q == Read(p, raw, line)
  {
    q := p;
    if TrimSpace(raw) == MARKER_BEGIN { q := q.(managed := true); return; }
    if TrimSpace(raw) == MARKER_END { q := q.(managed := false); return; }
    if q.managed { return; }
    var d := ReadDirectiveOf(raw);
    match d
    case Malformed => q := Fail(q, line, MalformedLine);
    case Blank =>
    case Directive(keyword, args) => q := ParseDirective(q, ToLower(keyword), args, line);
  }

  method ParseDirective(p: Parser, word: string, args: seq<string>, line: nat) returns (q: Parser)
    ensures q == DirectiveLine(p, word, args, line)
  {
    q := p;
    if word == "host" {
      q := CloseBlock(q);
      q := q.(fields := {});
      if !Literal(args) { q := Fail(q, line, BadPattern); return; }
      if ToLower(args[0]) in q.aliases { q := Fail(q, line, DuplicateHost); return; }
      q := q.(aliases := q.aliases + {ToLower(args[0])});
      q := q.(current := Some(Block(line, line, args[0], "", "", 0, None, [])));
      return;
    }
    if word in EXECUTABLE { q := Fail(q, line, Runs); return; }
    if word in CERTIFICATE { q := Fail(q, line, Certificate); return; }
    if word == "include" { q := Fail(q, line, IncludeLine); return; }
    if word !in SUPPORTED { q := Fail(q, line, Unsupported); return; }
    if q.current.None? { q := Fail(q, line, OutsideHost); return; }
    q := q.(last := line);
    if word != "identityfile" {
      if word in q.fields { q := Fail(q, line, SetTwice); return; }
      q := q.(fields := q.fields + {word});
    }
    q := SetField(q, q.current.value, word, args, line);
  }

  // ---------------------------------------------------------------- commenting out and back

  /** Marks the lines of the blocks, or refuses a span the file does not have. */
  method MarkLines(blocks: seq<Block>, count: nat) returns (r: Option<set<nat>>)
    ensures r.None? <==> exists b :: b in blocks && !SpanFits(b, count)
    ensures r.Some? ==> r.value == LinesOf(blocks, count)
  {
    var commented: set<nat> := {};
    for i := 0 to |blocks|
      invariant forall k :: 0 <= k < i ==> SpanFits(blocks[k], count)
      invariant forall n :: n in commented <==> exists k :: 0 <= k < i && blocks[k].line <= n <= blocks[k].endLine
    {
      var b := blocks[i];
      if b.line < 1 || b.endLine > count || b.endLine < b.line {
        assert b in blocks && !SpanFits(b, count);
        return None;
      }
      ghost var before := commented;
      for n := b.line to b.endLine + 1
        invariant forall m :: m in commented <==> m in before || b.line <= m < n
      {
        commented := commented + {n};
      }
    }
    forall n ensures n in commented <==> n in LinesOf(blocks, count) { MarkedIff(blocks, count, commented, n); }
    r := Some(commented);
  }

  lemma MarkedIff(blocks: seq<Block>, count: nat, commented: set<nat>, n: nat)
    requires forall k :: 0 <= k < |blocks| ==> SpanFits(blocks[k], count)
    requires n in commented <==> exists k :: 0 <= k < |blocks| && blocks[k].line <= n <= blocks[k].endLine
    ensures n in commented <==> n in LinesOf(blocks, count)
  {
    if n in commented {
      var k :| 0 <= k < |blocks| && blocks[k].line <= n <= blocks[k].endLine;
      assert blocks[k] in blocks;
    }
    if Spanned(blocks, n) {
      var b :| b in blocks && b.line <= n <= b.endLine;
      var k :| 0 <= k < |blocks| && blocks[k] == b;
    }
  }

  method CommentLines(s: Style, lines: seq<string>, commented: set<nat>) returns (out: seq<string>)
    requires 0 !in commented
    ensures out == CommentOut(s, lines, commented, |lines|)
  {
    out := [];
    for i := 0 to |lines|
      invariant out == CommentOut(s, lines, commented, i)
    {
      var n := i + 1;
      if n !in commented { out := out + [lines[i]]; continue; }
      ghost var before := out;
      if n - 1 !in commented { out := out + [s.note]; }
      out := out + ["# " + lines[i]];
      assert n - 1 !in commented ==> out == before + [s.note, "# " + lines[i]];
    }
  }

  method CommentOutFile(text: string, blocks: seq<Block>) returns (r: Option<string>)
    ensures r == CommentOutBlocks(text, blocks)
  {
    if |blocks| == 0 { return Some(text); }
    var lines := Split(text);
    var commented := MarkLines(blocks, |lines|);
    if commented.None? { return None; }
    var out := CommentLines(OURS, lines, commented.value);
    r := Some(Join(out));
  }

  lemma ReadTo(s: Style, lines: seq<string>, i: nat)
    requires i < |lines|
    ensures ReadLines(s, lines[..i + 1]) == ReadLine(s, ReadLines(s, lines[..i]), lines[i])
  {
    assert lines[..i + 1] == lines[..i] + [lines[i]];
    ReadSnoc(s, lines[..i], lines[i]);
  }

  method ReactivateLines(s: Style, lines: seq<string>) returns (out: seq<string>, count: nat)
    ensures out == ReadLines(s, lines).out && count == ReadLines(s, lines).lines
  {
    out, count := [], 0;
    var i := 0;
    ghost var run := false;
    while i < |lines|
      invariant 0 <= i <= |lines| && ReadLines(s, lines[..i]) == Reader(out, run, count)
      invariant run && i < |lines| ==> !CommentedBlockLine(s.words, lines[i])
    {
      ReadTo(s, lines, i);
      if !IsNote(s, lines[i]) {
        out, i, run := out + [lines[i]], i + 1, false;
        continue;
      }
      i, run := i + 1, true;
      while i < |lines| && CommentedBlockLine(s.words, lines[i])
        invariant 0 <= i <= |lines| && ReadLines(s, lines[..i]) == Reader(out, true, count)
      {
        ReadTo(s, lines, i);
        out, count, i := out + [Uncomment(lines[i])], count + 1, i + 1;
      }
    }
    assert lines[..|lines|] == lines;
  }

  method ReactivateFile(text: string) returns (r: string)
    ensures r == ReactivateBlocks(text)
  {
    if !Within(SUPERSEDED, text) { return text; }
    var out, count := ReactivateLines(OURS, Split(text));
    if count == 0 { return text; }
    r := Join(out);
  }
}
