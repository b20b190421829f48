/** Reading host blocks out of an SSH configuration. */
module ConfigParse {
  import opened Wrappers
  import opened Text
  import opened Numbers
  import opened ConfigLines
  import opened ConfigTokens

  const TITLE := "BEGIN sshstate managed include"
  const WARNING := " - do not edit this block"

  const BEGIN := TITLE + WARNING
  const END := "END sshstate managed include"

  const MARKER_BEGIN := "# " + BEGIN
  const MARKER_END := "# " + END

  const SUPPORTED: Words := {"hostname", "user", "port", "proxyjump", "identityfile"}
  const BLOCK_WORDS: Words := {"host"} + SUPPORTED
  const EXECUTABLE: Words := {"proxycommand", "localcommand", "permitlocalcommand", "remotecommand",
                              "knownhostscommand", "match"}
  const CERTIFICATE: Words := {"certificatefile", "hostcertificate", "hostbasedkeytypes"}

  /** A block: its lines, numbered from 1, and what it sets. */
  datatype Block = Block(line: nat, endLine: nat, alias: string, hostName: string, user: string, port: int,
                         jump: Option<string>, identities: seq<string>)

  datatype Kind = MalformedLine | BadPattern | DuplicateHost | Runs | Certificate | IncludeLine | Unsupported
                | OutsideHost | SetTwice | Arity | PercentToken | BadPort | BadJump

  datatype Problem = Problem(line: nat, kind: Kind)

  /** The parser between two lines. */
  datatype Parser = Parser(hosts: seq<Block>, current: Option<Block>, aliases: set<string>, fields: set<string>,
                           last: nat, managed: bool, problems: seq<Problem>)

  const FRESH := Parser([], None, {}, {}, 0, false, [])

  function Fail(p: Parser, line: nat, kind: Kind): Parser {
    p.(problems := p.problems + [Problem(line, kind)])
  }

  /** The open block ends with the last directive read. */
  function Close(p: Parser): Parser {
    match p.current
    case None => p
    case Some(b) => p.(hosts := p.hosts + [b.(endLine := p.last)], current := None)
  }

  predicate AnyOf(s: string, chars: string) {
    exists c :: c in s && c in chars
  }

  /** One literal alias. */
  predicate Literal(args: seq<string>) {
    |args| == 1 && args[0] != "" && !AnyOf(args[0], "*?") && args[0][0] != '!'
  }

  predicate JumpOk(value: string) {
    ToLower(value) == "none" || !AnyOf(value, ",@:*?!")
  }

  /** A Host line. */
  function OpenBlock(p: Parser, args: seq<string>, line: nat): Parser {
    var q := Close(p).(fields := {});
    if !Literal(args) then Fail(q, line, BadPattern)
    else if ToLower(args[0]) in q.aliases then Fail(q, line, DuplicateHost)
    else q.(aliases := q.aliases + {ToLower(args[0])}, current := Some(Block(line, line, args[0], "", "", 0, None, [])))
  }

  /** The value of a directive inside the open block. */
  function SetField(p: Parser, b: Block, word: string, args: seq<string>, line: nat): Parser {
    if |args| != 1 then Fail(p, line, Arity)
    else if word == "hostname" then
      if '%' in args[0] then Fail(p, line, PercentToken) else p.(current := Some(b.(hostName := args[0])))
    else if word == "user" then p.(current := Some(b.(user := args[0])))
    else if word == "port" then
      match ParseInt(args[0])
      case None => Fail(p, line, BadPort)
      case Some(n) => if 1 <= n <= 65535 then p.(current := Some(b.(port := n))) else Fail(p, line, BadPort)
    else if word == "proxyjump" then
      if !JumpOk(args[0]) then Fail(p, line, BadJump)
      else p.(current := Some(b.(jump := if ToLower(args[0]) == "none" then None else Some(args[0]))))
    else if '%' in args[0] then Fail(p, line, PercentToken)
    else p.(current := Some(b.(identities := b.identities + [args[0]])))
  }

  /** A supported directive. */
  function Field(p: Parser, word: string, args: seq<string>, line: nat): Parser {
    match p.current
    case None => Fail(p, line, OutsideHost)
    case Some(b) =>
      var q := p.(last := line);
      if word != "identityfile" && word in q.fields then Fail(q, line, SetTwice)
      else SetField(if word == "identityfile" then q else q.(fields := q.fields + {word}), b, word, args, line)
  }

  function DirectiveLine(p: Parser, word: string, args: seq<string>, line: nat): Parser {
    if word == "host" then OpenBlock(p, args, line)
    else if word in EXECUTABLE then Fail(p, line, Runs)
    else if word in CERTIFICATE then Fail(p, line, Certificate)
    else if word == "include" then Fail(p, line, IncludeLine)
    else if word !in SUPPORTED then Fail(p, line, Unsupported)
    else Field(p, word, args, line)
  }

  function ReadDirective(p: Parser, d: Directive, line: nat): Parser {
    match d
    case Malformed => Fail(p, line, MalformedLine)
    case Blank => p
    case Directive(keyword, args) => DirectiveLine(p, ToLower(keyword), args, line)
  }

  function Read(p: Parser, raw: string, line: nat): Parser {
    if TrimSpace(raw) == MARKER_BEGIN then p.(managed := true)
    else if TrimSpace(raw) == MARKER_END then p.(managed := false)
    else if p.managed then p
    else ReadDirective(p, SplitDirective(raw), line)
  }

  function ReadAll(lines: seq<string>): Parser {
    if lines == [] then FRESH else Read(ReadAll(lines[..|lines| - 1]), lines[|lines| - 1], |lines|)
  }

  function Named(blocks: seq<Block>): seq<Block> {
    seq(|blocks|, i requires 0 <= i < |blocks| =>
      if blocks[i].hostName == "" then blocks[i].(hostName := blocks[i].alias) else blocks[i])
  }

  datatype Import = Hosts(blocks: seq<Block>) | Problems(problems: seq<Problem>)

  function ParseImport(text: string): Import {
    var p := Close(ReadAll(Split(text)));
    if p.problems != [] then Problems(p.problems) else Hosts(Named(p.hosts))
  }

  // ---------------------------------------------------------------- what a block spans

  /** Every line of the span is part of a host block. */
  ghost predicate SpanOk(lines: seq<string>, b: Block, end: nat) {
    1 <= b.line && end <= |lines| && forall k :: b.line - 1 <= k < end ==> BlockLine(BLOCK_WORDS, lines[k])
  }

  /** So far without problems, closed blocks span host lines up to their end, the open one up to here. */
  ghost predicate Spans(lines: seq<string>, p: Parser) {
    && p.last <= |lines| && !p.managed
    && (forall i :: 0 <= i < |p.hosts| ==> SpanOk(lines, p.hosts[i], p.hosts[i].endLine))
    && (p.current.Some? ==> SpanOk(lines, p.current.value, |lines|))
  }

  lemma SpanMore(lines: seq<string>, raw: string, b: Block, end: nat)
    requires SpanOk(lines, b, end)
    ensures SpanOk(lines + [raw], b, end)
    ensures end == |lines| && BlockLine(BLOCK_WORDS, raw) ==> SpanOk(lines + [raw], b, end + 1)
  {
  }

  /** What a directive other than Host changes: the open block's values, and where it ends. */
  ghost predicate InBlock(p: Parser, q: Parser, line: nat) {
    && q.hosts == p.hosts && q.managed == p.managed && (q.last == p.last || q.last == line)
    && (q.current.Some? <==> p.current.Some?) && (p.current.Some? ==> q.current.value.line == p.current.value.line)
  }

  lemma SetFieldWithin(p: Parser, b: Block, word: string, args: seq<string>, line: nat)
    requires p.current == Some(b)
    ensures InBlock(p, SetField(p, b, word, args, line), line)
  {
  }

  lemma FieldWithin(p: Parser, word: string, args: seq<string>, line: nat)
    ensures InBlock(p, Field(p, word, args, line), line)
  {
    if p.current.Some? {
      var q := p.(last := line);
      SetFieldWithin(q, p.current.value, word, args, line);
      SetFieldWithin(q.(fields := q.fields + {word}), p.current.value, word, args, line);
    }
  }

  /** A directive that is read without a problem is one of a host block. */
  lemma DirectiveShape(p: Parser, word: string, args: seq<string>, line: nat)
    ensures word != "host" ==> InBlock(p, DirectiveLine(p, word, args, line), line)
    ensures DirectiveLine(p, word, args, line).problems == [] ==> word in BLOCK_WORDS
  {
    FieldWithin(p, word, args, line);
  }

  lemma OpenSpans(lines: seq<string>, raw: string, p: Parser, args: seq<string>)
    requires Spans(lines, p) && BlockLine(BLOCK_WORDS, raw)
    ensures Spans(lines + [raw], OpenBlock(p, args, |lines| + 1))
  {
    var q := Close(p);
    if p.current.Some? { SpanShorter(lines, p.current.value, p.last); }
    forall i | 0 <= i < |q.hosts| ensures SpanOk(lines + [raw], q.hosts[i], q.hosts[i].endLine) {
      assert SpanOk(lines, q.hosts[i], q.hosts[i].endLine);
      SpanMore(lines, raw, q.hosts[i], q.hosts[i].endLine);
    }
  }

  /** A block's span depends on its first line only. */
  lemma SpanShorter(lines: seq<string>, b: Block, end: nat)
    requires SpanOk(lines, b, |lines|) && end <= |lines|
    ensures SpanOk(lines, b.(endLine := end), end)
  {
  }

  lemma WithinSpans(lines: seq<string>, raw: string, p: Parser, q: Parser)
    requires Spans(lines, p) && BlockLine(BLOCK_WORDS, raw) && InBlock(p, q, |lines| + 1)
    ensures Spans(lines + [raw], q)
  {
    forall i | 0 <= i < |q.hosts| ensures SpanOk(lines + [raw], q.hosts[i], q.hosts[i].endLine) {
      SpanMore(lines, raw, p.hosts[i], p.hosts[i].endLine);
    }
    if p.current.Some? {
      SpanMore(lines, raw, p.current.value, |lines|);
      assert SpanOk(lines + [raw], p.current.value, |lines| + 1);
    }
  }

  lemma DirectiveSpans(lines: seq<string>, raw: string, p: Parser)
    requires Spans(lines, p) && ReadDirective(p, SplitDirective(raw), |lines| + 1).problems == []
    ensures Spans(lines + [raw], ReadDirective(p, SplitDirective(raw), |lines| + 1))
  {
    match SplitDirective(raw)
    case Malformed =>
    case Blank => WithinSpans(lines, raw, p, p);
    case Directive(keyword, args) =>
      var word := ToLower(keyword);
      DirectiveShape(p, word, args, |lines| + 1);
      if word == "host" { OpenSpans(lines, raw, p, args); }
      else { WithinSpans(lines, raw, p, DirectiveLine(p, word, args, |lines| + 1)); }
  }

  // ---------------------------------------------------------------- problems are never taken back

  lemma SetFieldFails(p: Parser, b: Block, word: string, args: seq<string>, line: nat)
    ensures p.problems <= SetField(p, b, word, args, line).problems
  {
  }

  lemma DirectiveFails(p: Parser, word: string, args: seq<string>, line: nat)
    ensures p.problems <= DirectiveLine(p, word, args, line).problems
  {
    if p.current.Some? {
      var q := p.(last := line);
      SetFieldFails(q, p.current.value, word, args, line);
      SetFieldFails(q.(fields := q.fields + {word}), p.current.value, word, args, line);
    }
  }

  lemma ReadFails(p: Parser, raw: string, line: nat)
    ensures p.problems <= Read(p, raw, line).problems
  {
    var d := SplitDirective(raw);
    if d.Directive? { DirectiveFails(p, ToLower(d.keyword), d.args, line); }
  }

  predicate NoMarkerLines(lines: seq<string>) {
    forall i :: 0 <= i < |lines| ==> TrimSpace(lines[i]) != MARKER_BEGIN && TrimSpace(lines[i]) != MARKER_END
  }

  /** Reading without problems, every block spans lines of a host block only. */
  lemma {:induction false} ReadSpans(lines: seq<string>)
    requires NoMarkerLines(lines) && ReadAll(lines).problems == []
    ensures Spans(lines, ReadAll(lines))
  {
    if lines != [] {
      var front, raw := lines[..|lines| - 1], lines[|lines| - 1];
      assert lines == front + [raw];
      ReadFails(ReadAll(front), raw, |lines|);
      ReadSpans(front);
      DirectiveSpans(front, raw, ReadAll(front));
    }
  }

  /** Every block of a configuration that parses spans lines of a host block only. */
  lemma BlocksSpan(text: string, b: Block)
    requires NoMarkerLines(Split(text)) && ParseImport(text).Hosts? && b in ParseImport(text).blocks
    ensures SpanOk(Split(text), b, b.endLine)
  {
    var lines := Split(text);
    var p := ReadAll(lines);
    ReadSpans(lines);
    var hosts := Close(p).hosts;
    var i :| 0 <= i < |hosts| && Named(hosts)[i] == b;
    if i < |p.hosts| {
      assert SpanOk(lines, p.hosts[i], p.hosts[i].endLine);
    } else {
      SpanShorter(lines, p.current.value, p.last);
    }
  }
}
