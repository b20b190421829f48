/** Which blocks of a configuration have a directive, and what the parser says of their last line. */
module ConfigBlocks {
  import opened Wrappers
  import opened Text
  import opened ConfigLines
  import opened ConfigTokens
  import opened ConfigParse

  predicate IsHost(raw: string) {
    SplitDirective(raw).Directive? && ToLower(SplitDirective(raw).keyword) == "host"
  }

  predicate IsField(raw: string) {
    SplitDirective(raw).Directive? && ToLower(SplitDirective(raw).keyword) != "host"
  }

  /** No Host line stands after this line number, up to the end-th. */
  predicate NoHost(lines: seq<string>, line: nat, end: nat) {
    forall i :: line <= i < end && i < |lines| ==> !IsHost(lines[i])
  }

  /** A directive stands between the Host line with this number and the next one. */
  predicate HasDirective(lines: seq<string>, line: nat) {
    exists i :: line <= i < |lines| && IsField(lines[i]) && NoHost(lines, line, i)
  }

  /** The block stands at a Host line and ends before it exactly when it has no directive. */
  predicate BlockEnds(lines: seq<string>, line: nat, end: nat) {
    1 <= line <= |lines| && IsHost(lines[line - 1]) && (end < line <==> !HasDirective(lines, line))
  }

  /** What is known of a block once the next Host line has been read. */
  predicate ClosedOk(lines: seq<string>, b: Block) {
    BlockEnds(lines, b.line, b.endLine) && !NoHost(lines, b.line, |lines|)
  }

  /** What is known of the block being read, given the last directive's line. */
  predicate OpenOk(lines: seq<string>, line: nat, last: nat) {
    BlockEnds(lines, line, last) && NoHost(lines, line, |lines|)
  }

  predicate EndsOk(lines: seq<string>, p: Parser) {
    && p.last <= |lines| && !p.managed
    && (forall i :: 0 <= i < |p.hosts| ==> ClosedOk(lines, p.hosts[i]))
    && (p.current.Some? ==> OpenOk(lines, p.current.value.line, p.last))
  }

  // ---------------------------------------------------------------- one more line

  lemma SameFront(lines: seq<string>, raw: string, line: nat, i: nat)
    requires line <= i < |lines|
    ensures (IsField(lines[i]) && NoHost(lines, line, i)) ==
            (IsField((lines + [raw])[i]) && NoHost(lines + [raw], line, i))
  {
    assert forall k :: 0 <= k < |lines| ==> (lines + [raw])[k] == lines[k];
  }

  /** One more line adds a directive exactly when it is one and no Host line came before it. */
  lemma OneMore(lines: seq<string>, raw: string, line: nat)
    requires line <= |lines|
    ensures HasDirective(lines + [raw], line) <==>
            HasDirective(lines, line) || (IsField(raw) && NoHost(lines, line, |lines|))
  {
    var more := lines + [raw];
    assert more[|lines|] == raw && (NoHost(lines, line, |lines|) <==> NoHost(more, line, |lines|)) by {
      assert forall k :: 0 <= k < |lines| ==> more[k] == lines[k];
    }
    if HasDirective(lines, line) {
      var i :| line <= i < |lines| && IsField(lines[i]) && NoHost(lines, line, i);
      SameFront(lines, raw, line, i);
    }
    if HasDirective(more, line) {
      var i :| line <= i < |more| && IsField(more[i]) && NoHost(more, line, i);
      if i < |lines| { SameFront(lines, raw, line, i); }
    }
  }

  lemma NoHostMore(lines: seq<string>, raw: string, line: nat)
    requires line <= |lines|
    ensures NoHost(lines + [raw], line, |lines| + 1) <==> NoHost(lines, line, |lines|) && !IsHost(raw)
  {
    var more := lines + [raw];
    assert more[|lines|] == raw && forall k :: 0 <= k < |lines| ==> more[k] == lines[k];
  }

  /** Behind a Host line, nothing read later belongs to the block. */
  lemma ClosedStays(lines: seq<string>, raw: string, b: Block)
    requires ClosedOk(lines, b)
    ensures ClosedOk(lines + [raw], b)
  {
    OneMore(lines, raw, b.line);
    NoHostMore(lines, raw, b.line);
  }

  /** The open block has the directive just read, or what it had before. */
  lemma OpenStays(lines: seq<string>, raw: string, line: nat, last: nat)
    requires OpenOk(lines, line, last) && !IsHost(raw)
    ensures OpenOk(lines + [raw], line, if IsField(raw) then |lines| + 1 else last)
  {
    OneMore(lines, raw, line);
    NoHostMore(lines, raw, line);
  }

  lemma OpenCloses(lines: seq<string>, raw: string, b: Block, last: nat)
    requires OpenOk(lines, b.line, last) && IsHost(raw)
    ensures ClosedOk(lines + [raw], b.(endLine := last))
  {
    OneMore(lines, raw, b.line);
    NoHostMore(lines, raw, b.line);
  }

  lemma HostOpens(lines: seq<string>, raw: string, last: nat)
    requires IsHost(raw) && last <= |lines|
    ensures OpenOk(lines + [raw], |lines| + 1, last)
  {
  }

  // ---------------------------------------------------------------- the parser

  lemma SetFieldLast(p: Parser, b: Block, word: string, args: seq<string>, line: nat)
    requires p.current == Some(b)
    ensures SetField(p, b, word, args, line).last == p.last
  {
  }

  /** A directive read without a problem is in a block and moves its end. */
  lemma FieldLast(p: Parser, word: string, args: seq<string>, line: nat)
    requires word != "host" && DirectiveLine(p, word, args, line).problems == []
    ensures p.current.Some? && DirectiveLine(p, word, args, line).last == line
  {
    if p.current.Some? {
      var q := p.(last := line);
      SetFieldLast(q, p.current.value, word, args, line);
      SetFieldLast(q.(fields := q.fields + {word}), p.current.value, word, args, line);
    }
  }

  lemma OpenEnds(lines: seq<string>, raw: string, p: Parser, args: seq<string>)
    requires EndsOk(lines, p) && IsHost(raw) && OpenBlock(p, args, |lines| + 1).problems == []
    ensures EndsOk(lines + [raw], OpenBlock(p, args, |lines| + 1))
  {
    var q := OpenBlock(p, args, |lines| + 1);
    HostOpens(lines, raw, p.last);
    forall i | 0 <= i < |q.hosts| ensures ClosedOk(lines + [raw], q.hosts[i]) {
      if i < |p.hosts| { ClosedStays(lines, raw, p.hosts[i]); }
      else { OpenCloses(lines, raw, p.current.value, p.last); }
    }
  }

  lemma WithinEnds(lines: seq<string>, raw: string, p: Parser, q: Parser)
    requires EndsOk(lines, p) && !IsHost(raw) && InBlock(p, q, |lines| + 1)
    requires q.last == if IsField(raw) then |lines| + 1 else p.last
    ensures EndsOk(lines + [raw], q)
  {
    forall i | 0 <= i < |q.hosts| ensures ClosedOk(lines + [raw], q.hosts[i]) { ClosedStays(lines, raw, p.hosts[i]); }
    if p.current.Some? { OpenStays(lines, raw, p.current.value.line, p.last); }
  }

  lemma DirectiveEnds(lines: seq<string>, raw: string, p: Parser)
    requires EndsOk(lines, p) && ReadDirective(p, SplitDirective(raw), |lines| + 1).problems == []
    ensures EndsOk(lines + [raw], ReadDirective(p, SplitDirective(raw), |lines| + 1))
  {
    match SplitDirective(raw)
    case Malformed =>
    case Blank => WithinEnds(lines, raw, p, p);
    case Directive(keyword, args) =>
      var word := ToLower(keyword);
      if word == "host" {
        OpenEnds(lines, raw, p, args);
      } else {
        DirectiveShape(p, word, args, |lines| + 1);
        FieldLast(p, word, args, |lines| + 1);
        WithinEnds(lines, raw, p, DirectiveLine(p, word, args, |lines| + 1));
      }
  }

  lemma {:induction false} ReadEnds(lines: seq<string>)
    requires NoMarkerLines(lines) && ReadAll(lines).problems == []
    ensures EndsOk(lines, ReadAll(lines))
  {
    if lines != [] {
      var front, raw := lines[..|lines| - 1], lines[|lines| - 1];
      assert lines == front + [raw];
      ReadFails(ReadAll(front), raw, |lines|);
      ReadEnds(front);
      DirectiveEnds(front, raw, ReadAll(front));
    }
  }

  lemma CloseEnds(lines: seq<string>, p: Parser, b: Block)
    requires EndsOk(lines, p) && b in Close(p).hosts
    ensures BlockEnds(lines, b.line, b.endLine)
  {
    if b in p.hosts {
      var i :| 0 <= i < |p.hosts| && p.hosts[i] == b;
      assert ClosedOk(lines, p.hosts[i]);
    } else {
      assert OpenOk(lines, p.current.value.line, p.last);
    }
  }

  lemma NamedFrom(blocks: seq<Block>, b: Block) returns (c: Block)
    requires b in Named(blocks)
    ensures c in blocks && b == c.(hostName := b.hostName)
  {
    var i :| 0 <= i < |blocks| && Named(blocks)[i] == b;
    c := blocks[i];
  }

  /** A parsed block stands at its Host line, and the parser ends it before that line exactly when no
      directive stands between that line and the next Host line. */
  lemma EndsBeforeIff(text: string, b: Block)
    requires NoMarkerLines(Split(text)) && ParseImport(text).Hosts? && b in ParseImport(text).blocks
    ensures BlockEnds(Split(text), b.line, b.endLine)
  {
    var p := ReadAll(Split(text));
    ReadEnds(Split(text));
    var c := NamedFrom(Close(p).hosts, b);
    CloseEnds(Split(text), p, c);
  }
}
