/** What an import reads out of a configuration, by its directives alone: exactly which configurations are
    read without a problem, and where every value of every block comes from. */
module ConfigMeaning {
  import opened Wrappers
  import opened Text
  import opened Numbers
  import opened ConfigLines
  import opened ConfigTokens
  import opened ConfigParse

  // ---------------------------------------------------------------- the directives of a configuration

  /** Whether the reader is inside the managed include after these lines. */
  predicate Inside(lines: seq<string>) {
    lines != [] &&
    var last := TrimSpace(lines[|lines| - 1]);
    last == MARKER_BEGIN || (last != MARKER_END && Inside(lines[..|lines| - 1]))
  }

  predicate Marker(raw: string) {
    TrimSpace(raw) == MARKER_BEGIN || TrimSpace(raw) == MARKER_END
  }

  /** The directive of each line; markers and what stands between them count as blank. */
  function Directives(lines: seq<string>): (ds: seq<Directive>)
    ensures |ds| == |lines|
  {
    if lines == [] then []
    else
      var front, raw := lines[..|lines| - 1], lines[|lines| - 1];
      Directives(front) + [if Marker(raw) || Inside(front) then Blank else SplitDirective(raw)]
  }

  function Reads(ds: seq<Directive>): Parser {
    if ds == [] then FRESH else ReadDirective(Reads(ds[..|ds| - 1]), ds[|ds| - 1], |ds|)
  }

  lemma SetApart(p: Parser, b: Block, word: string, args: seq<string>, line: nat, m: bool)
    ensures SetField(p.(managed := m), b, word, args, line) == SetField(p, b, word, args, line).(managed := m)
  {
  }

  lemma FieldApart(p: Parser, word: string, args: seq<string>, line: nat, m: bool)
    ensures Field(p.(managed := m), word, args, line) == Field(p, word, args, line).(managed := m)
  {
    if p.current.Some? {
      var q := p.(last := line);
      SetApart(q, p.current.value, word, args, line, m);
      SetApart(q.(fields := q.fields + {word}), p.current.value, word, args, line, m);
    }
  }

  lemma OpenApart(p: Parser, args: seq<string>, line: nat, m: bool)
    ensures OpenBlock(p.(managed := m), args, line) == OpenBlock(p, args, line).(managed := m)
  {
  }

  /** A directive is read the same inside and outside. */
  lemma ManagedApart(p: Parser, d: Directive, line: nat, m: bool)
    ensures ReadDirective(p.(managed := m), d, line) == ReadDirective(p, d, line).(managed := m)
  {
    if d.Directive? {
      OpenApart(p, d.args, line, m);
      FieldApart(p, ToLower(d.keyword), d.args, line, m);
    }
  }

  lemma {:induction false} ReadByDirectives(lines: seq<string>)
    ensures ReadAll(lines) == Reads(Directives(lines)).(managed := Inside(lines))
  {
    if lines != [] {
      var front, raw := lines[..|lines| - 1], lines[|lines| - 1];
      var ds := Directives(lines);
      ReadByDirectives(front);
      assert ds[..|ds| - 1] == Directives(front);
      MarkersDiffer();
      ManagedApart(Reads(Directives(front)), SplitDirective(raw), |lines|, Inside(front));
    }
  }

  lemma MarkersDiffer()
    ensures MARKER_BEGIN != MARKER_END
  {
    assert MARKER_BEGIN[2] == 'B' && MARKER_END[2] == 'E';
  }

  // ---------------------------------------------------------------- sound directives

  /** Line k holds this directive. */
  predicate Is(ds: seq<Directive>, k: int, word: string) {
    0 <= k < |ds| && ds[k].Directive? && ToLower(ds[k].keyword) == word
  }

  predicate HostAt(ds: seq<Directive>, k: int) {
    Is(ds, k, "host")
  }

  predicate NoHostIn(ds: seq<Directive>, from: int, to: int) {
    forall k :: from <= k < to ==> !HostAt(ds, k)
  }

  /** The block open at line k is the one of line j. */
  predicate OpenAt(ds: seq<Directive>, j: int, k: int) {
    HostAt(ds, j) && j < k && NoHostIn(ds, j + 1, k)
  }

  /** One alias, without a pattern. */
  predicate AliasOk(args: seq<string>) {
    |args| == 1 && args[0] != "" && args[0][0] != '!' && '*' !in args[0] && '?' !in args[0]
  }

  predicate JumpName(a: string) {
    ',' !in a && '@' !in a && ':' !in a && '*' !in a && '?' !in a && '!' !in a
  }

  predicate PortText(a: string) {
    ParseInt(a).Some? && 1 <= ParseInt(a).value <= 65535
  }

  predicate ValueOk(word: string, a: string) {
    && (word == "hostname" || word == "identityfile" ==> '%' !in a)
    && (word == "port" ==> PortText(a))
    && (word == "proxyjump" ==> ToLower(a) == "none" || JumpName(a))
  }

  predicate SameAlias(ds: seq<Directive>, j: int, k: int)
    requires HostAt(ds, j) && HostAt(ds, k)
  {
    |ds[j].args| == 1 == |ds[k].args| && ToLower(ds[j].args[0]) == ToLower(ds[k].args[0])
  }

  /** A host line names one literal alias, that no earlier one names. */
  predicate HostOk(ds: seq<Directive>, k: int)
    requires HostAt(ds, k)
  {
    AliasOk(ds[k].args) && forall j :: 0 <= j < k && HostAt(ds, j) ==> !SameAlias(ds, j, k)
  }

  /** The block open at line k has not been given this yet. */
  predicate FirstIn(ds: seq<Directive>, j: int, k: int, word: string) {
    OpenAt(ds, j, k) && (word != "identityfile" ==> forall i :: j < i < k ==> !Is(ds, i, word))
  }

  /** Any other directive is one that is imported, in an open block, with one good value, and given there
      for the first time unless it is an identity. */
  ghost predicate FieldOk(ds: seq<Directive>, k: int)
    requires 0 <= k < |ds| && ds[k].Directive?
  {
    var word := ToLower(ds[k].keyword);
    && word in SUPPORTED && |ds[k].args| == 1 && ValueOk(word, ds[k].args[0])
    && exists j :: FirstIn(ds, j, k, word)
  }

  ghost predicate SoundAt(ds: seq<Directive>, k: int)
    requires 0 <= k < |ds|
  {
    if HostAt(ds, k) then HostOk(ds, k) else ds[k].Blank? || (ds[k].Directive? && FieldOk(ds, k))
  }

  ghost predicate Sound(ds: seq<Directive>) {
    forall k :: 0 <= k < |ds| ==> SoundAt(ds, k)
  }

  // ---------------------------------------------------------------- where values come from

  /** The values given for a directive on these lines, in order. */
  function Given(part: seq<Directive>, word: string): seq<string> {
    if part == [] then []
    else
      var n := |part| - 1;
      Given(part[..n], word) + if Is(part, n, word) && |part[n].args| == 1 then [part[n].args[0]] else []
  }

  /** The one value given, or this if none was. */
  predicate Gives(values: seq<string>, none: string, v: string) {
    |values| <= 1 && v == if values == [] then none else values[0]
  }

  predicate GivesPort(values: seq<string>, port: int) {
    |values| <= 1 && if values == [] then port == 0 else ParseInt(values[0]) == Some(port)
  }

  predicate GivesJump(values: seq<string>, jump: Option<string>) {
    |values| <= 1 && jump == if values == [] || ToLower(values[0]) == "none" then None else Some(values[0])
  }

  /** The block's values are those given on these lines. */
  predicate ValuesSay(part: seq<Directive>, b: Block) {
    && Gives(Given(part, "hostname"), "", b.hostName) && Gives(Given(part, "user"), "", b.user)
    && GivesPort(Given(part, "port"), b.port) && GivesJump(Given(part, "proxyjump"), b.jump)
    && b.identities == Given(part, "identityfile")
  }

  /** The block is of its Host line, and its values are those given up to this line. */
  predicate BlockSays(ds: seq<Directive>, b: Block, to: int) {
    && 1 <= b.line <= to <= |ds| && OpenAt(ds, b.line - 1, to) && ds[b.line - 1].args == [b.alias]
    && ValuesSay(ds[b.line..to], b)
  }

  lemma GivenSnoc(part: seq<Directive>, d: Directive, word: string)
    ensures Given(part + [d], word) ==
            Given(part, word) +
            if d.Directive? && ToLower(d.keyword) == word && |d.args| == 1 then [d.args[0]] else []
  {
    assert (part + [d])[..|part|] == part;
  }

  lemma PartMore(ds: seq<Directive>, d: Directive, from: nat)
    requires from <= |ds|
    ensures (ds + [d])[from..] == ds[from..] + [d] && (ds + [d])[from..|ds| + 1] == ds[from..] + [d]
    ensures ds[from..|ds|] == ds[from..]
  {
  }

  lemma {:induction false} GivenNone(part: seq<Directive>, word: string)
    requires forall i :: Is(part, i, word) ==> |part[i].args| == 1
    ensures Given(part, word) == [] <==> (forall i :: !Is(part, i, word))
  {
    if part != [] {
      var n := |part| - 1;
      var front := part[..n];
      assert forall i :: 0 <= i < n ==> (Is(front, i, word) <==> Is(part, i, word));
      GivenNone(front, word);
      if Is(part, n, word) { assert Given(part, word) != []; }
    }
  }

  // ---------------------------------------------------------------- what the reader knows

  /** A block whose lines ended at the next Host line. */
  ghost predicate ClosedSays(ds: seq<Directive>, b: Block) {
    exists to :: HostAt(ds, to) && BlockSays(ds, b, to)
  }

  /** A field that a block sets at most once. */
  predicate Single(word: string) {
    word in SUPPORTED && word != "identityfile"
  }

  /** The fields set since the open block's Host line. */
  ghost predicate FieldsSay(ds: seq<Directive>, from: nat, fields: set<string>)
    requires from <= |ds|
  {
    forall w :: Single(w) ==> (w in fields <==> Given(ds[from..], w) != [])
  }

  predicate Names(ds: seq<Directive>, k: int, alias: string) {
    HostAt(ds, k) && |ds[k].args| == 1 && ToLower(ds[k].args[0]) == alias
  }

  ghost predicate AliasesSay(ds: seq<Directive>, aliases: set<string>) {
    forall a :: a in aliases <==> exists k :: Names(ds, k, a)
  }

  ghost predicate CurrentSays(ds: seq<Directive>, p: Parser) {
    match p.current
    case None => NoHostIn(ds, 0, |ds|)
    case Some(b) => BlockSays(ds, b, |ds|) && FieldsSay(ds, b.line, p.fields)
  }

  predicate HasLine(hosts: seq<Block>, line: int) {
    exists i :: 0 <= i < |hosts| && hosts[i].line == line
  }

  /** Every Host line has its block. */
  ghost predicate EachRead(ds: seq<Directive>, hosts: seq<Block>, current: Option<Block>) {
    forall k :: HostAt(ds, k) ==> (current.Some? && current.value.line == k + 1) || HasLine(hosts, k + 1)
  }

  ghost predicate AllClosed(ds: seq<Directive>, hosts: seq<Block>) {
    forall i :: 0 <= i < |hosts| ==> ClosedSays(ds, hosts[i])
  }

  ghost predicate Says(ds: seq<Directive>, p: Parser) {
    && CurrentSays(ds, p) && AliasesSay(ds, p.aliases) && EachRead(ds, p.hosts, p.current) && AllClosed(ds, p.hosts)
  }

  predicate Holds(d: Directive, word: string) {
    d.Directive? && ToLower(d.keyword) == word
  }

  lemma IsMore(ds: seq<Directive>, d: Directive, k: int, word: string)
    ensures Is(ds + [d], k, word) <==> Is(ds, k, word) || (k == |ds| && Holds(d, word))
  {
  }

  lemma NoHostMore(ds: seq<Directive>, d: Directive, from: int, to: int)
    requires to <= |ds|
    ensures NoHostIn(ds + [d], from, to) <==> NoHostIn(ds, from, to)
  {
    forall k ensures k < to ==> (HostAt(ds + [d], k) <==> HostAt(ds, k)) { IsMore(ds, d, k, "host"); }
  }

  lemma OpenMore(ds: seq<Directive>, d: Directive, j: int, k: int)
    requires k <= |ds|
    ensures OpenAt(ds + [d], j, k) <==> OpenAt(ds, j, k)
  {
    IsMore(ds, d, j, "host");
    NoHostMore(ds, d, j + 1, k);
  }

  lemma BlockStays(ds: seq<Directive>, d: Directive, b: Block, to: int)
    requires BlockSays(ds, b, to)
    ensures BlockSays(ds + [d], b, to)
  {
    OpenMore(ds, d, b.line - 1, to);
    assert (ds + [d])[b.line..to] == ds[b.line..to];
  }

  lemma ClosedStays(ds: seq<Directive>, d: Directive, b: Block)
    requires ClosedSays(ds, b)
    ensures ClosedSays(ds + [d], b)
  {
    var to :| HostAt(ds, to) && BlockSays(ds, b, to);
    IsMore(ds, d, to, "host");
    BlockStays(ds, d, b, to);
  }

  // ---------------------------------------------------------------- soundness, line by line

  lemma HostOkMore(ds: seq<Directive>, d: Directive, k: int)
    requires HostAt(ds, k)
    ensures HostAt(ds + [d], k) && (HostOk(ds + [d], k) <==> HostOk(ds, k))
  {
    forall j ensures j <= k ==> (HostAt(ds + [d], j) <==> HostAt(ds, j)) { IsMore(ds, d, j, "host"); }
    if HostOk(ds, k) {
      forall j | 0 <= j < k && HostAt(ds + [d], j) ensures !SameAlias(ds + [d], j, k) { assert HostAt(ds, j); }
    }
    if HostOk(ds + [d], k) {
      forall j | 0 <= j < k && HostAt(ds, j) ensures !SameAlias(ds, j, k) { assert HostAt(ds + [d], j); }
    }
  }

  lemma FirstMore(ds: seq<Directive>, d: Directive, j: int, k: int, word: string)
    requires k <= |ds|
    ensures FirstIn(ds + [d], j, k, word) <==> FirstIn(ds, j, k, word)
  {
    OpenMore(ds, d, j, k);
    forall i ensures i < k ==> (Is(ds + [d], i, word) <==> Is(ds, i, word)) { IsMore(ds, d, i, word); }
  }

  lemma FieldOkMore(ds: seq<Directive>, d: Directive, k: int)
    requires 0 <= k < |ds| && ds[k].Directive?
    ensures FieldOk(ds + [d], k) <==> FieldOk(ds, k)
  {
    assert (ds + [d])[k] == ds[k];
    var word := ToLower(ds[k].keyword);
    forall j ensures FirstIn(ds + [d], j, k, word) <==> FirstIn(ds, j, k, word) { FirstMore(ds, d, j, k, word); }
  }

  lemma SoundMore(ds: seq<Directive>, d: Directive)
    ensures Sound(ds + [d]) <==> Sound(ds) && SoundAt(ds + [d], |ds|)
  {
    forall k | 0 <= k < |ds| ensures SoundAt(ds + [d], k) <==> SoundAt(ds, k) {
      assert (ds + [d])[k] == ds[k];
      if HostAt(ds, k) { HostOkMore(ds, d, k); }
      else if ds[k].Directive? { FieldOkMore(ds, d, k); }
    }
    if Sound(ds + [d]) { forall k | 0 <= k < |ds| ensures SoundAt(ds, k) { assert SoundAt(ds + [d], k); } }
    if Sound(ds) && SoundAt(ds + [d], |ds|) {
      forall k | 0 <= k < |ds| + 1 ensures SoundAt(ds + [d], k) { if k < |ds| { assert SoundAt(ds, k); } }
    }
  }

  // ---------------------------------------------------------------- one more Host line

  lemma AliasesMore(ds: seq<Directive>, d: Directive, aliases: set<string>)
    requires AliasesSay(ds, aliases)
    ensures Holds(d, "host") && |d.args| == 1 ==> AliasesSay(ds + [d], aliases + {ToLower(d.args[0])})
    ensures !Holds(d, "host") ==> AliasesSay(ds + [d], aliases)
  {
    forall a, k ensures Names(ds + [d], k, a) <==>
                        Names(ds, k, a) ||
                        (k == |ds| && Holds(d, "host") && |d.args| == 1 && ToLower(d.args[0]) == a)
    {
      IsMore(ds, d, k, "host");
    }
    if Holds(d, "host") && |d.args| == 1 { assert Names(ds + [d], |ds|, ToLower(d.args[0])); }
  }

  lemma LiteralIs(args: seq<string>)
    ensures Literal(args) <==> AliasOk(args)
  {
  }

  lemma HostOkIff(ds: seq<Directive>, d: Directive, aliases: set<string>)
    requires AliasesSay(ds, aliases) && Holds(d, "host")
    ensures HostAt(ds + [d], |ds|)
    ensures HostOk(ds + [d], |ds|) <==> Literal(d.args) && ToLower(d.args[0]) !in aliases
  {
    var more, n := ds + [d], |ds|;
    LiteralIs(d.args);
    IsMore(ds, d, n, "host");
    assert more[n] == d;
    if Literal(d.args) {
      forall j | 0 <= j < n && HostAt(more, j)
        ensures SameAlias(more, j, n) <==> Names(ds, j, ToLower(d.args[0]))
      {
        IsMore(ds, d, j, "host");
      }
      if j :| Names(ds, j, ToLower(d.args[0])) { IsMore(ds, d, j, "host"); assert SameAlias(more, j, n); }
    }
  }

  lemma NewBlock(ds: seq<Directive>, d: Directive, q: Parser)
    requires Holds(d, "host") && |d.args| == 1 && q.fields == {}
    requires q.current == Some(Block(|ds| + 1, |ds| + 1, d.args[0], "", "", 0, None, []))
    ensures CurrentSays(ds + [d], q)
  {
    var more, n := ds + [d], |ds| + 1;
    IsMore(ds, d, |ds|, "host");
    assert more[n..n] == [] && more[n..] == [] && more[n - 1] == d && d.args == [d.args[0]];
  }

  /** Once the next Host line is read, the open block is closed. */
  lemma CloseSays(ds: seq<Directive>, d: Directive, p: Parser)
    requires CurrentSays(ds, p) && AllClosed(ds, p.hosts) && Holds(d, "host")
    ensures AllClosed(ds + [d], Close(p).hosts)
  {
    var more, hosts := ds + [d], Close(p).hosts;
    forall i | 0 <= i < |hosts| ensures ClosedSays(more, hosts[i]) {
      if i < |p.hosts| {
        ClosedStays(ds, d, p.hosts[i]);
      } else {
        var b := p.current.value;
        BlockStays(ds, d, b, |ds|);
        IsMore(ds, d, |ds|, "host");
        assert HostAt(more, |ds|) && BlockSays(more, b.(endLine := p.last), |ds|);
      }
    }
  }

  /** Closing keeps the line of every block. */
  lemma CloseHas(p: Parser, line: int)
    requires (p.current.Some? && p.current.value.line == line) || HasLine(p.hosts, line)
    ensures HasLine(Close(p).hosts, line)
  {
    var hosts := Close(p).hosts;
    if p.current.Some? && p.current.value.line == line {
      assert hosts[|p.hosts|].line == line;
    } else {
      var i :| 0 <= i < |p.hosts| && p.hosts[i].line == line;
      assert hosts[i] == p.hosts[i];
    }
  }

  lemma CloseEach(ds: seq<Directive>, d: Directive, p: Parser, b: Block)
    requires EachRead(ds, p.hosts, p.current) && b.line == |ds| + 1
    ensures EachRead(ds + [d], Close(p).hosts, Some(b))
  {
    forall k | HostAt(ds + [d], k) && k != |ds| ensures HasLine(Close(p).hosts, k + 1) {
      IsMore(ds, d, k, "host");
      assert HostAt(ds, k);
      CloseHas(p, k + 1);
    }
  }

  lemma OpenIs(p: Parser, args: seq<string>, line: nat)
    requires Literal(args) && ToLower(args[0]) !in p.aliases
    ensures var q := OpenBlock(p, args, line);
            && q.hosts == Close(p).hosts && q.current == Some(Block(line, line, args[0], "", "", 0, None, []))
            && q.fields == {} && q.aliases == p.aliases + {ToLower(args[0])} && q.problems == p.problems
  {
  }

  lemma OpenBlockSays(ds: seq<Directive>, d: Directive, p: Parser, q: Parser)
    requires Says(ds, p) && Holds(d, "host") && |d.args| == 1 && q.hosts == Close(p).hosts && q.fields == {}
    requires q.current == Some(Block(|ds| + 1, |ds| + 1, d.args[0], "", "", 0, None, []))
    requires q.aliases == p.aliases + {ToLower(d.args[0])}
    ensures Says(ds + [d], q)
  {
    assert AliasesSay(ds + [d], q.aliases) by { AliasesMore(ds, d, p.aliases); }
    assert CurrentSays(ds + [d], q) by { NewBlock(ds, d, q); }
    assert AllClosed(ds + [d], q.hosts) by { CloseSays(ds, d, p); }
    assert EachRead(ds + [d], q.hosts, q.current) by { CloseEach(ds, d, p, q.current.value); }
  }

  // ---------------------------------------------------------------- one more line within a block

  lemma NoHostHere(ds: seq<Directive>, d: Directive, from: int)
    requires NoHostIn(ds, from, |ds|) && !Holds(d, "host")
    ensures NoHostIn(ds + [d], from, |ds| + 1)
  {
    forall k | from <= k < |ds| + 1 ensures !HostAt(ds + [d], k) {
      IsMore(ds, d, k, "host");
      assert k < |ds| ==> !HostAt(ds, k);
    }
  }

  lemma OpenOn(ds: seq<Directive>, d: Directive, j: int)
    requires OpenAt(ds, j, |ds|) && !Holds(d, "host")
    ensures OpenAt(ds + [d], j, |ds| + 1)
  {
    IsMore(ds, d, j, "host");
    NoHostHere(ds, d, j + 1);
  }

  lemma EachOn(ds: seq<Directive>, d: Directive, hosts: seq<Block>, b: Option<Block>, c: Option<Block>)
    requires EachRead(ds, hosts, b) && !Holds(d, "host")
    requires b.Some? ==> c.Some? && c.value.line == b.value.line
    ensures EachRead(ds + [d], hosts, c)
  {
    forall k | HostAt(ds + [d], k) ensures HostAt(ds, k) { IsMore(ds, d, k, "host"); }
  }

  lemma AllStays(ds: seq<Directive>, d: Directive, hosts: seq<Block>)
    requires AllClosed(ds, hosts)
    ensures AllClosed(ds + [d], hosts)
  {
    forall i | 0 <= i < |hosts| ensures ClosedSays(ds + [d], hosts[i]) { ClosedStays(ds, d, hosts[i]); }
  }

  /** What a line within the block leaves, once the open block and its fields are accounted for. */
  lemma WithinSays(ds: seq<Directive>, d: Directive, p: Parser, q: Parser)
    requires Says(ds, p) && !Holds(d, "host") && q.hosts == p.hosts && q.aliases == p.aliases
    requires CurrentSays(ds + [d], q)
    requires p.current.Some? ==> q.current.Some? && q.current.value.line == p.current.value.line
    ensures Says(ds + [d], q)
  {
    EachOn(ds, d, p.hosts, p.current, q.current);
    AllStays(ds, d, p.hosts);
    AliasesMore(ds, d, p.aliases);
  }

  predicate Silent(d: Directive) {
    !d.Directive?
  }

  lemma SilentBlock(ds: seq<Directive>, d: Directive, b: Block, fields: set<string>)
    requires BlockSays(ds, b, |ds|) && FieldsSay(ds, b.line, fields) && Silent(d)
    ensures BlockSays(ds + [d], b, |ds| + 1) && FieldsSay(ds + [d], b.line, fields)
  {
    OpenOn(ds, d, b.line - 1);
    PartMore(ds, d, b.line);
    forall w ensures Given(ds[b.line..] + [d], w) == Given(ds[b.line..], w) { GivenSnoc(ds[b.line..], d, w); }
  }

  lemma SilentSays(ds: seq<Directive>, d: Directive, p: Parser)
    requires Says(ds, p) && Silent(d)
    ensures Says(ds + [d], p)
  {
    if p.current.Some? { SilentBlock(ds, d, p.current.value, p.fields); } else { NoHostHere(ds, d, 0); }
    WithinSays(ds, d, p, p);
  }

  // ---------------------------------------------------------------- one more value

  lemma JumpIs(a: string)
    ensures JumpOk(a) <==> ToLower(a) == "none" || JumpName(a)
  {
  }

  /** The block with this value. */
  predicate SetTo(b: Block, word: string, a: string, c: Block) {
    && c.line == b.line && c.alias == b.alias
    && c.hostName == (if word == "hostname" then a else b.hostName)
    && c.user == (if word == "user" then a else b.user)
    && (if word == "port" then ParseInt(a) == Some(c.port) else c.port == b.port)
    && c.jump == (if word != "proxyjump" then b.jump else if ToLower(a) == "none" then None else Some(a))
    && c.identities == b.identities + (if word == "identityfile" then [a] else [])
  }

  lemma SetFieldIff(p: Parser, b: Block, word: string, args: seq<string>, line: nat)
    requires p.problems == [] && word in SUPPORTED
    ensures var q := SetField(p, b, word, args, line);
            && (q.problems == [] <==> |args| == 1 && ValueOk(word, args[0]))
            && (q.problems == [] ==>
                  && q == p.(current := q.current) && q.current.Some? && SetTo(b, word, args[0], q.current.value))
  {
    if |args| == 1 { JumpIs(args[0]); }
  }

  /** Whether the value is taken, and what it leaves. */
  lemma FieldIff(p: Parser, b: Block, word: string, args: seq<string>, line: nat)
    requires p.problems == [] && p.current == Some(b) && word in SUPPORTED
    ensures var q := Field(p, word, args, line);
            && (q.problems == [] <==>
                (word == "identityfile" || word !in p.fields) && |args| == 1 && ValueOk(word, args[0]))
            && (q.problems == [] ==>
                  && q.hosts == p.hosts && q.aliases == p.aliases
                  && q.fields == (if word == "identityfile" then p.fields else p.fields + {word})
                  && q.current.Some? && SetTo(b, word, args[0], q.current.value))
  {
    var q := p.(last := line);
    SetFieldIff(q, b, word, args, line);
    SetFieldIff(q.(fields := q.fields + {word}), b, word, args, line);
  }

  lemma FieldsOn(ds: seq<Directive>, d: Directive, from: nat, fields: set<string>, word: string)
    requires from <= |ds| && FieldsSay(ds, from, fields) && Holds(d, word) && |d.args| == 1
    ensures FieldsSay(ds + [d], from, if word == "identityfile" then fields else fields + {word})
  {
    PartMore(ds, d, from);
    forall w ensures Given(ds[from..] + [d], w) == Given(ds[from..], w) + (if w == word then [d.args[0]] else []) {
      GivenSnoc(ds[from..], d, w);
    }
  }

  lemma ValuesOn(part: seq<Directive>, d: Directive, b: Block, word: string, c: Block)
    requires ValuesSay(part, b) && Holds(d, word) && |d.args| == 1 && SetTo(b, word, d.args[0], c)
    requires word != "identityfile" ==> Given(part, word) == []
    ensures ValuesSay(part + [d], c)
  {
    GivenSnoc(part, d, "hostname");
    GivenSnoc(part, d, "user");
    GivenSnoc(part, d, "port");
    GivenSnoc(part, d, "proxyjump");
    GivenSnoc(part, d, "identityfile");
  }

  lemma BlockOn(ds: seq<Directive>, d: Directive, b: Block, word: string, c: Block)
    requires BlockSays(ds, b, |ds|) && Holds(d, word) && !Holds(d, "host") && |d.args| == 1
    requires SetTo(b, word, d.args[0], c) && (word != "identityfile" ==> Given(ds[b.line..], word) == [])
    ensures BlockSays(ds + [d], c, |ds| + 1)
  {
    OpenOn(ds, d, b.line - 1);
    PartMore(ds, d, b.line);
    ValuesOn(ds[b.line..], d, b, word, c);
  }

  lemma FieldCurrent(ds: seq<Directive>, d: Directive, b: Block, fields: set<string>, word: string, q: Parser)
    requires BlockSays(ds, b, |ds|) && FieldsSay(ds, b.line, fields) && Holds(d, word) && word != "host"
    requires |d.args| == 1 && (word != "identityfile" ==> Given(ds[b.line..], word) == [])
    requires q.fields == if word == "identityfile" then fields else fields + {word}
    requires q.current.Some? && SetTo(b, word, d.args[0], q.current.value)
    ensures CurrentSays(ds + [d], q)
  {
    var c := q.current.value;
    assert BlockSays(ds + [d], c, |ds| + 1) by { BlockOn(ds, d, b, word, c); }
    assert FieldsSay(ds + [d], c.line, q.fields) by { FieldsOn(ds, d, b.line, fields, word); }
  }

  /** A field not set was not given. */
  lemma NotYet(ds: seq<Directive>, from: nat, fields: set<string>, word: string)
    requires from <= |ds| && FieldsSay(ds, from, fields) && word in SUPPORTED
    requires word != "identityfile" && word !in fields
    ensures Given(ds[from..], word) == []
  {
  }

  lemma FieldSays(ds: seq<Directive>, d: Directive, p: Parser, b: Block, word: string, q: Parser)
    requires Says(ds, p) && p.current == Some(b) && Holds(d, word) && word != "host" && |d.args| == 1
    requires word != "identityfile" ==> Given(ds[b.line..], word) == []
    requires q.hosts == p.hosts && q.aliases == p.aliases
    requires q.fields == if word == "identityfile" then p.fields else p.fields + {word}
    requires q.current.Some? && SetTo(b, word, d.args[0], q.current.value)
    ensures Says(ds + [d], q)
  {
    FieldCurrent(ds, d, b, p.fields, word, q);
    WithinSays(ds, d, p, q);
  }

  // ---------------------------------------------------------------- read if and only if sound

  lemma Kinds(word: string)
    requires word in SUPPORTED
    ensures word != "host" && word != "include" && word !in EXECUTABLE && word !in CERTIFICATE
  {
  }

  lemma SoundOneArg(ds: seq<Directive>, word: string, i: int)
    requires Sound(ds) && word in SUPPORTED && Is(ds, i, word)
    ensures |ds[i].args| == 1
  {
    Kinds(word);
    assert SoundAt(ds, i);
  }

  lemma NotGiven(ds: seq<Directive>, from: nat, word: string)
    requires Sound(ds) && word in SUPPORTED && from <= |ds|
    ensures Given(ds[from..], word) == [] <==> (forall i :: from <= i < |ds| ==> !Is(ds, i, word))
  {
    var part := ds[from..];
    forall i ensures Is(part, i, word) <==> from <= i + from < |ds| && Is(ds, i + from, word) { }
    forall i | Is(part, i, word) ensures |part[i].args| == 1 { SoundOneArg(ds, word, i + from); }
    GivenNone(part, word);
    if Given(part, word) == [] {
      forall i | from <= i < |ds| ensures !Is(ds, i, word) { assert !Is(part, i - from, word); }
    }
  }

  lemma OpenIsOne(ds: seq<Directive>, i: int, j: int, k: int)
    requires OpenAt(ds, i, k) && OpenAt(ds, j, k)
    ensures i == j
  {
  }

  lemma FirstOpen(ds: seq<Directive>, d: Directive, from: nat, word: string)
    requires Sound(ds) && word in SUPPORTED && 1 <= from <= |ds| && OpenAt(ds, from - 1, |ds|)
    ensures (exists j :: FirstIn(ds + [d], j, |ds|, word)) <==> word == "identityfile" || Given(ds[from..], word) == []
  {
    NotGiven(ds, from, word);
    FirstMore(ds, d, from - 1, |ds|, word);
    forall j | FirstIn(ds + [d], j, |ds|, word) ensures j == from - 1 {
      FirstMore(ds, d, j, |ds|, word);
      OpenIsOne(ds, j, from - 1, |ds|);
    }
  }

  lemma FirstNone(ds: seq<Directive>, d: Directive, word: string)
    requires NoHostIn(ds, 0, |ds|)
    ensures !exists j :: FirstIn(ds + [d], j, |ds|, word)
  {
    forall j ensures !FirstIn(ds + [d], j, |ds|, word) { FirstMore(ds, d, j, |ds|, word); }
  }

  lemma HostStep(ds: seq<Directive>, d: Directive, p: Parser)
    requires Says(ds, p) && p.problems == [] && Holds(d, "host")
    ensures var q := ReadDirective(p, d, |ds| + 1);
            (q.problems == [] <==> SoundAt(ds + [d], |ds|)) && (q.problems == [] ==> Says(ds + [d], q))
  {
    HostOkIff(ds, d, p.aliases);
    if Literal(d.args) && ToLower(d.args[0]) !in p.aliases {
      OpenIs(p, d.args, |ds| + 1);
      OpenBlockSays(ds, d, p, ReadDirective(p, d, |ds| + 1));
    }
  }

  /** Whether a value may be given next, by the reader's own record. */
  lemma FieldOkIff(ds: seq<Directive>, d: Directive, p: Parser, word: string)
    requires Sound(ds) && CurrentSays(ds, p) && Holds(d, word) && word != "host"
    ensures SoundAt(ds + [d], |ds|) <==>
            word in SUPPORTED && |d.args| == 1 && ValueOk(word, d.args[0]) && p.current.Some? &&
            (word == "identityfile" || word !in p.fields)
  {
    assert (ds + [d])[|ds|] == d;
    IsMore(ds, d, |ds|, "host");
    if word in SUPPORTED {
      match p.current
      case None => FirstNone(ds, d, word);
      case Some(b) => FirstOpen(ds, d, b.line, word);
    }
  }

  lemma FieldTaken(ds: seq<Directive>, d: Directive, p: Parser, word: string, q: Parser)
    requires Says(ds, p) && p.problems == [] && Holds(d, word) && word in SUPPORTED && p.current.Some?
    requires q == Field(p, word, d.args, |ds| + 1) && q.problems == []
    ensures Says(ds + [d], q)
  {
    Kinds(word);
    FieldIff(p, p.current.value, word, d.args, |ds| + 1);
    if word != "identityfile" { NotYet(ds, p.current.value.line, p.fields, word); }
    FieldSays(ds, d, p, p.current.value, word, q);
  }

  lemma FieldRead(p: Parser, d: Directive, word: string, line: nat)
    requires p.problems == [] && Holds(d, word) && word != "host"
    ensures var q := ReadDirective(p, d, line);
            && (q.problems == [] <==>
                word in SUPPORTED && |d.args| == 1 && ValueOk(word, d.args[0]) && p.current.Some? &&
                (word == "identityfile" || word !in p.fields))
            && (q.problems == [] ==> q == Field(p, word, d.args, line))
  {
    if word in SUPPORTED {
      Kinds(word);
      if p.current.Some? { FieldIff(p, p.current.value, word, d.args, line); }
    }
  }

  lemma FieldStep(ds: seq<Directive>, d: Directive, p: Parser, word: string)
    requires Sound(ds) && Says(ds, p) && p.problems == [] && Holds(d, word) && word != "host"
    ensures var q := ReadDirective(p, d, |ds| + 1);
            (q.problems == [] <==> SoundAt(ds + [d], |ds|)) && (q.problems == [] ==> Says(ds + [d], q))
  {
    FieldOkIff(ds, d, p, word);
    FieldRead(p, d, word, |ds| + 1);
    var q := ReadDirective(p, d, |ds| + 1);
    if q.problems == [] { FieldTaken(ds, d, p, word, q); }
  }

  lemma ReadStep(ds: seq<Directive>, d: Directive, p: Parser)
    requires Sound(ds) && Says(ds, p) && p.problems == []
    ensures var q := ReadDirective(p, d, |ds| + 1);
            (q.problems == [] <==> SoundAt(ds + [d], |ds|)) && (q.problems == [] ==> Says(ds + [d], q))
  {
    if Holds(d, "host") {
      HostStep(ds, d, p);
    } else if d.Directive? {
      FieldStep(ds, d, p, ToLower(d.keyword));
    } else {
      assert (ds + [d])[|ds|] == d;
      SilentSays(ds, d, p);
    }
  }

  lemma Keeps(p: Parser, d: Directive, line: nat)
    ensures p.problems <= ReadDirective(p, d, line).problems
  {
    if d.Directive? { DirectiveFails(p, ToLower(d.keyword), d.args, line); }
  }

  /** A configuration is read without a problem if and only if each of its directives is sound where it
      stands; and then the reader knows what the directives say. */
  lemma {:induction false} ReadIffSound(ds: seq<Directive>)
    ensures Reads(ds).problems == [] <==> Sound(ds)
    ensures Sound(ds) ==> Says(ds, Reads(ds))
  {
    if ds != [] {
      var n := |ds| - 1;
      var front, d := ds[..n], ds[n];
      assert ds == front + [d];
      ReadIffSound(front);
      SoundMore(front, d);
      Keeps(Reads(front), d, |ds|);
      if Sound(front) { ReadStep(front, d, Reads(front)); }
    }
  }

  // ---------------------------------------------------------------- what an import is

  /** A block of the import is of its Host line and has the values given up to the next one, or to the end;
      a host without a name of its own has its alias. */
  ghost predicate ImportSays(ds: seq<Directive>, b: Block) {
    exists to, raw :: (to == |ds| || HostAt(ds, to)) && BlockSays(ds, raw, to) &&
      b == raw.(hostName := if raw.hostName == "" then raw.alias else raw.hostName)
  }

  lemma ClosedImport(ds: seq<Directive>, p: Parser, i: nat)
    requires Says(ds, p) && i < |Close(p).hosts|
    ensures ImportSays(ds, Named(Close(p).hosts)[i])
  {
    var raw := Close(p).hosts[i];
    if i < |p.hosts| {
      assert ClosedSays(ds, p.hosts[i]);
      var to :| HostAt(ds, to) && BlockSays(ds, raw, to);
      assert ImportSays(ds, Named(Close(p).hosts)[i]);
    } else {
      assert BlockSays(ds, raw, |ds|);
    }
  }

  /** A configuration can be imported if and only if each of its directives is sound; its blocks are then
      exactly those of its Host lines, each with the values given on its lines. */
  lemma ImportMeans(text: string)
    ensures var ds := Directives(Split(text));
            && (ParseImport(text).Hosts? <==> Sound(ds))
            && (ParseImport(text).Hosts? ==>
                  && (forall i :: 0 <= i < |ParseImport(text).blocks| ==> ImportSays(ds, ParseImport(text).blocks[i]))
                  && (forall k :: HostAt(ds, k) ==> HasLine(ParseImport(text).blocks, k + 1)))
  {
    var ds := Directives(Split(text));
    ReadByDirectives(Split(text));
    ReadIffSound(ds);
    if Sound(ds) {
      var p := Reads(ds);
      var hosts := Close(p).hosts;
      forall i | 0 <= i < |hosts| ensures ImportSays(ds, Named(hosts)[i]) { ClosedImport(ds, p, i); }
      forall k | HostAt(ds, k) ensures HasLine(Named(hosts), k + 1) {
        CloseHas(p, k + 1);
        NamedHas(hosts, k + 1);
      }
    }
  }

  lemma NamedHas(hosts: seq<Block>, line: int)
    requires HasLine(hosts, line)
    ensures HasLine(Named(hosts), line)
  {
    var i :| 0 <= i < |hosts| && hosts[i].line == line;
    assert Named(hosts)[i].line == line;
  }
}
