/** The two ways a configuration fails the trip, each at a text. */
module ConfigWitness {
  import opened Wrappers
  import opened Text
  import opened ConfigLines
  import opened ConfigTokens
  import opened ConfigNote
  import opened ConfigParse
  import opened ConfigBlocks
  import opened ConfigInstall
  import opened ConfigShift
  import opened ConfigRoundTrip
  import opened ConfigTheorem

  // ---------------------------------------------------------------- reading these lines

  predicate Plain(w: string) {
    w != "" && forall i :: 0 <= i < |w| ==> w[i] != '\"' && w[i] != '#' && w[i] != '=' && !Separator(w[i])
  }

  lemma NoEquals(w: string)
    requires Plain(w)
    ensures Index(w, '=') == None && w[0] != '='
  {
  }

  lemma TwoTokens(w: string, x: string)
    requires Plain(w) && Plain(x)
    ensures Tokenize(w + " " + x) == Some([w, x])
  {
    ScanWord(START, w);
    var t := Scan(START, w);
    assert t.cur == "" + w == w;
    ScanLast(START, w, ' ');
    var u := Step(t, ' ');
    assert u == Scanner([w], "", false, false, false);
    ScanAppend(START, w + [' '], x);
    ScanWord(u, x);
    assert u.cur + x == x && w + [' '] + x == w + " " + x && [w] + [x] == [w, x];
  }

  lemma TwoWords(w: string, x: string)
    requires Plain(w) && Plain(x)
    ensures SplitDirective(w + " " + x) == Directive(w, [x])
  {
    TwoTokens(w, x);
    NoEquals(w);
    NoEquals(x);
    assert [w, x][1..] == [x];
  }

  lemma Lower()
    ensures ToLower("Host") == "host" && ToLower("User") == "user"
  {
  }

  lemma HostLine(x: string)
    requires Plain(x)
    ensures SplitDirective("Host " + x) == Directive("Host", [x]) && IsHost("Host " + x)
  {
    TwoWords("Host", x);
    Lower();
    assert "Host" + " " == "Host ";
  }

  lemma UserLine(x: string)
    requires Plain(x)
    ensures SplitDirective("User " + x) == Directive("User", [x]) && IsField("User " + x)
  {
    TwoWords("User", x);
    Lower();
    assert "User" + " " == "User ";
  }

  lemma CommentLine(s: string)
    ensures SplitDirective("# " + s) == Blank
  {
    var line := "# " + s;
    assert line[0] == '#';
    ScanDone(Step(START, '#'), line[1..]);
  }

  /** A line that neither starts nor ends with white space, and whose third character is not that of a marker. */
  predicate NoMarker(raw: string) {
    |raw| > 2 && !IsSpace(raw[0]) && !IsSpace(raw[|raw| - 1]) && raw[2] != 'B' && raw[2] != 'E'
  }

  lemma MarkerThird(raw: string, x: string)
    requires NoMarker(raw) && x != "" && (x[0] == 'B' || x[0] == 'E')
    ensures TrimSpace(raw) != "# " + x
  {
    TrimNothing(raw);
    assert ("# " + x)[2] == x[0];
  }

  lemma ReadsDirective(p: Parser, raw: string, line: nat)
    requires NoMarker(raw) && !p.managed
    ensures Read(p, raw, line) == ReadDirective(p, SplitDirective(raw), line)
  {
    assert BEGIN[0] == TITLE[0] == 'B' && END[0] == 'E';
    MarkerThird(raw, BEGIN);
    MarkerThird(raw, END);
  }

  /** Reading one more line, given the parser before it. */
  lemma ReadOne(front: seq<string>, raw: string, p: Parser, d: Directive)
    requires NoMarker(raw) && ReadAll(front) == p && !p.managed && SplitDirective(raw) == d
    ensures ReadAll(front + [raw]) == ReadDirective(p, d, |front| + 1)
  {
    ReadLast(front + [raw], front, raw);
    ReadsDirective(p, raw, |front| + 1);
  }

  function BlockOf(line: nat, end: nat, alias: string, user: string): Block {
    Block(line, end, alias, "", user, 0, None, [])
  }

  predicate Letter(alias: string) {
    |alias| == 1 && 'a' <= alias[0] <= 'z'
  }

  lemma OneLetter(alias: string)
    requires Letter(alias)
    ensures Literal([alias]) && ToLower(alias) == alias && Plain(alias)
  {
    assert forall c :: c in alias ==> c == alias[0];
  }

  lemma Opens(p: Parser, alias: string, line: nat)
    requires Letter(alias) && alias !in p.aliases
    ensures OpenBlock(p, [alias], line) ==
            Close(p).(fields := {}, aliases := p.aliases + {alias}, current := Some(BlockOf(line, line, alias, "")))
  {
    OneLetter(alias);
  }

  lemma HostReads(p: Parser, alias: string, line: nat)
    ensures ReadDirective(p, Directive("Host", [alias]), line) == OpenBlock(p, [alias], line)
  {
    Lower();
  }

  /** Reading a Host line of an alias not seen before. */
  lemma ReadHost(front: seq<string>, raw: string, p: Parser, alias: string)
    requires NoMarker(raw) && ReadAll(front) == p && !p.managed && SplitDirective(raw) == Directive("Host", [alias])
    requires Letter(alias) && alias !in p.aliases
    ensures ReadAll(front + [raw]) ==
            Close(p).(fields := {}, aliases := p.aliases + {alias},
                current := Some(BlockOf(|front| + 1, |front| + 1, alias, "")))
  {
    ReadOne(front, raw, p, Directive("Host", [alias]));
    HostReads(p, alias, |front| + 1);
    Opens(p, alias, |front| + 1);
  }

  lemma ReadUser(front: seq<string>, raw: string, p: Parser, b: Block, user: string)
    requires NoMarker(raw) && ReadAll(front) == p && !p.managed && SplitDirective(raw) == Directive("User", [user])
    requires p.current == Some(b) && "user" !in p.fields
    ensures ReadAll(front + [raw]) ==
            p.(last := |front| + 1, fields := p.fields + {"user"}, current := Some(b.(user := user)))
  {
    ReadOne(front, raw, p, Directive("User", [user]));
    SetsUser(p, b, user, |front| + 1);
  }

  lemma SetsUser(p: Parser, b: Block, user: string, line: nat)
    requires p.current == Some(b) && "user" !in p.fields
    ensures ReadDirective(p, Directive("User", [user]), line) ==
            p.(last := line, fields := p.fields + {"user"}, current := Some(b.(user := user)))
  {
    Lower();
  }

  lemma Short(p: string, s: string)
    requires |s| < |p|
    ensures !Within(p, s)
  {
  }

  /** Short texts hold no marker. */
  lemma ShortUntouched(text: string)
    requires |text| <= 22
    ensures Untouched(text)
  {
    Short(MARKER_BEGIN, text);
    Short(MARKER_END, text);
    Short(SUPERSEDED, text);
  }

  lemma SplitThree(a: string, b: string, c: string)
    requires OneLine(a) && OneLine(b) && OneLine(c)
    ensures Split(a + "\n" + b + "\n" + c) == [a, b, c]
  {
    SplitFirst(a, b + "\n" + c);
    SplitFirst(b, c);
    SplitLine(c);
    assert a + "\n" + b + "\n" + c == a + "\n" + (b + "\n" + c);
    assert [a] + ([b] + [c]) == [a, b, c];
  }

  // ---------------------------------------------------------------- a block without a directive

  const ONE_HOST := Parser([], Some(BlockOf(1, 1, "a", "")), {"a"}, {}, 0, false, [])
  const TWO_HOSTS := Parser([BlockOf(1, 0, "a", "")], Some(BlockOf(2, 2, "b", "")), {"a", "b"}, {}, 0, false, [])

  lemma ReadFirst(a: string)
    requires NoMarker(a) && SplitDirective(a) == Directive("Host", ["a"])
    ensures ReadAll([a]) == ONE_HOST
  {
    ReadHost([], a, FRESH, "a");
    assert [] + [a] == [a];
  }

  lemma NextHost()
    ensures "b" !in ONE_HOST.aliases
    ensures Close(ONE_HOST).(fields := {}, aliases := ONE_HOST.aliases + {"b"},
              current := Some(BlockOf(2, 2, "b", ""))) == TWO_HOSTS
  {
    assert "b"[0] != "a"[0];
  }

  lemma ReadSecond(front: seq<string>, b: string)
    requires |front| == 1 && ReadAll(front) == ONE_HOST && NoMarker(b) && SplitDirective(b) == Directive("Host", ["b"])
    ensures ReadAll(front + [b]) == TWO_HOSTS
  {
    NextHost();
    ReadHost(front, b, ONE_HOST, "b");
  }

  lemma ReadThird(front: seq<string>, u: string)
    requires |front| == 2 && ReadAll(front) == TWO_HOSTS && NoMarker(u) && SplitDirective(u) == Directive("User", ["u"])
    ensures ReadAll(front + [u]) == TWO_HOSTS.(last := 3, fields := {"user"}, current := Some(BlockOf(2, 2, "b", "u")))
  {
    ReadUser(front, u, TWO_HOSTS, BlockOf(2, 2, "b", ""), "u");
  }

  // ---------------------------------------------------------------- the texts

  function Three(a: string, b: string, c: string): string {
    a + "\n" + b + "\n" + c
  }

  const OWN := "# " + "Host b"
  const BARE := Three("Host a", "Host b", "User u")
  const SWALLOWS := Three("Host a", "User u", OWN)

  lemma SplitBare()
    ensures Split(BARE) == ["Host a", "Host b", "User u"] && Untouched(BARE)
  {
    SplitThree("Host a", "Host b", "User u");
    ShortUntouched(BARE);
  }

  lemma SplitSwallows()
    ensures Split(SWALLOWS) == ["Host a", "User u", OWN] && Untouched(SWALLOWS)
  {
    SplitThree("Host a", "User u", OWN);
    ShortUntouched(SWALLOWS);
  }

  lemma TheHosts()
    ensures SplitDirective("Host a") == Directive("Host", ["a"]) && SplitDirective("Host b") == Directive("Host", ["b"])
  {
    HostLine("a");
    HostLine("b");
    assert "Host " + "a" == "Host a" && "Host " + "b" == "Host b";
  }

  lemma TheUser()
    ensures SplitDirective("User u") == Directive("User", ["u"]) && IsField("User u")
  {
    UserLine("u");
    assert "User " + "u" == "User u";
  }

  lemma TheComment()
    ensures SplitDirective(OWN) == Blank
  {
    CommentLine("Host b");
  }

  lemma NotMarkers()
    ensures NoMarker("Host a") && NoMarker("Host b") && NoMarker("User u") && NoMarker(OWN)
  {
  }

  /** The hosts of a text, given the parser at its end. */
  lemma ParsedAs(text: string, p: Parser)
    requires ReadAll(Split(text)) == p && p.problems == []
    ensures ParseImport(text) == Hosts(Named(Close(p).hosts))
  {
  }

  lemma FirstNamed(blocks: seq<Block>)
    requires blocks != [] && blocks[0].hostName == ""
    ensures blocks[0].(hostName := blocks[0].alias) in Named(blocks)
  {
    assert Named(blocks)[0] == blocks[0].(hostName := blocks[0].alias);
  }

  const BARE_END := TWO_HOSTS.(last := 3, fields := {"user"}, current := Some(BlockOf(2, 2, "b", "u")))

  lemma ReadBare(a: string, b: string, u: string)
    requires NoMarker(a) && NoMarker(b) && NoMarker(u) && SplitDirective(a) == Directive("Host", ["a"])
    requires SplitDirective(b) == Directive("Host", ["b"]) && SplitDirective(u) == Directive("User", ["u"])
    ensures ReadAll([a, b, u]) == BARE_END
  {
    ReadFirst(a);
    ReadSecond([a], b);
    assert [a] + [b] == [a, b] && [a, b] + [u] == [a, b, u];
    ReadThird([a, b], u);
  }

  lemma BareParses() returns (b: Block)
    ensures ParseImport(BARE).Hosts? && b in ParseImport(BARE).blocks && b.line == 1 && b.endLine == 0
  {
    SplitBare();
    TheHosts();
    TheUser();
    NotMarkers();
    ReadBare("Host a", "Host b", "User u");
    ParsedAs(BARE, BARE_END);
    FirstNamed(Close(BARE_END).hosts);
    b := BlockOf(1, 0, "a", "").(hostName := "a");
  }

  /** "Host a" directly followed by "Host b": the block of a cannot be commented out. */
  lemma BareBlockRefused() returns (b: Block)
    ensures Untouched(BARE) && ParseImport(BARE).Hosts? && b in ParseImport(BARE).blocks
    ensures CommentOutBlocks(BARE, [b]) == None && !HasDirective(Split(BARE), b.line)
  {
    b := BareParses();
    SplitBare();
    UntouchedLines(BARE);
    EndsBeforeIff(BARE, b);
    assert b in [b] && !SpanFits(b, |Split(BARE)|);
  }

  // ---------------------------------------------------------------- a line of the user's own that is swallowed

  const SWALLOWS_END := Parser([], Some(BlockOf(1, 1, "a", "u")), {"a"}, {"user"}, 2, false, [])

  lemma ReadBlank(front: seq<string>, raw: string, p: Parser)
    requires NoMarker(raw) && ReadAll(front) == p && !p.managed && SplitDirective(raw) == Blank
    ensures ReadAll(front + [raw]) == p
  {
    ReadOne(front, raw, p, Blank);
  }

  lemma ReadSwallows(a: string, u: string, c: string)
    requires NoMarker(a) && NoMarker(u) && NoMarker(c) && SplitDirective(a) == Directive("Host", ["a"])
    requires SplitDirective(u) == Directive("User", ["u"]) && SplitDirective(c) == Blank
    ensures ReadAll([a, u, c]) == SWALLOWS_END
  {
    ReadFirst(a);
    ReadUser([a], u, ONE_HOST, BlockOf(1, 1, "a", ""), "u");
    assert [a] + [u] == [a, u] && [a, u] + [c] == [a, u, c];
    ReadBlank([a, u], c, SWALLOWS_END);
  }

  lemma SwallowsParses() returns (b: Block)
    ensures ParseImport(SWALLOWS).Hosts? && b in ParseImport(SWALLOWS).blocks && b.line == 1 && b.endLine == 2
  {
    SplitSwallows();
    TheHosts();
    TheUser();
    TheComment();
    NotMarkers();
    ReadSwallows("Host a", "User u", OWN);
    ParsedAs(SWALLOWS, SWALLOWS_END);
    FirstNamed(Close(SWALLOWS_END).hosts);
    b := BlockOf(1, 2, "a", "u").(hostName := "a");
  }

  lemma CommentedDirective(words: Words, raw: string)
    requires raw != "" && !IsSpace(raw[0]) && !IsSpace(raw[|raw| - 1]) && BlockDirective(words, SplitDirective(raw))
    ensures CommentedBlockLine(words, "# " + raw)
  {
    TrimNothing(raw);
    assert ("# " + raw)[2..] == raw && ("# " + raw)[..2] == "# ";
  }

  lemma HostIsBlock(alias: string)
    ensures BlockDirective(OURS.words, Directive("Host", [alias]))
  {
    Lower();
    assert "host" in {"host"};
  }

  lemma CommentedHost(raw: string)
    requires NoMarker(raw) && SplitDirective(raw) == Directive("Host", ["b"])
    ensures CommentedBlockLine(OURS.words, "# " + raw)
  {
    HostIsBlock("b");
    CommentedDirective(OURS.words, raw);
  }

  lemma CommentedB()
    ensures CommentedBlockLine(OURS.words, OWN)
  {
    TheHosts();
    NotMarkers();
    CommentedHost("Host b");
  }

  lemma LastLineReads()
    ensures |Split(SWALLOWS)| == 3 && CommentedBlockLine(OURS.words, Split(SWALLOWS)[2])
  {
    SplitSwallows();
    CommentedB();
  }

  /** The trip of a text of three lines whose first two are a block and whose third reads as commented. */
  lemma SwallowedTrip(path: string, text: string, b: Block)
    requires PathOk(path) && Untouched(text) && Chosen(text, [b]) && b.line == 1 && b.endLine == 2
    requires |Split(text)| == 3 && CommentedBlockLine(OURS.words, Split(text)[2])
    ensures Trip(path, text, UpBlocks([b])).Some? && Trip(path, text, UpBlocks([b])) != Some(text)
  {
    ConfigComesBack(path, text, [b]);
    var commented := LinesOf([b], 3);
    assert b in [b] && Spanned([b], 2) && !Spanned([b], 3);
    assert 2 in commented && 3 !in commented;
  }

  lemma SwallowsChosen(b: Block)
    requires ParseImport(SWALLOWS).Hosts? && b in ParseImport(SWALLOWS).blocks && b.line == 1
    ensures Chosen(SWALLOWS, [b])
  {
    SplitSwallows();
    TheUser();
    var lines := Split(SWALLOWS);
    assert IsField(lines[1]) && NoHost(lines, 1, 1);
  }

  /** A block followed by the user's own comment "# Host b": the trip gives back another text. */
  lemma OwnLineUncommented(path: string) returns (b: Block)
    requires PathOk(path)
    ensures Untouched(SWALLOWS) && ParseImport(SWALLOWS).Hosts? && b in ParseImport(SWALLOWS).blocks
    ensures Trip(path, SWALLOWS, UpBlocks([b])).Some? && Trip(path, SWALLOWS, UpBlocks([b])) != Some(SWALLOWS)
  {
    b := SwallowsParses();
    SwallowsChosen(b);
    SplitSwallows();
    LastLineReads();
    SwallowedTrip(path, SWALLOWS, b);
  }
}
