/** Installing the managed include at the head of a configuration and taking it out again. */
module ConfigInstall {
  import opened Wrappers
  import opened ConfigLines
  import opened ConfigParse

  /** The first place a text occurs in another. */
  function Search(s: string, p: string): (i: Option<nat>)
    ensures i.Some? ==> At(p, s, i.value)
  {
    if p <= s then Some(0)
    else if s == "" then None
    else match Search(s[1..], p)
      case None => None
      case Some(i) => assert s[i + 1..i + 1 + |p|] == s[1..][i..i + |p|]; Some(i + 1)
  }

  lemma {:induction false} SearchFinds(s: string, p: string, i: nat)
    requires At(p, s, i)
    ensures Search(s, p).Some? && Search(s, p).value <= i
  {
    if !(p <= s) {
      assert s[1..][i - 1..i - 1 + |p|] == s[i..i + |p|];
      SearchFinds(s[1..], p, i - 1);
    }
  }

  lemma SearchNone(s: string, p: string)
    requires !Within(p, s)
    ensures Search(s, p).None?
  {
  }

  function Managed(path: string): string {
    MARKER_BEGIN + "\n" + ("Include " + path + "\n" + (MARKER_END + "\n"))
  }

  /** This place, or the one after the line end there. */
  function PastLine(body: string, end: nat): nat {
    if end < |body| && body[end] == '\n' then end + 1 else end
  }

  /** Where a block between two markers begins and ends, its line end included. */
  function FindBetween(body: string, opener: string, closer: string): Option<(nat, nat)> {
    match Search(body, opener)
    case None => None
    case Some(begin) =>
      match Search(body[begin..], closer)
      case None => None
      case Some(at) =>
        Some((begin, PastLine(body, begin + at + |closer|)))
  }

  function FindBlock(body: string): Option<(nat, nat)> {
    FindBetween(body, MARKER_BEGIN, MARKER_END)
  }

  function Install(path: string, original: string): string {
    if FindBlock(original).Some? then original
    else if original == "" then Managed(path) else Managed(path) + ("\n" + original)
  }

  lemma FindBounds(body: string, opener: string, closer: string)
    requires FindBetween(body, opener, closer).Some?
    ensures FindBetween(body, opener, closer).value.0 <= FindBetween(body, opener, closer).value.1 <= |body|
  {
  }

  /** The text without this part and the line end after it. */
  function Without(body: string, start: nat, end: nat): string
    requires start <= end <= |body|
  {
    var rest := body[end..];
    body[..start] + if rest != "" && rest[0] == '\n' then rest[1..] else rest
  }

  /** The text without its block. */
  function TakenOut(body: string, opener: string, closer: string): string {
    match FindBetween(body, opener, closer)
    case None => body
    case Some(block) =>
      FindBounds(body, opener, closer);
      Without(body, block.0, block.1)
  }

  function Uninstall(body: string): string {
    TakenOut(body, MARKER_BEGIN, MARKER_END)
  }

  // ---------------------------------------------------------------- finding the block again

  lemma WithinTail(p: string, s: string)
    requires s != "" && Within(p, s[1..])
    ensures Within(p, s)
  {
    WithinPart(p, [s[0]], s[1..], "");
    assert [s[0]] + s[1..] + "" == s;
  }

  lemma NotPrefix(line: string, rest: string, p: string)
    requires p != "" && OneLine(p) && !Within(p, line)
    ensures !(p <= line + "\n" + rest)
  {
    var s := line + "\n" + rest;
    assert s[|line|] == '\n' && s[..|line|] == line;
    if |p| > |line| {
      assert p[|line|] != '\n';
    } else {
      assert !At(p, line, 0);
      assert s[..|p|] == line[..|p|];
    }
  }

  /** A search for a one-line text passes over a line it is not in. */
  lemma {:induction false} SearchPast(line: string, rest: string, p: string)
    requires p != "" && OneLine(p) && !Within(p, line)
    ensures Search(line + "\n" + rest, p) ==
            match Search(rest, p) case None => None case Some(i) => Some(|line| + 1 + i)
  {
    var s := line + "\n" + rest;
    NotPrefix(line, rest, p);
    if line == "" {
      assert s[1..] == rest;
    } else {
      if Within(p, line[1..]) { WithinTail(p, line); }
      SearchPast(line[1..], rest, p);
      assert s[1..] == line[1..] + "\n" + rest;
    }
  }

  /** One comment is not within another that starts differently. */
  lemma NotWithin(x: string, y: string)
    requires x != "" && y != "" && x[0] != y[0] && '#' !in x
    ensures !Within("# " + y, "# " + x)
  {
    var s, p := "# " + x, "# " + y;
    forall i | 0 <= i <= |s| ensures !At(p, s, i) {
      if i + |p| <= |s| {
        assert s[i..i + |p|][0] == s[i] && s[i..i + |p|][2] == s[i + 2] && p[2] == y[0];
        assert i >= 2 ==> s[i] == x[i - 2];
      }
    }
  }

  lemma NotWithinPath(before: string, path: string, y: string)
    requires '#' !in before && !Within("# " + y, path)
    ensures !Within("# " + y, before + path)
  {
    var s, p := before + path, "# " + y;
    forall i | 0 <= i <= |s| ensures !At(p, s, i) {
      if i + |p| <= |s| {
        assert s[i..i + |p|][0] == s[i] && (i < |before| ==> s[i] == before[i]);
        if i >= |before| {
          assert path[i - |before|..i - |before| + |p|] == s[i..i + |p|];
          assert !At(p, path, i - |before|);
        }
      }
    }
  }

  /** The closing line of a block is found after its two lines before. */
  lemma CloserFound(begin: string, line: string, closer: string, rest: string)
    requires closer != "" && OneLine(closer) && !Within(closer, begin) && !Within(closer, line)
    ensures Search(begin + "\n" + (line + "\n" + (closer + rest)), closer) == Some(|begin| + |line| + 2)
  {
    SearchPast(begin, line + "\n" + (closer + rest), closer);
    SearchPast(line, closer + rest, closer);
    FoundHere(closer, rest);
  }

  lemma FoundHere(p: string, rest: string)
    ensures Search(p + rest, p) == Some(0)
  {
  }

  /** Taking out the managed block leaves what follows it and one line end. */
  lemma TakeOut(begin: string, line: string, closer: string, rest: string, body: string)
    requires body == begin + "\n" + (line + "\n" + (closer + ("\n" + rest)))
    ensures begin <= body
    ensures var end := |begin| + |line| + 2 + |closer|; end < |body| && body[end] == '\n' && body[end + 1..] == rest
  {
    var tail := closer + ("\n" + rest);
    assert body[|begin| + 1..] == line + "\n" + tail;
    assert body[|begin| + |line| + 2..] == tail;
    assert tail[|closer|] == '\n' && tail[|closer| + 1..] == rest;
  }

  lemma TitleFacts()
    ensures '\n' !in TITLE && '#' !in TITLE && TITLE != "" && TITLE[0] == 'B'
  {
  }

  lemma WarningFacts()
    ensures '\n' !in WARNING && '#' !in WARNING
  {
  }

  lemma EndFacts()
    ensures '\n' !in END && END != "" && END[0] == 'E' && '#' !in "Include "
  {
  }

  lemma BothLack(a: string, b: string, c: char)
    requires c !in a && c !in b
    ensures c !in a + b
  {
  }

  lemma MarkerFacts()
    ensures OneLine(MARKER_BEGIN) && OneLine(MARKER_END) && '#' !in "Include "
    ensures BEGIN != "" && END != "" && BEGIN[0] != END[0] && '#' !in BEGIN
  {
    TitleFacts();
    WarningFacts();
    EndFacts();
    BothLack(TITLE, WARNING, '#');
    BothLack(TITLE, WARNING, '\n');
    BothLack("# ", BEGIN, '\n');
    BothLack("# ", END, '\n');
  }

  /** A path the include can name. */
  predicate PathOk(path: string) {
    OneLine(path) && !Within(MARKER_END, path)
  }

  lemma ManagedText(path: string, rest: string)
    ensures Managed(path) + rest == MARKER_BEGIN + "\n" + ("Include " + path + "\n" + (MARKER_END + ("\n" + rest)))
  {
    Regroup(MARKER_BEGIN, "Include " + path, MARKER_END, rest);
  }

  lemma Regroup(a: string, b: string, c: string, rest: string)
    ensures a + "\n" + (b + "\n" + (c + "\n")) + rest == a + "\n" + (b + "\n" + (c + ("\n" + rest)))
  {
  }

  lemma FindManaged(path: string, rest: string)
    requires PathOk(path)
    ensures FindBlock(Managed(path) + rest) == Some((0, |Managed(path)|))
  {
    var body := Managed(path) + rest;
    MarkerFacts();
    NotWithin(BEGIN, END);
    NotWithinPath("Include ", path, END);
    ManagedText(path, rest);
    CloserFound(MARKER_BEGIN, "Include " + path, MARKER_END, "\n" + rest);
    TakeOut(MARKER_BEGIN, "Include " + path, MARKER_END, rest, body);
    assert body[0..] == body;
  }

  /** Uninstalling gives back whatever the managed block was put before. */
  lemma UninstallBack(path: string, original: string)
    requires PathOk(path)
    ensures Uninstall(Managed(path)) == "" && Uninstall(Managed(path) + ("\n" + original)) == original
  {
    FindManaged(path, "");
    assert Managed(path) + "" == Managed(path);
    FindManaged(path, "\n" + original);
    var body := Managed(path) + ("\n" + original);
    assert body[|Managed(path)|..] == "\n" + original && ("\n" + original)[1..] == original;
    assert body[..0] + original == original;
  }

  lemma InstalledFound(path: string, original: string)
    requires PathOk(path)
    ensures FindBlock(Install(path, original)).Some?
  {
    if FindBlock(original).None? {
      FindManaged(path, if original == "" then "" else "\n" + original);
      assert Managed(path) + "" == Managed(path);
    }
  }

  /** Installing twice, under the same path or another, is installing once. */
  lemma InstallTwice(path: string, again: string, original: string)
    requires PathOk(path)
    ensures Install(again, Install(path, original)) == Install(path, original)
  {
    InstalledFound(path, original);
  }

  // ---------------------------------------------------------------- a block in the middle

  /** Whole lines. */
  predicate WholeLines(s: string) {
    s == "" || s[|s| - 1] == '\n'
  }

  lemma NotAcross(before: string, rest: string, p: string, i: nat)
    requires p != "" && OneLine(p) && WholeLines(before) && !Within(p, before) && i < |before|
    ensures !At(p, before + rest, i)
  {
    var s := before + rest;
    if i + |p| <= |before| {
      assert before[i..i + |p|] == s[i..i + |p|];
      assert !At(p, before, i);
    } else if i + |p| <= |s| {
      var k := |before| - 1 - i;
      assert s[i..i + |p|][k] == s[|before| - 1] == before[|before| - 1];
      assert p[k] != '\n';
    }
  }

  /** A search for a one-line text passes over whole lines it is not in. */
  lemma {:induction false} SearchSkips(before: string, rest: string, p: string)
    requires p != "" && OneLine(p) && p <= rest && WholeLines(before) && !Within(p, before)
    ensures Search(before + rest, p) == Some(|before|)
  {
    var s := before + rest;
    assert s[|before|..] == rest && s[|before|..|before| + |p|] == rest[..|p|] == p;
    assert At(p, s, |before|);
    SearchFinds(s, p, |before|);
    var i := Search(s, p).value;
    if i < |before| { NotAcross(before, rest, p, i); }
  }

  /** A text that starts with its block, of this length. */
  predicate Starts(tail: string, opener: string, closer: string, size: nat) {
    opener != "" && OneLine(opener) && opener <= tail && FindBetween(tail, opener, closer) == Some((0, size))
  }

  lemma BetweenIs(body: string, start: nat, tail: string, at: nat, opener: string, closer: string)
    requires Search(body, opener) == Some(start) && body[start..] == tail && Search(tail, closer) == Some(at)
    ensures FindBetween(body, opener, closer) == Some((start, PastLine(body, start + at + |closer|)))
  {
  }

  lemma BetweenFrom(tail: string, opener: string, closer: string, size: nat) returns (at: nat)
    requires FindBetween(tail, opener, closer) == Some((0, size))
    ensures Search(tail, closer) == Some(at) && size == PastLine(tail, at + |closer|)
  {
    assert tail[0..] == tail;
    at := Search(tail, closer).value;
  }

  /** A block found at the head of a text is found where that text begins. */
  lemma FoundFrom(body: string, start: nat, tail: string, opener: string, closer: string, size: nat)
    requires start <= |body| && body[start..] == tail && Search(body, opener) == Some(start)
    requires FindBetween(tail, opener, closer) == Some((0, size))
    ensures FindBetween(body, opener, closer) == Some((start, start + size))
  {
    var at := BetweenFrom(tail, opener, closer, size);
    BetweenIs(body, start, tail, at, opener, closer);
    PastLineBelow(body, start, tail, at + |closer|);
  }

  lemma PastLineBelow(body: string, start: nat, tail: string, end: nat)
    requires start <= |body| && body[start..] == tail
    ensures PastLine(body, start + end) == start + PastLine(tail, end)
  {
  }

  lemma FoundBelow(before: string, tail: string, opener: string, closer: string, size: nat)
    requires Starts(tail, opener, closer, size) && WholeLines(before) && !Within(opener, before)
    ensures FindBetween(before + tail, opener, closer) == Some((|before|, |before| + size))
  {
    SearchSkips(before, tail, opener);
    FoundFrom(before + tail, |before|, tail, opener, closer, size);
  }

  lemma ManagedStarts(path: string, rest: string)
    ensures MARKER_BEGIN <= Managed(path) + rest
  {
    ManagedText(path, rest);
  }

  lemma BeginOneLine(opener: string)
    requires opener == MARKER_BEGIN
    ensures opener != "" && OneLine(opener)
  {
    MarkerFacts();
  }

  lemma ManagedIs(path: string, rest: string)
    requires PathOk(path)
    ensures Starts(Managed(path) + rest, MARKER_BEGIN, MARKER_END, |Managed(path)|)
  {
    BeginOneLine(MARKER_BEGIN);
    FindManaged(path, rest);
    ManagedStarts(path, rest);
  }

  lemma CutOut(before: string, block: string, after: string)
    ensures Without(before + (block + ("\n" + after)), |before|, |before| + |block|) == before + after
  {
    var body := before + (block + ("\n" + after));
    assert body[..|before|] == before && body[|before|..] == block + ("\n" + after);
    assert body[|before| + |block|..] == "\n" + after && ("\n" + after)[1..] == after;
  }

  /** A block below whole lines without its first marker is taken out, and nothing else. */
  lemma TakenOutBelow(before: string, block: string, after: string, opener: string, closer: string)
    requires Starts(block + ("\n" + after), opener, closer, |block|) && WholeLines(before) && !Within(opener, before)
    ensures TakenOut(before + (block + ("\n" + after)), opener, closer) == before + after
  {
    FoundBelow(before, block + ("\n" + after), opener, closer, |block|);
    CutOut(before, block, after);
    TakenOutIs(before + (block + ("\n" + after)), |before|, |before| + |block|, opener, closer);
  }

  lemma TakenOutIs(body: string, start: nat, end: nat, opener: string, closer: string)
    requires start <= end <= |body| && FindBetween(body, opener, closer) == Some((start, end))
    ensures TakenOut(body, opener, closer) == Without(body, start, end)
  {
  }

  /** Wherever the block has come to stand, uninstalling takes out the block and the blank line after it, and
      leaves everything before and after. */
  lemma UninstallAmid(before: string, path: string, after: string)
    requires PathOk(path) && WholeLines(before) && !Within(MARKER_BEGIN, before)
    ensures Uninstall(before + (Managed(path) + ("\n" + after))) == before + after
  {
    ManagedIs(path, "\n" + after);
    TakenOutBelow(before, Managed(path), after, MARKER_BEGIN, MARKER_END);
  }

  /** A configuration without the block is left alone. */
  lemma UninstallNothing(text: string)
    requires !Within(MARKER_BEGIN, text)
    ensures Uninstall(text) == text
  {
    SearchNone(text, MARKER_BEGIN);
  }
}
