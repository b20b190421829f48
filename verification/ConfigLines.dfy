/** Lines of a text, and texts within texts. */
module ConfigLines {
  import opened Text

  predicate OneLine(s: string) {
    '\n' !in s
  }

  predicate AllOneLine(lines: seq<string>) {
    forall i :: 0 <= i < |lines| ==> OneLine(lines[i])
  }

  /** The lines of a text; a text has at least one. */
  function Split(s: string): (lines: seq<string>)
    ensures lines != [] && AllOneLine(lines)
  {
    if s == "" then [""]
    else
      var rest := Split(s[1..]);
      if s[0] == '\n' then [""] + rest else [[s[0]] + rest[0]] + rest[1..]
  }

  function Join(lines: seq<string>): string {
    if lines == [] then "" else if |lines| == 1 then lines[0] else lines[0] + "\n" + Join(lines[1..])
  }

  lemma {:induction false} JoinSplit(s: string)
    ensures Join(Split(s)) == s
  {
    if s != "" {
      JoinSplit(s[1..]);
      var rest := Split(s[1..]);
      assert s == [s[0]] + s[1..];
      if s[0] == '\n' {
        assert ([""] + rest)[1..] == rest;
        assert "" + "\n" + Join(rest) == s;
      } else {
        var lines := [[s[0]] + rest[0]] + rest[1..];
        assert lines[1..] == rest[1..];
        if |rest| > 1 {
          assert [s[0]] + rest[0] + "\n" + Join(rest[1..]) == [s[0]] + (rest[0] + "\n" + Join(rest[1..]));
        }
      }
    }
  }

  lemma {:induction false} SplitLine(s: string)
    requires OneLine(s)
    ensures Split(s) == [s]
  {
    if s != "" {
      SplitLine(s[1..]);
      assert s == [s[0]] + s[1..];
    }
  }

  lemma {:induction false} SplitFirst(s: string, rest: string)
    requires OneLine(s)
    ensures Split(s + "\n" + rest) == [s] + Split(rest)
  {
    var whole := s + "\n" + rest;
    if s == "" {
      assert whole[1..] == rest;
    } else {
      assert OneLine(s[1..]);
      SplitFirst(s[1..], rest);
      assert whole[1..] == s[1..] + "\n" + rest;
      assert s == [s[0]] + s[1..];
    }
  }

  lemma {:induction false} SplitJoin(lines: seq<string>)
    requires lines != [] && AllOneLine(lines)
    ensures Split(Join(lines)) == lines
  {
    if |lines| == 1 {
      SplitLine(lines[0]);
    } else {
      SplitJoin(lines[1..]);
      SplitFirst(lines[0], Join(lines[1..]));
      assert lines == [lines[0]] + lines[1..];
    }
  }

  // ---------------------------------------------------------------- texts within texts

  predicate At(p: string, s: string, i: nat) {
    i + |p| <= |s| && s[i..i + |p|] == p
  }

  predicate Within(p: string, s: string) {
    exists i :: 0 <= i <= |s| && At(p, s, i)
  }

  lemma WithinPart(p: string, a: string, b: string, c: string)
    requires Within(p, b)
    ensures Within(p, a + b + c)
  {
    var i :| 0 <= i <= |b| && At(p, b, i);
    assert (a + b + c)[|a| + i..|a| + i + |p|] == b[i..i + |p|];
    assert At(p, a + b + c, |a| + i);
  }

  lemma WithinSelf(p: string, rest: string)
    ensures Within(p, p + rest)
  {
    assert At(p, p + rest, 0);
  }

  lemma {:induction false} WithinLine(p: string, lines: seq<string>, i: nat)
    requires i < |lines| && Within(p, lines[i])
    ensures Within(p, Join(lines))
  {
    if |lines| > 1 {
      if i == 0 {
        WithinPart(p, "", lines[0], "\n" + Join(lines[1..]));
        assert "" + lines[0] + ("\n" + Join(lines[1..])) == Join(lines);
      } else {
        WithinLine(p, lines[1..], i - 1);
        WithinPart(p, lines[0] + "\n", Join(lines[1..]), "");
        assert (lines[0] + "\n") + Join(lines[1..]) + "" == Join(lines);
      }
    }
  }

  lemma {:induction false} WithinTrimLeft(p: string, s: string)
    requires Within(p, TrimLeft(s))
    ensures Within(p, s)
  {
    if s != "" && IsSpace(s[0]) {
      WithinTrimLeft(p, s[1..]);
      WithinPart(p, [s[0]], s[1..], "");
      assert [s[0]] + s[1..] + "" == s;
    }
  }

  lemma {:induction false} WithinTrimRight(p: string, s: string)
    requires Within(p, TrimRight(s))
    ensures Within(p, s)
  {
    if s != "" && IsSpace(s[|s| - 1]) {
      WithinTrimRight(p, s[..|s| - 1]);
      WithinPart(p, "", s[..|s| - 1], [s[|s| - 1]]);
      assert "" + s[..|s| - 1] + [s[|s| - 1]] == s;
    }
  }

  /** A text that is not in a file is not a line of it, however it is indented. */
  lemma NotALine(p: string, s: string, i: nat)
    requires i < |Split(s)| && !Within(p, s)
    ensures TrimSpace(Split(s)[i]) != p && !(p <= Split(s)[i])
  {
    var line := Split(s)[i];
    JoinSplit(s);
    if TrimSpace(line) == p {
      WithinSelf(p, "");
      assert p + "" == p;
      WithinTrimRight(p, TrimLeft(line));
      WithinTrimLeft(p, line);
      WithinLine(p, Split(s), i);
    }
    if p <= line {
      WithinSelf(p, line[|p|..]);
      assert p + line[|p|..] == line;
      WithinLine(p, Split(s), i);
    }
  }
}
