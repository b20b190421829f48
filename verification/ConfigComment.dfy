/** Commenting host blocks out of a configuration and reactivating them, line by line. */
module ConfigComment {
  import opened ConfigLines
  import opened ConfigTokens

  /** How blocks are marked: the keywords of a block, how a note starts, and the note itself. */
  datatype Style = Style(words: Words, mark: string, note: string)

  predicate IsNote(s: Style, line: string) {
    s.mark <= line
  }

  /** The note is recognized, and is not taken for a commented line. */
  ghost predicate StyleOk(s: Style) {
    Letters(s.words) && IsNote(s, s.note) && !CommentedBlockLine(s.words, s.note)
  }

  /** The first k lines with those numbered in the set commented out; a run of them gets one note. */
  function CommentOut(s: Style, lines: seq<string>, commented: set<nat>, k: nat): seq<string>
    requires k <= |lines|
  {
    if k == 0 then []
    else
      CommentOut(s, lines, commented, k - 1) +
      if k !in commented then [lines[k - 1]]
      else if k - 1 in commented then ["# " + lines[k - 1]] else [s.note, "# " + lines[k - 1]]
  }

  // ---------------------------------------------------------------- reactivating

  /** The reader of commented runs: what it wrote, whether it is inside a run, how many lines it uncommented. */
  datatype Reader = Reader(out: seq<string>, run: bool, lines: nat)

  /** Without the comment sign and one space. */
  function Uncomment(line: string): string {
    var body := if line != "" && line[0] == '#' then line[1..] else line;
    if body != "" && body[0] == ' ' then body[1..] else body
  }

  function ReadLine(s: Style, r: Reader, line: string): Reader {
    if r.run && CommentedBlockLine(s.words, line) then Reader(r.out + [Uncomment(line)], true, r.lines + 1)
    else if IsNote(s, line) then Reader(r.out, true, r.lines)
    else Reader(r.out + [line], false, r.lines)
  }

  function ReadLines(s: Style, lines: seq<string>): Reader {
    if lines == [] then Reader([], false, 0) else ReadLine(s, ReadLines(s, lines[..|lines| - 1]), lines[|lines| - 1])
  }

  lemma ReadSnoc(s: Style, lines: seq<string>, line: string)
    ensures ReadLines(s, lines + [line]) == ReadLine(s, ReadLines(s, lines), line)
  {
    assert (lines + [line])[..|lines|] == lines;
  }

  /** Whether line k follows a commented run through lines that all read as commented. */
  predicate InRun(s: Style, lines: seq<string>, commented: set<nat>, k: nat)
    requires k <= |lines|
  {
    k in commented || (k > 0 && InRun(s, lines, commented, k - 1) && CommentedBlockLine(s.words, lines[k - 1]))
  }

  /** A line of the user's own that a reactivation takes for part of a commented run. */
  predicate Swallowed(s: Style, lines: seq<string>, commented: set<nat>, k: nat)
    requires 0 < k <= |lines|
  {
    k !in commented && InRun(s, lines, commented, k - 1) && CommentedBlockLine(s.words, lines[k - 1])
  }

  /** What reactivating gives: the lines as they were, but for those it takes for commented ones. */
  function Restored(s: Style, lines: seq<string>, commented: set<nat>, k: nat): seq<string>
    requires k <= |lines|
  {
    if k == 0 then []
    else
      Restored(s, lines, commented, k - 1) +
      [if Swallowed(s, lines, commented, k) then Uncomment(lines[k - 1]) else lines[k - 1]]
  }

  /** The lines to comment out are lines of host blocks, and no line is a note already. */
  ghost predicate Reversible(s: Style, lines: seq<string>, commented: set<nat>) {
    && StyleOk(s) && 0 !in commented
    && (forall k :: k in commented && 0 < k <= |lines| ==> BlockLine(s.words, lines[k - 1]))
    && (forall k :: 0 <= k < |lines| ==> !IsNote(s, lines[k]))
  }

  lemma UncommentBack(raw: string)
    ensures Uncomment("# " + raw) == raw
  {
  }

  lemma ReadOwn(s: Style, r: Reader, line: string)
    requires !IsNote(s, line)
    ensures ReadLine(s, r, line) ==
            if r.run && CommentedBlockLine(s.words, line) then Reader(r.out + [Uncomment(line)], true, r.lines + 1)
            else Reader(r.out + [line], false, r.lines)
  {
  }

  lemma ReadCommented(s: Style, r: Reader, raw: string)
    requires StyleOk(s) && r.run && BlockLine(s.words, raw)
    ensures ReadLine(s, r, "# " + raw) == Reader(r.out + [raw], true, r.lines + 1)
  {
    BlockLineFound(s.words, raw);
    UncommentBack(raw);
  }

  lemma ReadNote(s: Style, r: Reader)
    requires StyleOk(s)
    ensures ReadLine(s, r, s.note) == Reader(r.out, true, r.lines)
  {
  }

  /** A commented line with the note before it reads back. */
  lemma ReadRun(s: Style, front: seq<string>, raw: string)
    requires StyleOk(s) && BlockLine(s.words, raw)
    ensures ReadLines(s, front + [s.note, "# " + raw]) ==
            Reader(ReadLines(s, front).out + [raw], true, ReadLines(s, front).lines + 1)
  {
    ReadSnoc(s, front, s.note);
    ReadNote(s, ReadLines(s, front));
    ReadSnoc(s, front + [s.note], "# " + raw);
    ReadCommented(s, ReadLines(s, front + [s.note]), raw);
    assert front + [s.note, "# " + raw] == front + [s.note] + ["# " + raw];
  }

  /** Reactivating what was commented out, line by line. */
  lemma {:induction false} ReactivateIs(s: Style, lines: seq<string>, commented: set<nat>, k: nat)
    requires k <= |lines| && Reversible(s, lines, commented)
    ensures ReadLines(s, CommentOut(s, lines, commented, k)).out == Restored(s, lines, commented, k)
    ensures ReadLines(s, CommentOut(s, lines, commented, k)).run == InRun(s, lines, commented, k)
  {
    if k > 0 {
      ReactivateIs(s, lines, commented, k - 1);
      var front, line := CommentOut(s, lines, commented, k - 1), lines[k - 1];
      var r := ReadLines(s, front);
      if k !in commented {
        ReadSnoc(s, front, line);
        OwnRestored(s, lines, commented, k, r);
      } else if k - 1 in commented {
        ReadSnoc(s, front, "# " + line);
        ReadCommented(s, r, line);
      } else {
        ReadRun(s, front, line);
      }
    }
  }

  /** The user's own line is kept, or swallowed by the run before it. */
  lemma OwnRestored(s: Style, lines: seq<string>, commented: set<nat>, k: nat, r: Reader)
    requires 0 < k <= |lines| && k !in commented && !IsNote(s, lines[k - 1])
    requires r.out == Restored(s, lines, commented, k - 1) && r.run == InRun(s, lines, commented, k - 1)
    ensures ReadLine(s, r, lines[k - 1]).out == Restored(s, lines, commented, k)
    ensures ReadLine(s, r, lines[k - 1]).run == InRun(s, lines, commented, k)
  {
    ReadOwn(s, r, lines[k - 1]);
  }

  lemma {:induction false} CommentedOneLine(s: Style, lines: seq<string>, commented: set<nat>, k: nat)
    requires k <= |lines| && AllOneLine(lines) && OneLine(s.note)
    ensures AllOneLine(CommentOut(s, lines, commented, k)) && (k > 0 ==> CommentOut(s, lines, commented, k) != [])
  {
    if k > 0 {
      CommentedOneLine(s, lines, commented, k - 1);
      assert OneLine(lines[k - 1]) && OneLine("# " + lines[k - 1]);
    }
  }

  lemma {:induction false} RestoredOneLine(s: Style, lines: seq<string>, commented: set<nat>, k: nat)
    requires k <= |lines| && AllOneLine(lines)
    ensures AllOneLine(Restored(s, lines, commented, k)) && |Restored(s, lines, commented, k)| == k
  {
    if k > 0 {
      RestoredOneLine(s, lines, commented, k - 1);
      assert OneLine(lines[k - 1]) && OneLine(Uncomment(lines[k - 1]));
    }
  }

  /** When a line was commented out there is a note. */
  lemma {:induction false} Noted(s: Style, lines: seq<string>, commented: set<nat>, k: nat, n: nat)
    requires 0 !in commented && 0 < n <= k <= |lines| && n in commented
    ensures s.note in CommentOut(s, lines, commented, k)
    decreases k
  {
    if n < k {
      Noted(s, lines, commented, k - 1, n);
    } else if k - 1 in commented {
      Noted(s, lines, commented, k - 1, k - 1);
    } else {
      assert [s.note, "# " + lines[k - 1]][0] == s.note;
    }
  }

  lemma CountGrows(s: Style, lines: seq<string>, line: string)
    ensures ReadLines(s, lines + [line]).lines >= ReadLines(s, lines).lines
  {
    ReadSnoc(s, lines, line);
  }

  /** When a line was commented out there is a line to uncomment. */
  lemma {:induction false} Counted(s: Style, lines: seq<string>, commented: set<nat>, k: nat, n: nat)
    requires Reversible(s, lines, commented) && 0 < n <= k <= |lines| && n in commented
    ensures ReadLines(s, CommentOut(s, lines, commented, k)).lines > 0
    decreases k
  {
    var front, line := CommentOut(s, lines, commented, k - 1), lines[k - 1];
    if k !in commented {
      Counted(s, lines, commented, k - 1, n);
      CountGrows(s, front, line);
    } else if k - 1 in commented {
      Counted(s, lines, commented, k - 1, k - 1);
      CountGrows(s, front, "# " + line);
    } else {
      ReadRun(s, front, line);
    }
  }

  // ---------------------------------------------------------------- when nothing is swallowed

  /** The line after each commented run does not itself read as a commented one. */
  ghost predicate CleanEnds(s: Style, lines: seq<string>, commented: set<nat>) {
    forall k :: k in commented && 0 < k < |lines| && k + 1 !in commented ==> !CommentedBlockLine(s.words, lines[k])
  }

  lemma {:induction false} SwallowStarts(s: Style, lines: seq<string>, commented: set<nat>, k: nat)
    requires 0 !in commented && 0 < k <= |lines| && Swallowed(s, lines, commented, k)
    ensures !CleanEnds(s, lines, commented)
  {
    if k - 1 !in commented { SwallowStarts(s, lines, commented, k - 1); }
  }

  lemma UncommentChanges(words: Words, line: string)
    requires CommentedBlockLine(words, line)
    ensures Uncomment(line) != line
  {
    assert line[0] == '#' && |Uncomment(line)| < |line|;
  }

  lemma {:induction false} RestoredAt(s: Style, lines: seq<string>, commented: set<nat>, k: nat, i: nat)
    requires i < k <= |lines|
    ensures |Restored(s, lines, commented, k)| == k
    ensures Restored(s, lines, commented, k)[i] ==
            if Swallowed(s, lines, commented, i + 1) then Uncomment(lines[i]) else lines[i]
  {
    if k > 1 { RestoredAt(s, lines, commented, k - 1, if i < k - 1 then i else 0); }
  }

  lemma RestoredSame(s: Style, lines: seq<string>, commented: set<nat>, i: nat)
    requires i < |lines|
    ensures |Restored(s, lines, commented, |lines|)| == |lines|
    ensures Restored(s, lines, commented, |lines|)[i] == lines[i] <==> !Swallowed(s, lines, commented, i + 1)
  {
    RestoredAt(s, lines, commented, |lines|, i);
    if Swallowed(s, lines, commented, i + 1) { UncommentChanges(s.words, lines[i]); }
  }

  /** The lines come back exactly when nothing after a commented run reads as part of it. */
  lemma RestoredIff(s: Style, lines: seq<string>, commented: set<nat>)
    requires lines != [] && 0 !in commented
    ensures Restored(s, lines, commented, |lines|) == lines <==> CleanEnds(s, lines, commented)
  {
    var out := Restored(s, lines, commented, |lines|);
    RestoredSame(s, lines, commented, 0);
    if CleanEnds(s, lines, commented) {
      forall i | 0 <= i < |lines| ensures out[i] == lines[i] {
        RestoredSame(s, lines, commented, i);
        if Swallowed(s, lines, commented, i + 1) { SwallowStarts(s, lines, commented, i + 1); }
      }
    } else {
      var k :| k in commented && 0 < k < |lines| && k + 1 !in commented && CommentedBlockLine(s.words, lines[k]);
      RestoredSame(s, lines, commented, k);
    }
  }
}
