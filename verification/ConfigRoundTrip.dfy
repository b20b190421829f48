/** Installing the include, commenting out imported blocks, uninstalling and reactivating: when the
    user's configuration comes back exactly. */
module ConfigRoundTrip {
  import opened Wrappers
  import opened ConfigLines
  import opened ConfigComment
  import opened ConfigNote
  import opened ConfigParse
  import opened ConfigInstall
  import opened ConfigShift

  // ---------------------------------------------------------------- the two edits of a text

  predicate Spanned(blocks: seq<Block>, n: nat) {
    exists b :: b in blocks && b.line <= n <= b.endLine
  }

  /** The numbers of the lines the blocks span. */
  function LinesOf(blocks: seq<Block>, count: nat): set<nat> {
    set n: nat | n < count + 1 && Spanned(blocks, n)
  }

  /** A span the file has. */
  predicate SpanFits(b: Block, count: nat) {
    1 <= b.line <= b.endLine <= count
  }

  function CommentOutBlocks(text: string, blocks: seq<Block>): Option<string> {
    var lines := Split(text);
    if blocks == [] then Some(text)
    else if exists b :: b in blocks && !SpanFits(b, |lines|) then None
    else Some(Join(CommentOut(OURS, lines, LinesOf(blocks, |lines|), |lines|)))
  }

  function ReactivateBlocks(text: string): string {
    if !Within(SUPERSEDED, text) then text
    else
      var r := ReadLines(OURS, Split(text));
      if r.lines == 0 then text else Join(r.out)
  }

  // ---------------------------------------------------------------- reactivating a commented text

  lemma NotePrefix()
    ensures Within(SUPERSEDED, NOTE)
  {
    WithinSelf(SUPERSEDED, REASON);
  }

  /** Reactivating a text whose lines were commented out restores it line by line. */
  lemma ReactivateText(lines: seq<string>, commented: set<nat>, n: nat)
    requires AllOneLine(lines) && Reversible(OURS, lines, commented) && 0 < n <= |lines| && n in commented
    ensures ReactivateBlocks(Join(CommentOut(OURS, lines, commented, |lines|))) ==
            Join(Restored(OURS, lines, commented, |lines|))
  {
    var out := CommentOut(OURS, lines, commented, |lines|);
    NoteOneLine();
    CommentedOneLine(OURS, lines, commented, |lines|);
    SplitJoin(out);
    Noted(OURS, lines, commented, |lines|, n);
    Counted(OURS, lines, commented, |lines|, n);
    ReactivateIs(OURS, lines, commented, |lines|);
    var i :| 0 <= i < |out| && out[i] == OURS.note;
    NotePrefix();
    WithinLine(SUPERSEDED, out, i);
  }

  /** The text comes back exactly when nothing after a commented run reads as part of it. */
  lemma ReactivateIff(text: string, commented: set<nat>, n: nat)
    requires Reversible(OURS, Split(text), commented) && 0 < n <= |Split(text)| && n in commented
    ensures ReactivateBlocks(Join(CommentOut(OURS, Split(text), commented, |Split(text)|))) == text <==>
            CleanEnds(OURS, Split(text), commented)
  {
    var lines := Split(text);
    var back := Restored(OURS, lines, commented, |lines|);
    ReactivateText(lines, commented, n);
    RestoredOneLine(OURS, lines, commented, |lines|);
    RestoredIff(OURS, lines, commented);
    JoinSplit(text);
    SplitJoin(back);
  }

  // ---------------------------------------------------------------- below the managed include

  lemma {:induction false} CommentBelow(s: Style, head: seq<string>, lines: seq<string>, commented: set<nat>,
                                        lower: set<nat>, k: nat)
    requires k <= |lines| && 0 !in commented
    requires forall n :: 0 < n <= |lines| ==> (n in commented <==> n + |head| in lower)
    requires forall n :: n in lower ==> n > |head|
    ensures CommentOut(s, head + lines, lower, |head| + k) == head + CommentOut(s, lines, commented, k)
  {
    if k == 0 {
      CommentNothing(s, head, lines, lower, |head|);
      assert head + [] == head && head[..|head|] == head;
    } else {
      CommentBelow(s, head, lines, commented, lower, k - 1);
      assert (head + lines)[|head| + k - 1] == lines[k - 1];
      assert k in commented <==> |head| + k in lower;
      assert k - 1 in commented <==> |head| + k - 1 in lower;
    }
  }

  lemma {:induction false} CommentNothing(s: Style, head: seq<string>, lines: seq<string>, lower: set<nat>, k: nat)
    requires k <= |head| && forall n :: n in lower ==> n > |head|
    ensures CommentOut(s, head + lines, lower, k) == head[..k]
  {
    if k > 0 {
      CommentNothing(s, head, lines, lower, k - 1);
      assert (head + lines)[k - 1] == head[k - 1] && head[..k] == head[..k - 1] + [head[k - 1]];
    }
  }

  lemma SpannedUp(blocks: seq<Block>, n: nat)
    requires n > 0 && forall b :: b in blocks ==> 1 <= b.line <= b.endLine
    ensures Spanned(blocks, n) <==> Spanned(UpBlocks(blocks), n + SHIFT)
  {
    var ups := UpBlocks(blocks);
    if Spanned(blocks, n) {
      var b :| b in blocks && b.line <= n <= b.endLine;
      var i :| 0 <= i < |blocks| && blocks[i] == b;
      assert ups[i] in ups;
    }
    if Spanned(ups, n + SHIFT) {
      var b :| b in ups && b.line <= n + SHIFT <= b.endLine;
      var i :| 0 <= i < |ups| && ups[i] == b;
      assert blocks[i] in blocks;
    }
  }

  lemma SpannedLow(blocks: seq<Block>, n: nat)
    requires Spanned(UpBlocks(blocks), n) && forall b :: b in blocks ==> 1 <= b.line <= b.endLine
    ensures n > SHIFT
  {
    var ups := UpBlocks(blocks);
    var b :| b in ups && b.line <= n <= b.endLine;
    var i :| 0 <= i < |ups| && ups[i] == b;
    assert blocks[i] in blocks;
  }

  lemma {:induction false} JoinHead(path: string, lines: seq<string>)
    requires lines != []
    ensures Join(Head(path) + lines) == Managed(path) + ("\n" + Join(lines))
  {
    var h := Head(path);
    var all := h + lines;
    assert all[1..][1..][1..][1..] == lines && all[1..][1..][1..][0] == "" && all[1..][1..][0] == MARKER_END &&
           all[1..][0] == "Include " + path;
    ManagedText(path, "\n" + Join(lines));
    JoinFour(all, MARKER_BEGIN, "Include " + path, MARKER_END, lines);
  }

  lemma JoinFour(all: seq<string>, a: string, b: string, c: string, lines: seq<string>)
    requires all == [a, b, c, ""] + lines && lines != []
    ensures Join(all) == a + "\n" + (b + "\n" + (c + ("\n" + ("\n" + Join(lines)))))
  {
    var one, two, three := all[1..], all[2..], all[3..];
    assert one == all[1..] && one[1..] == two && two[1..] == three && three[1..] == lines;
    assert Join(three) == "" + "\n" + Join(lines) == "\n" + Join(lines);
    assert Join(two) == c + "\n" + Join(three) == c + ("\n" + ("\n" + Join(lines)));
    assert Join(one) == b + "\n" + Join(two);
  }
}
