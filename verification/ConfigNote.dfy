/** The note sshstate puts before a commented block. */
module ConfigNote {
  import opened Text
  import opened ConfigLines
  import opened ConfigTokens
  import opened ConfigComment
  import opened ConfigParse

  const WORD := "superseded"
  const SIGNATURE := "by sshstate: "
  const REASON := "the vault defines this host"

  const SUPERSEDED := "# " + WORD + " " + SIGNATURE
  const NOTE := SUPERSEDED + REASON

  const OURS := Style(BLOCK_WORDS, SUPERSEDED, NOTE)

  /** The first token is decided once a separator has ended it. */
  lemma {:induction false} FirstTokenKept(t: Scanner, s: string)
    requires t.tokens != []
    ensures Finish(Scan(t, s)).Some? ==> Finish(Scan(t, s)).value != [] && Finish(Scan(t, s)).value[0] == t.tokens[0]
    decreases s
  {
    if s != "" { FirstTokenKept(Step(t, s[0]), s[1..]); }
  }

  /** A plain word is read as it stands. */
  lemma {:induction false} ScanWord(t: Scanner, w: string)
    requires !t.done && !t.quoted && forall i :: 0 <= i < |w| ==> !Separator(w[i]) && w[i] != '\"' && w[i] != '#'
    ensures Scan(t, w) == if w == "" then t else t.(cur := t.cur + w, started := true)
    decreases w
  {
    if w != "" {
      var next := Step(t, w[0]);
      ScanWord(next, w[1..]);
      assert next.cur + w[1..] == t.cur + w;
    }
  }

  lemma WordFirst(w: string, rest: string)
    requires w != "" && forall i :: 0 <= i < |w| ==> !Separator(w[i]) && w[i] != '\"' && w[i] != '#' && w[i] != '='
    ensures SplitDirective(w + " " + rest).Directive? ==> SplitDirective(w + " " + rest).keyword == w
  {
    var raw := w + " " + rest;
    ScanWord(START, w);
    ScanAppend(START, w, " " + rest);
    assert raw == w + (" " + rest) && (" " + rest)[1..] == rest;
    assert START.cur + w == w && Step(Scan(START, w), ' ') == Scanner([w], "", false, false, false);
    FirstTokenKept(Scanner([w], "", false, false, false), rest);
  }

  /** A comment that starts with another word does not read as a commented line. */
  lemma OtherComment(words: Words, w: string, rest: string)
    requires w != "" && forall i :: 0 <= i < |w| ==> !IsSpace(w[i]) && w[i] != '\"' && w[i] != '#' && w[i] != '='
    requires rest != "" && !IsSpace(rest[|rest| - 1]) && ToLower(w) !in words
    ensures !CommentedBlockLine(words, "# " + (w + " " + rest))
  {
    var original := w + " " + rest;
    assert ("# " + original)[2..] == original;
    assert original[0] == w[0] && original[|original| - 1] == rest[|rest| - 1];
    TrimNothing(original);
    WordFirst(w, rest);
    OtherWord(words, SplitDirective(original), w);
  }

  lemma OtherWord(words: Words, d: Directive, w: string)
    requires (d.Directive? ==> d.keyword == w) && ToLower(w) !in words
    ensures !BlockDirective(words, d)
  {
  }

  lemma LowerAlready(w: string)
    requires forall i :: 0 <= i < |w| ==> 'a' <= w[i] <= 'z'
    ensures ToLower(w) == w
  {
  }

  lemma NoteParts(w: string, signature: string, reason: string)
    ensures "# " + w + " " + signature + reason == "# " + (w + " " + (signature + reason))
  {
  }

  lemma NoteLike(words: Words, w: string, signature: string, reason: string)
    requires w !in words && w != "" && (forall i :: 0 <= i < |w| ==> 'a' <= w[i] <= 'z')
    requires reason != "" && !IsSpace(reason[|reason| - 1])
    ensures !CommentedBlockLine(words, "# " + w + " " + signature + reason)
  {
    NoteParts(w, signature, reason);
    LowerAlready(w);
    OtherComment(words, w, signature + reason);
  }

  lemma Prefixed(a: string, b: string)
    ensures a <= a + b
  {
  }

  lemma WordPlain()
    ensures WORD != "" && forall i :: 0 <= i < |WORD| ==> 'a' <= WORD[i] <= 'z'
  {
  }

  /** The note itself does not read as a commented line. */
  lemma NoteIsNot(words: Words)
    requires WORD !in words
    ensures !CommentedBlockLine(words, NOTE)
  {
    WordPlain();
    NoteLike(words, WORD, SIGNATURE, REASON);
  }

  lemma WordsFit()
    ensures Letters(BLOCK_WORDS) && WORD !in BLOCK_WORDS
  {
  }

  lemma OursOk()
    ensures StyleOk(OURS)
  {
    WordsFit();
    Prefixed(SUPERSEDED, REASON);
    NoteIsNot(BLOCK_WORDS);
  }

  lemma NoteOneLine()
    ensures OneLine(NOTE)
  {
    NotePieces();
    Pieces(WORD, SIGNATURE, REASON);
  }

  lemma NotePieces()
    ensures OneLine(WORD) && OneLine(SIGNATURE) && OneLine(REASON)
  {
  }

  lemma Pieces(a: string, b: string, c: string)
    requires OneLine(a) && OneLine(b) && OneLine(c)
    ensures OneLine("# " + a + " " + b + c)
  {
  }
}
