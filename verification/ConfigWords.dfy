/** Reading back a line that was written word by word: the tokens, and the directive in each of the forms it
    can be given. */
module ConfigWords {
  import opened Wrappers
  import opened Text
  import opened ConfigTokens

  /** A word as it is written: bare, or between quotes. */
  datatype Word = Bare(value: string) | Quoted(value: string)

  /** No quote in it; and bare, nothing that ends a word or begins a comment. */
  predicate WordOk(w: Word) {
    && '\"' !in w.value
    && (w.Bare? ==> w.value != "" && forall i :: 0 <= i < |w.value| ==> w.value[i] !in " \t\r#")
  }

  predicate WordsOk(ws: seq<Word>) {
    forall i :: 0 <= i < |ws| ==> WordOk(ws[i])
  }

  function WordText(w: Word): string {
    if w.Bare? then w.value else "\"" + w.value + "\""
  }

  /** The words, each after a space. */
  function LineText(ws: seq<Word>): string {
    if ws == [] then "" else LineText(ws[..|ws| - 1]) + (" " + WordText(ws[|ws| - 1]))
  }

  function ValuesOf(ws: seq<Word>): seq<string> {
    seq(|ws|, i requires 0 <= i < |ws| => ws[i].value)
  }

  /** Scanning characters that are all taken as they are. */
  lemma {:induction false} ScanTakes(t: Scanner, s: string)
    requires !t.done && '\"' !in s
    requires t.quoted || forall i :: 0 <= i < |s| ==> s[i] !in " \t\r#"
    ensures Scan(t, s) == if s == "" then t else t.(cur := t.cur + s, started := true)
    decreases s
  {
    if s != "" {
      assert s[0] in s;
      var u := t.(cur := t.cur + [s[0]], started := true);
      forall i | 0 <= i < |s[1..]| ensures s[1..][i] == s[i + 1] { }
      ScanTakes(u, s[1..]);
      assert t.cur + [s[0]] + s[1..] == t.cur + s;
      if s[1..] == "" { assert t.cur + [s[0]] == t.cur + s; }
    }
  }

  lemma ScanOne(t: Scanner, c: char, s: string)
    ensures Scan(t, [c] + s) == Scan(Step(t, c), s)
  {
    assert ([c] + s)[1..] == s;
  }

  /** Between two words the scanner has nothing begun. */
  lemma ScanWord(t: Scanner, w: Word)
    requires !t.done && !t.quoted && !t.started && t.cur == "" && WordOk(w)
    ensures Scan(t, WordText(w)) == t.(cur := w.value, started := true)
  {
    assert "" + w.value == w.value;
    if w.Bare? {
      ScanTakes(t, w.value);
    } else {
      var u := t.(quoted := true, started := true);
      assert "\"" + w.value + "\"" == ['\"'] + (w.value + ['\"']);
      ScanOne(t, '\"', w.value + ['\"']);
      ScanTakes(u, w.value);
      ScanLast(u, w.value, '\"');
    }
  }

  /** After the words: all but the last are tokens, and the last is being read. */
  predicate Through(t: Scanner, ws: seq<Word>) {
    && !t.done && !t.quoted && (t.started <==> ws != []) && (!t.started ==> t.cur == "")
    && Flushed(t) == ValuesOf(ws)
  }

  lemma SpaceFlushes(t: Scanner, ws: seq<Word>)
    requires Through(t, ws)
    ensures Step(t, ' ') == Scanner(ValuesOf(ws), "", false, false, false)
  {
  }

  lemma {:induction false} ScanLine(ws: seq<Word>)
    requires WordsOk(ws)
    ensures Through(Scan(START, LineText(ws)), ws)
  {
    if ws == [] {
      assert ValuesOf(ws) == [];
    } else {
      var n := |ws| - 1;
      var front, w := ws[..n], ws[n];
      forall i | 0 <= i < n ensures WordOk(front[i]) { assert front[i] == ws[i]; }
      ScanLine(front);
      ScanAppend(START, LineText(front), " " + WordText(w));
      ScanNext(Scan(START, LineText(front)), front, w);
      assert ws == front + [w];
    }
  }

  lemma ScanNext(t: Scanner, ws: seq<Word>, w: Word)
    requires Through(t, ws) && WordOk(w)
    ensures Through(Scan(t, " " + WordText(w)), ws + [w])
  {
    SpaceFlushes(t, ws);
    ScanOne(t, ' ', WordText(w));
    ScanWord(Step(t, ' '), w);
    assert ValuesOf(ws + [w]) == ValuesOf(ws) + [w.value];
  }

  /** A line written word by word reads back as its words, whatever comment follows it. */
  lemma TokensBack(ws: seq<Word>, comment: string)
    requires WordsOk(ws)
    ensures Tokenize(LineText(ws)) == Some(ValuesOf(ws))
    ensures Tokenize(LineText(ws) + ("#" + comment)) == Some(ValuesOf(ws))
  {
    ScanLine(ws);
    var t := Scan(START, LineText(ws));
    ScanAppend(START, LineText(ws), "#" + comment);
    ScanOne(t, '#', comment);
    ScanDone(Step(t, '#'), comment);
  }

  /** An unclosed quote makes the line malformed. */
  lemma UnclosedQuote(ws: seq<Word>, s: string)
    requires WordsOk(ws) && '\"' !in s
    ensures SplitDirective(LineText(ws) + (" \"" + s)).Malformed?
  {
    ScanLine(ws);
    var t := Scan(START, LineText(ws));
    var u := Step(Step(t, ' '), '\"');
    SpaceFlushes(t, ws);
    ScanAppend(START, LineText(ws), " \"" + s);
    assert " \"" + s == [' '] + (['\"'] + s);
    ScanOne(t, ' ', ['\"'] + s);
    ScanOne(Step(t, ' '), '\"', s);
    ScanTakes(u, s);
  }

  predicate KeywordOk(k: string) {
    k != "" && '=' !in k
  }

  lemma IndexNone(s: string, c: char)
    requires c !in s
    ensures Index(s, c).None?
  {
  }

  /** A keyword and its values, with nothing between, with a sign apart, or with a sign attached. */
  lemma DirectiveBack(k: Word, args: seq<Word>)
    requires KeywordOk(k.value) && WordsOk([k] + args) && args != []
    ensures (args[0].value == "" || args[0].value[0] != '=') ==>
            SplitDirective(LineText([k] + args)) == Directive(k.value, ValuesOf(args))
    ensures SplitDirective(LineText([k, Bare("=")] + args)) == Directive(k.value, ValuesOf(args))
    ensures k.Bare? && args[0].Bare? ==>
            SplitDirective(LineText([Bare(k.value + "=" + args[0].value)] + args[1..])) ==
            Directive(k.value, ValuesOf(args))
  {
    if args[0].value == "" || args[0].value[0] != '=' { PlainForm(k, args); }
    ApartForm(k, args);
    if k.Bare? && args[0].Bare? { AttachedForm(k, args); }
  }

  lemma Parts(k: Word, args: seq<Word>)
    requires WordsOk([k] + args)
    ensures WordOk(k) && WordsOk(args)
  {
    assert ([k] + args)[0] == k;
    forall i | 0 <= i < |args| ensures WordOk(args[i]) { assert ([k] + args)[i + 1] == args[i]; }
  }

  lemma PlainForm(k: Word, args: seq<Word>)
    requires KeywordOk(k.value) && WordsOk([k] + args) && args != []
    requires args[0].value == "" || args[0].value[0] != '='
    ensures SplitDirective(LineText([k] + args)) == Directive(k.value, ValuesOf(args))
  {
    TokensBack([k] + args, "");
    ValuesFirst(k, args);
    PlainTokens(k.value, ValuesOf(args));
  }

  lemma ValuesFirst(k: Word, args: seq<Word>)
    ensures ValuesOf([k] + args) == [k.value] + ValuesOf(args)
  {
  }

  lemma PlainTokens(k: string, args: seq<string>)
    requires KeywordOk(k) && args != [] && (args[0] == "" || args[0][0] != '=')
    ensures DirectiveOf(Some([k] + args)) == Directive(k, args)
  {
    IndexNone(k, '=');
    assert ([k] + args)[1..] == args;
  }

  lemma ApartForm(k: Word, args: seq<Word>)
    requires KeywordOk(k.value) && WordsOk([k] + args)
    ensures SplitDirective(LineText([k, Bare("=")] + args)) == Directive(k.value, ValuesOf(args))
  {
    Parts(k, args);
    var all := [k, Bare("=")] + args;
    forall i | 0 <= i < |all| ensures WordOk(all[i]) { if i > 1 { assert all[i] == args[i - 2]; } }
    TokensBack(all, "");
    IndexNone(k.value, '=');
    var tokens := ValuesOf(all);
    assert tokens[0] == k.value && tokens[1] == "=" && tokens[1..][0] == "=" && tokens[1..][1..] == ValuesOf(args);
  }

  lemma AttachedForm(k: Word, args: seq<Word>)
    requires KeywordOk(k.value) && WordsOk([k] + args) && args != [] && k.Bare? && args[0].Bare?
    ensures SplitDirective(LineText([Bare(k.value + "=" + args[0].value)] + args[1..])) ==
            Directive(k.value, ValuesOf(args))
  {
    Parts(k, args);
    var value := args[0].value;
    var first := k.value + "=" + value;
    var all := [Bare(first)] + args[1..];
    assert WordOk(args[0]);
    forall i | 0 <= i < |first| ensures first[i] !in " \t\r#" {
      assert i < |k.value| ==> first[i] == k.value[i];
      assert i > |k.value| ==> first[i] == value[i - |k.value| - 1];
    }
    forall i | 0 <= i < |all| ensures WordOk(all[i]) { if i > 0 { assert all[i] == args[i]; } }
    TokensBack(all, "");
    IndexIs(k.value, '=', value);
    assert first == k.value + ['='] + value && first[|k.value| + 1..] == value && first[..|k.value|] == k.value;
    var tokens := ValuesOf(all);
    assert tokens[0] == first && [value] + tokens[1..] == ValuesOf(args);
  }
}
