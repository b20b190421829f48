/** Reading one line of an SSH configuration: tokens, the directive, and whether a commented line
    reads as part of a host block. */
module ConfigTokens {
  import opened Wrappers
  import opened Text

  // ---------------------------------------------------------------- tokens

  /** The tokenizer between two characters; done once a comment has begun. */
  datatype Scanner = Scanner(tokens: seq<string>, cur: string, quoted: bool, started: bool, done: bool)

  const START := Scanner([], "", false, false, false)

  predicate Separator(c: char) {
    c == ' ' || c == '\t' || c == '\r'
  }

  function Flushed(t: Scanner): seq<string> {
    if t.started then t.tokens + [t.cur] else t.tokens
  }

  function Step(t: Scanner, c: char): Scanner {
    if t.done then t
    else if c == '\"' then t.(quoted := !t.quoted, started := true)
    else if c == '#' && !t.quoted then Scanner(Flushed(t), "", false, false, true)
    else if Separator(c) && !t.quoted then Scanner(Flushed(t), "", false, false, false)
    else t.(cur := t.cur + [c], started := true)
  }

  function Scan(t: Scanner, s: string): Scanner
    decreases s
  {
    if s == "" then t else Scan(Step(t, s[0]), s[1..])
  }

  function Finish(t: Scanner): Option<seq<string>> {
    if t.done then Some(t.tokens) else if t.quoted then None else Some(Flushed(t))
  }

  function Tokenize(raw: string): Option<seq<string>> {
    Finish(Scan(START, raw))
  }

  lemma {:induction false} ScanAppend(t: Scanner, a: string, b: string)
    ensures Scan(t, a + b) == Scan(Scan(t, a), b)
    decreases a
  {
    if a == "" { assert a + b == b; } else { ScanAppend(Step(t, a[0]), a[1..], b); assert (a + b)[1..] == a[1..] + b; }
  }

  lemma ScanLast(t: Scanner, a: string, c: char)
    ensures Scan(t, a + [c]) == Step(Scan(t, a), c)
  {
    ScanAppend(t, a, [c]);
    assert Scan(Step(Scan(t, a), c), [c][1..]) == Step(Scan(t, a), c);
  }

  lemma {:induction false} ScanDone(t: Scanner, s: string)
    requires t.done
    ensures Scan(t, s) == t
    decreases s
  {
    if s != "" { ScanDone(t, s[1..]); }
  }

  // ---------------------------------------------------------------- directives

  datatype Directive = Malformed | Blank | Directive(keyword: string, args: seq<string>)

  function BeforeEquals(token: string): string {
    match Index(token, '=')
    case None => token
    case Some(i) => token[..i]
  }

  function ArgsOf(tokens: seq<string>): seq<string>
    requires tokens != []
  {
    var args := tokens[1..];
    match Index(tokens[0], '=')
    case Some(i) => if tokens[0][i + 1..] != "" then [tokens[0][i + 1..]] + args else args
    case None =>
      if args == [] then args
      else if args[0] == "=" then args[1..]
      else if args[0] != "" && args[0][0] == '=' then [args[0][1..]] + args[1..] else args
  }

  function SplitDirective(raw: string): Directive {
    DirectiveOf(Tokenize(raw))
  }

  function DirectiveOf(tokens: Option<seq<string>>): Directive {
    match tokens
    case None => Malformed
    case Some(tokens) =>
      if tokens == [] then Blank
      else if BeforeEquals(tokens[0]) == "" then Malformed
      else Directive(BeforeEquals(tokens[0]), ArgsOf(tokens))
  }

  /** The keywords of a host block, in lower case. */
  type Words = set<string>

  predicate Letters(words: Words) {
    forall w, i :: w in words && 0 <= i < |w| ==> 'a' <= w[i] <= 'z'
  }

  predicate BlockDirective(words: Words, d: Directive) {
    d.Directive? && ToLower(d.keyword) in words
  }

  /** A line that is part of a host block: blank, a comment, or a directive that is imported. */
  predicate BlockLine(words: Words, raw: string) {
    SplitDirective(raw).Blank? || BlockDirective(words, SplitDirective(raw))
  }

  /** Whether a line reads as a host block's line commented out. */
  predicate CommentedBlockLine(words: Words, line: string) {
    line == "#" ||
    ("# " <= line &&
     var original := TrimSpace(line[2..]);
     (original == "" || original[0] == '#' || BlockDirective(words, SplitDirective(original))))
  }

  lemma LetterNotSpace(c: char)
    requires 'a' <= LowerChar(c) <= 'z'
    ensures !IsSpace(c)
  {
  }

  lemma KeywordNoSpace(words: Words, k: string, i: nat)
    requires Letters(words) && ToLower(k) in words && i < |k|
    ensures !IsSpace(k[i])
  {
    assert 'a' <= ToLower(k)[i] <= 'z';
    LetterNotSpace(k[i]);
  }

  // ---------------------------------------------------------------- trimming changes no keyword

  /** A token begun stays the first token, with its first character. */
  lemma {:induction false} FirstStays(t: Scanner, s: string, c: char)
    requires (t.tokens != [] && t.tokens[0] != "" && t.tokens[0][0] == c) ||
             (t.tokens == [] && t.started && !t.done && t.cur != "" && t.cur[0] == c)
    ensures Finish(Scan(t, s)).Some? ==>
            var tokens := Finish(Scan(t, s)).value; tokens != [] && tokens[0] != "" && tokens[0][0] == c
    decreases s
  {
    if s != "" { FirstStays(Step(t, s[0]), s[1..], c); }
  }

  lemma FirstOfKeyword(token: string)
    requires BeforeEquals(token) != ""
    ensures token != "" && BeforeEquals(token)[0] == token[0]
  {
  }

  lemma {:induction false} TrimLeftSame(words: Words, raw: string)
    requires Letters(words) && BlockLine(words, raw)
    ensures SplitDirective(TrimLeft(raw)) == SplitDirective(raw)
  {
    if raw != "" && IsSpace(raw[0]) {
      if Separator(raw[0]) {
        assert Step(START, raw[0]) == START;
        TrimLeftSame(words, raw[1..]);
      } else {
        FirstStays(Step(START, raw[0]), raw[1..], raw[0]);
        var token := Finish(Scan(START, raw)).value[0];
        FirstOfKeyword(token);
        KeywordNoSpace(words, BeforeEquals(token), 0);
      }
    }
  }

  lemma IndexAppend(s: string, c: char, d: char)
    requires c != d
    ensures Index(s + [c], d) == Index(s, d)
  {
    var i := Index(s, d);
    if i.Some? {
      assert s == s[..i.value] + [d] + s[i.value + 1..];
      assert s + [c] == s[..i.value] + [d] + (s[i.value + 1..] + [c]);
      IndexIs(s[..i.value], d, s[i.value + 1..] + [c]);
    } else {
      assert d !in s + [c];
    }
  }

  /** A scanner before its last space character has the same keyword as after it. */
  lemma DropStep(words: Words, t: Scanner, c: char)
    requires Letters(words) && IsSpace(c) && (t.cur != "" ==> t.started)
    requires var d := DirectiveOf(Finish(Step(t, c))); d.Blank? || BlockDirective(words, d)
    ensures var d, e := DirectiveOf(Finish(Step(t, c))), DirectiveOf(Finish(t));
            e.Blank? == d.Blank? && (d.Directive? ==> e.Directive? && e.keyword == d.keyword)
  {
    if !t.done && !Separator(c) {
      assert Finish(Step(t, c)).value == t.tokens + [t.cur + [c]];
      if t.tokens == [] { DropFromFirst(words, t.cur, c); }
    }
  }

  /** A keyword with a space character at the end of its token ends before it. */
  lemma DropFromFirst(words: Words, cur: string, c: char)
    requires Letters(words) && IsSpace(c) && ToLower(BeforeEquals(cur + [c])) in words
    ensures cur != "" && BeforeEquals(cur) == BeforeEquals(cur + [c])
  {
    IndexAppend(cur, c, '=');
    if Index(cur, '=').None? { KeywordNoSpace(words, cur + [c], |cur|); }
    else { var i := Index(cur, '=').value; assert (cur + [c])[..i] == cur[..i]; }
  }

  /** Dropping one trailing space character keeps the kind of line and its keyword. */
  lemma DropOne(words: Words, raw: string)
    requires Letters(words) && BlockLine(words, raw) && raw != "" && IsSpace(raw[|raw| - 1])
    ensures SplitDirective(raw[..|raw| - 1]).Blank? == SplitDirective(raw).Blank?
    ensures SplitDirective(raw).Directive? ==>
            SplitDirective(raw[..|raw| - 1]).Directive? &&
                SplitDirective(raw[..|raw| - 1]).keyword == SplitDirective(raw).keyword
  {
    var front, c := raw[..|raw| - 1], raw[|raw| - 1];
    assert raw == front + [c];
    ScanLast(START, front, c);
    CurStarted(START, front);
    DropStep(words, Scan(START, front), c);
  }

  lemma {:induction false} CurStarted(t: Scanner, s: string)
    requires t.cur != "" ==> t.started
    ensures Scan(t, s).cur != "" ==> Scan(t, s).started
    decreases s
  {
    if s != "" { CurStarted(Step(t, s[0]), s[1..]); }
  }

  lemma {:induction false} TrimRightSame(words: Words, raw: string)
    requires Letters(words) && BlockLine(words, raw)
    ensures SplitDirective(TrimRight(raw)).Blank? == SplitDirective(raw).Blank?
    ensures SplitDirective(raw).Directive? ==>
            SplitDirective(TrimRight(raw)).Directive? &&
                SplitDirective(TrimRight(raw)).keyword == SplitDirective(raw).keyword
  {
    if raw != "" && IsSpace(raw[|raw| - 1]) {
      DropOne(words, raw);
      TrimRightSame(words, raw[..|raw| - 1]);
    }
  }

  /** A blank line without leading white space is empty or a comment. */
  lemma BlankStarts(raw: string)
    requires SplitDirective(raw).Blank? && (raw == "" || !IsSpace(raw[0]))
    ensures raw == "" || raw[0] == '#'
  {
    if raw != "" && raw[0] != '#' { SomeToken(Step(START, raw[0]), raw[1..]); }
  }

  lemma {:induction false} SomeToken(t: Scanner, s: string)
    requires t.tokens != [] || (t.started && !t.done)
    ensures Finish(Scan(t, s)) != Some([])
    decreases s
  {
    if s != "" { SomeToken(Step(t, s[0]), s[1..]); }
  }

  lemma {:induction false} TrimLeftStarts(s: string)
    ensures TrimLeft(s) == "" || !IsSpace(TrimLeft(s)[0])
  {
    if s != "" && IsSpace(s[0]) { TrimLeftStarts(s[1..]); }
  }

  lemma {:induction false} TrimRightPrefix(s: string)
    ensures TrimRight(s) <= s
  {
    if s != "" && IsSpace(s[|s| - 1]) { TrimRightPrefix(s[..|s| - 1]); }
  }

  /** Every line of a host block, commented out, reads as one: so it is found again. */
  lemma BlockLineFound(words: Words, raw: string)
    requires Letters(words) && BlockLine(words, raw)
    ensures CommentedBlockLine(words, "# " + raw)
  {
    assert ("# " + raw)[2..] == raw && ("# " + raw)[..2] == "# ";
    var left := TrimLeft(raw);
    TrimLeftSame(words, raw);
    TrimRightSame(words, left);
    TrimLeftStarts(raw);
    TrimRightPrefix(left);
    if SplitDirective(raw).Blank? { BlankStarts(TrimSpace(raw)); }
  }
}
