/** The structured fields behind request signatures: quoted strings, signature parameters, and the
    signature base (sections 3.3.3 and 4.1.6 of RFC 8941, section 2.5 of RFC 9421). */
module SignatureFields {
  import opened Wrappers

  // ---------------------------------------------------------------- quoted strings

  predicate PrintableChar(c: char) {
    ' ' <= c < '\U{007F}'
  }

  predicate Printable(s: string) {
    forall i :: 0 <= i < |s| ==> PrintableChar(s[i])
  }

  function EscapeChar(c: char): string {
    if c == '\\' || c == '\"' then ['\\', c] else [c]
  }

  function Escape(s: string): string {
    if s == "" then "" else EscapeChar(s[0]) + Escape(s[1..])
  }

  function Quote(s: string): string {
    "\"" + Escape(s) + "\""
  }

  /** A text without quotes and backslashes needs no escapes. */
  lemma {:induction false} EscapePlain(s: string)
    requires '\\' !in s && '\"' !in s
    ensures Escape(s) == s
  {
    if s != "" {
      EscapePlain(s[1..]);
      assert s == [s[0]] + s[1..];
    }
  }

  function Prepend(s: string, r: Option<(string, string)>): Option<(string, string)> {
    if r.None? then None else Some((s + r.value.0, r.value.1))
  }

  /** Reads on after an opening quote: the string, and what follows its closing quote. */
  function Unquote(s: string): Option<(string, string)> {
    if s == "" then None
    else if s[0] == '\\' then
      if |s| < 2 || (s[1] != '\\' && s[1] != '\"') then None else Prepend([s[1]], Unquote(s[2..]))
    else if s[0] == '\"' then Some(("", s[1..]))
    else if !PrintableChar(s[0]) then None
    else Prepend([s[0]], Unquote(s[1..]))
  }

  lemma UnquoteStep(c: char, t: string)
    requires PrintableChar(c)
    ensures Unquote(EscapeChar(c) + t) == Prepend([c], Unquote(t))
  {
    assert (EscapeChar(c) + t)[|EscapeChar(c)|..] == t;
  }

  lemma Assoc(a: string, b: string, c: string, d: string)
    ensures a + b + c + d == a + (b + c + d)
  {
  }

  /** Reading a quoted string gives it back, whatever follows it. */
  lemma {:induction false} UnquoteEscape(s: string, rest: string)
    requires Printable(s)
    ensures Unquote(Escape(s) + "\"" + rest) == Some((s, rest))
  {
    if s == "" {
      assert Escape(s) + "\"" + rest == "\"" + rest;
    } else {
      UnquoteEscape(s[1..], rest);
      Assoc(EscapeChar(s[0]), Escape(s[1..]), "\"", rest);
      UnquoteStep(s[0], Escape(s[1..]) + "\"" + rest);
      assert [s[0]] + s[1..] == s;
    }
  }

  /** Whatever is read was written by quoting it, so reading is the exact inverse. */
  lemma {:induction false} UnquoteSound(s: string)
    requires Unquote(s).Some?
    ensures Printable(Unquote(s).value.0) && s == Escape(Unquote(s).value.0) + "\"" + Unquote(s).value.1
  {
    var x := Unquote(s).value.0;
    if s[0] == '\\' {
      UnquoteSound(s[2..]);
      var y := Unquote(s[2..]).value.0;
      assert x == [s[1]] + y && x[1..] == y;
      assert s == ['\\', s[1]] + s[2..];
    } else if s[0] != '\"' {
      UnquoteSound(s[1..]);
      var y := Unquote(s[1..]).value.0;
      assert x == [s[0]] + y && x[1..] == y;
      assert s == [s[0]] + s[1..];
    }
  }

  /** A quoted string cut short is refused. */
  lemma {:induction false} UnquoteCut(s: string, n: nat)
    requires n <= |Escape(s)|
    ensures Unquote(Escape(s)[..n]).None?
  {
    if s != "" && n > 0 {
      var e := Escape(s);
      if s[0] == '\\' || s[0] == '\"' {
        if n >= 2 {
          UnquoteCut(s[1..], n - 2);
          assert e[..n][2..] == Escape(s[1..])[..n - 2];
        }
      } else {
        UnquoteCut(s[1..], n - 1);
        assert e[..n][1..] == Escape(s[1..])[..n - 1];
      }
    }
  }

  lemma {:induction false} EscapeHas(s: string, c: char)
    requires c != '\\'
    ensures c in Escape(s) <==> c in s
  {
    if s != "" {
      EscapeHas(s[1..], c);
      assert s == [s[0]] + s[1..];
    }
  }

  // ---------------------------------------------------------------- the inner list

  function Items(cs: seq<string>): string {
    if cs == [] then "" else if |cs| == 1 then Quote(cs[0]) else Quote(cs[0]) + " " + Items(cs[1..])
  }

  function TrimSpaces(s: string): string {
    if s != "" && s[0] == ' ' then TrimSpaces(s[1..]) else s
  }

  function PrependItem(c: string, r: Option<seq<string>>): Option<seq<string>> {
    if r.None? then None else Some([c] + r.value)
  }

  lemma {:induction false} TrimSpacesShort(s: string)
    ensures |TrimSpaces(s)| <= |s|
  {
    if s != "" && s[0] == ' ' { TrimSpacesShort(s[1..]); }
  }

  lemma {:induction false} UnquoteShort(s: string)
    requires Unquote(s).Some?
    ensures |Unquote(s).value.1| < |s|
  {
    UnquoteSound(s);
  }

  function ParseItems(rest: string): Option<seq<string>>
    decreases |rest|
  {
    if rest == "" then Some([])
    else if rest[0] != '\"' || Unquote(rest[1..]).None? then None
    else
      var (item, remainder) := Unquote(rest[1..]).value;
      var next := TrimSpaces(remainder);
      if next != "" && remainder == next then None
      else
        UnquoteShort(rest[1..]); TrimSpacesShort(remainder);
        PrependItem(item, ParseItems(next))
  }

  predicate AllPrintable(cs: seq<string>) {
    forall c :: c in cs ==> Printable(c)
  }

  /** A printed list starts and ends with a quote. */
  lemma {:induction false} ItemsQuoted(cs: seq<string>)
    requires cs != []
    ensures |Items(cs)| > 1 && Items(cs)[0] == '\"' && Items(cs)[|Items(cs)| - 1] == '\"'
  {
    if |cs| > 1 { ItemsQuoted(cs[1..]); }
  }

  /** One item read off the front of a list. */
  lemma ParseItemsStep(c: string, next: string)
    requires Printable(c) && next != "" && next[0] == '\"'
    ensures ParseItems(Quote(c) + " " + next) == PrependItem(c, ParseItems(next))
  {
    var text := Quote(c) + " " + next;
    assert text[1..] == Escape(c) + "\"" + (" " + next);
    UnquoteEscape(c, " " + next);
    assert (" " + next)[1..] == next;
    assert TrimSpaces(" " + next) == next;
  }

  lemma {:induction false} ParseItemsBack(cs: seq<string>)
    requires AllPrintable(cs)
    ensures ParseItems(Items(cs)) == Some(cs)
  {
    if cs != [] {
      if |cs| == 1 {
        UnquoteEscape(cs[0], "");
        assert Items(cs)[1..] == Escape(cs[0]) + "\"" + "";
      } else {
        ItemsQuoted(cs[1..]);
        ParseItemsBack(cs[1..]);
        ParseItemsStep(cs[0], Items(cs[1..]));
      }
      assert [cs[0]] + cs[1..] == cs;
    }
  }

  /** What a list parses to is printable, and uses only characters of the text. */
  lemma {:induction false} ParseItemsSound(rest: string)
    requires ParseItems(rest).Some?
    ensures AllPrintable(ParseItems(rest).value)
    ensures ')' !in rest ==> forall c :: c in ParseItems(rest).value ==> ')' !in c
    decreases |rest|
  {
    if rest != "" {
      var (item, remainder) := Unquote(rest[1..]).value;
      UnquoteSound(rest[1..]);
      UnquoteShort(rest[1..]);
      TrimSpacesShort(remainder);
      ParseItemsSound(TrimSpaces(remainder));
      TrimSpacesPart(remainder);
      EscapeHas(item, ')');
      assert rest == [rest[0]] + rest[1..];
    }
  }

  lemma {:induction false} TrimSpacesPart(s: string)
    ensures ')' !in s ==> ')' !in TrimSpaces(s)
  {
    if s != "" && s[0] == ' ' { TrimSpacesPart(s[1..]); }
  }

  /** A list, and after it an item cut short. */
  function CutList(cs: seq<string>, cut: string): string {
    if cs == [] then cut else Quote(cs[0]) + " " + CutList(cs[1..], cut)
  }

  /** A list cut inside its last item is refused. */
  lemma {:induction false} ParseItemsCut(cs: seq<string>, c: string, n: nat)
    requires AllPrintable(cs) && n <= |Escape(c)|
    ensures CutList(cs, "\"" + Escape(c)[..n])[0] == '\"' && ParseItems(CutList(cs, "\"" + Escape(c)[..n])).None?
  {
    var cut := "\"" + Escape(c)[..n];
    if cs == [] {
      UnquoteCut(c, n);
      assert cut[1..] == Escape(c)[..n];
    } else {
      ParseItemsCut(cs[1..], c, n);
      ParseItemsStep(cs[0], CutList(cs[1..], cut));
    }
  }
}
