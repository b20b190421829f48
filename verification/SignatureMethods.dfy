/** The printer, the parser and the signature base as the loops they are. */
module SignatureMethods {
  import opened Wrappers
  import opened Text
  import opened Numbers
  import opened SignatureFields
  import opened SignatureParams
  import opened SignatureBase
  import SignatureCovers

  method QuoteString(s: string) returns (q: Option<string>)
    ensures q == if Printable(s) then Some(Quote(s)) else None
  {
    var b := "\"";
    for i := 0 to |s|
      invariant b + Escape(s[i..]) == "\"" + Escape(s)
      invariant forall k :: 0 <= k < i ==> PrintableChar(s[k])
    {
      var c := s[i];
      if !PrintableChar(c) { return None; }
      assert s[i..][1..] == s[i + 1..];
      ghost var before := b;
      if c == '\\' || c == '\"' { b := b + ['\\']; }
      b := b + [c];
      assert b + Escape(s[i + 1..]) == before + (EscapeChar(c) + Escape(s[i + 1..]));
    }
    assert b + "" == b && s[|s|..] == "";
    q := Some(b + "\"");
  }

  lemma PrependTwice(a: string, b: string, r: Option<(string, string)>)
    ensures Prepend(a, Prepend(b, r)) == Prepend(a + b, r)
  {
    if r.Some? { assert a + (b + r.value.0) == a + b + r.value.0; }
  }

  lemma PrependNothing(r: Option<(string, string)>)
    ensures Prepend("", r) == r
  {
    if r.Some? { assert "" + r.value.0 == r.value.0; }
  }

  method ParseQuotedString(s: string) returns (r: Option<(string, string)>)
    ensures r == if s == "" || s[0] != '\"' then None else Unquote(s[1..])
  {
    if s == "" || s[0] != '\"' { return None; }
    var b, i := "", 1;
    PrependNothing(Unquote(s[1..]));
    while i < |s|
      invariant 1 <= i <= |s|
      invariant Unquote(s[1..]) == Prepend(b, Unquote(s[i..]))
    {
      var c := s[i];
      if c == '\\' {
        if i + 1 >= |s| { return None; }
        if s[i + 1] != '\\' && s[i + 1] != '\"' { return None; }
        assert s[i..][2..] == s[i + 2..];
        PrependTwice(b, [s[i + 1]], Unquote(s[i + 2..]));
        b, i := b + [s[i + 1]], i + 2;
      } else if c == '\"' {
        assert s[i..][1..] == s[i + 1..] && b + "" == b;
        return Some((b, s[i + 1..]));
      } else if !PrintableChar(c) {
        return None;
      } else {
        assert s[i..][1..] == s[i + 1..];
        PrependTwice(b, [c], Unquote(s[i + 1..]));
        b, i := b + [c], i + 1;
      }
    }
    return None;
  }

  // ---------------------------------------------------------------- printing

  lemma {:induction false} ItemsSnoc(cs: seq<string>, c: string)
    ensures Items(cs + [c]) == Items(cs) + (if cs == [] then "" else " ") + Quote(c)
  {
    if cs != [] {
      ItemsSnoc(cs[1..], c);
      assert (cs + [c])[1..] == cs[1..] + [c];
      if |cs| > 1 { Joined(Quote(cs[0]), Items(cs[1..]), Quote(c)); }
    }
  }

  lemma Joined(a: string, b: string, c: string)
    ensures a + " " + (b + " " + c) == (a + " " + b) + " " + c
  {
  }

  lemma Regrouped(a: string, b: string, c: string)
    ensures a + (b + c) == a + b + c
  {
  }

  method PrintComponents(cs: seq<string>) returns (r: Option<string>)
    ensures r == if AllPrintable(cs) then Some("(" + Items(cs) + ")") else None
  {
    var b := "(";
    for i := 0 to |cs|
      invariant b == "(" + Items(cs[..i])
      invariant forall k :: 0 <= k < i ==> Printable(cs[k])
    {
      assert cs[..i + 1] == cs[..i] + [cs[i]];
      ItemsSnoc(cs[..i], cs[i]);
      if i > 0 { b := b + " "; }
      var s := QuoteString(cs[i]);
      if s.None? {
        assert cs[i] in cs;
        return None;
      }
      b := b + s.value;
    }
    assert cs[..|cs|] == cs;
    r := Some(b + ")");
  }

  method CheckName(name: string) returns (ok: bool)
    ensures ok <==> NameOk(name)
  {
    if name == "" || !('a' <= name[0] <= 'z') { return false; }
    for i := 0 to |name|
      invariant forall k :: 0 <= k < i ==> NameChar(name[k])
    {
      if !NameChar(name[i]) { return false; }
    }
    return true;
  }

  method PrintParam(p: Param) returns (r: Option<string>)
    ensures r.Some? <==> ParamOk(p)
    ensures r.Some? ==> r.value == ParamText(p)
  {
    var named := CheckName(p.name);
    if !named { return None; }
    var b := ";" + p.name + "=";
    match p.value
    case Str(text) =>
      var s := QuoteString(text);
      if s.None? { return None; }
      r := Some(b + s.value);
    case Int(n) => r := Some(b + FormatInt(n));
  }

  function Concat(texts: seq<string>): string {
    if texts == [] then "" else Concat(texts[..|texts| - 1]) + texts[|texts| - 1]
  }

  lemma {:induction false} ConcatFirst(t: string, texts: seq<string>)
    ensures Concat([t] + texts) == t + Concat(texts)
  {
    if texts == [] {
      assert [t] + texts == [t] && Concat([t][..0]) == "" && "" + t == t && t + "" == t;
    } else {
      var front, last := texts[..|texts| - 1], texts[|texts| - 1];
      ConcatFirst(t, front);
      assert ([t] + texts)[..|texts|] == [t] + front;
      Regrouped(t, Concat(front), last);
    }
  }

  ghost predicate TextsOf(ps: seq<Param>, texts: seq<string>) {
    |texts| == |ps| && forall i :: 0 <= i < |ps| ==> texts[i] == ParamText(ps[i])
  }

  lemma {:induction false} ConcatParams(ps: seq<Param>, texts: seq<string>)
    requires TextsOf(ps, texts)
    ensures Concat(texts) == ParamsText(ps)
  {
    if ps != [] {
      ConcatParams(ps[1..], texts[1..]);
      ConcatFirst(texts[0], texts[1..]);
      assert texts == [texts[0]] + texts[1..];
    }
  }

  lemma ConcatLast(texts: seq<string>, t: string)
    ensures Concat(texts + [t]) == Concat(texts) + t
  {
    assert (texts + [t])[..|texts|] == texts;
  }

  /** The texts of the parameters, in order. */
  method PrintEach(ps: seq<Param>) returns (r: Option<seq<string>>)
    ensures r.Some? <==> ParamsOk(ps)
    ensures r.Some? ==> TextsOf(ps, r.value)
  {
    var texts := [];
    for i := 0 to |ps|
      invariant |texts| == i && forall k :: 0 <= k < i ==> ParamOk(ps[k]) && texts[k] == ParamText(ps[k])
    {
      var s := PrintParam(ps[i]);
      if s.None? { return None; }
      texts := texts + [s.value];
    }
    r := Some(texts);
  }

  method Join(texts: seq<string>) returns (b: string)
    ensures b == Concat(texts)
  {
    b := "";
    for i := 0 to |texts|
      invariant b == Concat(texts[..i])
    {
      assert texts[..i + 1] == texts[..i] + [texts[i]];
      ConcatLast(texts[..i], texts[i]);
      b := b + texts[i];
    }
    assert texts[..|texts|] == texts;
  }

  method PrintParams(ps: seq<Param>) returns (r: Option<string>)
    ensures r.Some? <==> ParamsOk(ps)
    ensures r.Some? ==> r.value == ParamsText(ps)
  {
    var texts := PrintEach(ps);
    if texts.None? { return None; }
    ConcatParams(ps, texts.value);
    var b := Join(texts.value);
    r := Some(b);
  }

  method PrintValue(p: Params) returns (r: Option<string>)
    ensures r == Value(p)
  {
    var head := PrintComponents(p.components);
    if head.None? { return None; }
    var tail := PrintParams(p.params);
    if tail.None? { return None; }
    r := Some(head.value + tail.value);
  }

  // ---------------------------------------------------------------- parsing

  function Onto<T>(done: seq<T>, r: Option<seq<T>>): Option<seq<T>> {
    if r.None? then None else Some(done + r.value)
  }

  lemma OntoNothing<T>(r: Option<seq<T>>)
    ensures Onto([], r) == r
  {
    if r.Some? { assert [] + r.value == r.value; }
  }

  lemma OntoItem(done: seq<string>, c: string, r: Option<seq<string>>)
    ensures Onto(done, PrependItem(c, r)) == Onto(done + [c], r)
  {
    if r.Some? { assert done + ([c] + r.value) == done + [c] + r.value; }
  }

  lemma OntoParam(done: seq<Param>, p: Param, r: Option<seq<Param>>)
    ensures Onto(done, PrependParam(p, r)) == Onto(done + [p], r)
  {
    if r.Some? { assert done + ([p] + r.value) == done + [p] + r.value; }
  }

  method ReadItems(inner: string) returns (r: Option<seq<string>>)
    ensures r == ParseItems(inner)
  {
    var rest, out := inner, [];
    OntoNothing(ParseItems(inner));
    while rest != ""
      invariant ParseItems(inner) == Onto(out, ParseItems(rest))
      decreases |rest|
    {
      var item := ParseQuotedString(rest);
      if item.None? { return None; }
      var remainder := item.value.1;
      UnquoteShort(rest[1..]);
      TrimSpacesShort(remainder);
      var next := TrimSpaces(remainder);
      if next != "" && remainder == next { return None; }
      OntoItem(out, item.value.0, ParseItems(next));
      out, rest := out + [item.value.0], next;
    }
    assert out + [] == out;
    r := Some(out);
  }

  method ReadValue(rest: string) returns (r: Option<(ParamValue, string)>)
    ensures r == ParseValue(rest)
  {
    if rest == "" { return None; }
    if rest[0] == '\"' {
      var s := ParseQuotedString(rest);
      if s.None? { return None; }
      return Some((Str(s.value.0), s.value.1));
    }
    var at := Index(rest, ';');
    var stop := if at.None? then |rest| else at.value;
    var n := ParseInt(rest[..stop]);
    if n.None? { return None; }
    if FormatInt(n.value) != rest[..stop] { return None; }
    return Some((Int(n.value), rest[stop..]));
  }

  method ReadParam(rest: string) returns (r: Option<(Param, string)>)
    requires rest != ""
    ensures r == ParseParam(rest)
  {
    if rest[0] != ';' { return None; }
    var eq := Index(rest[1..], '=');
    if eq.None? { return None; }
    var name := rest[1..][..eq.value];
    var named := CheckName(name);
    if !named { return None; }
    var v := ReadValue(rest[1..][eq.value + 1..]);
    if v.None? { return None; }
    r := Some((Param(name, v.value.0), v.value.1));
  }

  method ReadParams(text: string) returns (r: Option<seq<Param>>)
    ensures r == ParseParams(text)
  {
    var rest, out := text, [];
    OntoNothing(ParseParams(text));
    while rest != ""
      invariant ParseParams(text) == Onto(out, ParseParams(rest))
      decreases |rest|
    {
      var p := ReadParam(rest);
      if p.None? { return None; }
      ParseParamShort(rest);
      OntoParam(out, p.value.0, ParseParams(p.value.1));
      out, rest := out + [p.value.0], p.value.1;
    }
    assert out + [] == out;
    r := Some(out);
  }

  method ParseSignatureParams(s: string) returns (r: Option<Params>)
    ensures r == Parse(s)
  {
    if s == "" || s[0] != '(' { return None; }
    var end := Index(s, ')');
    if end.None? { return None; }
    var cs := ReadItems(TrimSpace(s[1..end.value]));
    if cs.None? { return None; }
    var ps := ReadParams(s[end.value + 1..]);
    if ps.None? { return None; }
    r := Some(Params(cs.value, ps.value));
  }

  // ---------------------------------------------------------------- the base

  lemma {:induction false} LinesSnoc(es: seq<Entry>, e: Entry)
    ensures Lines(es + [e]) == Lines(es) + (Quote(e.name) + ": " + e.value + "\n")
  {
    var line := Quote(e.name) + ": " + e.value + "\n";
    if es == [] {
      assert es + [e] == [e] && [e][1..] == [] && line + "" == line && "" + line == line;
    } else {
      LinesSnoc(es[1..], e);
      assert (es + [e])[1..] == es[1..] + [e];
      var first := Quote(es[0].name) + ": " + es[0].value + "\n";
      assert first + (Lines(es[1..]) + line) == first + Lines(es[1..]) + line;
    }
  }

  method WriteLast(name: string, value: string, ghost p: Params) returns (last: string)
    requires '\\' !in name && '\"' !in name && value == ValueOf(p)
    ensures last == LastLine(name, p)
  {
    LastLineText(name, p);
    last := "\"" + name + "\"" + (": " + value);
  }

  /** The text with the last line under this name. */
  method MakeText(m: Message, p: Params, name: string) returns (r: Option<string>)
    requires '\\' !in name && '\"' !in name
    ensures r == if BaseOk(m, p) then Some(TextWith(m, p, name)) else None
  {
    var body := CoverComponents(m, p.components);
    if body.None? { return None; }
    var value := PrintValue(p);
    if value.None? { return None; }
    var last := WriteLast(name, value.value, p);
    r := Some(body.value + last);
  }

  method MakeBase(m: Message, p: Params) returns (r: Option<string>)
    ensures r == Base(m, p)
  {
    SignatureCovers.ParamsPlain();
    r := MakeText(m, p, PARAMS);
  }

  /** The name of the last line needs no escapes. */
  lemma LastLineText(name: string, p: Params)
    requires '\\' !in name && '\"' !in name
    ensures LastLine(name, p) == "\"" + name + "\"" + (": " + ValueOf(p))
  {
    EscapePlain(name);
  }

  predicate CoverOk(m: Message, cs: seq<string>) {
    Distinct(cs) && AllPrintable(cs) && forall c :: c in cs ==> ComponentValue(m, c).Some?
  }

  lemma CoverStep(m: Message, cs: seq<string>, i: nat)
    requires i < |cs| && CoverOk(m, cs[..i])
    ensures CoverOk(m, cs[..i + 1]) <==> cs[i] !in cs[..i] && Printable(cs[i]) && ComponentValue(m, cs[i]).Some?
    ensures CoverOk(m, cs[..i + 1]) ==>
            Lines(Entries(m, cs[..i + 1])) == Lines(Entries(m, cs[..i])) +
                (Quote(cs[i]) + ": " + ComponentValue(m, cs[i]).value + "\n")
  {
    assert cs[..i + 1] == cs[..i] + [cs[i]];
    if cs[i] in cs[..i] {
      RepeatNotDistinct(cs[..i + 1], i);
    } else if CoverOk(m, cs[..i + 1]) {
      var e := Entry(cs[i], ComponentValue(m, cs[i]).value);
      assert Entries(m, cs[..i + 1]) == Entries(m, cs[..i]) + [e];
      LinesSnoc(Entries(m, cs[..i]), e);
    } else {
      assert cs[i] in cs[..i + 1];
    }
  }

  lemma CoverPrefix(m: Message, cs: seq<string>, i: nat)
    requires i <= |cs| && CoverOk(m, cs)
    ensures CoverOk(m, cs[..i])
  {
  }

  method CoverComponents(m: Message, cs: seq<string>) returns (r: Option<string>)
    ensures r.Some? <==> CoverOk(m, cs)
    ensures r.Some? ==> r.value == Lines(Entries(m, cs))
  {
    var seen, b := {}, "";
    for i := 0 to |cs|
      invariant CoverOk(m, cs[..i]) && forall c :: c in seen <==> c in cs[..i]
      invariant b == Lines(Entries(m, cs[..i]))
    {
      var c := cs[i];
      CoverStep(m, cs, i);
      if CoverOk(m, cs) { CoverPrefix(m, cs, i + 1); }
      if c in seen { return None; }
      assert cs[..i + 1] == cs[..i] + [c];
      seen := seen + {c};
      var value := ComponentValue(m, c);
      if value.None? { return None; }
      var id := QuoteString(c);
      if id.None? { return None; }
      var line := id.value + ": " + value.value + "\n";
      b := b + line;
    }
    assert cs[..|cs|] == cs;
    r := Some(b);
  }

  lemma RepeatNotDistinct(cs: seq<string>, i: nat)
    requires i < |cs| && cs[i] in cs[..i]
    ensures !Distinct(cs)
  {
    var k :| 0 <= k < i && cs[..i][k] == cs[i];
    assert cs[k] == cs[i];
  }
}
