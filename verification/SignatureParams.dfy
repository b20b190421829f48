/** Signature parameters: printing them, reading them back, and when the two are inverse. */
module SignatureParams {
  import opened Wrappers
  import opened Text
  import opened Numbers
  import opened SignatureFields

  // ---------------------------------------------------------------- one parameter

  datatype ParamValue = Str(text: string) | Int(number: Int64)

  datatype Param = Param(name: string, value: ParamValue)

  predicate NameChar(c: char) {
    'a' <= c <= 'z' || '0' <= c <= '9' || c == '_' || c == '-' || c == '.'
  }

  predicate NameOk(name: string) {
    name != "" && 'a' <= name[0] <= 'z' && forall i :: 0 <= i < |name| ==> NameChar(name[i])
  }

  predicate ParamOk(p: Param) {
    NameOk(p.name) && (p.value.Str? ==> Printable(p.value.text))
  }

  function ValueText(v: ParamValue): string {
    match v
    case Str(text) => Quote(text)
    case Int(n) => FormatInt(n)
  }

  function ParamText(p: Param): string {
    ";" + p.name + "=" + ValueText(p.value)
  }

  function ParamsText(ps: seq<Param>): string {
    if ps == [] then "" else ParamText(ps[0]) + ParamsText(ps[1..])
  }

  /** The value at the front of a text, and the text after it. */
  function ParseValue(rest: string): Option<(ParamValue, string)> {
    if rest == "" then None
    else if rest[0] == '\"' then
      match Unquote(rest[1..])
      case None => None
      case Some(r) => Some((Str(r.0), r.1))
    else
      var stop := match Index(rest, ';') case None => |rest| case Some(i) => i;
      match ParseInt(rest[..stop])
      case None => None
      case Some(n) => if FormatInt(n) == rest[..stop] then Some((Int(n), rest[stop..])) else None
  }

  function PrependParam(p: Param, r: Option<seq<Param>>): Option<seq<Param>> {
    if r.None? then None else Some([p] + r.value)
  }

  lemma ParseValueShort(rest: string)
    requires ParseValue(rest).Some?
    ensures |ParseValue(rest).value.1| <= |rest|
  {
    if rest[0] == '\"' { UnquoteShort(rest[1..]); }
  }

  /** The parameter at the front of a text, and the text after it. */
  function ParseParam(rest: string): Option<(Param, string)>
    requires rest != ""
  {
    if rest[0] != ';' then None
    else match Index(rest[1..], '=')
      case None => None
      case Some(eq) =>
        var name, text := rest[1..][..eq], rest[1..][eq + 1..];
        if !NameOk(name) then None
        else match ParseValue(text)
          case None => None
          case Some(r) => Some((Param(name, r.0), r.1))
  }

  lemma ParseParamShort(rest: string)
    requires rest != "" && ParseParam(rest).Some?
    ensures |ParseParam(rest).value.1| < |rest|
  {
    ParseValueShort(rest[1..][Index(rest[1..], '=').value + 1..]);
  }

  function ParseParams(rest: string): Option<seq<Param>>
    decreases |rest|
  {
    if rest == "" then Some([])
    else match ParseParam(rest)
      case None => None
      case Some(r) => ParseParamShort(rest); PrependParam(r.0, ParseParams(r.1))
  }

  lemma FormatIntPlain(n: int)
    ensures FormatInt(n) != "" && FormatInt(n)[0] != '\"' && ';' !in FormatInt(n)
  {
  }

  /** A value reads back, whatever parameter list follows it. */
  lemma ParseValueBack(v: ParamValue, rest: string)
    requires (v.Str? ==> Printable(v.text)) && (rest == "" || rest[0] == ';')
    ensures ParseValue(ValueText(v) + rest) == Some((v, rest))
  {
    match v
    case Str(s) =>
      UnquoteEscape(s, rest);
      assert (Quote(s) + rest)[1..] == Escape(s) + "\"" + rest;
    case Int(n) =>
      FormatIntPlain(n);
      ParseIntBack(n);
      IntegerEnds(FormatInt(n), rest);
  }

  /** An integer's text ends at the next parameter or at the end. */
  lemma IntegerEnds(digits: string, rest: string)
    requires ';' !in digits && (rest == "" || rest[0] == ';')
    ensures var text := digits + rest; var stop := match Index(text, ';') case None => |text| case Some(i) => i;
            stop == |digits| && text[..stop] == digits && text[stop..] == rest
  {
    if rest == "" {
      assert digits + rest == digits;
    } else {
      assert digits + rest == digits + [';'] + rest[1..];
      IndexIs(digits, ';', rest[1..]);
    }
  }

  /** What a value is read from is its own text. */
  lemma ParseValueSound(rest: string)
    requires ParseValue(rest).Some?
    ensures rest == ValueText(ParseValue(rest).value.0) + ParseValue(rest).value.1
    ensures ParseValue(rest).value.0.Str? ==> Printable(ParseValue(rest).value.0.text)
  {
    if rest[0] == '\"' {
      UnquoteSound(rest[1..]);
      assert rest == "\"" + rest[1..];
    }
  }

  predicate ParamsOk(ps: seq<Param>) {
    forall i :: 0 <= i < |ps| ==> ParamOk(ps[i])
  }

  lemma NameNoEquals(name: string)
    requires NameOk(name)
    ensures '=' !in name
  {
  }

  lemma ParamFront(p: Param, rest: string)
    requires NameOk(p.name)
    ensures (ParamText(p) + rest)[0] == ';'
    ensures Index((ParamText(p) + rest)[1..], '=') == Some(|p.name|)
    ensures (ParamText(p) + rest)[1..][..|p.name|] == p.name &&
            (ParamText(p) + rest)[1..][|p.name| + 1..] == ValueText(p.value) + rest
  {
    var after := (ParamText(p) + rest)[1..];
    NameNoEquals(p.name);
    assert after == p.name + ['='] + (ValueText(p.value) + rest);
    IndexIs(p.name, '=', ValueText(p.value) + rest);
  }

  lemma ParamsStart(ps: seq<Param>)
    ensures ParamsText(ps) == "" || ParamsText(ps)[0] == ';'
  {
  }

  /** A printed parameter list reads back. */
  lemma {:induction false} ParseParamsBack(ps: seq<Param>)
    requires ParamsOk(ps)
    ensures ParseParams(ParamsText(ps)) == Some(ps)
  {
    if ps != [] {
      var rest := ParamsText(ps[1..]);
      ParamsStart(ps[1..]);
      ParseParamBack(ps[0], rest);
      ParseParamsBack(ps[1..]);
      assert [ps[0]] + ps[1..] == ps;
    }
  }

  lemma SplitParam(rest: string, eq: nat)
    requires rest != "" && rest[0] == ';' && eq < |rest[1..]| && rest[1..][eq] == '='
    ensures rest == ";" + rest[1..][..eq] + "=" + rest[1..][eq + 1..]
  {
  }

  lemma ParseParamSound(rest: string)
    requires rest != "" && ParseParam(rest).Some?
    ensures ParamOk(ParseParam(rest).value.0) && rest == ParamText(ParseParam(rest).value.0) + ParseParam(rest).value.1
  {
    var eq := Index(rest[1..], '=').value;
    ParseValueSound(rest[1..][eq + 1..]);
    SplitParam(rest, eq);
  }

  lemma ParseParamBack(p: Param, rest: string)
    requires ParamOk(p) && (rest == "" || rest[0] == ';')
    ensures ParseParam(ParamText(p) + rest) == Some((p, rest))
  {
    ParamFront(p, rest);
    ParseValueBack(p.value, rest);
  }

  /** A parameter list is read only from its own text: the two are inverse. */
  lemma {:induction false} ParseParamsSound(rest: string)
    requires ParseParams(rest).Some?
    ensures ParamsOk(ParseParams(rest).value) && ParamsText(ParseParams(rest).value) == rest
    decreases |rest|
  {
    if rest != "" {
      var r := ParseParam(rest).value;
      ParseParamShort(rest);
      ParseParamSound(rest);
      ParseParamsSound(r.1);
      var ps := ParseParams(r.1).value;
      assert ParseParams(rest).value == [r.0] + ps;
      assert ([r.0] + ps)[1..] == ps;
    }
  }

  // ---------------------------------------------------------------- the whole

  datatype Params = Params(components: seq<string>, params: seq<Param>)

  /** What can be printed. */
  predicate ValueOk(p: Params) {
    AllPrintable(p.components) && ParamsOk(p.params)
  }

  function ValueOf(p: Params): string {
    "(" + Items(p.components) + ")" + ParamsText(p.params)
  }

  function Value(p: Params): Option<string> {
    if ValueOk(p) then Some(ValueOf(p)) else None
  }

  function Parse(s: string): Option<Params> {
    if s == "" || s[0] != '(' then None
    else match Index(s, ')')
      case None => None
      case Some(end) =>
        match ParseItems(TrimSpace(s[1..end]))
        case None => None
        case Some(cs) =>
          match ParseParams(s[end + 1..])
          case None => None
          case Some(ps) => Some(Params(cs, ps))
  }

  predicate NoParen(cs: seq<string>) {
    forall c :: c in cs ==> ')' !in c
  }

  lemma QuoteNoParen(c: string)
    ensures ')' in Quote(c) <==> ')' in c
  {
    EscapeHas(c, ')');
  }

  lemma {:induction false} ItemsNoParen(cs: seq<string>)
    ensures ')' !in Items(cs) <==> NoParen(cs)
  {
    if cs != [] {
      ItemsNoParen(cs[1..]);
      QuoteNoParen(cs[0]);
      assert cs == [cs[0]] + cs[1..];
    }
  }

  lemma Enclosed(items: string, tail: string, s: string)
    requires s == "(" + items + ")" + tail
    ensures s == ("(" + items) + [')'] + tail && s[0] == '(' && s[1..|items| + 1] == items && s[|items| + 2..] == tail
  {
  }

  lemma ParseBack(p: Params)
    requires ValueOk(p) && NoParen(p.components)
    ensures Parse(ValueOf(p)) == Some(p)
  {
    var items, tail := Items(p.components), ParamsText(p.params);
    var s := ValueOf(p);
    ItemsNoParen(p.components);
    Enclosed(items, tail, s);
    IndexIs("(" + items, ')', tail);
    if p.components != [] { ItemsQuoted(p.components); }
    TrimNothing(items);
    ParseItemsBack(p.components);
    ParseParamsBack(p.params);
  }

  // ---------------------------------------------------------------- where the round trip ends

  lemma {:induction false} EscapeCut(c: string, ch: char) returns (n: nat)
    requires ch != '\\' && ch in c
    ensures n < |Escape(c)| && Escape(c)[n] == ch && ch !in Escape(c)[..n]
  {
    EscapeHas(c, ch);
    n := Index(Escape(c), ch).value;
  }

  lemma CutHere(e: string, n: nat, items: string)
    requires n < |e| && e[n] == ')' && "\"" + e <= items
    ensures "\"" + e[..n] + ")" <= items
  {
    assert ("\"" + e)[..n + 2] == "\"" + e[..n] + ")";
  }

  lemma CutLater(first: string, cut: string, items: string)
    requires cut + ")" <= items
    ensures first + cut + ")" <= first + items
  {
    assert first + cut + ")" == first + (cut + ")");
  }

  /** The list up to the first closing parenthesis is a list cut inside an item. */
  lemma {:induction false} FirstParen(cs: seq<string>) returns (k: nat, n: nat)
    requires !NoParen(cs)
    ensures k < |cs| && n < |Escape(cs[k])|
    ensures CutList(cs[..k], "\"" + Escape(cs[k])[..n]) + ")" <= Items(cs)
    ensures ')' !in CutList(cs[..k], "\"" + Escape(cs[k])[..n])
  {
    if ')' in cs[0] {
      k := 0;
      n := EscapeCut(cs[0], ')');
      assert cs[..0] == [];
      CutHere(Escape(cs[0]), n, Items(cs));
    } else {
      assert cs == [cs[0]] + cs[1..];
      k, n := FirstParen(cs[1..]);
      var cut := "\"" + Escape(cs[k + 1])[..n];
      assert cs[..k + 1][1..] == cs[1..][..k] && cs[..k + 1][0] == cs[0];
      QuoteNoParen(cs[0]);
      CutLater(Quote(cs[0]) + " ", CutList(cs[1..][..k], cut), Items(cs[1..]));
      k := k + 1;
    }
  }

  lemma {:induction false} TrimRightKeeps(a: string, b: string)
    requires a != "" && !IsSpace(a[|a| - 1])
    ensures exists m :: 0 <= m <= |b| && TrimRight(a + b) == a + b[..m]
  {
    if b == "" {
      assert a + b == a && a + b[..0] == a;
    } else if IsSpace(b[|b| - 1]) {
      var front := b[..|b| - 1];
      TrimRightKeeps(a, front);
      assert (a + b)[..|a + b| - 1] == a + front;
      var m :| 0 <= m <= |front| && TrimRight(a + front) == a + front[..m];
      assert front[..m] == b[..m];
    } else {
      assert a + b[..|b|] == a + b;
    }
  }

  function CutPrefix(cs: seq<string>): string {
    if cs == [] then "" else Quote(cs[0]) + " " + CutPrefix(cs[1..])
  }

  lemma {:induction false} CutListIs(cs: seq<string>, cut: string)
    ensures CutList(cs, cut) == CutPrefix(cs) + cut
  {
    if cs != [] { CutListIs(cs[1..], cut); }
  }

  /** Trimming such a cut leaves such a cut. */
  lemma TrimCut(cs: seq<string>, c: string, n: nat)
    requires n <= |Escape(c)|
    ensures exists m :: 0 <= m <= n &&
              TrimSpace(CutList(cs, "\"" + Escape(c)[..n])) == CutList(cs, "\"" + Escape(c)[..m])
  {
    var e := Escape(c)[..n];
    CutListIs(cs, "\"" + e);
    CutStarts(cs);
    TrimTail(CutPrefix(cs), e);
    var m :| 0 <= m <= |e| && TrimSpace(CutPrefix(cs) + ("\"" + e)) == CutPrefix(cs) + ("\"" + e[..m]);
    assert e[..m] == Escape(c)[..m];
    CutListIs(cs, "\"" + Escape(c)[..m]);
  }

  lemma CutStarts(cs: seq<string>)
    ensures CutPrefix(cs) == "" || CutPrefix(cs)[0] == '\"'
  {
  }

  lemma TrimTail(a: string, e: string)
    requires a == "" || a[0] == '\"'
    ensures exists m :: 0 <= m <= |e| && TrimSpace(a + ("\"" + e)) == a + ("\"" + e[..m])
  {
    var b := a + "\"";
    assert a + ("\"" + e) == b + e && (b + e)[0] == '\"';
    TrimRightKeeps(b, e);
    var m :| 0 <= m <= |e| && TrimRight(b + e) == b + e[..m];
    assert b + e[..m] == a + ("\"" + e[..m]);
  }

  /** A printed list with a closing parenthesis in a component is refused by the parser. */
  lemma ParenRefused(p: Params)
    requires ValueOk(p) && !NoParen(p.components)
    ensures Parse(ValueOf(p)).None?
  {
    var cs := p.components;
    var k, n := FirstParen(cs);
    var cut := CutList(cs[..k], "\"" + Escape(cs[k])[..n]);
    ParenSplit(p, cut);
    TrimCut(cs[..k], cs[k], n);
    var m :| 0 <= m <= n && TrimSpace(cut) == CutList(cs[..k], "\"" + Escape(cs[k])[..m]);
    ParseItemsCut(cs[..k], cs[k], m);
  }

  /** The parser takes the inner list to end at the first closing parenthesis. */
  lemma ParenSplit(p: Params, cut: string)
    requires cut + ")" <= Items(p.components) && ')' !in cut
    ensures Index(ValueOf(p), ')') == Some(|cut| + 1) && ValueOf(p)[1..|cut| + 1] == cut && ValueOf(p)[0] == '('
  {
    var rest := SplitAround(Items(p.components), cut, ParamsText(p.params), ValueOf(p));
    IndexIs("(" + cut, ')', rest);
  }

  lemma SplitAround(items: string, cut: string, tail: string, s: string) returns (rest: string)
    requires cut + ")" <= items && s == "(" + items + ")" + tail
    ensures s == ("(" + cut) + [')'] + rest && s[1..|cut| + 1] == cut
  {
    rest := items[|cut| + 1..] + ")" + tail;
    assert items == (cut + ")") + items[|cut| + 1..];
  }

  /** Printed parameters read back exactly when no component contains a closing parenthesis; if one
      does, they are refused, never misread. */
  lemma RoundTripIff(p: Params)
    requires ValueOk(p)
    ensures NoParen(p.components) ==> Parse(ValueOf(p)) == Some(p)
    ensures !NoParen(p.components) ==> Parse(ValueOf(p)) == None
  {
    if NoParen(p.components) { ParseBack(p); } else { ParenRefused(p); }
  }

  lemma {:induction false} TrimPart(s: string, c: char)
    requires c !in s
    ensures c !in TrimSpace(s)
  {
    TrimLeftPart(s, c);
    TrimRightPart(TrimLeft(s), c);
  }

  lemma {:induction false} TrimLeftPart(s: string, c: char)
    requires c !in s
    ensures c !in TrimLeft(s)
  {
    if s != "" && IsSpace(s[0]) { TrimLeftPart(s[1..], c); }
  }

  lemma {:induction false} TrimRightPart(s: string, c: char)
    requires c !in s
    ensures c !in TrimRight(s)
  {
    if s != "" && IsSpace(s[|s| - 1]) { TrimRightPart(s[..|s| - 1], c); }
  }

  /** Whatever the parser accepts can be printed, and its print reads back to the same parameters. */
  lemma ParseStable(s: string)
    requires Parse(s).Some?
    ensures ValueOk(Parse(s).value) && Parse(ValueOf(Parse(s).value)) == Parse(s)
  {
    var end := Index(s, ')').value;
    var inner := TrimSpace(s[1..end]);
    assert ')' !in s[1..end] by {
      assert s[..end] == [s[0]] + s[1..end];
    }
    TrimPart(s[1..end], ')');
    ParseItemsSound(inner);
    ParseParamsSound(s[end + 1..]);
    ParseBack(Parse(s).value);
  }
}
