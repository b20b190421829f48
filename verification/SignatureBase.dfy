/** The signature base of a request: one line per covered component, then the parameters. */
module SignatureBase {
  import opened Wrappers
  import opened Text
  import opened SignatureFields
  import opened SignatureParams

  const METHOD := "@method"
  const AUTHORITY := "@authority"
  const PATH := "@path"
  const QUERY := "@query"
  const PARAMS := "@signature-params"

  /** A request as it is covered; the fields are keyed by their lower-case names. */
  datatype Message = Message(method_: string, authority: string, path: string, query: string,
                             fields: map<string, seq<string>>)

  // ---------------------------------------------------------------- field values

  /** Line breaks become spaces: first the pairs, then the single characters. */
  function JoinPairs(s: string): string {
    if |s| < 2 then s
    else if s[0] == '\r' && s[1] == '\n' then " " + JoinPairs(s[2..])
    else [s[0]] + JoinPairs(s[1..])
  }

  function Replace(s: string, c: char): string {
    if s == "" then "" else [if s[0] == c then ' ' else s[0]] + Replace(s[1..], c)
  }

  function OneLine(s: string): string {
    TrimSpace(Replace(Replace(JoinPairs(s), '\n'), '\r'))
  }

  function JoinValues(values: seq<string>): string {
    if values == [] then ""
    else if |values| == 1 then OneLine(values[0])
    else OneLine(values[0]) + ", " + JoinValues(values[1..])
  }

  lemma {:induction false} ReplaceRemoves(s: string, c: char, d: char)
    requires c != ' ' && (d == c || d !in s) && d != ' '
    ensures d !in Replace(s, c)
  {
    if s != "" { ReplaceRemoves(s[1..], c, d); }
  }

  lemma OneLineIs(s: string)
    ensures '\n' !in OneLine(s)
  {
    ReplaceRemoves(JoinPairs(s), '\n', '\n');
    ReplaceRemoves(Replace(JoinPairs(s), '\n'), '\r', '\n');
    TrimPart(Replace(Replace(JoinPairs(s), '\n'), '\r'), '\n');
  }

  /** However a field is folded, its covered value is on one line. */
  lemma {:induction false} FieldsOneLine(values: seq<string>)
    ensures '\n' !in JoinValues(values)
  {
    if values != [] {
      OneLineIs(values[0]);
      FieldsOneLine(values[1..]);
    }
  }

  // ---------------------------------------------------------------- components

  predicate LowerCase(c: string) {
    forall i :: 0 <= i < |c| ==> !('A' <= c[i] <= 'Z')
  }

  function ComponentValue(m: Message, c: string): Option<string> {
    if c != "" && c[0] == '@' then
      if c == METHOD then Some(m.method_)
      else if c == AUTHORITY then Some(m.authority)
      else if c == PATH then Some(m.path)
      else if c == QUERY then Some("?" + m.query)
      else None
    else if !LowerCase(c) || c !in m.fields || m.fields[c] == [] then None
    else Some(JoinValues(m.fields[c]))
  }

  predicate Distinct(cs: seq<string>) {
    forall i, j :: 0 <= i < j < |cs| ==> cs[i] != cs[j]
  }

  predicate BaseOk(m: Message, p: Params) {
    Distinct(p.components) && ValueOk(p) && forall c :: c in p.components ==> ComponentValue(m, c).Some?
  }

  /** A covered component with its value. */
  datatype Entry = Entry(name: string, value: string)

  function Entries(m: Message, cs: seq<string>): seq<Entry>
    requires forall c :: c in cs ==> ComponentValue(m, c).Some?
  {
    seq(|cs|, i requires 0 <= i < |cs| => Entry(cs[i], ComponentValue(m, cs[i]).value))
  }

  function Lines(es: seq<Entry>): string {
    if es == [] then "" else Quote(es[0].name) + ": " + es[0].value + "\n" + Lines(es[1..])
  }

  function LastLine(name: string, p: Params): string {
    Quote(name) + (": " + ValueOf(p))
  }

  function TextWith(m: Message, p: Params, last: string): string
    requires BaseOk(m, p)
  {
    Lines(Entries(m, p.components)) + LastLine(last, p)
  }

  function BaseText(m: Message, p: Params): string
    requires BaseOk(m, p)
  {
    TextWith(m, p, PARAMS)
  }

  function Base(m: Message, p: Params): Option<string> {
    if BaseOk(m, p) then Some(BaseText(m, p)) else None
  }

  // ---------------------------------------------------------------- unambiguous

  /** The name at the front of a line is determined by the text. */
  lemma QuoteFirst(c: string, rest: string, d: string, more: string)
    requires Printable(c) && Printable(d) && Quote(c) + rest == Quote(d) + more
    ensures c == d && rest == more
  {
    assert (Quote(c) + rest)[1..] == Escape(c) + "\"" + rest;
    assert (Quote(d) + more)[1..] == Escape(d) + "\"" + more;
    UnquoteEscape(c, rest);
    UnquoteEscape(d, more);
  }

  /** The value on a line is determined by the text. */
  lemma ValueFirst(v: string, rest: string, w: string, more: string)
    requires '\n' !in v && '\n' !in w && v + "\n" + rest == w + "\n" + more
    ensures v == w && rest == more
  {
    IndexIs(v, '\n', rest);
    IndexIs(w, '\n', more);
    var s := v + "\n" + rest;
    assert v == s[..|v|] && w == s[..|w|] && rest == s[|v| + 1..] && more == s[|w| + 1..];
  }

  /** Names are printable and differ from the last line's; values are on one line. */
  ghost predicate Listable(es: seq<Entry>, last: string) {
    forall i :: 0 <= i < |es| ==> Printable(es[i].name) && es[i].name != last && '\n' !in es[i].value
  }

  lemma Regroup(a: string, b: string, c: string, d: string, e: string, f: string)
    ensures (a + b + c + d + e) + f == a + (b + (c + d + (e + f)))
  {
  }

  /** The text after the first name. */
  function AfterName(es: seq<Entry>, tail: string, rest: string): string {
    if es == [] then rest else ": " + (es[0].value + "\n" + (Lines(es[1..]) + tail))
  }

  lemma FirstName(es: seq<Entry>, last: string, rest: string)
    ensures Lines(es) + (Quote(last) + rest) ==
            Quote(if es == [] then last else es[0].name) + AfterName(es, Quote(last) + rest, rest)
  {
    if es == [] {
      assert "" + (Quote(last) + rest) == Quote(last) + rest;
    } else {
      Regroup(Quote(es[0].name), ": ", es[0].value, "\n", Lines(es[1..]), Quote(last) + rest);
    }
  }

  lemma AfterNames(es: seq<Entry>, t: string, fs: seq<Entry>, u: string)
    requires es != [] && fs != [] && '\n' !in es[0].value && '\n' !in fs[0].value
    requires ": " + (es[0].value + "\n" + (Lines(es[1..]) + t)) == ": " + (fs[0].value + "\n" + (Lines(fs[1..]) + u))
    ensures es[0].value == fs[0].value && Lines(es[1..]) + t == Lines(fs[1..]) + u
  {
    var x, y := es[0].value + "\n" + (Lines(es[1..]) + t), fs[0].value + "\n" + (Lines(fs[1..]) + u);
    assert (": " + x)[2..] == x && (": " + y)[2..] == y;
    ValueFirst(es[0].value, Lines(es[1..]) + t, fs[0].value, Lines(fs[1..]) + u);
  }

  /** The lines, and what follows the last line's name, are determined by the text. */
  lemma {:induction false} LinesFirst(es: seq<Entry>, rest: string, fs: seq<Entry>, more: string, last: string)
    requires Listable(es, last) && Listable(fs, last) && Printable(last)
    requires Lines(es) + (Quote(last) + rest) == Lines(fs) + (Quote(last) + more)
    ensures es == fs && rest == more
  {
    FirstName(es, last, rest);
    FirstName(fs, last, more);
    var c, d := if es == [] then last else es[0].name, if fs == [] then last else fs[0].name;
    QuoteFirst(c, AfterName(es, Quote(last) + rest, rest), d, AfterName(fs, Quote(last) + more, more));
    if es != [] {
      AfterNames(es, Quote(last) + rest, fs, Quote(last) + more);
      ListableTail(es, last);
      ListableTail(fs, last);
      LinesFirst(es[1..], rest, fs[1..], more, last);
      SameHeadTail(es, fs);
    }
  }

  lemma ListableTail(es: seq<Entry>, last: string)
    requires Listable(es, last) && es != []
    ensures Listable(es[1..], last)
  {
  }

  lemma SameHeadTail(es: seq<Entry>, fs: seq<Entry>)
    requires es != [] && fs != [] && es[0] == fs[0] && es[1..] == fs[1..]
    ensures es == fs
  {
    assert es == [es[0]] + es[1..] && fs == [fs[0]] + fs[1..];
  }

  /** With the same components, the printed parameters determine the parameters. */
  lemma SameParams(cs: seq<string>, ps: seq<Param>, qs: seq<Param>)
    requires ParamsOk(ps) && ParamsOk(qs) && ValueOf(Params(cs, ps)) == ValueOf(Params(cs, qs))
    ensures ps == qs
  {
    var front := "(" + Items(cs) + ")";
    assert ValueOf(Params(cs, ps))[|front|..] == ParamsText(ps) && ValueOf(Params(cs, qs))[|front|..] == ParamsText(qs);
    ParseParamsBack(ps);
    ParseParamsBack(qs);
  }

  lemma LastFirst(es: seq<Entry>, p: Params, fs: seq<Entry>, q: Params, last: string)
    requires Listable(es, last) && Listable(fs, last) && Printable(last)
    requires Lines(es) + LastLine(last, p) == Lines(fs) + LastLine(last, q)
    ensures es == fs && ValueOf(p) == ValueOf(q)
  {
    LinesFirst(es, ": " + ValueOf(p), fs, ": " + ValueOf(q), last);
    assert (": " + ValueOf(p))[2..] == ValueOf(p) && (": " + ValueOf(q))[2..] == ValueOf(q);
  }

  /** The parts of the request line hold no line break. */
  predicate OneLineMessage(m: Message) {
    '\n' !in m.method_ && '\n' !in m.authority && '\n' !in m.path && '\n' !in m.query
  }

  lemma ComponentOneLine(m: Message, c: string)
    requires OneLineMessage(m) && ComponentValue(m, c).Some?
    ensures '\n' !in ComponentValue(m, c).value && c != PARAMS
  {
    if !(c != "" && c[0] == '@') { FieldsOneLine(m.fields[c]); }
  }

  lemma EntriesListable(m: Message, p: Params, last: string)
    requires BaseOk(m, p) && OneLineMessage(m) && last == PARAMS
    ensures Listable(Entries(m, p.components), last)
  {
    forall i | 0 <= i < |p.components|
      ensures p.components[i] != PARAMS && '\n' !in ComponentValue(m, p.components[i]).value
    {
      ComponentOneLine(m, p.components[i]);
    }
  }

  lemma SameEntries(m: Message, p: Params, n: Message, q: Params)
    requires BaseOk(m, p) && BaseOk(n, q) && Entries(m, p.components) == Entries(n, q.components)
    ensures p.components == q.components && forall c :: c in p.components ==>
            ComponentValue(m, c) == ComponentValue(n, c)
  {
    var es, fs := Entries(m, p.components), Entries(n, q.components);
    forall i | 0 <= i < |es|
      ensures p.components[i] == q.components[i]
      ensures ComponentValue(m, p.components[i]) == ComponentValue(n, q.components[i])
    {
      assert es[i] == fs[i];
    }
  }

  lemma TextUnambiguous(m: Message, p: Params, n: Message, q: Params, last: string)
    requires BaseOk(m, p) && BaseOk(n, q) && Printable(last)
    requires Listable(Entries(m, p.components), last) && Listable(Entries(n, q.components), last)
    requires TextWith(m, p, last) == TextWith(n, q, last)
    ensures p == q && forall c :: c in p.components ==> ComponentValue(m, c) == ComponentValue(n, c)
  {
    LastFirst(Entries(m, p.components), p, Entries(n, q.components), q, last);
    SameEntries(m, p, n, q);
    SameParams(p.components, p.params, q.params);
  }

  lemma NamedText(m: Message, p: Params, n: Message, q: Params, last: string)
    requires BaseOk(m, p) && BaseOk(n, q) && OneLineMessage(m) && OneLineMessage(n) && last == PARAMS && Printable(last)
    requires TextWith(m, p, last) == TextWith(n, q, last)
    ensures p == q && forall c :: c in p.components ==> ComponentValue(m, c) == ComponentValue(n, c)
  {
    EntriesListable(m, p, last);
    EntriesListable(n, q, last);
    TextUnambiguous(m, p, n, q, last);
  }

  lemma PrintableName()
    ensures Printable(PARAMS)
  {
  }

  /** Two requests with one signature base cover the same components with the same values, under
      the same parameters. */
  lemma BaseUnambiguous(m: Message, p: Params, n: Message, q: Params)
    requires BaseOk(m, p) && BaseOk(n, q) && OneLineMessage(m) && OneLineMessage(n) && BaseText(m, p) == BaseText(n, q)
    ensures p == q && forall c :: c in p.components ==> ComponentValue(m, c) == ComponentValue(n, c)
  {
    PrintableName();
    NamedText(m, p, n, q, PARAMS);
  }
}
