/** What a signature over a request base fixes: exactly the covered parts of the request, and the base's
    text as it is signed. */
module SignatureCovers {
  import opened Wrappers
  import opened SignatureFields
  import opened SignatureParams
  import opened SignatureBase

  /** The four parts of the request line. */
  const REQUEST := [METHOD, AUTHORITY, PATH, QUERY]

  const DIGEST := "content-digest"
  const VAULT := "sshstate-vault"
  const DEVICE := "sshstate-device"
  const IDEMPOTENCY := "idempotency-key"

  /** expectedComponents: what the profile covers. */
  function Expected(hasBody: bool, hasKey: bool): seq<string> {
    REQUEST + (if hasBody then [DIGEST] else []) + [VAULT, DEVICE] + (if hasKey then [IDEMPOTENCY] else [])
  }

  predicate CoversRequest(p: Params) {
    forall c :: c in REQUEST ==> c in p.components
  }

  predicate SameRequest(m: Message, n: Message) {
    m.method_ == n.method_ && m.authority == n.authority && m.path == n.path && m.query == n.query
  }

  lemma RequestValues(m: Message)
    ensures ComponentValue(m, METHOD) == Some(m.method_) && ComponentValue(m, AUTHORITY) == Some(m.authority)
    ensures ComponentValue(m, PATH) == Some(m.path) && ComponentValue(m, QUERY) == Some("?" + m.query)
  {
  }

  /** Two requests with one base that covers the four agree on the method, authority, path and query. */
  lemma RequestFixed(m: Message, p: Params, n: Message, q: Params)
    requires BaseOk(m, p) && BaseOk(n, q) && OneLineMessage(m) && OneLineMessage(n) && BaseText(m, p) == BaseText(n, q)
    requires CoversRequest(p)
    ensures SameRequest(m, n)
  {
    BaseUnambiguous(m, p, n, q);
    RequestValues(m);
    RequestValues(n);
    assert METHOD in REQUEST && AUTHORITY in REQUEST && PATH in REQUEST && QUERY in REQUEST;
    assert ("?" + m.query)[1..] == m.query && ("?" + n.query)[1..] == n.query;
  }

  /** The same covered values. */
  predicate Agree(m: Message, n: Message, cs: seq<string>) {
    forall c :: c in cs ==> ComponentValue(m, c) == ComponentValue(n, c)
  }

  lemma SameEntriesText(m: Message, n: Message, p: Params, last: string)
    requires BaseOk(m, p) && BaseOk(n, p) && Agree(m, n, p.components)
    ensures TextWith(m, p, last) == TextWith(n, p, last)
  {
    assert Entries(m, p.components) == Entries(n, p.components);
  }

  /** Two requests have one base if and only if their parameters and covered values are the same. */
  lemma SameBaseIff(m: Message, p: Params, n: Message, q: Params)
    requires BaseOk(m, p) && BaseOk(n, q) && OneLineMessage(m) && OneLineMessage(n)
    ensures BaseText(m, p) == BaseText(n, q) <==> p == q && Agree(m, n, p.components)
  {
    if BaseText(m, p) == BaseText(n, q) { BaseUnambiguous(m, p, n, q); }
    if p == q && Agree(m, n, p.components) { SameEntriesText(m, n, p, PARAMS); }
  }

  lemma ExpectedListed(hasBody: bool, hasKey: bool)
    ensures var cs := Expected(hasBody, hasKey);
            && (forall c :: c in REQUEST ==> c in cs) && VAULT in cs && DEVICE in cs
            && (hasBody ==> DIGEST in cs) && (hasKey ==> IDEMPOTENCY in cs)
  {
    var front := REQUEST + (if hasBody then [DIGEST] else []);
    var mid := front + [VAULT, DEVICE];
    assert mid[|front|] == VAULT && mid[|front| + 1] == DEVICE && VAULT in mid && DEVICE in mid;
    assert hasBody ==> front[4] == DIGEST && DIGEST in front;
    assert hasKey ==> [IDEMPOTENCY][0] == IDEMPOTENCY;
    forall c | c in REQUEST ensures c in front { }
    forall c | c in front ensures c in mid { }
    forall c | c in mid ensures c in Expected(hasBody, hasKey) { }
  }

  /** Two requests with one base over what the profile covers are the same request: the same method,
      authority, path and query, from the same device to the same vault, with the same digest of the body and
      the same idempotency key where these are covered. */
  lemma ProfileFixes(m: Message, p: Params, n: Message, q: Params, hasBody: bool, hasKey: bool)
    requires BaseOk(m, p) && BaseOk(n, q) && OneLineMessage(m) && OneLineMessage(n) && BaseText(m, p) == BaseText(n, q)
    requires p.components == Expected(hasBody, hasKey)
    ensures q.components == Expected(hasBody, hasKey) && SameRequest(m, n)
    ensures ComponentValue(m, VAULT) == ComponentValue(n, VAULT)
    ensures ComponentValue(m, DEVICE) == ComponentValue(n, DEVICE)
    ensures hasBody ==> ComponentValue(m, DIGEST) == ComponentValue(n, DIGEST)
    ensures hasKey ==> ComponentValue(m, IDEMPOTENCY) == ComponentValue(n, IDEMPOTENCY)
  {
    ExpectedListed(hasBody, hasKey);
    BaseUnambiguous(m, p, n, q);
    RequestFixed(m, p, n, q);
  }

  /** Visible ASCII characters and spaces. */
  predicate Ascii(s: string) {
    forall i :: 0 <= i < |s| ==> 0x20 <= s[i] as int <= 0x7E
  }

  /** A parameter's name: a lower-case letter, then lower-case letters, digits, `_`, `-` and `.`. */
  predicate NameSound(s: string) {
    && s != "" && 'a' <= s[0] <= 'z'
    && forall i :: 0 <= i < |s| ==> 'a' <= s[i] <= 'z' || '0' <= s[i] <= '9' || s[i] in "_-."
  }

  /** Parameters can be printed if and only if every component and every string value is ASCII without control
      characters, and every name is sound. */
  lemma PrintedIff(p: Params)
    ensures Value(p).Some? <==>
            && (forall i :: 0 <= i < |p.components| ==> Ascii(p.components[i]))
            && (forall i :: 0 <= i < |p.params| ==>
                  NameSound(p.params[i].name) && (p.params[i].value.Str? ==> Ascii(p.params[i].value.text)))
  {
    forall s: string ensures Printable(s) <==> Ascii(s) { }
    forall s: string ensures NameOk(s) <==> NameSound(s) { NameIff(s); }
    forall i | 0 <= i < |p.components| ensures p.components[i] in p.components { }
  }

  lemma NameIff(s: string)
    ensures NameOk(s) <==> NameSound(s)
  {
    forall i | 0 <= i < |s|
      ensures NameChar(s[i]) <==> 'a' <= s[i] <= 'z' || '0' <= s[i] <= '9' || s[i] in "_-."
    {
    }
  }

  // ---------------------------------------------------------------- as it is signed

  predicate Plain(s: string) {
    '\\' !in s && '\"' !in s
  }

  /** The texts in order, with a separator between each two. */
  function Joined(texts: seq<string>, between: string): string {
    if texts == [] then "" else if |texts| == 1 then texts[0] else texts[0] + between + Joined(texts[1..], between)
  }

  function InQuotes(s: string): string {
    "\"" + s + "\""
  }

  lemma QuotePlain(s: string)
    requires Plain(s)
    ensures Quote(s) == InQuotes(s)
  {
    EscapePlain(s);
  }

  function LineTexts(es: seq<Entry>): seq<string> {
    seq(|es|, i requires 0 <= i < |es| => InQuotes(es[i].name) + ": " + es[i].value)
  }

  function Quoted(cs: seq<string>): seq<string> {
    seq(|cs|, i requires 0 <= i < |cs| => InQuotes(cs[i]))
  }

  lemma Regrouped(line: string, lines: string, tail: string)
    ensures line + "\n" + lines + tail == line + "\n" + (lines + tail)
  {
  }

  lemma {:induction false} LinesJoined(es: seq<Entry>, tail: string)
    requires forall i :: 0 <= i < |es| ==> Plain(es[i].name)
    ensures Lines(es) + tail == Joined(LineTexts(es) + [tail], "\n")
  {
    if es == [] {
      assert LineTexts(es) + [tail] == [tail] && Lines(es) + tail == tail;
    } else {
      LinesJoined(es[1..], tail);
      QuotePlain(es[0].name);
      assert (LineTexts(es) + [tail])[1..] == LineTexts(es[1..]) + [tail];
      Regrouped(InQuotes(es[0].name) + ": " + es[0].value, Lines(es[1..]), tail);
    }
  }

  lemma {:induction false} ItemsJoined(cs: seq<string>)
    requires forall i :: 0 <= i < |cs| ==> Plain(cs[i])
    ensures Items(cs) == Joined(Quoted(cs), " ")
  {
    if cs != [] {
      ItemsJoined(cs[1..]);
      QuotePlain(cs[0]);
      assert Quoted(cs)[1..] == Quoted(cs[1..]);
    }
  }

  function ParamsLine(p: Params, last: string): string {
    InQuotes(last) + (": " + ("(" + Joined(Quoted(p.components), " ") + ")" + ParamsText(p.params)))
  }

  lemma TextLaidOut(m: Message, p: Params, last: string)
    requires BaseOk(m, p) && Plain(last) && forall i :: 0 <= i < |p.components| ==> Plain(p.components[i])
    ensures TextWith(m, p, last) ==
            Joined(LineTexts(Entries(m, p.components)) + [ParamsLine(p, last)], "\n")
  {
    QuotePlain(last);
    ItemsJoined(p.components);
    LinesJoined(Entries(m, p.components), LastLine(last, p));
  }

  lemma ParamsPlain()
    ensures Plain(PARAMS)
  {
  }

  /** The base is a line for each covered component, its quoted name, a colon, a space and its value, and then
      the line of the parameters, which lists the quoted names again. */
  lemma BaseLaidOut(m: Message, p: Params)
    requires BaseOk(m, p) && forall i :: 0 <= i < |p.components| ==> Plain(p.components[i])
    ensures BaseText(m, p) ==
            Joined(LineTexts(Entries(m, p.components)) + [ParamsLine(p, PARAMS)], "\n")
  {
    ParamsPlain();
    TextLaidOut(m, p, PARAMS);
  }

  /** A component can be covered if and only if it is one of the four, or a field of the request under a name
      without capitals. */
  lemma CoveredIff(m: Message, c: string)
    ensures ComponentValue(m, c).Some? <==>
            if c != "" && c[0] == '@' then c in REQUEST
            else c in m.fields && m.fields[c] != [] && forall i :: 0 <= i < |c| ==> c[i] < 'A' || 'Z' < c[i]
  {
    assert REQUEST[0] == METHOD && REQUEST[1] == AUTHORITY && REQUEST[2] == PATH && REQUEST[3] == QUERY;
  }

  /** A covered field is its values in order, each on one line, with a comma and a space between. */
  lemma {:induction false} FieldJoined(values: seq<string>)
    ensures JoinValues(values) == Joined(seq(|values|, i requires 0 <= i < |values| => OneLine(values[i])), ", ")
  {
    if values != [] {
      FieldJoined(values[1..]);
      var texts := seq(|values|, i requires 0 <= i < |values| => OneLine(values[i]));
      assert texts[1..] == seq(|values| - 1, i requires 0 <= i < |values| - 1 => OneLine(values[1..][i]));
    }
  }
}
