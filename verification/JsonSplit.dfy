/** The leading JSON value of a text. */
module JsonSplit {
  import opened Ordering

  // ---------------------------------------------------------------- the grammar

  /** One character of a string: section 7 of RFC 8259. */
  datatype StrChar = Plain(c: char) | Short(e: char) | Hex(digits: string)

  /** Values with their layout. A number is kept in its four parts: section 6 of RFC 8259. */
  datatype Json =
    | Word(w: string)
    | Number(minus: bool, whole: string, frac: Option<string>, exp: Option<string>)
    | Str(chars: seq<StrChar>)
    | Arr(gap: string, items: Items)
    | Obj(gap: string, members: Members)

  datatype Items = NoItems | Item(before: string, value: Json, after: string, more: Items)

  datatype Members =
    | NoMembers
    | Member(before: string, key: seq<StrChar>, colon: (string, string), value: Json, after: string, more: Members)

  predicate IsWsChar(c: char) {
    c == ' ' || c == '\t' || c == '\n' || c == '\r'
  }

  predicate IsWs(s: string) {
    forall i :: 0 <= i < |s| ==> IsWsChar(s[i])
  }

  predicate IsHex(c: char) {
    '0' <= c <= '9' || 'a' <= c <= 'f' || 'A' <= c <= 'F'
  }

  predicate IsOpen(c: char) {
    c == '{' || c == '['
  }

  predicate IsClose(c: char) {
    c == '}' || c == ']'
  }

  predicate IsDigits(s: string) {
    s != [] && forall i :: 0 <= i < |s| ==> '0' <= s[i] <= '9'
  }

  predicate IsExp(s: string) {
    && |s| >= 2 && (s[0] == 'e' || s[0] == 'E')
    && (IsDigits(s[1..]) || ((s[1] == '+' || s[1] == '-') && IsDigits(s[2..])))
  }

  predicate IsStrChar(c: StrChar) {
    match c
    case Plain(ch) => ch >= ' ' && ch != '"' && ch != '\\'
    case Short(e) => e in "\"\\/bfnrt"
    case Hex(d) => |d| == 4 && forall i :: 0 <= i < |d| ==> IsHex(d[i])
  }

  predicate IsJson(v: Json) {
    match v
    case Word(w) => w in ["null", "true", "false"]
    case Number(_, i, f, e) =>
      && IsDigits(i) && (i[0] == '0' ==> |i| == 1)
      && (f.Some? ==> IsDigits(f.value)) && (e.Some? ==> IsExp(e.value))
    case Str(cs) => forall i :: 0 <= i < |cs| ==> IsStrChar(cs[i])
    case Arr(g, items) => IsWs(g) && AreItems(items)
    case Obj(g, members) => IsWs(g) && AreMembers(members)
  }

  predicate AreItems(items: Items) {
    match items
    case NoItems => true
    case Item(b, v, a, more) => IsWs(b) && IsJson(v) && IsWs(a) && AreItems(more)
  }

  predicate AreMembers(members: Members) {
    match members
    case NoMembers => true
    case Member(b, k, c, v, a, more) =>
      && IsWs(b) && (forall i :: 0 <= i < |k| ==> IsStrChar(k[i])) && IsWs(c.0) && IsWs(c.1)
      && IsJson(v) && IsWs(a) && AreMembers(more)
  }

  function CharText(c: StrChar): string {
    match c
    case Plain(ch) => [ch]
    case Short(e) => ['\\', e]
    case Hex(d) => "\\u" + d
  }

  function CharsText(cs: seq<StrChar>): string {
    if cs == [] then "" else CharText(cs[0]) + CharsText(cs[1..])
  }

  function StrText(cs: seq<StrChar>): string {
    ['"'] + CharsText(cs) + ['"']
  }

  function NumberText(minus: bool, i: string, frac: Option<string>, exp: Option<string>): string {
    (if minus then "-" else "") + i + (if frac.Some? then "." + frac.value else "") + exp.Or("")
  }

  function Text(v: Json): string {
    match v
    case Word(w) => w
    case Number(m, i, f, e) => NumberText(m, i, f, e)
    case Str(cs) => StrText(cs)
    case Arr(g, items) => "[" + g + ItemsText(items, true) + "]"
    case Obj(g, members) => "{" + g + MembersText(members, true) + "}"
  }

  function ItemsText(items: Items, first: bool): string {
    match items
    case NoItems => ""
    case Item(b, v, a, more) => (if first then "" else ",") + b + Text(v) + a + ItemsText(more, false)
  }

  function MembersText(members: Members, first: bool): string {
    match members
    case NoMembers => ""
    case Member(b, k, c, v, a, more) =>
      (if first then "" else ",") + b + StrText(k) + c.0 + ":" + c.1 + Text(v) + a + MembersText(more, false)
  }

  /** An object or array text of the grammar. */
  ghost predicate IsContainer(t: string) {
    exists v: Json :: (v.Arr? || v.Obj?) && IsJson(v) && Text(v) == t
  }

  /** What `JSON.parse` accepts as an object or array: whitespace is allowed around it. */
  ghost predicate ParsesToObject(t: string) {
    exists a, b, c :: IsWs(a) && IsContainer(b) && IsWs(c) && t == a + b + c
  }

  // ---------------------------------------------------------------- the scanner

  datatype Scan = Scan(depth: int, inString: bool, escaped: bool)

  const START := Scan(0, false, false)

  function Step(s: Scan, ch: char): Scan {
    if s.inString then
      if s.escaped then s.(escaped := false)
      else if ch == '\\' then s.(escaped := true)
      else if ch == '"' then s.(inString := false)
      else s
    else if ch == '"' then s.(inString := true)
    else if IsOpen(ch) then s.(depth := s.depth + 1)
    else if IsClose(ch) then s.(depth := s.depth - 1)
    else s
  }

  /** `ch` is a closing bracket that takes the depth to zero. */
  predicate Closes(s: Scan, ch: char) {
    !s.inString && IsClose(ch) && s.depth == 1
  }

  function Run(s: Scan, t: string): Scan
    decreases |t|
  {
    if t == [] then s else Run(Step(s, t[0]), t[1..])
  }

  /** Where the depth first reaches zero at a closing bracket; the length of `t` if it never does. */
  function FirstZero(s: Scan, t: string): nat
    decreases |t|
  {
    if t == [] then 0
    else if Closes(s, t[0]) then 0
    else 1 + FirstZero(Step(s, t[0]), t[1..])
  }

  lemma {:induction false} RunSnoc(s: Scan, t: string, ch: char)
    ensures Run(s, t + [ch]) == Step(Run(s, t), ch)
    decreases |t|
  {
    if t != [] {
      RunSnoc(Step(s, t[0]), t[1..], ch);
      assert (t + [ch])[1..] == t[1..] + [ch];
    }
  }

  lemma {:induction false} FirstZeroCloses(s: Scan, t: string)
    requires FirstZero(s, t) < |t|
    ensures Closes(Run(s, t[..FirstZero(s, t)]), t[FirstZero(s, t)])
    decreases |t|
  {
    var k := FirstZero(s, t);
    if k > 0 {
      FirstZeroCloses(Step(s, t[0]), t[1..]);
      assert t[..k][1..] == t[1..][..k - 1];
    }
  }

  // ---------------------------------------------------------------- what a value does to the scanner

  /** Scanning `t` and then `r` from depth `d` finds the first zero where scanning `r` alone does. */
  ghost predicate Skips(d: int, t: string, r: string) {
    FirstZero(Scan(d, false, false), t + r) == |t| + FirstZero(Scan(d, false, false), r)
  }

  /** At depth one or more `t` comes back to the same state without closing anything outside. */
  ghost predicate Neutral(t: string) {
    forall d, r {:trigger Skips(d, t, r)} :: d >= 1 ==> Skips(d, t, r)
  }

  predicate Quiet(t: string) {
    forall i :: 0 <= i < |t| ==> t[i] != '"' && !IsOpen(t[i]) && !IsClose(t[i])
  }

  lemma {:induction false} QuietFirstZero(d: int, t: string, r: string)
    requires Quiet(t)
    ensures Skips(d, t, r)
  {
    if t == [] {
      assert t + r == r;
    } else {
      QuietFirstZero(d, t[1..], r);
      assert (t + r)[1..] == t[1..] + r;
    }
  }

  lemma QuietNeutral(t: string)
    requires Quiet(t)
    ensures Neutral(t)
  {
    forall d, r | d >= 1 ensures Skips(d, t, r) {
      QuietFirstZero(d, t, r);
    }
  }

  lemma NeutralConcat(a: string, b: string)
    requires Neutral(a) && Neutral(b)
    ensures Neutral(a + b)
  {
    forall d, r | d >= 1 ensures Skips(d, a + b, r) {
      assert a + b + r == a + (b + r);
      assert Skips(d, a, b + r) && Skips(d, b, r);
    }
  }

  lemma WsNeutral(s: string)
    requires IsWs(s)
    ensures Neutral(s)
  {
    QuietNeutral(s);
  }

  lemma FirstZeroCons(s: Scan, ch: char, r: string)
    ensures FirstZero(s, [ch] + r) == if Closes(s, ch) then 0 else 1 + FirstZero(Step(s, ch), r)
  {
    assert ([ch] + r)[1..] == r;
  }

  /** Whatever stands after a backslash is skipped. */
  lemma EscapeFirstZero(d: int, e: char, r: string)
    ensures FirstZero(Scan(d, true, false), ['\\', e] + r) == 2 + FirstZero(Scan(d, true, false), r)
  {
    assert ['\\', e] + r == ['\\'] + ([e] + r);
    FirstZeroCons(Scan(d, true, false), '\\', [e] + r);
    FirstZeroCons(Scan(d, true, true), e, r);
  }

  lemma {:induction false} HexFirstZero(d: int, h: string, r: string)
    requires forall i :: 0 <= i < |h| ==> IsHex(h[i])
    ensures FirstZero(Scan(d, true, false), h + r) == |h| + FirstZero(Scan(d, true, false), r)
  {
    if h == [] {
      assert h + r == r;
    } else {
      HexFirstZero(d, h[1..], r);
      assert h + r == [h[0]] + (h[1..] + r);
      FirstZeroCons(Scan(d, true, false), h[0], h[1..] + r);
    }
  }

  lemma CharFirstZero(d: int, c: StrChar, r: string)
    requires IsStrChar(c)
    ensures FirstZero(Scan(d, true, false), CharText(c) + r) == |CharText(c)| + FirstZero(Scan(d, true, false), r)
  {
    match c
    case Plain(ch) => FirstZeroCons(Scan(d, true, false), ch, r);
    case Short(e) => EscapeFirstZero(d, e, r);
    case Hex(h) =>
      HexFirstZero(d, h, r);
      EscapeFirstZero(d, 'u', h + r);
      assert ['\\', 'u'] + (h + r) == CharText(c) + r;
  }

  /** Inside a string: no character, escaped or not, ends it early. */
  lemma {:induction false} CharsFirstZero(d: int, cs: seq<StrChar>, r: string)
    requires forall i :: 0 <= i < |cs| ==> IsStrChar(cs[i])
    ensures FirstZero(Scan(d, true, false), CharsText(cs) + r) == |CharsText(cs)| + FirstZero(Scan(d, true, false), r)
  {
    if cs == [] {
      assert CharsText(cs) + r == r;
    } else {
      var rest := CharsText(cs[1..]) + r;
      assert CharsText(cs) + r == CharText(cs[0]) + rest;
      CharFirstZero(d, cs[0], rest);
      CharsFirstZero(d, cs[1..], r);
    }
  }

  lemma StrNeutral(cs: seq<StrChar>)
    requires forall i :: 0 <= i < |cs| ==> IsStrChar(cs[i])
    ensures Neutral(StrText(cs))
  {
    forall d, r | d >= 1 ensures Skips(d, StrText(cs), r) {
      var tail := CharsText(cs) + (['"'] + r);
      assert StrText(cs) + r == ['"'] + tail;
      FirstZeroCons(Scan(d, false, false), '"', tail);
      CharsFirstZero(d, cs, ['"'] + r);
      FirstZeroCons(Scan(d, true, false), '"', r);
    }
  }

  /** A bracketed neutral text, seen from depth `d`, closes what it opened and nothing else. */
  lemma Bracketed(d: int, open: char, body: string, close: char, r: string)
    requires IsOpen(open) && IsClose(close) && Neutral(body) && d >= 0
    ensures FirstZero(Scan(d, false, false), [open] + body + [close] + r)
         == if d == 0 then 1 + |body| else 2 + |body| + FirstZero(Scan(d, false, false), r)
  {
    var tail := [close] + r;
    var inner := Scan(d + 1, false, false);
    assert [open] + body + [close] + r == [open] + (body + tail);
    FirstZeroCons(Scan(d, false, false), open, body + tail);
    assert Skips(d + 1, body, tail);
    FirstZeroCons(inner, close, r);
  }

  lemma ExpQuiet(exp: string)
    requires IsExp(exp)
    ensures Quiet(exp)
  {
    assert forall k :: 2 <= k < |exp| ==> exp[k] == exp[1..][k - 1] == exp[2..][k - 2];
  }

  lemma NumberQuiet(m: bool, i: string, f: Option<string>, e: Option<string>)
    requires IsJson(Number(m, i, f, e))
    ensures Quiet(NumberText(m, i, f, e))
  {
    var sign, frac, exp := if m then "-" else "", if f.Some? then "." + f.value else "", e.Or("");
    assert Quiet(sign) && Quiet(i) && Quiet(frac);
    if e.Some? {
      ExpQuiet(e.value);
    }
  }

  lemma BracketedNeutral(open: char, body: string, close: char)
    requires IsOpen(open) && IsClose(close) && Neutral(body)
    ensures Neutral([open] + body + [close])
  {
    forall d, r | d >= 1 ensures Skips(d, [open] + body + [close], r) {
      Bracketed(d, open, body, close, r);
    }
  }

  lemma {:induction false} ValueNeutral(v: Json)
    requires IsJson(v)
    ensures Neutral(Text(v))
    decreases v, 1
  {
    match v
    case Word(w) => QuietNeutral(w);
    case Number(m, i, f, e) => NumberQuiet(m, i, f, e); QuietNeutral(Text(v));
    case Str(cs) => StrNeutral(cs);
    case Arr(_, _) =>
      var body := ContainerBody(v);
      BracketedNeutral('[', body, ']');
    case Obj(_, _) =>
      var body := ContainerBody(v);
      BracketedNeutral('{', body, '}');
  }

  lemma {:induction false} ItemsNeutral(items: Items, first: bool)
    requires AreItems(items)
    ensures Neutral(ItemsText(items, first))
    decreases items
  {
    match items
    case NoItems => QuietNeutral("");
    case Item(b, v, a, more) =>
      var comma := if first then "" else ",";
      QuietNeutral(comma);
      WsNeutral(b);
      ValueNeutral(v);
      WsNeutral(a);
      ItemsNeutral(more, false);
      NeutralConcat(comma, b);
      NeutralConcat(comma + b, Text(v));
      NeutralConcat(comma + b + Text(v), a);
      NeutralConcat(comma + b + Text(v) + a, ItemsText(more, false));
  }

  lemma {:induction false} MembersNeutral(members: Members, first: bool)
    requires AreMembers(members)
    ensures Neutral(MembersText(members, first))
    decreases members
  {
    match members
    case NoMembers => QuietNeutral("");
    case Member(b, k, c, v, a, more) =>
      var comma := if first then "" else ",";
      QuietNeutral(comma);
      WsNeutral(b);
      StrNeutral(k);
      WsNeutral(c.0);
      QuietNeutral(":");
      WsNeutral(c.1);
      ValueNeutral(v);
      WsNeutral(a);
      MembersNeutral(more, false);
      NeutralConcat(comma, b);
      NeutralConcat(comma + b, StrText(k));
      NeutralConcat(comma + b + StrText(k), c.0);
      NeutralConcat(comma + b + StrText(k) + c.0, ":");
      NeutralConcat(comma + b + StrText(k) + c.0 + ":", c.1);
      NeutralConcat(comma + b + StrText(k) + c.0 + ":" + c.1, Text(v));
      NeutralConcat(comma + b + StrText(k) + c.0 + ":" + c.1 + Text(v), a);
      NeutralConcat(comma + b + StrText(k) + c.0 + ":" + c.1 + Text(v) + a, MembersText(more, false));
  }

  lemma ContainerBody(v: Json) returns (body: string)
    requires (v.Arr? || v.Obj?) && IsJson(v)
    ensures Neutral(body)
    ensures Text(v) == if v.Arr? then ['['] + body + [']'] else ['{'] + body + ['}']
    decreases v, 0
  {
    WsNeutral(v.gap);
    if v.Arr? {
      ItemsNeutral(v.items, true);
      body := v.gap + ItemsText(v.items, true);
      NeutralConcat(v.gap, ItemsText(v.items, true));
    } else {
      MembersNeutral(v.members, true);
      body := v.gap + MembersText(v.members, true);
      NeutralConcat(v.gap, MembersText(v.members, true));
    }
  }

  /** The depth first reaches zero at the last character of an object or array text, whatever follows. */
  lemma ContainerEnds(t: string, r: string)
    requires IsContainer(t)
    ensures t != [] && IsOpen(t[0]) && IsClose(t[|t| - 1]) && FirstZero(START, t + r) == |t| - 1
  {
    var v: Json :| (v.Arr? || v.Obj?) && IsJson(v) && Text(v) == t;
    var open, close := if v.Arr? then '[' else '{', if v.Arr? then ']' else '}';
    var body := ContainerBody(v);
    assert t == [open] + body + [close];
    Bracketed(0, open, body, close, r);
  }

  /** No object or array text is a proper prefix of another. */
  lemma ContainersPrefixFree(a: string, b: string, r: string, q: string)
    requires IsContainer(a) && IsContainer(b) && a + r == b + q
    ensures a == b && r == q
  {
    ContainerEnds(a, r);
    ContainerEnds(b, q);
    assert a == (a + r)[..|a|] && b == (b + q)[..|b|];
    assert r == (a + r)[|a|..] && q == (b + q)[|b|..];
  }

  // ---------------------------------------------------------------- the code

  /** JavaScript's white space and line terminators, which `trimStart` removes. */
  predicate IsJsSpace(c: char) {
    var n := c as int;
    || 0x9 <= n <= 0xD || n == 0x20 || n == 0xA0 || n == 0x1680 || 0x2000 <= n <= 0x200A
    || n == 0x2028 || n == 0x2029 || n == 0x202F || n == 0x205F || n == 0x3000 || n == 0xFEFF
  }

  function TrimStart(t: string): string {
    if t != [] && IsJsSpace(t[0]) then TrimStart(t[1..]) else t
  }

  lemma {:induction false} TrimStartExact(ws: string, t: string)
    requires (forall i :: 0 <= i < |ws| ==> IsJsSpace(ws[i])) && (t == [] || !IsJsSpace(t[0]))
    ensures TrimStart(ws + t) == t
  {
    if ws == [] {
      assert ws + t == t;
    } else {
      TrimStartExact(ws[1..], t);
      assert (ws + t)[1..] == ws[1..] + t;
    }
  }

  /** A parsed slice that starts with a bracket and ends with one has no white space around it. */
  lemma ParsedSlice(t: string)
    requires ParsesToObject(t) && t != [] && IsOpen(t[0]) && IsClose(t[|t| - 1])
    ensures IsContainer(t)
  {
    var a, b, c :| IsWs(a) && IsContainer(b) && IsWs(c) && t == a + b + c;
    assert |a| > 0 ==> IsWsChar(t[0]);
    assert |c| > 0 ==> IsWsChar(t[|t| - 1]);
    assert t == b;
  }

  /** At the end of an object or array text the loop stops at a slice that parses. */
  lemma WouldBeFound(v: string, tail: string)
    requires IsContainer(v)
    ensures v != [] && Closes(Run(START, (v + tail)[..|v| - 1]), (v + tail)[|v| - 1])
    ensures ParsesToObject((v + tail)[..|v| - 1 + 1])
  {
    ContainerEnds(v, tail);
    FirstZeroCloses(START, v + tail);
    assert (v + tail)[..|v| - 1 + 1] == v == [] + v + [];
    assert IsWs([]);
  }

  /** A slice that parses is the one object or array text `t` starts with. */
  lemma Found(t: string, n: nat)
    requires 0 < n <= |t| && IsOpen(t[0]) && IsClose(t[n - 1]) && ParsesToObject(t[..n])
    ensures IsContainer(t[..n]) && t == t[..n] + t[n..]
    ensures forall v, tail :: IsContainer(v) && t == v + tail ==> v == t[..n] && tail == t[n..]
  {
    ParsedSlice(t[..n]);
    forall v, tail | IsContainer(v) && t == v + tail ensures v == t[..n] && tail == t[n..] {
      ContainersPrefixFree(v, t[..n], tail, t[n..]);
    }
  }

  /** No slice that ends at a bracket closing to depth zero before `i` parses. */
  ghost predicate NoneParses(t: string, i: nat, parses: string -> bool)
    requires i <= |t|
  {
    forall k :: 0 <= k < i && Closes(Run(START, t[..k]), t[k]) ==> !parses(t[..k + 1])
  }

  lemma NothingOpens(t: string)
    requires t == [] || !IsOpen(t[0])
    ensures forall v, tail :: IsContainer(v) ==> t != v + tail
  {
    forall v, tail | IsContainer(v) ensures t != v + tail {
      ContainerEnds(v, tail);
    }
  }

  lemma ScanNext(t: string, i: nat)
    requires i < |t|
    ensures Run(START, t[..i + 1]) == Step(Run(START, t[..i]), t[i])
  {
    assert t[..i + 1] == t[..i] + [t[i]];
    RunSnoc(START, t[..i], t[i]);
  }

  lemma NothingLeads(t: string, parses: string -> bool)
    requires (forall u :: parses(u) <==> ParsesToObject(u)) && NoneParses(t, |t|, parses)
    ensures forall v, tail :: IsContainer(v) ==> t != v + tail
  {
    forall v, tail | IsContainer(v) ensures t != v + tail {
      if t == v + tail {
        WouldBeFound(v, tail);
      }
    }
  }

  /** The loop: the first bracket that closes to depth zero at the end of a slice that parses. */
  method ScanLeading(trimmed: string, parses: string -> bool) returns (end: Option<nat>)
    ensures end.Some? ==> 0 < end.value <= |trimmed| && IsClose(trimmed[end.value - 1]) && parses(trimmed[..end.value])
    ensures end.None? ==> NoneParses(trimmed, |trimmed|, parses)
  {
    var depth, inString, escaped := 0, false, false;
    for i := 0 to |trimmed|
      invariant Scan(depth, inString, escaped) == Run(START, trimmed[..i]) && NoneParses(trimmed, i, parses)
    {
      var ch := trimmed[i];
      ScanNext(trimmed, i);
      if inString {
        if escaped {
          escaped := false;
        } else if ch == '\\' {
          escaped := true;
        } else if ch == '"' {
          inString := false;
        }
        continue;
      }
      if ch == '"' {
        inString := true;
      } else if ch == '{' || ch == '[' {
        depth := depth + 1;
      } else if ch == '}' || ch == ']' {
        depth := depth - 1;
        if depth == 0 {
          var json := trimmed[..i + 1];
          if parses(json) {
            return Some(i + 1);
          }
        }
      }
    }
    return None;
  }

  /** `splitLeadingJson`: the object or array at the start and the rest, trimmed, exactly if there is one.
      `parses` is `JSON.parse` giving an object. */
  method SplitLeadingJson(text: string, parses: string -> bool) returns (r: Option<(string, string)>)
    requires forall t :: parses(t) <==> ParsesToObject(t)
    ensures forall v, tail :: IsContainer(v) && TrimStart(text) == v + tail ==> r == Some((v, TrimStart(tail)))
    ensures r.Some? ==> IsContainer(r.value.0) && exists tail :: TrimStart(text) == r.value.0 + tail
  {
    var trimmed := TrimStart(text);
    if trimmed == [] || (trimmed[0] != '{' && trimmed[0] != '[') {
      NothingOpens(trimmed);
      return None;
    }
    var end := ScanLeading(trimmed, parses);
    if end.None? {
      NothingLeads(trimmed, parses);
      return None;
    }
    Found(trimmed, end.value);
    return Some((trimmed[..end.value], TrimStart(trimmed[end.value..])));
  }

  // ---------------------------------------------------------------- what the grammar takes in

  function Only(v: Json): Json {
    Arr("", Item("", v, "", NoItems))
  }

  lemma OnlyText(v: Json)
    ensures Text(Only(v)) == "[" + Text(v) + "]"
  {
    var items := Item("", v, "", NoItems);
    assert ItemsText(items, true) == "" + "" + Text(v) + "" + "" == Text(v);
    assert "[" + "" + Text(v) + "]" == "[" + Text(v) + "]";
  }

  lemma OnlyIsContainer(v: Json)
    requires IsJson(v)
    ensures IsContainer("[" + Text(v) + "]")
  {
    OnlyText(v);
    assert AreItems(Item("", v, "", NoItems));
    assert IsJson(Only(v));
  }

  /** The three words may stand in an array. */
  lemma TakesWords()
    ensures IsContainer("[" + "null" + "]") && IsContainer("[" + "true" + "]") && IsContainer("[" + "false" + "]")
  {
    OnlyIsContainer(Word("null"));
    OnlyIsContainer(Word("true"));
    OnlyIsContainer(Word("false"));
  }

  /** So may any number, with or without sign, fraction and exponent. */
  lemma TakesNumbers(minus: bool, whole: string, frac: string, exp: string)
    requires IsDigits(whole) && (whole[0] != '0' || |whole| == 1) && IsDigits(frac) && IsExp(exp)
    ensures var w := (if minus then "-" else "") + whole;
      && IsContainer("[" + w + "]") && IsContainer("[" + (w + exp) + "]")
      && IsContainer("[" + (w + ("." + frac)) + "]") && IsContainer("[" + (w + ("." + frac) + exp) + "]")
  {
    var w := (if minus then "-" else "") + whole;
    OnlyIsContainer(Number(minus, whole, None, None));
    OnlyIsContainer(Number(minus, whole, None, Some(exp)));
    OnlyIsContainer(Number(minus, whole, Some(frac), None));
    OnlyIsContainer(Number(minus, whole, Some(frac), Some(exp)));
    assert w + "" + "" == w && w + "" + exp == w + exp && w + ("." + frac) + "" == w + ("." + frac);
  }

  /** So may any string of plain and escaped characters. */
  lemma TakesStrings(chars: seq<StrChar>)
    requires forall i :: 0 <= i < |chars| ==> IsStrChar(chars[i])
    ensures IsContainer("[" + (['"'] + CharsText(chars) + ['"']) + "]")
  {
    OnlyIsContainer(Str(chars));
  }

  /** So may empty arrays and objects, with white space in them. */
  lemma TakesEmpty(gap: string)
    requires IsWs(gap)
    ensures IsContainer("[" + ("[" + gap + "]") + "]") && IsContainer("[" + ("{" + gap + "}") + "]")
  {
    assert gap + "" == gap;
    assert Text(Arr(gap, NoItems)) == "[" + gap + "]" by {
      assert "[" + gap + "" + "]" == "[" + gap + "]";
    }
    assert Text(Obj(gap, NoMembers)) == "{" + gap + "}" by {
      assert "{" + gap + "" + "}" == "{" + gap + "}";
    }
    OnlyIsContainer(Arr(gap, NoItems));
    OnlyIsContainer(Obj(gap, NoMembers));
  }

  lemma LastItem(w: Json)
    ensures ItemsText(Item("", w, "", NoItems), false) == "," + Text(w)
  {
    assert "," + "" + Text(w) + "" + "" == "," + Text(w);
  }

  /** So may several values, with commas between them. */
  lemma TakesItems(v: Json, w: Json)
    requires IsJson(v) && IsJson(w)
    ensures IsContainer("[" + (Text(v) + ("," + Text(w))) + "]")
  {
    var items := Item("", w, "", NoItems);
    var all := Item("", v, "", items);
    LastItem(w);
    assert ItemsText(all, true) == "" + "" + Text(v) + "" + ItemsText(items, false);
    assert "" + "" + Text(v) + "" == Text(v);
    var t := Text(v) + ("," + Text(w));
    assert "[" + "" + t + "]" == "[" + t + "]";
    assert Text(Arr("", all)) == "[" + t + "]";
    assert AreItems(NoItems) && AreItems(items) && AreItems(all);
    assert IsJson(Arr("", all));
  }

  lemma LastMember(w: Json, l: seq<StrChar>)
    ensures MembersText(Member("", l, ("", ""), w, "", NoMembers), false) == "," + StrText(l) + ":" + Text(w)
  {
    assert "," + "" + StrText(l) + "" + ":" + "" + Text(w) + "" + "" == "," + StrText(l) + ":" + Text(w);
  }

  lemma FirstMember(v: Json, k: seq<StrChar>, more: Members)
    ensures MembersText(Member("", k, ("", ""), v, "", more), true)
         == StrText(k) + ":" + Text(v) + MembersText(more, false)
  {
    assert "" + "" + StrText(k) + "" + ":" + "" + Text(v) + "" == StrText(k) + ":" + Text(v);
  }

  lemma ObjectOf(members: Members)
    requires AreMembers(members)
    ensures IsContainer("{" + MembersText(members, true) + "}")
  {
    assert "{" + "" + MembersText(members, true) + "}" == "{" + MembersText(members, true) + "}";
    assert Text(Obj("", members)) == "{" + MembersText(members, true) + "}";
    assert IsJson(Obj("", members));
  }

  /** And several members of objects, each with its key and a colon. */
  lemma TakesMembers(v: Json, w: Json, k: seq<StrChar>, l: seq<StrChar>)
    requires IsJson(v) && IsJson(w) && IsJson(Str(k)) && IsJson(Str(l))
    ensures IsContainer("{" + (StrText(k) + ":" + Text(v) + ("," + StrText(l) + ":" + Text(w))) + "}")
  {
    var last := Member("", l, ("", ""), w, "", NoMembers);
    var all := Member("", k, ("", ""), v, "", last);
    LastMember(w, l);
    FirstMember(v, k, last);
    assert AreMembers(NoMembers) && AreMembers(last) && AreMembers(all);
    ObjectOf(all);
  }

  lemma ShortEscapes(c: char)
    ensures c in "\"\\/bfnrt" <==>
      c == '"' || c == '\\' || c == '/' || c == 'b' || c == 'f' || c == 'n' || c == 'r' || c == 't'
  {
    var s := "\"\\/bfnrt";
    assert s[0] == '"' && s[1] == '\\' && s[2] == '/' && s[3] == 'b' && s[4] == 'f' && s[5] == 'n' && s[6] == 'r';
    assert s[7] == 't' && |s| == 8;
  }

  /** The characters of white space, hexadecimal digits, strings and escapes by their code points: sections 2 and 7 of
      RFC 8259; and what `trimStart` takes for white space. */
  lemma CharacterCodes(c: char)
    ensures var n := c as int;
      && (IsWsChar(c) <==> n in {0x20, 0x09, 0x0A, 0x0D})
      && (IsHex(c) <==> 0x30 <= n < 0x3A || 0x41 <= n < 0x47 || 0x61 <= n < 0x67)
      && (IsStrChar(Plain(c)) <==> n > 0x1F && n != 0x22 && n != 0x5C)
      && (IsStrChar(Short(c)) <==> n in {0x22, 0x5C, 0x2F, 0x62, 0x66, 0x6E, 0x72, 0x74})
      && (IsJsSpace(c) <==>
            || n in {0x09, 0x0A, 0x0B, 0x0C, 0x0D, 0x20, 0xA0, 0x1680, 0x2028, 0x2029, 0x202F, 0x205F, 0x3000, 0xFEFF}
            || 0x2000 <= n < 0x200B)
  {
    ShortEscapes(c);
  }

  /** Digits, and exponents with either letter and with or without sign: section 6 of RFC 8259. */
  lemma ExponentForms(s: string)
    ensures IsDigits(s) <==> |s| > 0 && forall i :: 0 <= i < |s| ==> 0x30 <= s[i] as int < 0x3A
    ensures IsDigits(s) ==> IsExp("e" + s) && IsExp("E" + s) && IsExp("e+" + s) && IsExp("E-" + s)
    ensures IsExp(s) ==> |s| > 1 && s[0] in {'e', 'E'} && '0' <= s[|s| - 1] <= '9'
  {
    assert ("e" + s)[1..] == s && ("E" + s)[1..] == s && ("e+" + s)[2..] == s && ("E-" + s)[2..] == s;
    if IsExp(s) {
      if IsDigits(s[1..]) {
        assert s[|s| - 1] == s[1..][|s| - 2];
      } else {
        assert s[|s| - 1] == s[2..][|s| - 3];
      }
    }
  }
}
