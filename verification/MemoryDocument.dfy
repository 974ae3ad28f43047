/** The Markdown memory document: reading and writing. */
module MemoryDocument {
  import opened Ordering
  import opened Text
  import opened Folds

  const OVERVIEW_HEADER := "## 概览"
  const FULL_HEADER := "## 全文"
  const CATEGORY := "分类"
  const UPDATED := "更新"
  const SOURCE := "来源"
  const SUMMARY := "摘要"

  datatype Entry = Entry(
    title: string, category: string, slug: string, summary: string, updated: string,
    overview: string, fullText: string, source: string)

  /** The four keys of the metadata dict, empty when absent. */
  datatype Meta = Meta(category: string, updated: string, source: string, summary: string)

  datatype Section = Lead | Overview | Full

  // ---------------------------------------------------------------- parsing

  /** `_TITLE_RE`: a `#`, white space, and the text after it without white space at its ends; if there is only
      white space, its last character. */
  function MatchTitle(line: string): Option<string> {
    if |line| >= 2 && line[0] == '#' && IsSpace(line[1]) then
      var text := Strip(line[1..]);
      if text != [] then Some(text)
      else if |line| >= 3 then Some(line[|line| - 1..])
      else None
    else None
  }

  /** `_META_LINE_RE`. */
  function MatchMeta(line: string): Option<string> {
    if |line| >= 2 && line[0] == '>' then
      var text := Strip(line[1..]);
      Some(if text != [] then text else line[|line| - 1..])
    else None
  }

  predicate IsSeparator(c: char) {
    c == '·' || c == '|'
  }

  function PartsFrom(piece: string, rest: string): seq<string>
    decreases |rest|
  {
    if rest == [] then [Strip(piece)]
    else if IsSeparator(rest[0]) then [Strip(piece)] + PartsFrom([], rest[1..])
    else PartsFrom(piece + [rest[0]], rest[1..])
  }

  /** The pieces between separators, the white space around them gone. */
  function Parts(content: string): seq<string> {
    PartsFrom([], content)
  }

  /** `_META_KV_RE` on one piece: what stands after the key and its colon. A piece has no separators, so the
      value runs to its end. */
  function MatchValue(part: string, key: string): Option<string>
    requires |key| == 2
  {
    if |part| >= 2 && part[..2] == key then
      var rest := LStrip(part[2..]);
      if |rest| >= 2 && (rest[0] == ':' || rest[0] == '：') then Some(Strip(rest[1..])) else None
    else None
  }

  function SetPart(meta: Meta, part: string): Meta {
    match MatchValue(part, CATEGORY)
    case Some(v) => meta.(category := v)
    case None =>
      match MatchValue(part, UPDATED)
      case Some(v) => meta.(updated := v)
      case None =>
        match MatchValue(part, SOURCE)
        case Some(v) => meta.(source := v)
        case None =>
          match MatchValue(part, SUMMARY)
          case Some(v) => meta.(summary := v)
          case None => meta
  }

  function SetParts(meta: Meta, parts: seq<string>): Meta {
    Fold(SetPart, meta, parts)
  }

  /** What the line loop has found so far. */
  datatype State = State(title: string, meta: Meta, overview: seq<string>, full: seq<string>, section: Section)

  const START := State([], Meta([], [], [], []), [], [], Lead)

  function Step(s: State, line: string): State {
    match s.section
    case Lead =>
      if MatchTitle(line).Some? && s.title == [] then s.(title := Strip(MatchTitle(line).value))
      else if MatchMeta(line).Some? then s.(meta := SetParts(s.meta, Parts(MatchMeta(line).value)))
      else if Strip(line) == OVERVIEW_HEADER then s.(section := Overview)
      else if Strip(line) == FULL_HEADER then s.(section := Full)
      else s
    case Overview =>
      if Strip(line) == FULL_HEADER then s.(section := Full) else s.(overview := s.overview + [line])
    case Full => s.(full := s.full + [line])
  }

  function Steps(s: State, lines: seq<string>): State {
    Fold(Step, s, lines)
  }

  function Result(s: State): Option<Entry> {
    if s.title == [] || s.meta.category == [] then None
    else Some(Entry(s.title, s.meta.category, [], s.meta.summary, s.meta.updated,
                    Join(TrimBlank(s.overview)), Join(TrimBlank(s.full)), s.meta.source))
  }

  /** What `parse_document` returns for `text`. */
  function Parse(text: string): Option<Entry> {
    if text == [] then None else Result(Steps(START, SplitLines(text)))
  }

  /** `_strip_trailing_blank`. */
  method StripTrailingBlank(lines: seq<string>) returns (text: string)
    ensures text == Join(TrimBlank(lines))
  {
    var kept := lines;
    while kept != [] && Strip(kept[|kept| - 1]) == []
      invariant TrimBlank(kept) == TrimBlank(lines)
    {
      BlankExact(kept[|kept| - 1]);
      kept := kept[..|kept| - 1];
    }
    while kept != [] && Strip(kept[0]) == []
      invariant TrimBlank(kept) == TrimBlank(lines)
      invariant kept != [] ==> !Blank(kept[|kept| - 1])
    {
      BlankExact(kept[0]);
      TrimFront(kept);
      kept := kept[1..];
    }
    if kept != [] {
      BlankExact(kept[0]);
      BlankExact(kept[|kept| - 1]);
    }
    text := Join(kept);
  }

  /** `parse_document`. */
  method ParseDocument(text: string) returns (entry: Option<Entry>)
    ensures entry == Parse(text)
  {
    if text == [] {
      return None;
    }
    var lines := SplitLines(text);
    var title, meta, section := [], Meta([], [], [], []), Lead;
    var overviewLines: seq<string>, fullLines: seq<string> := [], [];
    for i := 0 to |lines|
      invariant State(title, meta, overviewLines, fullLines, section) == Steps(START, lines[..i])
    {
      var line := lines[i];
      FoldNext(Step, START, lines, i);
      match section {
        case Lead =>
          if MatchTitle(line).Some? && title == [] {
            title := Strip(MatchTitle(line).value);
          } else if MatchMeta(line).Some? {
            meta := SetParts(meta, Parts(MatchMeta(line).value));
          } else if Strip(line) == OVERVIEW_HEADER {
            section := Overview;
          } else if Strip(line) == FULL_HEADER {
            section := Full;
          }
        case Overview =>
          if Strip(line) == FULL_HEADER {
            section := Full;
          } else {
            overviewLines := overviewLines + [line];
          }
        case Full =>
          fullLines := fullLines + [line];
      }
    }
    assert lines[..|lines|] == lines;
    var overview := StripTrailingBlank(overviewLines);
    var fullText := StripTrailingBlank(fullLines);
    if title == [] || meta.category == [] {
      return None;
    }
    return Some(Entry(title, meta.category, [], meta.summary, meta.updated, overview, fullText, meta.source));
  }

  // ---------------------------------------------------------------- serializing

  /** `rstrip("\n")`. */
  function StripNewlines(t: string): string {
    if t != [] && t[|t| - 1] == '\n' then StripNewlines(t[..|t| - 1]) else t
  }

  function Field(key: string, v: string): string {
    key + ":" + v
  }

  function Optional(key: string, v: string): seq<string> {
    if v != [] then [Field(key, v)] else []
  }

  function Fields(e: Entry): seq<string> {
    [Field(CATEGORY, e.category)] + Optional(UPDATED, e.updated) + Optional(SOURCE, e.source)
    + Optional(SUMMARY, e.summary)
  }

  /** `" · ".join(fields)`. */
  function JoinDots(fields: seq<string>): string {
    if fields == [] then [] else if |fields| == 1 then fields[0] else fields[0] + " · " + JoinDots(fields[1..])
  }

  /** A section as it is written: its header, an empty line, the text. */
  function SectionParts(header: string, t: string): seq<string> {
    [header, [], StripNewlines(t)]
  }

  function LeadParts(title: string, meta: string): seq<string> {
    ["# " + title, [], "> " + meta, []]
  }

  /** A document with a given metadata line. */
  function DocumentText(title: string, meta: string, overview: string, full: string): string {
    Join(LeadParts(title, meta) + SectionParts(OVERVIEW_HEADER, overview) + [[]]
         + SectionParts(FULL_HEADER, full) + [[]])
  }

  /** `_serialize_entry`. */
  function Serialize(e: Entry): string {
    DocumentText(e.title, JoinDots(Fields(e)), e.overview, e.fullText)
  }

  // ---------------------------------------------------------------- entries that survive being written

  predicate TitleOk(t: string) {
    t != [] && Stripped(t) && OneLine(t)
  }

  /** A metadata value: no break, no separator, no white space at the ends. */
  predicate ValueOk(v: string) {
    v != [] && Stripped(v) && OneLine(v) && forall i :: 0 <= i < |v| ==> !IsSeparator(v[i])
  }

  /** A section: newlines are its only breaks and its first and last lines are not blank. */
  predicate SectionOk(t: string) {
    IsBlock(t) && (t != [] ==> !Blank(SplitLines(t)[0]) && !Blank(SplitLines(t)[|SplitLines(t)| - 1]))
  }

  predicate HasFullHeader(lines: seq<string>) {
    exists i :: 0 <= i < |lines| && Strip(lines[i]) == FULL_HEADER
  }

  /** What an entry must satisfy to be read back as it was written. */
  predicate Storable(e: Entry) {
    && TitleOk(e.title) && ValueOk(e.category)
    && (e.updated == [] || ValueOk(e.updated))
    && (e.source == [] || ValueOk(e.source))
    && (e.summary == [] || ValueOk(e.summary))
    && SectionOk(e.overview) && !HasFullHeader(SplitLines(e.overview))
    && SectionOk(e.fullText)
  }

  // ---------------------------------------------------------------- what parsing yields is storable

  ghost predicate Clean(s: string) {
    OneLine(s) && forall i :: 0 <= i < |s| ==> !IsSeparator(s[i])
  }

  ghost predicate MetaOk(m: Meta) {
    && (m.category == [] || ValueOk(m.category)) && (m.updated == [] || ValueOk(m.updated))
    && (m.source == [] || ValueOk(m.source)) && (m.summary == [] || ValueOk(m.summary))
  }

  ghost predicate StateOk(s: State) {
    && (s.title == [] || TitleOk(s.title)) && MetaOk(s.meta)
    && (forall i :: 0 <= i < |s.overview| ==> OneLine(s.overview[i])) && !HasFullHeader(s.overview)
    && (forall i :: 0 <= i < |s.full| ==> OneLine(s.full[i]))
  }

  lemma CleanSubset(a: string, b: string)
    requires forall c :: c in a ==> c in b
    ensures OneLine(b) ==> OneLine(a)
    ensures Clean(b) ==> Clean(a)
  {
    assert forall i :: 0 <= i < |a| ==> a[i] in b;
  }

  lemma {:induction false} PartsClean(piece: string, rest: string)
    requires Clean(piece) && OneLine(rest)
    ensures forall i :: 0 <= i < |PartsFrom(piece, rest)| ==> Clean(PartsFrom(piece, rest)[i])
    decreases |rest|
  {
    StripIsStripped(piece);
    CleanSubset(Strip(piece), piece);
    if rest != [] {
      if IsSeparator(rest[0]) {
        PartsClean([], rest[1..]);
      } else {
        PartsClean(piece + [rest[0]], rest[1..]);
      }
    }
  }

  lemma MatchedValueOk(part: string, key: string)
    requires Clean(part) && |key| == 2
    ensures MatchValue(part, key).Some? ==> MatchValue(part, key).value == [] || ValueOk(MatchValue(part, key).value)
  {
    if |part| >= 2 {
      var rest := LStrip(part[2..]);
      if |rest| >= 2 {
        assert forall c :: c in rest[1..] ==> c in rest;
        assert forall c :: c in rest ==> c in part[2..];
        assert forall c :: c in part[2..] ==> c in part;
        StripIsStripped(rest[1..]);
        CleanSubset(Strip(rest[1..]), part);
      }
    }
  }

  lemma SetPartOk(m: Meta, part: string)
    requires MetaOk(m) && Clean(part)
    ensures MetaOk(SetPart(m, part))
  {
    MatchedValueOk(part, CATEGORY);
    MatchedValueOk(part, UPDATED);
    MatchedValueOk(part, SOURCE);
    MatchedValueOk(part, SUMMARY);
  }

  lemma TitleStepOk(line: string)
    requires OneLine(line) && MatchTitle(line).Some?
    ensures Strip(MatchTitle(line).value) == [] || TitleOk(Strip(MatchTitle(line).value))
  {
    var v := MatchTitle(line).value;
    StripIsStripped(line[1..]);
    assert forall c :: c in line[1..] ==> c in line;
    assert forall c :: c in v ==> c in line;
    StripIsStripped(v);
    CleanSubset(Strip(v), line);
  }

  lemma MetaStepOk(m: Meta, line: string)
    requires MetaOk(m) && OneLine(line) && MatchMeta(line).Some?
    ensures MetaOk(SetParts(m, Parts(MatchMeta(line).value)))
  {
    var v := MatchMeta(line).value;
    StripIsStripped(line[1..]);
    assert forall c :: c in line[1..] ==> c in line;
    assert forall c :: c in v ==> c in line;
    CleanSubset(v, line);
    PartsClean([], v);
    forall n, part | MetaOk(n) && Clean(part) ensures MetaOk(SetPart(n, part)) {
      SetPartOk(n, part);
    }
    FoldKeeps(SetPart, MetaOk, Clean, m, Parts(v));
  }

  lemma StepOk(s: State, line: string)
    requires StateOk(s) && OneLine(line)
    ensures StateOk(Step(s, line))
  {
    if s.section == Lead {
      if MatchTitle(line).Some? && s.title == [] {
        TitleStepOk(line);
      } else if MatchMeta(line).Some? {
        MetaStepOk(s.meta, line);
      }
    }
  }

  lemma TrimmedSection(lines: seq<string>)
    requires forall i :: 0 <= i < |lines| ==> OneLine(lines[i])
    ensures SectionOk(Join(TrimBlank(lines))) && SplitLines(Join(TrimBlank(lines))) == TrimBlank(lines)
    ensures !HasFullHeader(lines) ==> !HasFullHeader(TrimBlank(lines))
  {
    var kept := TrimBlank(lines);
    forall i | 0 <= i < |kept| ensures kept[i] in lines {
      TrimBlankExact(lines, kept[i]);
    }
    TrimBlankExact(lines, []);
    SplitJoin(kept);
  }

  /** Every entry that parsing yields can be stored. */
  lemma ParsedIsStorable(text: string)
    requires Parse(text).Some?
    ensures Storable(Parse(text).value)
  {
    var lines := SplitLines(text);
    SplitOneLines(text);
    forall s, line | StateOk(s) && OneLine(line) ensures StateOk(Step(s, line)) {
      StepOk(s, line);
    }
    FoldKeeps(Step, StateOk, OneLine, START, lines);
    var s := Steps(START, lines);
    TrimmedSection(s.overview);
    TrimmedSection(s.full);
  }

  // ---------------------------------------------------------------- what is storable is read back

  lemma {:induction false} SkipPiece(piece: string, a: string, rest: string)
    requires forall i :: 0 <= i < |a| ==> !IsSeparator(a[i])
    ensures PartsFrom(piece, a + rest) == PartsFrom(piece + a, rest)
    decreases |a|
  {
    if a == [] {
      assert a + rest == rest && piece + a == piece;
    } else {
      SkipPiece(piece + [a[0]], a[1..], rest);
      assert (a + rest)[1..] == a[1..] + rest && piece + [a[0]] + a[1..] == piece + a;
    }
  }

  lemma {:induction false} LeadingSpace(piece: string, rest: string)
    ensures PartsFrom([' '] + piece, rest) == PartsFrom(piece, rest)
    decreases |rest|
  {
    StripSpaceLeft(piece);
    if rest != [] && !IsSeparator(rest[0]) {
      LeadingSpace(piece + [rest[0]], rest[1..]);
      assert [' '] + piece + [rest[0]] == [' '] + (piece + [rest[0]]);
    }
  }

  /** A field of the metadata line. */
  ghost predicate FieldOk(f: string) {
    f != [] && Stripped(f) && Clean(f)
  }

  lemma PartsNext(f: string, r: string)
    requires FieldOk(f)
    ensures Parts(f + " · " + r) == [f] + Parts(r)
  {
    var tail := ['·'] + ([' '] + r);
    assert f + " · " + r == f + [' '] + tail && [] + (f + [' ']) == f + [' '];
    SkipPiece([], f + [' '], tail);
    StripSpaceRight(f);
    assert tail[1..] == [' '] + r;
    SkipPiece([], [' '], r);
    LeadingSpace([], r);
    assert [' '] + [] == [' '] && [] + [' '] == [' '];
  }

  /** Splitting the joined fields gives them back. */
  lemma {:induction false} PartsOfFields(fields: seq<string>)
    requires fields != [] && forall i :: 0 <= i < |fields| ==> FieldOk(fields[i])
    ensures Parts(JoinDots(fields)) == fields
  {
    var f := fields[0];
    if |fields| == 1 {
      SkipPiece([], f, []);
      StripStripped(f);
      assert f + [] == f && [] + f == f;
    } else {
      PartsNext(f, JoinDots(fields[1..]));
      PartsOfFields(fields[1..]);
    }
  }

  lemma {:induction false} JoinDotsOk(fields: seq<string>)
    requires fields != [] && forall i :: 0 <= i < |fields| ==> FieldOk(fields[i])
    ensures JoinDots(fields) != [] && Stripped(JoinDots(fields)) && OneLine(JoinDots(fields))
  {
    if |fields| > 1 {
      JoinDotsOk(fields[1..]);
    }
  }

  lemma KeyedField(key: string, v: string)
    requires |key| == 2 && FieldOk(key) && ValueOk(v)
    ensures FieldOk(Field(key, v))
  {
    assert forall i :: 0 <= i < |v| ==> Field(key, v)[3 + i] == v[i];
  }

  lemma KeysOk()
    ensures FieldOk(CATEGORY) && FieldOk(UPDATED) && FieldOk(SOURCE) && FieldOk(SUMMARY)
    ensures CATEGORY != UPDATED && CATEGORY != SOURCE && CATEGORY != SUMMARY
    ensures UPDATED != SOURCE && UPDATED != SUMMARY && SOURCE != SUMMARY
  {
    assert CATEGORY[0] != UPDATED[0] && CATEGORY[0] != SOURCE[0] && CATEGORY[0] != SUMMARY[0];
    assert UPDATED[0] != SOURCE[0] && UPDATED[0] != SUMMARY[0] && SOURCE[0] != SUMMARY[0];
  }

  lemma FieldsOk(e: Entry)
    requires Storable(e)
    ensures forall i :: 0 <= i < |Fields(e)| ==> FieldOk(Fields(e)[i])
  {
    KeysOk();
    KeyedField(CATEGORY, e.category);
    if e.updated != [] { KeyedField(UPDATED, e.updated); }
    if e.source != [] { KeyedField(SOURCE, e.source); }
    if e.summary != [] { KeyedField(SUMMARY, e.summary); }
  }

  lemma ValueMatched(key: string, v: string, k: string)
    requires |key| == 2 == |k| && ValueOk(v)
    ensures MatchValue(Field(key, v), k) == if k == key then Some(v) else None
  {
    var part := Field(key, v);
    assert part[..2] == key && part[2..] == [':'] + v;
    assert LStrip(part[2..]) == part[2..] && part[2..][1..] == v;
    StripStripped(v);
  }

  ghost function Put(m: Meta, key: string, v: string): Meta {
    if key == CATEGORY then m.(category := v)
    else if key == UPDATED then m.(updated := v)
    else if key == SOURCE then m.(source := v)
    else m.(summary := v)
  }

  ghost predicate IsKey(key: string) {
    key == CATEGORY || key == UPDATED || key == SOURCE || key == SUMMARY
  }

  lemma SetField(m: Meta, key: string, v: string)
    requires IsKey(key) && ValueOk(v)
    ensures SetPart(m, Field(key, v)) == Put(m, key, v)
  {
    KeysOk();
    ValueMatched(key, v, CATEGORY);
    ValueMatched(key, v, UPDATED);
    ValueMatched(key, v, SOURCE);
    ValueMatched(key, v, SUMMARY);
  }

  lemma SetOptional(m: Meta, parts: seq<string>, key: string, v: string)
    requires IsKey(key) && (v == [] || ValueOk(v))
    ensures SetParts(m, parts + Optional(key, v))
         == if v == [] then SetParts(m, parts) else Put(SetParts(m, parts), key, v)
  {
    FoldConcat(SetPart, m, parts, Optional(key, v));
    if v != [] {
      SetField(SetParts(m, parts), key, v);
    }
  }

  /** Reading the fields sets each of the four values. */
  lemma SetFields(e: Entry)
    requires Storable(e)
    ensures SetParts(START.meta, Fields(e)) == Meta(e.category, e.updated, e.source, e.summary)
  {
    var c := [Field(CATEGORY, e.category)];
    assert [] + Optional(CATEGORY, e.category) == c;
    SetOptional(START.meta, [], CATEGORY, e.category);
    SetOptional(START.meta, c, UPDATED, e.updated);
    SetOptional(START.meta, c + Optional(UPDATED, e.updated), SOURCE, e.source);
    SetOptional(START.meta, c + Optional(UPDATED, e.updated) + Optional(SOURCE, e.source), SUMMARY, e.summary);
    KeysOk();
  }

  lemma StepTitle(title: string)
    requires TitleOk(title)
    ensures Step(START, "# " + title) == START.(title := title)
  {
    var line := "# " + title;
    assert line[1..] == [' '] + title;
    StripSpaceLeft(title);
    StripStripped(title);
  }

  lemma StepMeta(s: State, m: string)
    requires s.section == Lead && m != [] && Stripped(m)
    ensures Step(s, "> " + m) == s.(meta := SetParts(s.meta, Parts(m)))
  {
    var line := "> " + m;
    assert line[1..] == [' '] + m;
    StripSpaceLeft(m);
    StripStripped(m);
  }

  lemma HeadersStripped()
    ensures Strip(OVERVIEW_HEADER) == OVERVIEW_HEADER && Strip(FULL_HEADER) == FULL_HEADER
    ensures OVERVIEW_HEADER != FULL_HEADER && OVERVIEW_HEADER != [] && FULL_HEADER != []
    ensures OneLine(OVERVIEW_HEADER) && OneLine(FULL_HEADER)
  {
    assert OVERVIEW_HEADER[3] != FULL_HEADER[3];
  }

  lemma StepHeader(s: State)
    requires s.section == Lead
    ensures Step(s, OVERVIEW_HEADER) == s.(section := Overview) && Step(s, []) == s
  {
    HeadersStripped();
  }

  lemma StepInOverview(s: State, line: string)
    requires s.section == Overview
    ensures Strip(line) != FULL_HEADER ==> Step(s, line) == s.(overview := s.overview + [line])
    ensures Step(s, FULL_HEADER) == s.(section := Full)
  {
    HeadersStripped();
  }

  lemma {:induction false} StepsInOverview(s: State, lines: seq<string>)
    requires s.section == Overview && !HasFullHeader(lines)
    ensures Steps(s, lines) == s.(overview := s.overview + lines)
    decreases |lines|
  {
    if lines == [] {
      assert s.overview + [] == s.overview;
    } else {
      StepInOverview(s, lines[0]);
      StepsInOverview(s.(overview := s.overview + [lines[0]]), lines[1..]);
      assert s.overview + [lines[0]] + lines[1..] == s.overview + lines;
    }
  }

  lemma {:induction false} StepsInFull(s: State, lines: seq<string>)
    requires s.section == Full
    ensures Steps(s, lines) == s.(full := s.full + lines)
    decreases |lines|
  {
    if lines == [] {
      assert s.full + [] == s.full;
    } else {
      StepsInFull(s.(full := s.full + [lines[0]]), lines[1..]);
      assert s.full + [lines[0]] + lines[1..] == s.full + lines;
    }
  }

  /** The six lines before the overview. */
  lemma StepsLead(title: string, m: string)
    requires TitleOk(title) && m != [] && Stripped(m)
    ensures Steps(START, ["# " + title, [], "> " + m, [], OVERVIEW_HEADER])
         == State(title, SetParts(START.meta, Parts(m)), [], [], Overview)
  {
    var a, b := START.(title := title), START.(title := title, meta := SetParts(START.meta, Parts(m)));
    StepTitle(title);
    StepHeader(a);
    StepMeta(a, m);
    StepHeader(b);
    var lines := ["# " + title, [], "> " + m, [], OVERVIEW_HEADER];
    FoldNext(Step, START, lines, 0);
    FoldNext(Step, START, lines, 1);
    FoldNext(Step, START, lines, 2);
    FoldNext(Step, START, lines, 3);
    FoldNext(Step, START, lines, 4);
    assert lines[..5] == lines && lines[..0] == [];
  }

  /** The lines of a section as they stand in the document. */
  function Shown(t: string): seq<string> {
    if t == [] then [[]] else SplitLines(t)
  }

  /** The lines of a document: the lead with the overview header, the overview between empty lines, the full-text
      header and the full text. */
  function DocumentLines(title: string, meta: string, overview: string, full: string): seq<string> {
    LeadParts(title, meta) + [OVERVIEW_HEADER] + ([[]] + Shown(overview) + [[]]) + [FULL_HEADER] + ([[]] + Shown(full))
  }

  /** A metadata line: something on one line without white space at its ends. */
  predicate MetaLineOk(m: string) {
    m != [] && Stripped(m) && OneLine(m)
  }

  lemma {:induction false} TrimPadded(a: seq<string>, lines: seq<string>, b: seq<string>)
    requires (forall i :: 0 <= i < |a| ==> Blank(a[i])) && (forall i :: 0 <= i < |b| ==> Blank(b[i]))
    requires Trimmed(lines)
    ensures TrimBlank(a + lines + b) == lines
    decreases |a| + |b|
  {
    var all := a + lines + b;
    if b != [] {
      assert all[|all| - 1] == b[|b| - 1] && all[..|all| - 1] == a + lines + b[..|b| - 1];
      TrimPadded(a, lines, b[..|b| - 1]);
    } else if a != [] {
      assert all[0] == a[0] && all[1..] == a[1..] + lines + b;
      TrimFront(all);
      TrimPadded(a[1..], lines, b);
    } else {
      assert all == lines;
    }
  }

  lemma ShownTrims(t: string)
    requires SectionOk(t)
    ensures Join(TrimBlank([[]] + Shown(t) + [[]])) == t && Join(TrimBlank([[]] + Shown(t))) == t
  {
    if t == [] {
      TrimPadded([[], []], [], [[]]);
      TrimPadded([[], []], [], []);
      assert [[]] + Shown(t) + [[]] == [[], []] + [] + [[]] && [[]] + Shown(t) == [[], []] + [] + [];
    } else {
      TrimPadded([[]], SplitLines(t), [[]]);
      TrimPadded([[]], SplitLines(t), []);
      assert [[]] + SplitLines(t) + [] == [[]] + SplitLines(t);
    }
  }

  lemma ShownHasNoHeader(t: string)
    requires !HasFullHeader(SplitLines(t))
    ensures !HasFullHeader([[]] + Shown(t) + [[]])
  {
    HeadersStripped();
    var lines := [[]] + Shown(t) + [[]];
    forall i | 0 <= i < |lines| ensures Strip(lines[i]) != FULL_HEADER {
      assert lines[i] == [] || lines[i] in SplitLines(t);
    }
  }

  /** Running the parser over the lines of a document: the title, what the metadata line says, and the sections. */
  lemma StepsDocument(title: string, m: string, overview: string, full: string)
    requires TitleOk(title) && MetaLineOk(m) && SectionOk(overview) && SectionOk(full)
    requires !HasFullHeader(SplitLines(overview))
    ensures var s := Steps(START, DocumentLines(title, m, overview, full));
      && s.title == title && s.meta == SetParts(START.meta, Parts(m))
      && Join(TrimBlank(s.overview)) == overview && Join(TrimBlank(s.full)) == full
  {
    StepsLead(title, m);
    var lead := LeadParts(title, m) + [OVERVIEW_HEADER];
    assert lead == ["# " + title, [], "> " + m, [], OVERVIEW_HEADER];
    var o, f := [[]] + Shown(overview) + [[]], [[]] + Shown(full);
    var s := State(title, SetParts(START.meta, Parts(m)), [], [], Overview);
    FoldConcat(Step, START, lead, o);
    FoldConcat(Step, START, lead + o, [FULL_HEADER]);
    FoldConcat(Step, START, lead + o + [FULL_HEADER], f);
    ShownHasNoHeader(overview);
    StepsInOverview(s, o);
    assert [] + o == o && [] + f == f;
    StepInOverview(s.(overview := o), []);
    StepsInFull(s.(overview := o, section := Full), f);
    ShownTrims(overview);
    ShownTrims(full);
  }

  // ---------------------------------------------------------------- the lines of the written text

  lemma OneLineIsBlock(s: string)
    requires OneLine(s)
    ensures IsBlock(s) && Shown(s) == [s]
  {
    SplitOneLine(s);
  }

  /** The lines of parts that are each followed by a newline. */
  ghost function ShownEach(parts: seq<string>): seq<string> {
    Flat(Shown, parts)
  }

  ghost predicate AllBlocks(parts: seq<string>) {
    forall i :: 0 <= i < |parts| ==> IsBlock(parts[i])
  }

  lemma {:induction false} SplitParts(parts: seq<string>)
    requires AllBlocks(parts)
    ensures SplitLines(Join(parts + [[]])) == ShownEach(parts)
  {
    if parts != [] {
      var all := parts + [[]];
      assert all[1..] == parts[1..] + [[]] && all[0] == parts[0];
      SplitParts(parts[1..]);
      SplitAtNewline(parts[0] + ['\n'], Join(all[1..]));
      SplitBlock(parts[0]);
    }
  }

  /** Parts that are single lines are shown as they are. */
  lemma {:induction false} ShownLines(parts: seq<string>)
    requires forall i :: 0 <= i < |parts| ==> OneLine(parts[i])
    ensures ShownEach(parts) == parts && AllBlocks(parts)
  {
    if parts != [] {
      OneLineIsBlock(parts[0]);
      ShownLines(parts[1..]);
      assert parts == [parts[0]] + parts[1..];
    }
  }

  lemma {:induction false} JoinLast(lines: seq<string>)
    requires lines != [] && lines[|lines| - 1] != [] && OneLine(lines[|lines| - 1])
    ensures Join(lines) != [] && Join(lines)[|Join(lines)| - 1] != '\n'
  {
    if |lines| > 1 {
      JoinLast(lines[1..]);
    }
  }

  lemma KeepsNewlines(t: string)
    requires SectionOk(t)
    ensures StripNewlines(t) == t
  {
    if t != [] && t[|t| - 1] == '\n' {
      SplitOneLines(t);
      JoinLast(SplitLines(t));
    }
  }

  lemma ShownSection(header: string, t: string)
    requires OneLine(header) && SectionOk(t)
    ensures ShownEach(SectionParts(header, t)) == [header] + ([[]] + Shown(t)) && AllBlocks(SectionParts(header, t))
  {
    KeepsNewlines(t);
    ShownLines([header, []]);
    FlatConcat(Shown, [header, []], [t]);
    assert SectionParts(header, t) == [header, []] + [t];
    assert ShownEach([t]) == Shown(t) + [] == Shown(t);
    assert [header, []] + Shown(t) == [header] + ([[]] + Shown(t));
  }

  lemma LeadIsLines(title: string, m: string)
    requires TitleOk(title) && MetaLineOk(m)
    ensures ShownEach(LeadParts(title, m)) == LeadParts(title, m) && AllBlocks(LeadParts(title, m))
  {
    ShownLines(LeadParts(title, m));
  }

  lemma Regroup(lead: seq<string>, h: string, o: seq<string>, g: string, f: seq<string>)
    ensures lead + ([h] + ([[]] + o)) + [[]] + ([g] + f) == lead + [h] + ([[]] + o + [[]]) + [g] + f
  {
  }

  lemma SplitFour(lead: seq<string>, o: seq<string>, f: seq<string>)
    requires AllBlocks(lead) && AllBlocks(o) && AllBlocks(f)
    ensures SplitLines(Join(lead + o + [[]] + f + [[]])) == ShownEach(lead) + ShownEach(o) + [[]] + ShownEach(f)
  {
    ShownLines([[]]);
    FlatConcat(Shown, lead, o);
    FlatConcat(Shown, lead + o, [[]]);
    FlatConcat(Shown, lead + o + [[]], f);
    SplitParts(lead + o + [[]] + f);
  }

  /** The text of a document splits into the lines the parser expects. */
  lemma SplitSerialized(title: string, m: string, overview: string, full: string)
    requires TitleOk(title) && MetaLineOk(m) && SectionOk(overview) && SectionOk(full)
    ensures SplitLines(DocumentText(title, m, overview, full)) == DocumentLines(title, m, overview, full)
  {
    assert OneLine(OVERVIEW_HEADER) && OneLine(FULL_HEADER) by { HeadersStripped(); }
    LeadIsLines(title, m);
    ShownSection(OVERVIEW_HEADER, overview);
    ShownSection(FULL_HEADER, full);
    SplitFour(LeadParts(title, m), SectionParts(OVERVIEW_HEADER, overview), SectionParts(FULL_HEADER, full));
    Regroup(LeadParts(title, m), OVERVIEW_HEADER, Shown(overview), FULL_HEADER, [[]] + Shown(full));
  }

  /** What a document with a given metadata line is parsed to: the metadata is what the parts of the line set. */
  lemma DocumentParsed(title: string, m: string, overview: string, full: string)
    requires TitleOk(title) && MetaLineOk(m) && SectionOk(overview) && SectionOk(full)
    requires !HasFullHeader(SplitLines(overview))
    ensures var meta := SetParts(START.meta, Parts(m));
      Parse(DocumentText(title, m, overview, full))
      == if meta.category == [] then None
         else Some(Entry(title, meta.category, [], meta.summary, meta.updated, overview, full, meta.source))
  {
    SplitSerialized(title, m, overview, full);
    StepsDocument(title, m, overview, full);
    assert DocumentText(title, m, overview, full) != [];
  }

  /** Writing an entry and parsing the text gives the entry back, its slug aside, exactly when the entry is
      storable: every storable entry survives, and no other one does. */
  lemma WrittenIsReadBack(e: Entry)
    ensures Parse(Serialize(e)) == Some(e.(slug := [])) <==> Storable(e)
  {
    if Storable(e) {
      FieldsOk(e);
      PartsOfFields(Fields(e));
      JoinDotsOk(Fields(e));
      SetFields(e);
      DocumentParsed(e.title, JoinDots(Fields(e)), e.overview, e.fullText);
    } else if Parse(Serialize(e)).Some? {
      ParsedIsStorable(Serialize(e));
    }
  }

  lemma {:induction false} JoinDotsSnoc(fields: seq<string>, f: string)
    requires fields != []
    ensures JoinDots(fields + [f]) == JoinDots(fields) + " · " + f
  {
    var all := fields + [f];
    assert all[1..] == fields[1..] + [f] && all[0] == fields[0];
    if |fields| == 1 {
      assert JoinDots(all[1..]) == f;
    } else {
      JoinDotsSnoc(fields[1..], f);
      assert fields[0] + " · " + (JoinDots(fields[1..]) + " · " + f)
          == fields[0] + " · " + JoinDots(fields[1..]) + " · " + f;
    }
  }

  /** The last of some joined fields may hold a separator and be read as two. */
  lemma JoinDotsTwo(pre: seq<string>, f: string, g: string)
    ensures JoinDots(pre + [f + " · " + g]) == JoinDots(pre + [f] + [g])
  {
    if pre == [] {
      assert [] + [f + " · " + g] == [f + " · " + g] && [] + [f] + [g] == [f] + [g] && [] + [f] == [f];
      JoinDotsSnoc([f], g);
    } else {
      JoinDotsSnoc(pre, f + " · " + g);
      JoinDotsSnoc(pre, f);
      JoinDotsSnoc(pre + [f], g);
      assert JoinDots(pre) + " · " + (f + " · " + g) == JoinDots(pre) + " · " + f + " · " + g;
    }
  }

  /** The entry with a summary that goes on with a separator and another category field. */
  function Injected(e: Entry, c: string): Entry {
    e.(summary := e.summary + " · " + Field(CATEGORY, c))
  }

  /** The fields of an entry whose summary holds another category field, joined. */
  lemma InjectedFields(e: Entry, c: string)
    requires e.summary != []
    ensures JoinDots(Fields(Injected(e, c))) == JoinDots(Fields(e) + [Field(CATEGORY, c)])
  {
    var g, s := Field(CATEGORY, c), e.summary;
    var pre := [Field(CATEGORY, e.category)] + Optional(UPDATED, e.updated) + Optional(SOURCE, e.source);
    assert Fields(e) == pre + [Field(SUMMARY, s)];
    assert Field(SUMMARY, s + " · " + g) == Field(SUMMARY, s) + " · " + g;
    assert Fields(e.(summary := s + " · " + g)) == pre + [Field(SUMMARY, s) + " · " + g];
    JoinDotsTwo(pre, Field(SUMMARY, s), g);
  }

  /** A summary that holds a separator and a category field changes the category the document claims: written under
      one category, it is read as another. */
  lemma SummaryRelabels(e: Entry, c: string)
    requires Storable(e) && e.summary != [] && ValueOk(c)
    ensures Parse(Serialize(Injected(e, c))) == Some(e.(category := c, slug := []))
  {
    var g := Field(CATEGORY, c);
    var fields := Fields(e) + [g];
    FieldsOk(e);
    KeysOk();
    KeyedField(CATEGORY, c);
    PartsOfFields(fields);
    JoinDotsOk(fields);
    InjectedFields(e, c);
    SetFields(e);
    FoldConcat(SetPart, START.meta, Fields(e), [g]);
    SetField(SetParts(START.meta, Fields(e)), CATEGORY, c);
    DocumentParsed(e.title, JoinDots(fields), e.overview, e.fullText);
  }

  /** Parsing is a normal form: what a text was parsed to, is parsed from its own serialization. */
  lemma ParsingIsNormal(text: string)
    requires Parse(text).Some?
    ensures Parse(Serialize(Parse(text).value)) == Parse(text)
  {
    ParsedIsStorable(text);
    WrittenIsReadBack(Parse(text).value);
    assert Parse(text).value.slug == [];
  }

  // ---------------------------------------------------------------- the full-text section read on its own

  predicate IsFullHeader(line: string) {
    Strip(line) == FULL_HEADER
  }

  datatype Reading = Reading(inFull: bool, full: seq<string>)

  /** One line of `_extract_full`: every header line starts the section and is itself left out. */
  function ReadStep(r: Reading, line: string): Reading {
    if IsFullHeader(line) then r.(inFull := true)
    else if r.inFull then r.(full := r.full + [line])
    else r
  }

  function ReadFull(lines: seq<string>): Reading {
    Fold(ReadStep, Reading(false, []), lines)
  }

  function Extract(text: string): string {
    Join(TrimBlank(ReadFull(SplitLines(text)).full))
  }

  /** `_extract_full`: here the blank lines go at the front first. */
  method ExtractFull(text: string) returns (full: string)
    ensures full == Extract(text)
  {
    var lines := SplitLines(text);
    var inFull := false;
    var kept: seq<string> := [];
    for i := 0 to |lines|
      invariant Reading(inFull, kept) == ReadFull(lines[..i])
    {
      FoldNext(ReadStep, Reading(false, []), lines, i);
      if Strip(lines[i]) == FULL_HEADER {
        inFull := true;
      } else if inFull {
        kept := kept + [lines[i]];
      }
    }
    assert lines[..|lines|] == lines;
    ghost var all := kept;
    while kept != [] && Strip(kept[0]) == []
      invariant TrimBlank(kept) == TrimBlank(all)
    {
      BlankExact(kept[0]);
      TrimFront(kept);
      kept := kept[1..];
    }
    while kept != [] && Strip(kept[|kept| - 1]) == []
      invariant TrimBlank(kept) == TrimBlank(all)
      invariant kept != [] ==> !Blank(kept[0])
    {
      BlankExact(kept[|kept| - 1]);
      kept := kept[..|kept| - 1];
    }
    if kept != [] {
      BlankExact(kept[0]);
      BlankExact(kept[|kept| - 1]);
    }
    full := Join(kept);
  }

  /** The lines after the first header line. */
  function AfterHeader(lines: seq<string>): seq<string> {
    if lines == [] then [] else if IsFullHeader(lines[0]) then lines[1..] else AfterHeader(lines[1..])
  }

  function WithoutHeaders(lines: seq<string>): seq<string> {
    if lines == [] then []
    else if IsFullHeader(lines[0]) then WithoutHeaders(lines[1..])
    else [lines[0]] + WithoutHeaders(lines[1..])
  }

  lemma StripFirst(line: string)
    requires Strip(line) == FULL_HEADER && line != []
    ensures IsSpace(line[0]) || (|line| >= 2 && line[0] == '#' == line[1])
  {
    if !IsSpace(line[0]) {
      assert Left(line, 0) == 0;
      assert line[..Right(line, 0, |line|)] == FULL_HEADER;
      assert line[0] == FULL_HEADER[0] && line[1] == FULL_HEADER[1];
    }
  }

  /** A line that is the full-text header is neither a title nor metadata. */
  lemma HeaderIsNoTitle(line: string)
    requires IsFullHeader(line)
    ensures MatchTitle(line).None? && MatchMeta(line).None? && Strip(line) != OVERVIEW_HEADER
  {
    HeadersStripped();
    StripFirst(line);
  }

  /** Both readers start the full text after the first header line; the parser keeps later ones. */
  lemma {:induction false} ParserFull(s: State, lines: seq<string>)
    requires s.section != Full && s.full == []
    ensures Steps(s, lines).full == AfterHeader(lines)
    decreases |lines|
  {
    if lines != [] {
      if IsFullHeader(lines[0]) {
        HeaderIsNoTitle(lines[0]);
        StepsInFull(s.(section := Full), lines[1..]);
        assert [] + lines[1..] == lines[1..];
      } else {
        ParserFull(Step(s, lines[0]), lines[1..]);
      }
    }
  }

  lemma {:induction false} ReaderInFull(full: seq<string>, lines: seq<string>)
    ensures Fold(ReadStep, Reading(true, full), lines).full == full + WithoutHeaders(lines)
    decreases |lines|
  {
    if lines == [] {
      assert full + [] == full;
    } else if IsFullHeader(lines[0]) {
      ReaderInFull(full, lines[1..]);
    } else {
      ReaderInFull(full + [lines[0]], lines[1..]);
      ConcatAssociates(full, [lines[0]], WithoutHeaders(lines[1..]));
    }
  }

  lemma {:induction false} ReaderFull(lines: seq<string>)
    ensures ReadFull(lines).full == WithoutHeaders(AfterHeader(lines))
    decreases |lines|
  {
    if lines != [] {
      if IsFullHeader(lines[0]) {
        ReaderInFull([], lines[1..]);
        assert [] + WithoutHeaders(lines[1..]) == WithoutHeaders(lines[1..]);
      } else {
        ReaderFull(lines[1..]);
      }
    }
  }

  lemma HeaderSomewhere(lines: seq<string>)
    requires lines != []
    ensures HasFullHeader(lines) <==> IsFullHeader(lines[0]) || HasFullHeader(lines[1..])
  {
    if HasFullHeader(lines) && !IsFullHeader(lines[0]) {
      var i :| 0 <= i < |lines| && Strip(lines[i]) == FULL_HEADER;
      assert lines[1..][i - 1] == lines[i];
    }
  }

  lemma {:induction false} WithoutHeadersSubset(lines: seq<string>)
    ensures forall l :: l in WithoutHeaders(lines) ==> l in lines && !IsFullHeader(l)
    ensures !HasFullHeader(WithoutHeaders(lines))
  {
    if lines != [] {
      WithoutHeadersSubset(lines[1..]);
      assert lines == [lines[0]] + lines[1..];
    }
    forall i | 0 <= i < |WithoutHeaders(lines)| ensures !IsFullHeader(WithoutHeaders(lines)[i]) {
      assert WithoutHeaders(lines)[i] in WithoutHeaders(lines);
    }
  }

  lemma {:induction false} WithoutNone(lines: seq<string>)
    requires !HasFullHeader(lines)
    ensures WithoutHeaders(lines) == lines
  {
    if lines != [] {
      HeaderSomewhere(lines);
      WithoutNone(lines[1..]);
      assert lines == [lines[0]] + lines[1..];
    }
  }

  /** Trimming keeps a header line and makes none. */
  lemma TrimKeepsHeader(lines: seq<string>)
    ensures HasFullHeader(TrimBlank(lines)) <==> HasFullHeader(lines)
  {
    HeadersStripped();
    if HasFullHeader(lines) {
      var i :| 0 <= i < |lines| && Strip(lines[i]) == FULL_HEADER;
      BlankExact(lines[i]);
      TrimBlankExact(lines, lines[i]);
    }
    if HasFullHeader(TrimBlank(lines)) {
      var i :| 0 <= i < |TrimBlank(lines)| && Strip(TrimBlank(lines)[i]) == FULL_HEADER;
      TrimBlankExact(lines, TrimBlank(lines)[i]);
    }
  }

  lemma {:induction false} AfterHeaderSubset(lines: seq<string>)
    ensures forall l :: l in AfterHeader(lines) ==> l in lines
  {
    if lines != [] {
      AfterHeaderSubset(lines[1..]);
      assert lines == [lines[0]] + lines[1..];
    }
  }

  /** On every document that parses, reading the full-text section on its own gives the parsed full text exactly
      when no line after the first full-text header is that header again. */
  lemma ExtractAgrees(text: string)
    requires Parse(text).Some?
    ensures Extract(text) == Parse(text).value.fullText <==> !HasFullHeader(AfterHeader(SplitLines(text)))
  {
    var lines := SplitLines(text);
    var after := AfterHeader(lines);
    SplitOneLines(text);
    ParserFull(START, lines);
    ReaderFull(lines);
    AfterHeaderSubset(lines);
    WithoutHeadersSubset(after);
    if !HasFullHeader(after) {
      WithoutNone(after);
    }
    TrimmedSection(after);
    TrimmedSection(WithoutHeaders(after));
    TrimKeepsHeader(after);
    TrimKeepsHeader(WithoutHeaders(after));
  }

  // ---------------------------------------------------------------- the written text

  /** The metadata line: the category, and date, source and summary where there are any. */
  function MetaLine(e: Entry): string {
    var updated := if e.updated != [] then " · " + ("更新" + ":" + e.updated) else [];
    var source := if e.source != [] then " · " + ("来源" + ":" + e.source) else [];
    var summary := if e.summary != [] then " · " + ("摘要" + ":" + e.summary) else [];
    ("分类" + ":" + e.category) + updated + source + summary
  }

  function Dots(fields: seq<string>): string {
    Flat((x: string) => " · " + x, fields)
  }

  lemma {:induction false} JoinDotsAll(first: string, more: seq<string>)
    ensures JoinDots([first] + more) == first + Dots(more)
    decreases |more|
  {
    assert ([first] + more)[1..] == more;
    if more == [] {
      assert first + [] == first;
    } else {
      JoinDotsAll(more[0], more[1..]);
      assert more == [more[0]] + more[1..];
      ConcatAssociates(" · ", more[0], Dots(more[1..]));
      ConcatAssociates(first, " · ", JoinDots(more));
    }
  }

  lemma DotsOptional(key: string, v: string)
    ensures Dots(Optional(key, v)) == if v != [] then " · " + (key + ":" + v) else []
  {
    if v != [] {
      var f, field := (x: string) => " · " + x, Field(key, v);
      assert [field][1..] == [];
      assert Flat(f, [field]) == f(field) + [] == f(field);
    }
  }

  lemma MetaLineJoined(e: Entry)
    ensures JoinDots(Fields(e)) == MetaLine(e)
  {
    var first, u, o, m := Field(CATEGORY, e.category), Optional(UPDATED, e.updated), Optional(SOURCE, e.source),
                          Optional(SUMMARY, e.summary);
    var f := (x: string) => " · " + x;
    DotsOptional(UPDATED, e.updated);
    DotsOptional(SOURCE, e.source);
    DotsOptional(SUMMARY, e.summary);
    JoinDotsAll(first, u + o + m);
    FlatConcat(f, u + o, m);
    FlatConcat(f, u, o);
    assert Fields(e) == [first] + (u + o + m);
    ConcatAssociates(first, Dots(u) + Dots(o), Dots(m));
    ConcatAssociates(first, Dots(u), Dots(o));
  }

  lemma TwelveLines(t: string, m: string, h: string, o: string, g: string, f: string)
    ensures [t, [], m, []] + [h, [], o] + [[]] + [g, [], f] + [[]] == [t, [], m, [], h, [], o, [], g, [], f, []]
  {
  }

  /** The text written for an entry: title, metadata line, overview and full text under their headers, an empty line
      after each. */
  lemma SerializedText(e: Entry)
    ensures Serialize(e) == Join([
      "# " + e.title, [], "> " + MetaLine(e), [],
      "## 概览", [], StripNewlines(e.overview), [],
      "## 全文", [], StripNewlines(e.fullText), []])
  {
    MetaLineJoined(e);
    TwelveLines("# " + e.title, "> " + MetaLine(e), "## 概览", StripNewlines(e.overview), "## 全文",
                StripNewlines(e.fullText));
  }

  /** The text written for a section is that of the entry without just the line feeds at its end. */
  lemma {:induction false} NewlinesGo(t: string)
    ensures var r := StripNewlines(t);
      && r <= t && (r != [] ==> r[|r| - 1] != '\n') && forall k :: |r| <= k < |t| ==> t[k] == '\n'
  {
    if t != [] && t[|t| - 1] == '\n' {
      NewlinesGo(t[..|t| - 1]);
    }
  }

  // ---------------------------------------------------------------- the forms of lines and fields

  lemma StripOfBlank(s: string)
    requires Blank(s)
    ensures Strip(s) == []
  {
    StripUnique(s, [], []);
    assert s + [] + [] == s;
  }

  /** A title is a `#`, white space and a text, whatever white space follows; with white space only it is the last
      character, if there are two at least; and no other line is one. */
  lemma TitleForms(ws: string, text: string, end: string, line: string)
    requires Blank(ws) && ws != [] && Stripped(text) && text != [] && Blank(end)
    ensures MatchTitle("#" + (ws + text + end)) == Some(text)
    ensures MatchTitle("#" + ws) == if |ws| == 1 then None else Some(ws[|ws| - 1..])
    ensures !(|line| > 1 && line[0] == '#' && IsSpace(line[1])) ==> MatchTitle(line).None?
  {
    StripUnique(ws, text, end);
    assert ("#" + (ws + text + end))[1..] == ws + text + end;
    StripOfBlank(ws);
    assert ("#" + ws)[1..] == ws;
    assert |ws| > 1 ==> ("#" + ws)[|"#" + ws| - 1..] == ws[|ws| - 1..];
  }

  /** A metadata line is a `>` and a text, whatever white space is around it; with white space only it is the last
      character; and no other line is one. */
  lemma MetaForms(ws: string, text: string, end: string, line: string)
    requires Blank(ws) && Stripped(text) && text != [] && Blank(end)
    ensures MatchMeta(">" + (ws + text + end)) == Some(text)
    ensures MatchMeta(">" + ws) == if ws == [] then None else Some(ws[|ws| - 1..])
    ensures !(|line| > 1 && line[0] == '>') ==> MatchMeta(line).None?
  {
    StripUnique(ws, text, end);
    assert (">" + (ws + text + end))[1..] == ws + text + end;
    StripOfBlank(ws);
    assert (">" + ws)[1..] == ws;
    assert ws != [] ==> (">" + ws)[|">" + ws| - 1..] == ws[|ws| - 1..];
  }

  /** Metadata is taken apart at either separator, and the white space around the parts goes. */
  lemma PartsForms(f: string, sep: char, rest: string)
    requires (forall i :: 0 <= i < |f| ==> f[i] != '·' && f[i] != '|') && (sep == '·' || sep == '|')
    ensures Parts(f) == [Strip(f)] && Parts(f + ([sep] + rest)) == [Strip(f)] + Parts(rest)
  {
    SkipPiece([], f, []);
    assert f + [] == f && [] + f == f;
    SkipPiece([], f, [sep] + rest);
    assert ([sep] + rest)[1..] == rest;
  }

  lemma LStripBlank(ws: string, s: string)
    requires Blank(ws) && s != [] && !IsSpace(s[0])
    ensures LStrip(ws + s) == s
  {
    var i := Left(ws + s, 0);
    assert forall k :: 0 <= k < |ws| ==> (ws + s)[k] == ws[k];
    assert (ws + s)[|ws|] == s[0];
    assert i == |ws|;
  }

  /** A field is its key, either colon with any white space around it, and a value; without anything after the colon
      it is none. */
  lemma ValueForms(key: string, ws: string, colon: char, v: string)
    requires |key| == 2 && Blank(ws) && (colon == ':' || colon == '：')
    ensures MatchValue(key + (ws + ([colon] + v)), key) == if v == [] then None else Some(Strip(v))
    ensures forall other: string :: |other| == 2 && other != key ==>
      MatchValue(key + (ws + ([colon] + v)), other).None?
  {
    var rest := ws + ([colon] + v);
    assert (key + rest)[..2] == key && (key + rest)[2..] == rest;
    LStripBlank(ws, [colon] + v);
    assert ([colon] + v)[1..] == v;
  }

  lemma NotAHeader(line: string)
    requires |line| > 1 && line[0] == '#' && IsSpace(line[1])
    ensures Strip(line) != OVERVIEW_HEADER && Strip(line) != FULL_HEADER
  {
    assert Left(line, 0) == 0;
    assert OVERVIEW_HEADER[1] == '#' && FULL_HEADER[1] == '#';
    if |Strip(line)| > 1 {
      assert Strip(line)[1] == line[1];
    }
  }

  /** In front of the sections the first title counts and later ones do not. */
  lemma TitleOnce(s: State, ws: string, text: string, end: string)
    requires s.section.Lead? && Blank(ws) && ws != [] && Stripped(text) && text != [] && Blank(end)
    ensures Step(s, "#" + (ws + text + end)) == if s.title == [] then s.(title := text) else s
  {
    var line := "#" + (ws + text + end);
    TitleForms(ws, text, end, line);
    StripStripped(text);
    assert line[0] == '#' && line[1] == ws[0] && IsSpace(line[1]);
    NotAHeader(line);
  }

  /** The overview runs from its header to that of the full text, which runs to the end; a full text may come without
      an overview, and whatever else stands in front is passed over. */
  lemma SectionSteps(s: State, line: string)
    ensures s.section.Lead? && MatchTitle(line).None? && MatchMeta(line).None? ==>
      Step(s, line) == s.(section :=
        if Strip(line) == "## 概览" then Overview else if Strip(line) == "## 全文" then Full else Lead)
    ensures s.section.Overview? ==>
      Step(s, line) == if Strip(line) == "## 全文" then s.(section := Full) else s.(overview := s.overview + [line])
    ensures s.section.Full? ==> Step(s, line) == s.(full := s.full + [line])
  {
  }
}
