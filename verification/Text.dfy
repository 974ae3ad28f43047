/** Python's `str` operations the memory documents are made with: whitespace, `strip`, `splitlines` and `join`,
    with what each undoes of the other. */
module Text {

  /** `str.isspace` and `\s`. */
  predicate IsSpace(c: char) {
    var n := c as int;
    || 0x9 <= n <= 0xD || 0x1C <= n <= 0x20 || n == 0x85 || n == 0xA0 || n == 0x1680 || 0x2000 <= n <= 0x200A
    || n == 0x2028 || n == 0x2029 || n == 0x202F || n == 0x205F || n == 0x3000
  }

  /** The characters `splitlines` breaks at. */
  predicate IsBreak(c: char) {
    var n := c as int;
    0xA <= n <= 0xD || 0x1C <= n <= 0x1E || n == 0x85 || n == 0x2028 || n == 0x2029
  }

  /** The characters of both kinds, one by one. */
  lemma CharacterCodes(c: char)
    ensures IsSpace(c) <==> c in "\t\n\U{b}\U{c}\r\U{1c}\U{1d}\U{1e}\U{1f} \U{85}\U{a0}\U{1680}"
                               + "\U{2000}\U{2001}\U{2002}\U{2003}\U{2004}\U{2005}\U{2006}"
                               + "\U{2007}\U{2008}\U{2009}\U{200a}\U{2028}\U{2029}\U{202f}\U{205f}\U{3000}"
    ensures IsBreak(c) <==> c in "\n\U{b}\U{c}\r\U{1c}\U{1d}\U{1e}\U{85}\U{2028}\U{2029}"
  {
  }

  predicate OneLine(s: string) {
    forall i :: 0 <= i < |s| ==> !IsBreak(s[i])
  }

  /** The first position from `i` on that is not white space. */
  function Left(s: string, i: nat): (r: nat)
    requires i <= |s|
    ensures i <= r <= |s| && (r < |s| ==> !IsSpace(s[r]))
    ensures forall k :: i <= k < r ==> IsSpace(s[k])
    decreases |s| - i
  {
    if i < |s| && IsSpace(s[i]) then Left(s, i + 1) else i
  }

  /** The position after the last one in `s[lo..j]` that is not white space. */
  function Right(s: string, lo: nat, j: nat): (r: nat)
    requires lo <= j <= |s|
    ensures lo <= r <= j && (r > lo ==> !IsSpace(s[r - 1]))
    ensures forall k :: r <= k < j ==> IsSpace(s[k])
  {
    if j > lo && IsSpace(s[j - 1]) then Right(s, lo, j - 1) else j
  }

  /** White space at the front gone. */
  function LStrip(s: string): string {
    s[Left(s, 0)..]
  }

  /** `s.strip()`. */
  function Strip(s: string): string {
    var i := Left(s, 0);
    s[i..Right(s, i, |s|)]
  }

  /** No white space at either end. */
  predicate Stripped(s: string) {
    s != [] ==> !IsSpace(s[0]) && !IsSpace(s[|s| - 1])
  }

  /** `not s.strip()`. */
  predicate Blank(s: string) {
    forall i :: 0 <= i < |s| ==> IsSpace(s[i])
  }

  lemma StripIsStripped(s: string)
    ensures Stripped(Strip(s))
    ensures forall c :: c in Strip(s) ==> c in s
  {
  }

  /** Stripping takes off all the white space at the ends and nothing else. */
  lemma StripUnique(a: string, m: string, b: string)
    requires Blank(a) && Stripped(m) && Blank(b)
    ensures Strip(a + m + b) == m
  {
    var s := a + m + b;
    var i := Left(s, 0);
    if m == [] {
      assert Blank(s);
      assert i == |s|;
    } else {
      assert s[|a|] == m[0] && s[|a| + |m| - 1] == m[|m| - 1];
      assert i == |a|;
      assert Right(s, i, |s|) == |a| + |m|;
    }
  }

  lemma StripStripped(s: string)
    requires Stripped(s)
    ensures Strip(s) == s
  {
    StripUnique([], s, []);
    assert [] + s + [] == s;
  }

  lemma BlankExact(s: string)
    ensures Blank(s) <==> Strip(s) == []
  {
  }

  lemma StripParts(s: string) returns (a: string, b: string)
    ensures Blank(a) && Blank(b) && s == a + Strip(s) + b
  {
    var i := Left(s, 0);
    var j := Right(s, i, |s|);
    a, b := s[..i], s[j..];
  }

  lemma StripSpaced(a: string, m: string, b: string)
    requires Blank(a) && Stripped(m) && Blank(b)
    ensures Strip([' '] + (a + m + b)) == m
  {
    StripUnique([' '] + a, m, b);
    assert [' '] + a + m + b == [' '] + (a + m + b);
  }

  lemma StripSpaceLeft(s: string)
    ensures Strip([' '] + s) == Strip(s)
  {
    var a, b := StripParts(s);
    StripIsStripped(s);
    StripSpaced(a, Strip(s), b);
  }

  lemma StripSpaceRight(s: string)
    requires Stripped(s)
    ensures Strip(s + [' ']) == s
  {
    StripUnique([], s, [' ']);
    assert [] + s + [' '] == s + [' '];
  }

  /** Puts a character in front of the first line. */
  function Prepend(c: char, lines: seq<string>): seq<string> {
    if lines == [] then [[c]] else [[c] + lines[0]] + lines[1..]
  }

  /** `t.splitlines()`: `\r\n` is one break, and a break at the very end starts no further line. */
  function SplitLines(t: string): seq<string>
    decreases |t|
  {
    if t == [] then []
    else if t[0] == '\r' && |t| > 1 && t[1] == '\n' then [[]] + SplitLines(t[2..])
    else if IsBreak(t[0]) then [[]] + SplitLines(t[1..])
    else Prepend(t[0], SplitLines(t[1..]))
  }

  lemma {:induction false} SplitOneLines(t: string)
    ensures forall l :: l in SplitLines(t) ==> OneLine(l)
    decreases |t|
  {
    if t != [] {
      SplitOneLines(t[1..]);
      if |t| > 1 {
        SplitOneLines(t[2..]);
      }
      var rest := SplitLines(t[1..]);
      assert rest != [] ==> rest[0] in rest && forall l :: l in rest[1..] ==> l in rest;
    }
  }

  /** `"\n".join(lines)`. */
  function Join(lines: seq<string>): string {
    if lines == [] then [] else if |lines| == 1 then lines[0] else lines[0] + ['\n'] + Join(lines[1..])
  }

  ghost predicate EndsInNewline(u: string) {
    u != [] && u[|u| - 1] == '\n'
  }

  /** One step of `SplitLines`: how much the step consumes and what it does to the lines of the rest. */
  function Width(t: string): nat
    requires t != []
  {
    if t[0] == '\r' && |t| > 1 && t[1] == '\n' then 2 else 1
  }

  function AddFront(c: char, lines: seq<string>): seq<string> {
    if IsBreak(c) then [[]] + lines else Prepend(c, lines)
  }

  lemma SplitStep(t: string)
    requires t != []
    ensures SplitLines(t) == AddFront(t[0], SplitLines(t[Width(t)..]))
  {
  }

  lemma AddFrontConcat(c: char, a: seq<string>, b: seq<string>)
    requires a != [] || IsBreak(c)
    ensures AddFront(c, a + b) == AddFront(c, a) + b
  {
    if a != [] {
      assert (a + b)[1..] == a[1..] + b;
    }
  }

  lemma WidthPrefix(u: string, b: string)
    requires EndsInNewline(u)
    ensures Width(u) <= |u| && Width(u + b) == Width(u) && (u + b)[Width(u)..] == u[Width(u)..] + b
    ensures u[Width(u)..] == [] ==> IsBreak(u[0])
    ensures u[Width(u)..] != [] ==> EndsInNewline(u[Width(u)..])
  {
    assert (u + b)[0] == u[0] && (|u| > 1 ==> (u + b)[1] == u[1]);
  }

  /** What ends in a newline splits on its own. */
  lemma {:induction false} SplitAtNewline(u: string, b: string)
    requires EndsInNewline(u)
    ensures SplitLines(u) != [] && SplitLines(u + b) == SplitLines(u) + SplitLines(b)
    decreases |u|
  {
    var rest := u[Width(u)..];
    WidthPrefix(u, b);
    SplitStep(u);
    SplitStep(u + b);
    if rest == [] {
      assert rest + b == b && SplitLines(rest) == [];
    } else {
      SplitAtNewline(rest, b);
    }
    AddFrontConcat(u[0], SplitLines(rest), SplitLines(b));
  }

  lemma {:induction false} SplitOneLine(s: string)
    requires OneLine(s)
    ensures SplitLines(s + ['\n']) == [s]
    ensures s != [] ==> SplitLines(s) == [s]
  {
    if s == [] {
      assert s + ['\n'] == ['\n'] && ['\n'][1..] == [];
    } else {
      SplitOneLine(s[1..]);
      assert (s + ['\n'])[1..] == s[1..] + ['\n'] && !IsBreak(s[0]) && (s + ['\n'])[0] == s[0];
      assert s == [s[0]] + s[1..];
      if |s| == 1 {
        assert s == [s[0]] && SplitLines(s[1..]) == [];
      }
    }
  }

  /** Lines that can be joined and split again: no breaks inside, and the last one not empty. */
  ghost predicate Joinable(lines: seq<string>) {
    && (forall i :: 0 <= i < |lines| ==> OneLine(lines[i]))
    && (lines != [] ==> lines[|lines| - 1] != [])
  }

  lemma {:induction false} SplitJoin(lines: seq<string>)
    requires Joinable(lines)
    ensures SplitLines(Join(lines)) == lines
  {
    if |lines| == 1 {
      SplitOneLine(lines[0]);
    } else if lines != [] {
      SplitJoin(lines[1..]);
      SplitAtNewline(lines[0] + ['\n'], Join(lines[1..]));
      SplitOneLine(lines[0]);
    }
  }

  /** A block of text that the list of its lines fixes: newlines are its only breaks and it ends in none. */
  predicate IsBlock(t: string) {
    t == Join(SplitLines(t))
  }

  lemma {:induction false} JoinNewline(lines: seq<string>)
    requires lines != [] && forall i :: 0 <= i < |lines| ==> OneLine(lines[i])
    ensures SplitLines(Join(lines) + ['\n']) == lines
  {
    SplitOneLine(lines[0]);
    if |lines| > 1 {
      var rest := Join(lines[1..]);
      JoinNewline(lines[1..]);
      assert Join(lines) + ['\n'] == lines[0] + ['\n'] + (rest + ['\n']);
      SplitAtNewline(lines[0] + ['\n'], rest + ['\n']);
    }
  }

  /** The lines of a block followed by a newline: an empty block is one empty line. */
  lemma SplitBlock(t: string)
    requires IsBlock(t)
    ensures SplitLines(t + ['\n']) == if t == [] then [[]] else SplitLines(t)
  {
    var lines := SplitLines(t);
    SplitOneLines(t);
    if t == [] {
      SplitOneLine([]);
    } else {
      JoinNewline(lines);
    }
  }

  /** `kept` in the parser: the lines without blank ones at the ends. */
  function TrimBlank(lines: seq<string>): seq<string>
    decreases |lines|
  {
    if lines == [] then []
    else if Blank(lines[|lines| - 1]) then TrimBlank(lines[..|lines| - 1])
    else if Blank(lines[0]) then TrimBlank(lines[1..])
    else lines
  }

  /** Neither end is blank; only blank lines went. */
  ghost predicate Trimmed(lines: seq<string>) {
    lines != [] ==> !Blank(lines[0]) && !Blank(lines[|lines| - 1])
  }

  lemma {:induction false} TrimBlankExact(lines: seq<string>, l: string)
    ensures Trimmed(TrimBlank(lines))
    ensures l in TrimBlank(lines) ==> l in lines
    ensures l in lines && !Blank(l) ==> l in TrimBlank(lines)
    decreases |lines|
  {
    if lines != [] {
      var last := |lines| - 1;
      if Blank(lines[last]) {
        TrimBlankExact(lines[..last], l);
        assert lines == lines[..last] + [lines[last]];
      } else if Blank(lines[0]) {
        TrimBlankExact(lines[1..], l);
        assert lines == [lines[0]] + lines[1..];
      }
    }
  }

  /** Dropping a blank first line first changes nothing. */
  lemma {:induction false} TrimFront(lines: seq<string>)
    requires lines != [] && Blank(lines[0])
    ensures TrimBlank(lines) == TrimBlank(lines[1..])
    decreases |lines|
  {
    var last := |lines| - 1;
    if last > 0 && Blank(lines[last]) {
      TrimFront(lines[..last]);
      assert lines[..last][1..] == lines[1..][..last - 1];
    }
  }
}
