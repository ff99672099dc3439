/**
 apt control files and clearsigned documents (mirror/control.go): the stanza
 reader undoes a printer, and stripping undoes clear signing.

 Text is a sequence of characters; reading it cannot fail half way here.
 */
module Control {

  import opened Wrappers

  // ---------- Trimming ----------

  /** unicode.IsSpace */
  predicate IsSpace(c: char) {
    var n := c as int;
    || 9 <= n <= 13 || n == 32 || n == 0x85 || n == 0xA0 || n == 0x1680 || 0x2000 <= n <= 0x200A
    || n == 0x2028 || n == 0x2029 || n == 0x202F || n == 0x205F || n == 0x3000
  }

  function TrimLeft(s: string): string {
    if s != "" && IsSpace(s[0]) then TrimLeft(s[1..]) else s
  }

  function TrimEnd(s: string): string {
    if s != "" && IsSpace(s[|s| - 1]) then TrimEnd(s[..|s| - 1]) else s
  }

  /** strings.TrimSpace */
  function TrimSpace(s: string): string { TrimEnd(TrimLeft(s)) }

  /** strings.TrimRight of CR and LF */
  function TrimBreak(s: string): (r: string)
    ensures r <= s
  {
    if s != "" && (s[|s| - 1] == '\r' || s[|s| - 1] == '\n') then TrimBreak(s[..|s| - 1]) else s
  }

  /** Neither end is a space. */
  predicate Trimmed(s: string) {
    s == "" || (!IsSpace(s[0]) && !IsSpace(s[|s| - 1]))
  }

  // ---------- Reading one stanza ----------

  type Stanza = map<string, string>

  /** The position of the first newline, or the length. */
  function LineEnd(s: string): (n: nat)
    ensures n <= |s| && (forall i | 0 <= i < n :: s[i] != '\n') && (n < |s| ==> s[n] == '\n')
  {
    if s == "" || s[0] == '\n' then 0 else LineEnd(s[1..]) + 1
  }

  /** ReadString up to a newline: the line with it, and what follows. */
  function CutLine(s: string): (r: (string, string))
    ensures r.0 + r.1 == s && (s != "" ==> r.0 != "")
  {
    var n := LineEnd(s);
    if n < |s| then (s[..n + 1], s[n + 1..]) else (s, "")
  }

  function Colon(s: string): (n: nat)
    ensures n <= |s| && (forall i | 0 <= i < n :: s[i] != ':') && (n < |s| ==> s[n] == ':')
  {
    if s == "" || s[0] == ':' then 0 else Colon(s[1..]) + 1
  }

  predicate Blank(line: string) {
    TrimSpace(line) == ""
  }

  /** The fields so far and the one a continuation line belongs to. */
  datatype Acc = Acc(fields: Stanza, last: string)

  const START := Acc(map[], "")

  /** What a line that is not blank does. */
  function Feed(acc: Acc, line: string): Acc {
    if line == "" then acc
    else if line[0] == ' ' || line[0] == '\t' then
      if acc.last != "" && acc.last in acc.fields
      then acc.(fields := acc.fields[acc.last := acc.fields[acc.last] + "\n" + TrimSpace(line)]) else acc
    else if Colon(line) == |line| then acc
    else
      var name := line[..Colon(line)];
      Acc(acc.fields[name := TrimSpace(line[Colon(line) + 1..])], name)
  }

  /** The next stanza and the text after it; no stanza means the end. */
  function Read(s: string, acc: Acc): (r: (Option<Stanza>, string))
    ensures r.0.Some? ==> r.0.value != map[]
    ensures r.0.Some? && acc.fields == map[] ==> |r.1| < |s|
    ensures r.0.None? ==> r.1 == ""
    ensures |r.1| <= |s|
    decreases |s|
  {
    if s == "" then (if acc.fields != map[] then Some(acc.fields) else None, "")
    else
      var (raw, rest) := CutLine(s);
      assert |s| == |raw| + |rest|;
      var line := TrimBreak(raw);
      if Blank(line) then
        if acc.fields != map[] then (Some(acc.fields), rest) else Read(rest, acc)
      else Read(rest, Feed(acc, line))
  }

  class ControlReader {
    var rest: string

    constructor (text: string)
      ensures rest == text
    {
      rest := text;
    }

    /** readStanza: the next stanza, or None at the end of the input. */
    method ReadStanza() returns (r: Option<Stanza>)
      modifies this
      ensures (r, rest) == Read(old(rest), START)
    {
      var st: Stanza := map[];
      var last := "";
      while true
        invariant Read(rest, Acc(st, last)) == Read(old(rest), START)
        decreases |rest|, if rest == "" then 0 else 1
      {
        var done := rest == "";
        var (raw, after) := CutLine(rest);
        var line := TrimBreak(raw);
        if done || Blank(line) {
          if st != map[] {
            rest := after;
            return Some(st);
          }
          if done {
            return None;
          }
        } else {
          st, last := TakeLine(st, last, line);
        }
        rest := after;
      }
    }
  }

  /** A line that is not blank continues the last field, starts one, or is
      skipped. */
  method TakeLine(st: Stanza, last: string, line: string) returns (st': Stanza, last': string)
    ensures Acc(st', last') == Feed(Acc(st, last), line)
  {
    st', last' := st, last;
    if line == "" {
      return;
    }
    if line[0] == ' ' || line[0] == '\t' {
      if last != "" && last in st {
        st' := st[last := st[last] + "\n" + TrimSpace(line)];
      }
      return;
    }
    var colon := Colon(line);
    if colon < |line| {
      last' := line[..colon];
      st' := st[last' := TrimSpace(line[colon + 1..])];
    }
  }

  /** Every stanza up to the end. */
  function ReadAll(s: string): seq<Stanza>
    decreases |s|
  {
    var (st, rest) := Read(s, START);
    if st.None? then [] else [st.value] + ReadAll(rest)
  }

  lemma {:induction false} ReadAllStep(s: string)
    ensures ReadAll(s) == if Read(s, START).0.None? then [] else [Read(s, START).0.value] + ReadAll(Read(s, START).1)
  {
  }

  /** Reading until the end returns them all. */
  method ReadStanzas(text: string) returns (stanzas: seq<Stanza>)
    ensures stanzas == ReadAll(text)
  {
    var reader := new ControlReader(text);
    stanzas := [];
    while true
      invariant fresh(reader)
      invariant stanzas + ReadAll(reader.rest) == ReadAll(text)
      decreases |reader.rest|
    {
      var st := reader.ReadStanza();
      if st.None? {
        return;
      }
      stanzas := stanzas + [st.value];
    }
  }

  // ---------- Printing ----------

  /** A field with the lines of its value, and what indents them. */
  datatype Field = Field(name: string, first: string, more: seq<string>, indent: char)

  predicate PlainLine(s: string) {
    Trimmed(s) && '\n' !in s
  }

  /** Section 5.1 of the Debian Policy Manual: a name without a colon, a value
      of trimmed lines, and indented continuation lines that are not blank. */
  predicate ValidField(f: Field) {
    && f.name != "" && f.name[0] != ' ' && f.name[0] != '\t' && ':' !in f.name && '\n' !in f.name
    && (f.indent == ' ' || f.indent == '\t')
    && PlainLine(f.first) && forall l | l in f.more :: PlainLine(l) && l != ""
  }

  predicate ValidStanza(fs: seq<Field>) {
    && fs != []
    && (forall f | f in fs :: ValidField(f))
  }

  function Continuations(more: seq<string>, indent: char): seq<string> {
    seq(|more|, i requires 0 <= i < |more| => [indent] + more[i])
  }

  function Lines(f: Field): seq<string> {
    [f.name + ": " + f.first] + Continuations(f.more, f.indent)
  }

  function StanzaLines(fs: seq<Field>): seq<string> {
    if fs == [] then [] else StanzaLines(fs[..|fs| - 1]) + Lines(fs[|fs| - 1])
  }

  function Unlines(lines: seq<string>): string {
    if lines == [] then "" else lines[0] + "\n" + Unlines(lines[1..])
  }

  /** The stanzas with an empty line between them. */
  function Print(stanzas: seq<seq<Field>>): string {
    if stanzas == [] then ""
    else if |stanzas| == 1 then Unlines(StanzaLines(stanzas[0]))
    else Unlines(StanzaLines(stanzas[0])) + "\n" + Print(stanzas[1..])
  }

  /** What a field and a stanza mean. */
  function ValueOf(f: Field): string {
    Continued(f.first, f.more)
  }

  function Continued(first: string, more: seq<string>): string {
    if more == [] then first else Continued(first, more[..|more| - 1]) + "\n" + more[|more| - 1]
  }

  function Meaning(fs: seq<Field>): Stanza {
    if fs == [] then map[] else Meaning(fs[..|fs| - 1])[fs[|fs| - 1].name := ValueOf(fs[|fs| - 1])]
  }

  // ---------- The reader undoes the printer ----------

  lemma {:induction false} TrimmedStays(s: string)
    requires Trimmed(s)
    ensures TrimSpace(s) == s && TrimSpace(" " + s) == s && TrimSpace("\t" + s) == s
  {
    assert (" " + s)[1..] == s && ("\t" + s)[1..] == s;
  }

  /** Lines the reader takes as they are. */
  predicate Solid(line: string) {
    line != "" && '\n' !in line && TrimBreak(line) == line && !Blank(line)
  }

  lemma {:induction false} CutFirst(line: string, tail: string)
    requires '\n' !in line
    ensures CutLine(line + "\n" + tail) == (line + "\n", tail)
    ensures line != "" ==> CutLine(line) == (line, "")
  {
    var s := line + "\n" + tail;
    assert s[|line|] == '\n' && forall i | 0 <= i < |line| :: s[i] == line[i];
    assert LineEnd(s) == |line|;
    assert s[..|line| + 1] == line + "\n" && s[|line| + 1..] == tail;
    assert LineEnd(line) == |line|;
  }

  lemma {:induction false} TrimBreakAfter(line: string)
    ensures TrimBreak(line + "\n") == TrimBreak(line)
  {
    assert (line + "\n")[..|line|] == line;
  }

  function FeedAll(acc: Acc, lines: seq<string>): Acc
    decreases |lines|
  {
    if lines == [] then acc else FeedAll(Feed(acc, lines[0]), lines[1..])
  }

  /** Solid lines are fed one after the other. */
  lemma {:induction false} ReadLines(lines: seq<string>, tail: string, acc: Acc)
    requires forall l | l in lines :: Solid(l)
    ensures Read(Unlines(lines) + tail, acc) == Read(tail, FeedAll(acc, lines))
    decreases |lines|
  {
    if lines == [] {
      assert Unlines(lines) + tail == tail;
    } else {
      var rest := Unlines(lines[1..]) + tail;
      assert Unlines(lines) + tail == lines[0] + "\n" + rest;
      assert lines[0] in lines;
      CutFirst(lines[0], rest);
      TrimBreakAfter(lines[0]);
      ReadLines(lines[1..], tail, Feed(acc, lines[0]));
    }
  }

  lemma {:induction false} FeedAppend(acc: Acc, a: seq<string>, b: seq<string>)
    ensures FeedAll(acc, a + b) == FeedAll(FeedAll(acc, a), b)
    decreases |a|
  {
    if a == [] {
      assert a + b == b;
    } else {
      assert (a + b)[0] == a[0] && (a + b)[1..] == a[1..] + b;
      FeedAppend(Feed(acc, a[0]), a[1..], b);
    }
  }

  lemma {:induction false} ColonAfter(name: string, tail: string)
    requires ':' !in name
    ensures Colon(name + ":" + tail) == |name|
  {
    var line := name + ":" + tail;
    assert line[|name|] == ':' && forall i | 0 <= i < |name| :: line[i] == name[i];
  }

  lemma {:induction false} FirstLine(f: Field, acc: Acc)
    requires ValidField(f)
    ensures Feed(acc, f.name + ": " + f.first) == Acc(acc.fields[f.name := f.first], f.name)
  {
    var line := f.name + ": " + f.first;
    assert line == f.name + ":" + (" " + f.first);
    ColonAfter(f.name, " " + f.first);
    assert line[0] == f.name[0];
    assert line[..|f.name|] == f.name && line[|f.name| + 1..] == " " + f.first;
    TrimmedStays(f.first);
  }

  lemma {:induction false} FirstLineSolid(f: Field)
    requires ValidField(f)
    ensures Solid(f.name + ": " + f.first)
  {
    var line := f.name + ": " + f.first;
    assert line[|f.name|] == ':';
    assert line[|line| - 1] == if f.first == "" then ' ' else f.first[|f.first| - 1];
    NotBlank(line, |f.name|);
  }

  /** A line with a character that is no space is not blank. */
  lemma {:induction false} NotBlank(line: string, i: nat)
    requires i < |line| && !IsSpace(line[i])
    ensures !Blank(line)
    decreases |line|
  {
    if IsSpace(line[0]) {
      NotBlank(line[1..], i - 1);
    } else {
      NotBlankEnd(line, i);
    }
  }

  lemma {:induction false} NotBlankEnd(line: string, i: nat)
    requires i < |line| && !IsSpace(line[i])
    ensures TrimEnd(line) != ""
    decreases |line|
  {
    if IsSpace(line[|line| - 1]) {
      NotBlankEnd(line[..|line| - 1], i);
    }
  }

  lemma {:induction false} MoreLine(l: string, indent: char, acc: Acc)
    requires PlainLine(l) && l != "" && acc.last != "" && acc.last in acc.fields && (indent == ' ' || indent == '\t')
    ensures Feed(acc, [indent] + l) == acc.(fields := acc.fields[acc.last := acc.fields[acc.last] + "\n" + l])
    ensures Solid([indent] + l)
  {
    TrimmedStays(l);
    NotBlank([indent] + l, 1);
    assert ([indent] + l)[|l|] == l[|l| - 1];
  }

  lemma {:induction false} FeedMore(acc: Acc, more: seq<string>, indent: char)
    requires (forall l | l in more :: PlainLine(l) && l != "") && acc.last != "" && acc.last in acc.fields
    requires indent == ' ' || indent == '\t'
    ensures FeedAll(acc, Continuations(more, indent)) == acc.(fields := acc.fields[acc.last := Continued(acc.fields[acc.last], more)])
    ensures forall l | l in Continuations(more, indent) :: Solid(l)
    decreases |more|
  {
    if more == [] {
      assert acc.fields[acc.last := acc.fields[acc.last]] == acc.fields;
    } else {
      var front, l := more[..|more| - 1], more[|more| - 1];
      FeedMore(acc, front, indent);
      assert l in more;
      assert Continuations(more, indent) == Continuations(front, indent) + [[indent] + l];
      FeedAppend(acc, Continuations(front, indent), [[indent] + l]);
      var mid := FeedAll(acc, Continuations(front, indent));
      MoreLine(l, indent, mid);
      assert FeedAll(mid, [[indent] + l]) == Feed(mid, [indent] + l) by {
        assert [[indent] + l][1..] == [];
      }
    }
  }

  lemma {:induction false} FeedField(acc: Acc, f: Field)
    requires ValidField(f)
    ensures FeedAll(acc, Lines(f)) == Acc(acc.fields[f.name := ValueOf(f)], f.name)
    ensures forall l | l in Lines(f) :: Solid(l)
  {
    FirstLine(f, acc);
    FirstLineSolid(f);
    var first := f.name + ": " + f.first;
    assert Lines(f)[0] == first && Lines(f)[1..] == Continuations(f.more, f.indent);
    FeedMore(Feed(acc, first), f.more, f.indent);
  }

  lemma {:induction false} FeedStanza(fs: seq<Field>)
    requires forall f | f in fs :: ValidField(f)
    ensures FeedAll(START, StanzaLines(fs)).fields == Meaning(fs)
    ensures forall l | l in StanzaLines(fs) :: Solid(l)
  {
    if fs != [] {
      var front, f := fs[..|fs| - 1], fs[|fs| - 1];
      FeedStanza(front);
      FeedAppend(START, StanzaLines(front), Lines(f));
      FeedField(FeedAll(START, StanzaLines(front)), f);
    }
  }

  lemma {:induction false} MeaningNotEmpty(fs: seq<Field>)
    requires fs != []
    ensures Meaning(fs) != map[]
  {
    assert fs[|fs| - 1].name in Meaning(fs);
  }

  /** A field has its own value, unless one of the same name follows it. */
  lemma {:induction false} MeaningExact(fs: seq<Field>, i: nat)
    requires i < |fs| && forall k | i < k < |fs| :: fs[k].name != fs[i].name
    ensures fs[i].name in Meaning(fs) && Meaning(fs)[fs[i].name] == ValueOf(fs[i])
  {
    if i < |fs| - 1 {
      MeaningExact(fs[..|fs| - 1], i);
    }
  }

  lemma {:induction false} BlankEnds(tail: string, acc: Acc)
    requires acc.fields != map[]
    ensures Read("\n" + tail, acc) == (Some(acc.fields), tail)
  {
    CutFirst("", tail);
    assert "" + "\n" + tail == "\n" + tail;
    assert ("\n")[..0] == "";
  }

  /** One stanza, with what follows it. */
  lemma {:induction false} ReadStanzaLines(fs: seq<Field>, tail: string)
    requires ValidStanza(fs)
    ensures FeedAll(START, StanzaLines(fs)).fields == Meaning(fs) != map[]
    ensures Read(Unlines(StanzaLines(fs)) + tail, START) == Read(tail, FeedAll(START, StanzaLines(fs)))
  {
    FeedStanza(fs);
    MeaningNotEmpty(fs);
    ReadLines(StanzaLines(fs), tail, START);
  }

  /** At the end of the text. */
  lemma {:induction false} ReadLast(fs: seq<Field>)
    requires ValidStanza(fs)
    ensures Read(Unlines(StanzaLines(fs)), START) == (Some(Meaning(fs)), "")
  {
    ReadStanzaLines(fs, "");
    assert Unlines(StanzaLines(fs)) + "" == Unlines(StanzaLines(fs));
  }

  /** Before an empty line. */
  lemma {:induction false} ReadBeforeBlank(fs: seq<Field>, tail: string)
    requires ValidStanza(fs)
    ensures Read(Unlines(StanzaLines(fs)) + "\n" + tail, START) == (Some(Meaning(fs)), tail)
  {
    ReadStanzaLines(fs, "\n" + tail);
    BlankEnds(tail, FeedAll(START, StanzaLines(fs)));
    Associates(Unlines(StanzaLines(fs)), "\n", tail);
  }

  lemma {:induction false} Associates(a: string, b: string, c: string)
    ensures a + (b + c) == a + b + c
  {
  }

  /** Lines of nothing but space before a stanza are skipped, however many. */
  lemma {:induction false} BlankSkipped(line: string, s: string)
    requires '\n' !in line && Blank(line)
    ensures Read(line + "\n" + s, START) == Read(s, START) && ReadAll(line + "\n" + s) == ReadAll(s)
  {
    CutFirst(line, s);
    TrimBreakAfter(line);
    StillBlank(line);
    ReadAllStep(line + "\n" + s);
    ReadAllStep(s);
  }

  lemma {:induction false} StillBlank(line: string)
    requires Blank(line)
    ensures Blank(TrimBreak(line))
  {
    forall i | 0 <= i < |line| ensures IsSpace(line[i]) {
      if !IsSpace(line[i]) { NotBlank(line, i); }
    }
    AllSpace(TrimBreak(line));
  }

  lemma {:induction false} AllSpace(s: string)
    requires forall i | 0 <= i < |s| :: IsSpace(s[i])
    ensures Blank(s)
  {
    if s != "" { AllSpace(s[1..]); }
  }

  /** Reading a printed list of stanzas returns exactly that list. */
  lemma {:induction false} ReadUndoesPrint(stanzas: seq<seq<Field>>)
    requires forall fs | fs in stanzas :: ValidStanza(fs)
    ensures ReadAll(Print(stanzas)) == Meanings(stanzas)
    decreases |stanzas|
  {
    if stanzas != [] {
      assert stanzas[0] in stanzas;
      ReadAllStep(Print(stanzas));
      if |stanzas| == 1 {
        ReadLast(stanzas[0]);
        assert ReadAll("") == [];
      } else {
        ReadBeforeBlank(stanzas[0], Print(stanzas[1..]));
        ReadUndoesPrint(stanzas[1..]);
      }
    }
  }

  function Meanings(stanzas: seq<seq<Field>>): seq<Stanza> {
    if stanzas == [] then [] else [Meaning(stanzas[0])] + Meanings(stanzas[1..])
  }

  // ---------- The final newline is optional ----------

  lemma {:induction false} LineEndAppend(s: string)
    ensures LineEnd(s + "\n") == LineEnd(s)
  {
    var n, t := LineEnd(s), s + "\n";
    assert t[n] == '\n' && forall i | 0 <= i < n :: t[i] == s[i];
  }

  lemma {:induction false} CutAppend(s: string)
    requires s != "" && s[|s| - 1] != '\n'
    ensures LineEnd(s) < |s| ==> CutLine(s + "\n") == (CutLine(s).0, CutLine(s).1 + "\n") && CutLine(s).1 != "" && CutLine(s).1[|CutLine(s).1| - 1] != '\n'
    ensures LineEnd(s) == |s| ==> CutLine(s + "\n") == (s + "\n", "") && CutLine(s) == (s, "")
  {
    if LineEnd(s) < |s| {
      CutAppendInside(s);
    } else {
      CutAppendWhole(s);
    }
  }

  lemma {:induction false} CutAppendInside(s: string)
    requires LineEnd(s) < |s| && s[|s| - 1] != '\n'
    ensures CutLine(s + "\n") == (CutLine(s).0, CutLine(s).1 + "\n") && CutLine(s).1 != "" && CutLine(s).1[|CutLine(s).1| - 1] != '\n'
  {
    LineEndAppend(s);
    var n, t := LineEnd(s), s + "\n";
    assert CutLine(s) == (s[..n + 1], s[n + 1..]) && CutLine(t) == (t[..n + 1], t[n + 1..]);
    TakeDropAppend(s, n + 1);
  }

  lemma {:induction false} CutAppendWhole(s: string)
    requires LineEnd(s) == |s|
    ensures CutLine(s + "\n") == (s + "\n", "") && CutLine(s) == (s, "")
  {
    LineEndAppend(s);
    assert (s + "\n")[..|s| + 1] == s + "\n";
  }

  lemma {:induction false} TakeDropAppend(s: string, n: nat)
    requires n <= |s|
    ensures (s + "\n")[..n] == s[..n] && (s + "\n")[n..] == s[n..] + "\n"
  {
  }

  /** The second result is the first with a newline after the text left over,
      if any is. */
  predicate Extends(a: (Option<Stanza>, string), b: (Option<Stanza>, string)) {
    && a.0 == b.0
    && (if a.1 == "" then b.1 == "" else b.1 == a.1 + "\n" && a.1[|a.1| - 1] != '\n')
  }

  /** A final newline changes at most the text left over. */
  lemma {:induction false} ReadAppend(s: string, acc: Acc)
    requires s != "" && s[|s| - 1] != '\n'
    ensures Extends(Read(s, acc), Read(s + "\n", acc))
    decreases |s|
  {
    CutAppend(s);
    if LineEnd(s) == |s| {
      TrimBreakAfter(s);
    } else {
      var (raw, rest) := CutLine(s);
      if !Blank(TrimBreak(raw)) {
        ReadAppend(rest, Feed(acc, TrimBreak(raw)));
      } else if acc.fields == map[] {
        ReadAppend(rest, acc);
      }
    }
  }

  lemma {:induction false} FinalNewlineOptional(s: string)
    requires s != "" && s[|s| - 1] != '\n'
    ensures ReadAll(s + "\n") == ReadAll(s)
    decreases |s|
  {
    ReadAppend(s, START);
    ReadAllStep(s);
    ReadAllStep(s + "\n");
    var (st, rest) := Read(s, START);
    if st.Some? && rest != "" {
      FinalNewlineOptional(rest);
    }
  }

  // ---------- Clearsigned documents ----------

  const BEGIN := "-----BEGIN PGP SIGNED MESSAGE-----"
  const SIGNATURE := "-----BEGIN PGP SIGNATURE-----"

  /** strings.ReplaceAll of CRLF by LF */
  function Normalize(s: string): string {
    if s == "" then ""
    else if |s| >= 2 && s[0] == '\r' && s[1] == '\n' then "\n" + Normalize(s[2..])
    else [s[0]] + Normalize(s[1..])
  }

  predicate OccursAt(s: string, pattern: string, i: nat) {
    i + |pattern| <= |s| && s[i..i + |pattern|] == pattern
  }

  /** strings.Index */
  function Index(s: string, pattern: string, from: nat := 0): (r: Option<nat>)
    requires from <= |s|
    ensures r.Some? ==> from <= r.value && OccursAt(s, pattern, r.value) && forall i | from <= i < r.value :: !OccursAt(s, pattern, i)
    ensures r.None? ==> forall i | from <= i <= |s| :: !OccursAt(s, pattern, i)
    decreases |s| - from
  {
    if OccursAt(s, pattern, from) then Some(from)
    else if from == |s| then None
    else Index(s, pattern, from + 1)
  }

  /** strings.Split at newlines */
  function Split(s: string): seq<string>
    decreases |s|
  {
    var n := LineEnd(s);
    if n < |s| then [s[..n]] + Split(s[n + 1..]) else [s]
  }

  function Undash(line: string): string {
    if "- " <= line then line[2..] else line
  }

  /** The body up to the signature, with the dash escaping reversed. */
  function StripBody(body: string): string {
    var end := Index(body, SIGNATURE);
    UndashAll(Split(if end.Some? then body[..end.value] else body))
  }

  /** What follows the marker: armor headers up to the first empty line, then
      the body. */
  function StripArmor(data: string, armored: string): string {
    var blank := Index(armored, "\n\n");
    if blank.None? then data else StripBody(armored[blank.value + 2..])
  }

  /** The signed payload, or the input when it is not clearsigned. */
  function Strip(data: string): string {
    var text := Normalize(data);
    var start := Index(text, BEGIN);
    if start.None? then data else StripArmor(data, text[start.value + |BEGIN|..])
  }

  function UndashAll(lines: seq<string>): string {
    if lines == [] then "" else UndashAll(lines[..|lines| - 1]) + Undash(lines[|lines| - 1]) + "\n"
  }

  /** stripClearsign */
  method StripClearsign(data: string) returns (r: string)
    ensures r == Strip(data)
  {
    var text := Normalize(data);
    var idx := Index(text, BEGIN);
    if idx.None? {
      return data;
    }
    text := text[idx.value + |BEGIN|..];
    var i := Index(text, "\n\n");
    if i.None? {
      return data;
    }
    text := text[i.value + 2..];
    var end := Index(text, SIGNATURE);
    if end.Some? {
      text := text[..end.value];
    }
    r := WriteLines(Split(text));
  }

  /** The builder loop. */
  method WriteLines(lines: seq<string>) returns (r: string)
    ensures r == UndashAll(lines)
  {
    r := "";
    for k := 0 to |lines|
      invariant r == UndashAll(lines[..k])
    {
      assert lines[..k + 1][..k] == lines[..k];
      r := r + Undash(lines[k]) + "\n";
    }
    assert lines[..|lines|] == lines;
  }

  // ---------- Stripping undoes signing ----------

  /** Dash escaping, section 7.1 of RFC 4880. */
  function Dash(line: string): string {
    if line != "" && line[0] == '-' then "- " + line else line
  }

  /** Lines of a payload: no line break and no signature marker in any. */
  predicate PayloadLine(line: string) {
    '\n' !in line && forall i | 0 <= i <= |line| :: !OccursAt(line, SIGNATURE, i)
  }

  function DashAll(lines: seq<string>): seq<string> {
    seq(|lines|, i requires 0 <= i < |lines| => Dash(lines[i]))
  }

  /** A clearsigned document: armor headers, an empty line, the escaped
      payload, and the signature. */
  function Signed(headers: string, lines: seq<string>, signature: string): string {
    BEGIN + (headers + "\n\n" + (Unlines(DashAll(lines)) + SIGNATURE + signature))
  }

  lemma {:induction false} DashNoMarker(line: string, i: nat)
    requires PayloadLine(line)
    ensures !OccursAt(Dash(line), SIGNATURE, i)
  {
    var s := Dash(line);
    if OccursAt(s, SIGNATURE, i) && s != line {
      assert s[i..i + |SIGNATURE|][0] == '-' && s[i..i + |SIGNATURE|][1] == '-';
      assert s[i] == '-' && s[i + 1] == '-';
      assert s[1] == ' ';
      assert i >= 2;
      assert line[i - 2..i - 2 + |SIGNATURE|] == s[i..i + |SIGNATURE|];
      assert OccursAt(line, SIGNATURE, i - 2);
    }
  }

  /** A line without the marker, and what follows it. */
  lemma {:induction false} MarkerBehind(line: string, rest: string, i: nat)
    requires forall k | 0 <= k <= |line| :: !OccursAt(line, SIGNATURE, k)
    requires i <= |line| + 1 + |rest|
    ensures OccursAt(line + "\n" + rest, SIGNATURE, i) ==> i > |line| && OccursAt(rest, SIGNATURE, i - |line| - 1)
  {
    var s := line + "\n" + rest;
    if OccursAt(s, SIGNATURE, i) {
      if i <= |line| {
        NoBreakIn(s, i, |line|);
        assert s[i..i + |SIGNATURE|] == line[i..i + |SIGNATURE|];
        assert OccursAt(line, SIGNATURE, i);
      } else {
        assert s[i..i + |SIGNATURE|] == rest[i - |line| - 1..i - |line| - 1 + |SIGNATURE|];
      }
    }
  }

  /** The marker comes first right after the payload. */
  lemma {:induction false} MarkerAfter(lines: seq<string>, tail: string, i: nat)
    requires forall l | l in lines :: PayloadLine(l)
    requires i < |Unlines(DashAll(lines))|
    ensures !OccursAt(Unlines(DashAll(lines)) + SIGNATURE + tail, SIGNATURE, i)
    decreases |lines|
  {
    if lines != [] {
      var first, more := Dash(lines[0]), Unlines(DashAll(lines[1..]));
      assert DashAll(lines)[1..] == DashAll(lines[1..]);
      Marked(first, more, tail);
      assert lines[0] in lines;
      forall k | 0 <= k <= |first| ensures !OccursAt(first, SIGNATURE, k) {
        DashNoMarker(lines[0], k);
      }
      MarkerBehind(first, more + SIGNATURE + tail, i);
      if i > |first| { MarkerAfter(lines[1..], tail, i - |first| - 1); }
    }
  }

  lemma {:induction false} Marked(first: string, more: string, tail: string)
    ensures first + "\n" + more + SIGNATURE + tail == first + "\n" + (more + SIGNATURE + tail)
  {
  }

  /** The marker holds no newline, so it cannot reach over one. */
  lemma {:induction false} NoBreakIn(s: string, i: nat, k: nat)
    requires OccursAt(s, SIGNATURE, i) && i <= k < |s| && s[k] == '\n'
    ensures i + |SIGNATURE| <= k
  {
    assert forall j | 0 <= j < |SIGNATURE| :: SIGNATURE[j] != '\n';
    assert forall j | i <= j < i + |SIGNATURE| :: s[j] == s[i..i + |SIGNATURE|][j - i];
  }

  lemma {:induction false} OccursIn(s: string, tail: string, pattern: string, i: nat)
    requires i + |pattern| <= |s|
    ensures OccursAt(s + tail, pattern, i) == OccursAt(s, pattern, i)
  {
    assert (s + tail)[i..i + |pattern|] == s[i..i + |pattern|];
  }

  lemma {:induction false} OccursBetween(s: string, pattern: string, tail: string)
    ensures OccursAt(s + pattern + tail, pattern, |s|)
  {
    assert (s + pattern + tail)[|s|..|s| + |pattern|] == pattern;
  }

  lemma {:induction false} SplitFirst(line: string, tail: string)
    requires '\n' !in line
    ensures Split(line + "\n" + tail) == [line] + Split(tail)
  {
    var s := line + "\n" + tail;
    assert s[|line|] == '\n' && forall i | 0 <= i < |line| :: s[i] == line[i];
    assert s[..|line|] == line && s[|line| + 1..] == tail;
  }

  lemma {:induction false} SplitUnlines(lines: seq<string>)
    requires forall l | l in lines :: '\n' !in l
    ensures Split(Unlines(lines)) == lines + [""]
    decreases |lines|
  {
    if lines != [] {
      assert lines[0] in lines;
      SplitFirst(lines[0], Unlines(lines[1..]));
      SplitUnlines(lines[1..]);
      assert [lines[0]] + (lines[1..] + [""]) == lines + [""];
    }
  }

  lemma {:induction false} UndashLines(lines: seq<string>)
    ensures UndashAll(DashAll(lines)) == Unlines(lines)
  {
    if lines != [] {
      var front, last := lines[..|lines| - 1], lines[|lines| - 1];
      UndashLines(front);
      assert DashAll(lines)[..|lines| - 1] == DashAll(front);
      UnlinesLast(front, last);
      assert front + [last] == lines;
    }
  }

  lemma {:induction false} UnlinesLast(lines: seq<string>, last: string)
    ensures Unlines(lines + [last]) == Unlines(lines) + last + "\n"
    decreases |lines|
  {
    if lines == [] {
      assert Unlines([last]) == last + "\n" + Unlines([]);
    } else {
      assert (lines + [last])[0] == lines[0] && (lines + [last])[1..] == lines[1..] + [last];
      UnlinesLast(lines[1..], last);
    }
  }

  /** Whatever the line endings of the document, stripping returns the payload's
      lines, and one empty line more. The armor headers end at the first empty
      line, and the document starts with its marker. */
  lemma {:induction false} StripUndoesSigning(data: string, headers: string, lines: seq<string>, signature: string)
    requires Normalize(data) == Signed(headers, lines, signature)
    requires forall l | l in lines :: PayloadLine(l)
    requires forall i | 0 <= i < |headers| :: !OccursAt(headers + "\n\n", "\n\n", i)
    ensures Strip(data) == Unlines(lines) + "\n"
  {
    var body := Unlines(DashAll(lines)) + SIGNATURE + signature;
    HeadersEnd(data, headers, body);
    BodyStripped(lines, signature);
  }

  lemma {:induction false} HeadersEnd(data: string, headers: string, body: string)
    requires forall i | 0 <= i < |headers| :: !OccursAt(headers + "\n\n", "\n\n", i)
    ensures StripArmor(data, headers + "\n\n" + body) == StripBody(body)
  {
    var s := headers + "\n\n" + body;
    forall i | 0 <= i < |headers| ensures !OccursAt(s, "\n\n", i) {
      OccursIn(headers + "\n\n", body, "\n\n", i);
    }
    OccursBetween(headers, "\n\n", body);
    assert s[|headers| + 2..] == body;
  }

  lemma {:induction false} BodyStripped(lines: seq<string>, signature: string)
    requires forall l | l in lines :: PayloadLine(l)
    ensures StripBody(Unlines(DashAll(lines)) + SIGNATURE + signature) == Unlines(lines) + "\n"
  {
    var payload := Unlines(DashAll(lines));
    var body := payload + SIGNATURE + signature;
    forall i | 0 <= i < |payload| ensures !OccursAt(body, SIGNATURE, i) {
      MarkerAfter(lines, signature, i);
    }
    OccursBetween(payload, SIGNATURE, signature);
    assert body[..|payload|] == payload;
    SplitPayload(lines);
  }

  lemma {:induction false} SplitPayload(lines: seq<string>)
    requires forall l | l in lines :: PayloadLine(l)
    ensures UndashAll(Split(Unlines(DashAll(lines)))) == Unlines(lines) + "\n"
  {
    DashKeepsLines(lines);
    SplitUnlines(DashAll(lines));
    UndashLines(lines);
  }

  lemma {:induction false} DashKeepsLines(lines: seq<string>)
    requires forall l | l in lines :: '\n' !in l
    ensures forall l | l in DashAll(lines) :: '\n' !in l
  {
    forall i | 0 <= i < |lines| ensures '\n' !in DashAll(lines)[i] {
      assert lines[i] in lines;
    }
  }

  /** A document without CRLF is its own normal form, and one with CRLF line
      endings has the same one. */
  lemma {:induction false} NormalizeLines(lines: seq<string>)
    requires forall l | l in lines :: '\r' !in l && '\n' !in l
    ensures Normalize(Unlines(lines)) == Unlines(lines) == Normalize(CrLines(lines))
    decreases |lines|
  {
    if lines != [] {
      assert lines[0] in lines;
      NormalizeLines(lines[1..]);
      NormalizeLine(lines[0], "\n" + Unlines(lines[1..]));
      NormalizeLine(lines[0], "\r\n" + CrLines(lines[1..]));
      assert lines[0] + ("\n" + Unlines(lines[1..])) == Unlines(lines);
      assert lines[0] + ("\r\n" + CrLines(lines[1..])) == CrLines(lines);
      assert ("\n" + Unlines(lines[1..]))[1..] == Unlines(lines[1..]);
      assert ("\r\n" + CrLines(lines[1..]))[2..] == CrLines(lines[1..]);
    }
  }

  function CrLines(lines: seq<string>): string {
    if lines == [] then "" else lines[0] + "\r\n" + CrLines(lines[1..])
  }

  lemma {:induction false} NormalizeLine(line: string, tail: string)
    requires '\r' !in line
    ensures Normalize(line + tail) == line + Normalize(tail)
    decreases |line|
  {
    if line == "" {
      assert line + tail == tail;
    } else {
      assert (line + tail)[0] == line[0] && (line + tail)[1..] == line[1..] + tail;
      NormalizeLine(line[1..], tail);
    }
  }

  /** A printed list of stanzas with one empty line more. */
  lemma {:induction false} ReadUndoesPrintBlank(stanzas: seq<seq<Field>>)
    requires forall fs | fs in stanzas :: ValidStanza(fs)
    ensures ReadAll(Print(stanzas) + "\n") == Meanings(stanzas)
    decreases |stanzas|
  {
    if stanzas == [] {
      CutFirst("", "");
      ReadAllStep("\n");
      assert Print(stanzas) + "\n" == "\n" == "" + "\n" + "";
    } else {
      assert stanzas[0] in stanzas;
      var first := Unlines(StanzaLines(stanzas[0]));
      var tail := if |stanzas| == 1 then "" else Print(stanzas[1..]) + "\n";
      assert Print(stanzas) + "\n" == first + "\n" + tail;
      ReadAllStep(first + "\n" + tail);
      ReadBeforeBlank(stanzas[0], tail);
      if |stanzas| == 1 {
        assert ReadAll("") == [];
      } else {
        ReadUndoesPrintBlank(stanzas[1..]);
      }
    }
  }

  /** A release document is read the same whether it is served plain or
      clearsigned: stripping leaves the plain one as it is and gives back the
      signed one's payload, and the reader does not see the empty line added. */
  lemma {:induction false} ReleaseReadsEitherWay(stanzas: seq<seq<Field>>, data: string, headers: string, lines: seq<string>, signature: string)
    requires (forall fs | fs in stanzas :: ValidStanza(fs)) && Print(stanzas) == Unlines(lines)
    requires forall i | 0 <= i <= |Normalize(Print(stanzas))| :: !OccursAt(Normalize(Print(stanzas)), BEGIN, i)
    requires Normalize(data) == Signed(headers, lines, signature)
    requires forall l | l in lines :: PayloadLine(l)
    requires forall i | 0 <= i < |headers| :: !OccursAt(headers + "\n\n", "\n\n", i)
    ensures ReadAll(Strip(Print(stanzas))) == Meanings(stanzas)
    ensures ReadAll(Strip(data)) == Meanings(stanzas)
  {
    ReadUndoesPrint(stanzas);
    StripUndoesSigning(data, headers, lines, signature);
    ReadUndoesPrintBlank(stanzas);
  }
}
