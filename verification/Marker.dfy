/** The convergence marker file: its writer and its backward-compatible
    reader. */
module Marker {
  import opened Strings

  /** sections is missing only for a legacy single-line file or no file. */
  datatype Sections = NoSections | Sections(hashes: map<string, string>)

  datatype AppliedMarker = AppliedMarker(
    composite: string, session: string, sections: Sections, cell: bool, tenants: seq<string>)

  const EMPTY := AppliedMarker("", "", NoSections, false, [])

  const REHYDRATION := "rehydration"

  const SECTION_NAMES := ["config", "plugins", "rbac", "items", REHYDRATION]

  function Hashes(m: AppliedMarker): map<string, string> {
    if m.sections.Sections? then m.sections.hashes else map[]
  }

  // --- The writer ---

  function Field(key: string, val: string): string {
    key + " " + val
  }

  function SectionLines(names: seq<string>, hashes: map<string, string>): seq<string> {
    if names == [] then []
    else (if names[0] in hashes then [Field(names[0], hashes[names[0]])] else []) + SectionLines(names[1..], hashes)
  }

  function SessionLines(m: AppliedMarker): seq<string> {
    if m.session != "" then [Field("session", m.session)] else []
  }

  function CellLines(m: AppliedMarker): seq<string> {
    if m.cell then
      [Field("cell", "true")] + if |m.tenants| > 0 then [Field("tenants", Join(m.tenants, ','))] else []
    else []
  }

  function Lines(m: AppliedMarker): seq<string> {
    [Field("composite", m.composite)] + SessionLines(m) + SectionLines(SECTION_NAMES, Hashes(m)) + CellLines(m)
  }

  function Text(lines: seq<string>): string {
    if lines == [] then "" else lines[0] + "\n" + Text(lines[1..])
  }

  /** Builds the file text as the source does, line by line. A marker without
      a composite is not written. */
  method WriteMarker(m: AppliedMarker) returns (written: bool, text: string)
    ensures written <==> m.composite != ""
    ensures written ==> text == Text(Lines(m))
  {
    if m.composite == "" { return false, ""; }
    written := true;
    ghost var lines := [Field("composite", m.composite)];
    text := Field("composite", m.composite) + "\n";
    assert Text(lines) == text by { assert lines[1..] == []; }
    if m.session != "" {
      TextSnoc(lines, Field("session", m.session));
      text := text + Field("session", m.session) + "\n";
      lines := lines + [Field("session", m.session)];
    }
    text := WriteSections(text, lines, Hashes(m));
    lines := lines + SectionLines(SECTION_NAMES, Hashes(m));
    if m.cell {
      TextSnoc(lines, Field("cell", "true"));
      text := text + Field("cell", "true") + "\n";
      lines := lines + [Field("cell", "true")];
      if |m.tenants| > 0 {
        TextSnoc(lines, Field("tenants", Join(m.tenants, ',')));
        text := text + Field("tenants", Join(m.tenants, ',')) + "\n";
        lines := lines + [Field("tenants", Join(m.tenants, ','))];
      }
    }
    assert lines == Lines(m);
  }

  method WriteSections(start: string, ghost head: seq<string>, hashes: map<string, string>) returns (text: string)
    requires start == Text(head)
    ensures text == Text(head + SectionLines(SECTION_NAMES, hashes))
  {
    text := start;
    ghost var lines := head;
    for i := 0 to |SECTION_NAMES|
      invariant lines == head + SectionLines(SECTION_NAMES[..i], hashes)
      invariant text == Text(lines)
    {
      var name := SECTION_NAMES[i];
      SectionLinesSnoc(SECTION_NAMES[..i], name, hashes);
      assert SECTION_NAMES[..i + 1] == SECTION_NAMES[..i] + [name];
      if name in hashes {
        TextSnoc(lines, Field(name, hashes[name]));
        text := text + Field(name, hashes[name]) + "\n";
        lines := lines + [Field(name, hashes[name])];
      }
    }
    assert SECTION_NAMES[..|SECTION_NAMES|] == SECTION_NAMES;
  }

  lemma {:induction false} TextSnoc(lines: seq<string>, line: string)
    ensures Text(lines + [line]) == Text(lines) + line + "\n"
  {
    if lines == [] {
      assert [line][1..] == [];
    } else {
      assert (lines + [line])[1..] == lines[1..] + [line];
      TextSnoc(lines[1..], line);
    }
  }

  lemma {:induction false} SectionLinesSnoc(names: seq<string>, name: string, hashes: map<string, string>)
    ensures SectionLines(names + [name], hashes)
         == SectionLines(names, hashes) + if name in hashes then [Field(name, hashes[name])] else []
  {
    if names == [] {
      assert [name][1..] == [];
    } else {
      assert (names + [name])[1..] == names[1..] + [name];
      SectionLinesSnoc(names[1..], name, hashes);
    }
  }

  // --- The reader ---

  function PutField(m: AppliedMarker, key: string, val: string): AppliedMarker {
    if key == "composite" then m.(composite := val)
    else if key == "session" then m.(session := val)
    else if key == "cell" then m.(cell := val == "true")
    else if key == "tenants" then m.(tenants := Split(val, ','))
    else m.(sections := Sections(Hashes(m)[key := val]))
  }

  /** A line without a space says nothing. */
  function ReadLine(m: AppliedMarker, line: string): AppliedMarker {
    var i := IndexOf(line, ' ');
    if i == |line| then m else PutField(m, line[..i], line[i + 1..])
  }

  function ReadLines(m: AppliedMarker, lines: seq<string>): AppliedMarker
    decreases |lines|
  {
    if lines == [] then m else ReadLines(ReadLine(m, lines[0]), lines[1..])
  }

  /** strings.Fields of a trimmed line: its first two words. */
  function LegacyMarker(line: string): AppliedMarker {
    var i := WordEnd(line);
    var rest := TrimLeft(line[i..]);
    AppliedMarker(line[..i], rest[..WordEnd(rest)], NoSections, false, [])
  }

  function WordEnd(s: string): (i: nat)
    ensures i <= |s|
  {
    if s == "" || IsSpace(s[0]) then 0 else 1 + WordEnd(s[1..])
  }

  function ReadText(data: string): AppliedMarker {
    var lines := Split(TrimSpace(data), '\n');
    if |lines| == 1 && ' ' !in lines[0] then AppliedMarker(lines[0], "", NoSections, false, [])
    else if |lines| == 1 then LegacyMarker(lines[0])
    else ReadLines(EMPTY.(sections := Sections(map[])), lines)
  }

  /** The reader's loop over the lines of a multi-line file. */
  method ReadMarker(data: string) returns (m: AppliedMarker)
    ensures m == ReadText(data)
  {
    var lines := Split(TrimSpace(data), '\n');
    if |lines| == 1 {
      if ' ' !in lines[0] { return AppliedMarker(lines[0], "", NoSections, false, []); }
      return LegacyMarker(lines[0]);
    }
    m := EMPTY.(sections := Sections(map[]));
    for i := 0 to |lines|
      invariant ReadLines(EMPTY.(sections := Sections(map[])), lines) == ReadLines(m, lines[i..])
    {
      var at := IndexOf(lines[i], ' ');
      if at < |lines[i]| {
        m := PutField(m, lines[i][..at], lines[i][at + 1..]);
      }
    }
  }

  // --- Round trip ---

  predicate Word(s: string) {
    s != "" && forall i | 0 <= i < |s| :: !IsSpace(s[i])
  }

  /** The markers a push writes: whitespace-free values, comma-free tenant names,
      tenants only for a cell, and only the known sections. The content hash of
      a rehydration bundle may be empty. */
  predicate Tidy(m: AppliedMarker) {
    && Word(m.composite) && (m.session == "" || Word(m.session))
    && m.sections.Sections?
    && (forall name | name in m.sections.hashes ::
          && name in SECTION_NAMES
          && (Word(m.sections.hashes[name]) || (name == REHYDRATION && m.sections.hashes[name] == "")))
    && (forall i | 0 <= i < |m.tenants| :: Word(m.tenants[i]) && ',' !in m.tenants[i])
    && (!m.cell ==> m.tenants == [])
  }

  /** A tidy marker without an empty value. */
  predicate Clean(m: AppliedMarker) {
    Tidy(m) && forall name | name in m.sections.hashes :: Word(m.sections.hashes[name])
  }

  lemma ReadLineField(m: AppliedMarker, key: string, val: string)
    requires ' ' !in key
    ensures ReadLine(m, Field(key, val)) == PutField(m, key, val)
  {
    var line := key + " " + val;
    var i := IndexOf(line, ' ');
    assert line[|key|] == ' ' && line[..|line|] == line;
    assert line == line[..i] + " " + line[i + 1..];
    CutUnique(line[..i], line[i + 1..], key, val, ' ');
  }

  lemma {:induction false} ReadLinesConcat(m: AppliedMarker, a: seq<string>, b: seq<string>)
    ensures ReadLines(m, a + b) == ReadLines(ReadLines(m, a), b)
    decreases |a|
  {
    if a == [] {
      assert a + b == b;
    } else {
      assert (a + b)[1..] == a[1..] + b;
      ReadLinesConcat(ReadLine(m, a[0]), a[1..], b);
    }
  }

  /** A line that survives splitting and trimming. */
  predicate Solid(line: string) {
    line != "" && '\n' !in line && !IsSpace(line[|line| - 1])
  }

  ghost predicate AllSolid(lines: seq<string>) {
    forall i | 0 <= i < |lines| :: Solid(lines[i])
  }

  lemma FieldSolid(key: string, val: string)
    requires '\n' !in key && Word(val)
    ensures Solid(Field(key, val))
  {
    assert forall i | 0 <= i < |val| :: val[i] != '\n';
  }

  lemma {:induction false} SectionLinesSolid(names: seq<string>, hashes: map<string, string>)
    requires forall i | 0 <= i < |names| :: '\n' !in names[i]
    requires forall name | name in hashes :: Word(hashes[name])
    ensures AllSolid(SectionLines(names, hashes))
  {
    if names != [] {
      SectionLinesSolid(names[1..], hashes);
      if names[0] in hashes { FieldSolid(names[0], hashes[names[0]]); }
    }
  }

  lemma {:induction false} JoinedWords(parts: seq<string>)
    requires parts != [] && forall i | 0 <= i < |parts| :: Word(parts[i])
    ensures Word(Join(parts, ','))
  {
    if |parts| > 1 { JoinedWords(parts[1..]); }
  }

  lemma LinesSolid(m: AppliedMarker)
    requires Clean(m)
    ensures AllSolid(Lines(m))
  {
    FieldSolid("composite", m.composite);
    if m.session != "" { FieldSolid("session", m.session); }
    SectionLinesSolid(SECTION_NAMES, Hashes(m));
    if m.cell && |m.tenants| > 0 {
      JoinedWords(m.tenants);
      FieldSolid("tenants", Join(m.tenants, ','));
    }
  }

  lemma {:induction false} TextIsJoin(lines: seq<string>)
    requires lines != []
    ensures Text(lines) == Join(lines, '\n') + "\n"
  {
    if |lines| > 1 {
      TextIsJoin(lines[1..]);
    } else {
      assert lines[1..] == [];
    }
  }

  /** Lines whose two ends trimming leaves alone. */
  ghost predicate FirmEnds(lines: seq<string>) {
    && lines != [] && Free(lines, '\n')
    && lines[0] != "" && !IsSpace(lines[0][0]) && Solid(lines[|lines| - 1])
  }

  lemma {:induction false} JoinEnd(lines: seq<string>)
    requires lines != [] && Solid(lines[|lines| - 1])
    ensures var t := Join(lines, '\n'); t != "" && !IsSpace(t[|t| - 1])
  {
    if |lines| > 1 { JoinEnd(lines[1..]); }
  }

  /** Trimming and splitting the written text gives back its lines, blanks before
      the last line break or not. */
  lemma LinesComeBack(lines: seq<string>, blanks: string)
    requires FirmEnds(lines) && (blanks == "\n" || blanks == " \n")
    ensures Split(TrimSpace(Join(lines, '\n') + blanks), '\n') == lines
  {
    var t := Join(lines, '\n');
    JoinEnd(lines);
    assert t[0] == lines[0][0];
    TrimEnds(t, blanks);
    SplitJoin(lines, '\n');
  }

  lemma TrimEnds(t: string, blanks: string)
    requires t != "" && !IsSpace(t[0]) && !IsSpace(t[|t| - 1]) && (blanks == "\n" || blanks == " \n")
    ensures TrimSpace(t + blanks) == t
  {
    var s := t + blanks;
    assert TrimLeft(s) == s;
    assert s[..|s| - 1] == if blanks == "\n" then t else t + " ";
    assert (t + " ")[..|t + " "| - 1] == t;
    assert TrimRight(t) == t;
    assert TrimRight(t + " ") == t;
  }

  lemma CleanComesBack(m: AppliedMarker)
    requires Clean(m)
    ensures Split(TrimSpace(Text(Lines(m))), '\n') == Lines(m)
  {
    LinesSolid(m);
    TextIsJoin(Lines(m));
    LinesComeBack(Lines(m), "\n");
  }

  /** A key the reader files under the sections. */
  predicate IsSectionKey(key: string) {
    ' ' !in key && key != "composite" && key != "session" && key != "cell" && key != "tenants"
  }

  lemma SectionField(m: AppliedMarker, name: string, val: string)
    requires IsSectionKey(name)
    ensures ReadLine(m, Field(name, val)) == m.(sections := Sections(Hashes(m)[name := val]))
  {
    ReadLineField(m, name, val);
  }

  ghost function Selected(names: seq<string>, hashes: map<string, string>): map<string, string> {
    map name | name in names && name in hashes :: hashes[name]
  }

  function WithHash(acc: map<string, string>, name: string, hashes: map<string, string>): map<string, string> {
    if name in hashes then acc[name := hashes[name]] else acc
  }

  lemma SelectedCons(acc: map<string, string>, names: seq<string>, hashes: map<string, string>)
    requires names != []
    ensures WithHash(acc, names[0], hashes) + Selected(names[1..], hashes) == acc + Selected(names, hashes)
  {
    assert names == [names[0]] + names[1..];
  }

  lemma ReadSection(m: AppliedMarker, names: seq<string>, hashes: map<string, string>)
    requires m.sections.Sections? && names != [] && IsSectionKey(names[0])
    ensures ReadLines(m, SectionLines(names, hashes))
         == ReadLines(m.(sections := Sections(WithHash(m.sections.hashes, names[0], hashes))),
                      SectionLines(names[1..], hashes))
  {
    var rest := SectionLines(names[1..], hashes);
    if names[0] in hashes {
      SectionField(m, names[0], hashes[names[0]]);
      assert SectionLines(names, hashes)[1..] == rest;
    } else {
      assert SectionLines(names, hashes) == rest;
    }
  }

  lemma {:induction false} ReadSections(m: AppliedMarker, names: seq<string>, hashes: map<string, string>)
    requires m.sections.Sections?
    requires forall i | 0 <= i < |names| :: IsSectionKey(names[i])
    ensures ReadLines(m, SectionLines(names, hashes))
         == m.(sections := Sections(m.sections.hashes + Selected(names, hashes)))
    decreases |names|
  {
    if names == [] {
      assert m.sections.hashes + map[] == m.sections.hashes;
    } else {
      ReadSection(m, names, hashes);
      ReadSections(m.(sections := Sections(WithHash(m.sections.hashes, names[0], hashes))), names[1..], hashes);
      SelectedCons(m.sections.hashes, names, hashes);
    }
  }

  lemma SectionNamesAreKeys()
    ensures forall i | 0 <= i < |SECTION_NAMES| :: IsSectionKey(SECTION_NAMES[i])
  {
  }

  lemma ReadCell(m: AppliedMarker, w: AppliedMarker)
    requires Tidy(w) && !m.cell && m.tenants == []
    ensures ReadLines(m, CellLines(w)) == m.(cell := w.cell, tenants := w.tenants)
  {
    if w.cell {
      ReadLineField(m, "cell", "true");
      var m1 := m.(cell := true);
      if |w.tenants| > 0 {
        var line := Field("tenants", Join(w.tenants, ','));
        ReadLineField(m1, "tenants", Join(w.tenants, ','));
        SplitJoin(w.tenants, ',');
        assert CellLines(w)[1..] == [line];
        assert ReadLines(m1, [line]) == ReadLine(m1, line);
      } else {
        assert CellLines(w)[1..] == [];
      }
    }
  }

  lemma ReadHead(m: AppliedMarker)
    ensures var m0 := EMPTY.(sections := Sections(map[]));
            ReadLines(m0, [Field("composite", m.composite)] + SessionLines(m))
            == m0.(composite := m.composite, session := m.session)
  {
    var m0 := EMPTY.(sections := Sections(map[]));
    var m1 := m0.(composite := m.composite);
    var head := [Field("composite", m.composite)];
    ReadLineField(m0, "composite", m.composite);
    assert ReadLines(m0, head) == ReadLine(m0, head[0]);
    ReadLinesConcat(m0, head, SessionLines(m));
    if m.session != "" {
      ReadLineField(m1, "session", m.session);
      assert ReadLines(m1, SessionLines(m)) == ReadLine(m1, SessionLines(m)[0]);
    }
  }

  lemma AllSelected(m: AppliedMarker)
    requires Tidy(m)
    ensures map[] + Selected(SECTION_NAMES, Hashes(m)) == Hashes(m)
  {
  }

  lemma ReadFields(m: AppliedMarker)
    requires Tidy(m)
    ensures ReadLines(EMPTY.(sections := Sections(map[])), Lines(m)) == m
  {
    var m0 := EMPTY.(sections := Sections(map[]));
    var m2 := m0.(composite := m.composite, session := m.session);
    var head, mid := [Field("composite", m.composite)] + SessionLines(m), SectionLines(SECTION_NAMES, Hashes(m));
    ReadHead(m);
    SectionNamesAreKeys();
    ReadSections(m2, SECTION_NAMES, Hashes(m));
    AllSelected(m);
    ReadCell(m2.(sections := m.sections), m);
    ReadLinesConcat(m0, head, mid);
    ReadLinesConcat(m0, head + mid, CellLines(m));
  }

  /** For every clean marker: reading what was written gives the marker back
      exactly when it has a line besides the composite one. */
  lemma RoundTripExactly(m: AppliedMarker)
    requires Clean(m)
    ensures ReadText(Text(Lines(m))) == m
            <==> m.session != "" || m.sections.hashes != map[] || m.cell
  {
    CleanComesBack(m);
    MoreLines(m);
    if |Lines(m)| > 1 {
      ReadFields(m);
    } else {
      assert ReadText(Text(Lines(m))).sections.NoSections?;
    }
  }

  lemma {:induction false} SomeSection(names: seq<string>, hashes: map<string, string>)
    ensures SectionLines(names, hashes) == [] <==> forall i | 0 <= i < |names| :: names[i] !in hashes
  {
    if names != [] { SomeSection(names[1..], hashes); }
  }

  lemma MoreLines(m: AppliedMarker)
    requires Clean(m)
    ensures |Lines(m)| > 1 <==> m.session != "" || m.sections.hashes != map[] || m.cell
  {
    SomeSection(SECTION_NAMES, Hashes(m));
    if m.sections.hashes != map[] {
      var name :| name in m.sections.hashes;
      assert name in SECTION_NAMES;
    }
  }

  /** The excluded case: the legacy reader takes the key for the composite and
      the hash for the session. */
  lemma OneLineMisread(m: AppliedMarker)
    requires Clean(m) && m.session == "" && m.sections.hashes == map[] && !m.cell
    ensures ReadText(Text(Lines(m))) == AppliedMarker("composite", m.composite, NoSections, false, [])
  {
    CleanComesBack(m);
    MoreLines(m);
    var line := Field("composite", m.composite);
    assert line[9] == ' ';
    WordEndOf("composite", " " + m.composite);
    assert "composite" + (" " + m.composite) == line;
    assert line[9..] == " " + m.composite && line[9..][1..] == m.composite;
    assert TrimLeft(line[9..]) == TrimLeft(m.composite) == m.composite;
    WordEndOf(m.composite, "");
    assert m.composite + "" == m.composite;
  }

  // --- An empty content hash ---

  function WithoutRehydration(m: AppliedMarker): AppliedMarker
    requires m.sections.Sections?
  {
    m.(sections := Sections(m.sections.hashes - {REHYDRATION}))
  }

  predicate EmptyBundle(m: AppliedMarker) {
    Tidy(m) && REHYDRATION in m.sections.hashes && m.sections.hashes[REHYDRATION] == ""
  }

  lemma {:induction false} SameSectionLines(names: seq<string>, g: map<string, string>, h: map<string, string>)
    requires forall i | 0 <= i < |names| ::
               (names[i] in g <==> names[i] in h) && (names[i] in g ==> g[names[i]] == h[names[i]])
    ensures SectionLines(names, g) == SectionLines(names, h)
  {
    if names != [] { SameSectionLines(names[1..], g, h); }
  }

  /** The rehydration line is the last section line. */
  lemma EmptyLineIsLast(m: AppliedMarker)
    requires EmptyBundle(m)
    ensures SectionLines(SECTION_NAMES, Hashes(m))
         == SectionLines(SECTION_NAMES, Hashes(WithoutRehydration(m))) + [Field(REHYDRATION, "")]
  {
    var front := ["config", "plugins", "rbac", "items"];
    var h := Hashes(WithoutRehydration(m));
    assert SECTION_NAMES == front + [REHYDRATION];
    SectionLinesSnoc(front, REHYDRATION, Hashes(m));
    SectionLinesSnoc(front, REHYDRATION, h);
    SameSectionLines(front, Hashes(m), h);
    assert SectionLines(front, h) + [] == SectionLines(front, h);
  }

  lemma WithoutIsClean(m: AppliedMarker)
    requires EmptyBundle(m)
    ensures Clean(WithoutRehydration(m))
  {
  }

  /** Behind a cell line the empty value comes back. */
  lemma EmptyBundleInCell(m: AppliedMarker)
    requires EmptyBundle(m) && m.cell
    ensures ReadText(Text(Lines(m))) == m
  {
    var m0, lines := WithoutRehydration(m), Lines(m);
    WithoutIsClean(m);
    LinesSolid(m0);
    EmptyLineIsLast(m);
    var front := [Field("composite", m.composite)] + SessionLines(m) + SectionLines(SECTION_NAMES, Hashes(m0));
    assert Lines(m0) == front + CellLines(m);
    assert lines == front + [Field(REHYDRATION, "")] + CellLines(m);
    InsertedLine(front, CellLines(m));
    TextIsJoin(lines);
    LinesComeBack(lines, "\n");
    ReadFields(m);
  }

  lemma InsertedLine(front: seq<string>, back: seq<string>)
    requires AllSolid(front + back) && back != [] && front != [] && front[0] != "" && !IsSpace(front[0][0])
    ensures FirmEnds(front + [Field(REHYDRATION, "")] + back)
  {
    var all, lines := front + back, front + [Field(REHYDRATION, "")] + back;
    assert Solid(all[0]) && all[0] == front[0] && Solid(all[|all| - 1]);
    forall i | 0 <= i < |lines| ensures '\n' !in lines[i] {
      if i < |front| { assert lines[i] == all[i]; } else if i > |front| { assert lines[i] == all[i - 1]; }
    }
  }

  /** At the end of the file trimming takes the blank with it, and the reader
      passes over the bare name. */
  lemma EmptyBundleAtEnd(m: AppliedMarker)
    requires EmptyBundle(m) && !m.cell
    ensures ReadText(Text(Lines(m))) == WithoutRehydration(m)
  {
    var m0 := WithoutRehydration(m);
    WithoutIsClean(m);
    LinesSolid(m0);
    EmptyLineIsLast(m);
    assert Lines(m) == Lines(m0) + [Field(REHYDRATION, "")];
    TextWithBlank(Lines(m0));
    var bare := Lines(m0) + [REHYDRATION];
    LinesComeBack(bare, " \n");
    ReadFields(m0);
    ReadLinesConcat(EMPTY.(sections := Sections(map[])), Lines(m0), [REHYDRATION]);
    BareNameIsSkipped(m0);
  }

  lemma TextWithBlank(lines: seq<string>)
    requires lines != []
    ensures Text(lines + [Field(REHYDRATION, "")]) == Join(lines + [REHYDRATION], '\n') + " \n"
  {
    var line := Field(REHYDRATION, "");
    TextIsJoin(lines + [line]);
    JoinConcat(lines, [line], '\n');
    JoinConcat(lines, [REHYDRATION], '\n');
    assert line == REHYDRATION + " ";
  }

  lemma BareNameIsSkipped(m: AppliedMarker)
    ensures ReadLines(m, [REHYDRATION]) == m
  {
    assert ' ' !in REHYDRATION;
    assert [REHYDRATION][1..] == [];
  }

  predicate OneLine(m: AppliedMarker) {
    m.session == "" && Hashes(m) == map[] && !m.cell
  }

  /** What the reader makes of a tidy marker: an empty content hash at the end of
      the file is lost, a one-line file is misread, all else comes back. */
  function ReadBack(m: AppliedMarker): AppliedMarker {
    if EmptyBundle(m) && !m.cell then WithoutRehydration(m)
    else if OneLine(m) then AppliedMarker("composite", m.composite, NoSections, false, [])
    else m
  }

  lemma ReadsBack(m: AppliedMarker)
    requires Tidy(m)
    ensures ReadText(Text(Lines(m))) == ReadBack(m)
  {
    if EmptyBundle(m) {
      if m.cell { EmptyBundleInCell(m); } else { EmptyBundleAtEnd(m); }
    } else {
      assert Clean(m);
      if OneLine(m) { OneLineMisread(m); } else { RoundTripExactly(m); }
    }
  }

  lemma {:induction false} WordEndOf(word: string, rest: string)
    requires forall i | 0 <= i < |word| :: !IsSpace(word[i])
    requires rest == "" || IsSpace(rest[0])
    ensures WordEnd(word + rest) == |word|
  {
    if word == "" {
      assert word + rest == rest;
    } else {
      assert (word + rest)[1..] == word[1..] + rest;
      WordEndOf(word[1..], rest);
    }
  }
}
