/** What the marker's text says, without its line functions: the exact text the
    writer makes, and the line that decides each field the reader fills. */
module MarkerReading {
  import opened Strings
  import opened Marker

  // --- The written text ---

  function SectionText(m: AppliedMarker, name: string): string {
    if name in Hashes(m) then name + " " + Hashes(m)[name] + "\n" else ""
  }

  lemma {:induction false} TextConcat(a: seq<string>, b: seq<string>)
    ensures Text(a + b) == Text(a) + Text(b)
  {
    if a == [] {
      assert a + b == b;
    } else {
      assert (a + b)[1..] == a[1..] + b;
      TextConcat(a[1..], b);
    }
  }

  lemma OneLineText(line: string)
    ensures Text([line]) == line + "\n"
  {
    assert [line][1..] == [];
  }

  lemma SectionStep(m: AppliedMarker, name: string, names: seq<string>)
    ensures Text(SectionLines([name] + names, Hashes(m))) == SectionText(m, name) + Text(SectionLines(names, Hashes(m)))
  {
    var rest := SectionLines(names, Hashes(m));
    assert ([name] + names)[1..] == names;
    if name in Hashes(m) {
      NamedLine(Field(name, Hashes(m)[name]), rest);
    } else {
      assert [] + rest == rest;
    }
  }

  lemma NamedLine(line: string, rest: seq<string>)
    ensures Text([line] + rest) == line + "\n" + Text(rest)
  {
    assert ([line] + rest)[1..] == rest;
  }

  function SectionTexts(m: AppliedMarker, names: seq<string>): string {
    if names == [] then "" else SectionText(m, names[0]) + SectionTexts(m, names[1..])
  }

  lemma {:induction false} SectionsText(m: AppliedMarker, names: seq<string>)
    ensures Text(SectionLines(names, Hashes(m))) == SectionTexts(m, names)
  {
    if names != [] {
      assert [names[0]] + names[1..] == names;
      SectionStep(m, names[0], names[1..]);
      SectionsText(m, names[1..]);
    }
  }

  function HeadText(m: AppliedMarker): string {
    "composite " + m.composite + "\n" + if m.session == "" then "" else "session " + m.session + "\n"
  }

  function CellText(m: AppliedMarker): string {
    if !m.cell then ""
    else "cell true\n" + if m.tenants == [] then "" else "tenants " + Join(m.tenants, ',') + "\n"
  }

  lemma HeadIsText(m: AppliedMarker)
    ensures Text([Field("composite", m.composite)] + SessionLines(m)) == HeadText(m)
  {
    OneLineText(Field("composite", m.composite));
    TextConcat([Field("composite", m.composite)], SessionLines(m));
    assert "composite" + " " == "composite ";
    if m.session != "" {
      OneLineText(Field("session", m.session));
      assert "session" + " " == "session ";
    }
  }

  lemma CellIsText(m: AppliedMarker)
    ensures Text(CellLines(m)) == CellText(m)
  {
    if m.cell {
      OneLineText(Field("cell", "true"));
      assert "cell" + " " + "true" + "\n" == "cell true\n";
      if m.tenants != [] {
        OneLineText(Field("tenants", Join(m.tenants, ',')));
        assert "tenants" + " " == "tenants ";
        TextConcat([Field("cell", "true")], [Field("tenants", Join(m.tenants, ','))]);
      } else {
        assert CellLines(m) == [Field("cell", "true")];
      }
    }
  }

  /** The file is the composite line, the session when there is one, the section
      hashes in their fixed order, and the cell lines. */
  lemma TextExactly(m: AppliedMarker)
    ensures Text(Lines(m))
         == HeadText(m) + SectionTexts(m, ["config", "plugins", "rbac", "items", "rehydration"]) + CellText(m)
  {
    var head, mid := [Field("composite", m.composite)] + SessionLines(m), SectionLines(SECTION_NAMES, Hashes(m));
    TextConcat(head + mid, CellLines(m));
    TextConcat(head, mid);
    HeadIsText(m);
    SectionsText(m, SECTION_NAMES);
    CellIsText(m);
  }

  // --- The line that decides a field ---

  const BLANK := AppliedMarker("", "", Sections(map[]), false, [])

  /** The line starts with the key and a blank. */
  ghost predicate Names(line: string, key: string) {
    key + " " <= line
  }

  ghost predicate LastNaming(lines: seq<string>, key: string, i: nat) {
    i < |lines| && Names(lines[i], key) && forall j | i < j < |lines| :: !Names(lines[j], key)
  }

  ghost predicate FieldIs(m: AppliedMarker, key: string, val: string) {
    if key == "composite" then m.composite == val
    else if key == "session" then m.session == val
    else if key == "cell" then m.cell <==> val == "true"
    else if key == "tenants" then m.tenants == Split(val, ',')
    else m.sections.Sections? && key in m.sections.hashes && m.sections.hashes[key] == val
  }

  ghost predicate FieldUnset(m: AppliedMarker, key: string) {
    if key == "composite" then m.composite == ""
    else if key == "session" then m.session == ""
    else if key == "cell" then !m.cell
    else if key == "tenants" then m.tenants == []
    else m.sections.Sections? && key !in m.sections.hashes
  }

  lemma LineSets(m: AppliedMarker, line: string, key: string)
    requires ' ' !in key && Names(line, key)
    ensures FieldIs(ReadLine(m, line), key, line[|key| + 1..])
  {
    assert line == Field(key, line[|key| + 1..]);
    ReadLineField(m, key, line[|key| + 1..]);
  }

  lemma PutLeaves(m: AppliedMarker, other: string, val: string, key: string)
    requires other != key && m.sections.Sections?
    ensures forall v :: FieldIs(m, key, v) <==> FieldIs(PutField(m, other, val), key, v)
    ensures FieldUnset(m, key) <==> FieldUnset(PutField(m, other, val), key)
  {
  }

  lemma LineLeaves(m: AppliedMarker, line: string, key: string)
    requires ' ' !in key && !Names(line, key) && m.sections.Sections?
    ensures ReadLine(m, line).sections.Sections?
    ensures forall val :: FieldIs(m, key, val) <==> FieldIs(ReadLine(m, line), key, val)
    ensures FieldUnset(m, key) <==> FieldUnset(ReadLine(m, line), key)
  {
    var i := IndexOf(line, ' ');
    if i < |line| {
      assert line[..i] + " " <= line;
      assert line[..i] != key;
      PutLeaves(m, line[..i], line[i + 1..], key);
    }
  }

  lemma ReadSnoc(m: AppliedMarker, lines: seq<string>, n: nat)
    requires n < |lines|
    ensures ReadLines(m, lines[..n + 1]) == ReadLine(ReadLines(m, lines[..n]), lines[n])
  {
    assert lines[..n + 1] == lines[..n] + [lines[n]];
    ReadLinesConcat(m, lines[..n], [lines[n]]);
    assert [lines[n]][1..] == [];
  }

  lemma {:induction false} ReadKeepsSections(lines: seq<string>, n: nat)
    requires n <= |lines|
    ensures ReadLines(BLANK, lines[..n]).sections.Sections?
  {
    if n > 0 {
      ReadKeepsSections(lines, n - 1);
      ReadSnoc(BLANK, lines, n - 1);
    }
  }

  lemma {:induction false} SetUpto(lines: seq<string>, n: nat, key: string, i: nat)
    requires ' ' !in key && i < n <= |lines| && LastNaming(lines, key, i)
    ensures FieldIs(ReadLines(BLANK, lines[..n]), key, lines[i][|key| + 1..])
    decreases n
  {
    ReadSnoc(BLANK, lines, n - 1);
    var m := ReadLines(BLANK, lines[..n - 1]);
    if i == n - 1 {
      LineSets(m, lines[i], key);
    } else {
      SetUpto(lines, n - 1, key, i);
      ReadKeepsSections(lines, n - 1);
      LineLeaves(m, lines[n - 1], key);
    }
  }

  lemma {:induction false} UnsetUpto(lines: seq<string>, n: nat, key: string)
    requires ' ' !in key && n <= |lines| && forall j | 0 <= j < |lines| :: !Names(lines[j], key)
    ensures FieldUnset(ReadLines(BLANK, lines[..n]), key)
    decreases n
  {
    if n > 0 {
      ReadSnoc(BLANK, lines, n - 1);
      UnsetUpto(lines, n - 1, key);
      ReadKeepsSections(lines, n - 1);
      LineLeaves(ReadLines(BLANK, lines[..n - 1]), lines[n - 1], key);
    }
  }

  /** A file of two or more lines: for every key without a blank, the last line
      that starts with the key decides its field, and without such a line the
      field stays unset. */
  lemma ReadsExactly(data: string, key: string)
    requires ' ' !in key
    ensures var lines := Split(TrimSpace(data), '\n');
            |lines| >= 2 ==>
              && (forall i: nat | LastNaming(lines, key, i) :: FieldIs(ReadText(data), key, lines[i][|key| + 1..]))
              && ((forall j | 0 <= j < |lines| :: !Names(lines[j], key)) ==> FieldUnset(ReadText(data), key))
  {
    var lines := Split(TrimSpace(data), '\n');
    assert lines[..|lines|] == lines;
    if |lines| >= 2 {
      forall i: nat | LastNaming(lines, key, i) ensures FieldIs(ReadText(data), key, lines[i][|key| + 1..]) {
        SetUpto(lines, |lines|, key, i);
      }
      if forall j | 0 <= j < |lines| :: !Names(lines[j], key) { UnsetUpto(lines, |lines|, key); }
    }
  }

  // --- The legacy file ---

  lemma WordHasNo(w: string, c: char)
    requires Word(w) && IsSpace(c)
    ensures c !in w
  {
  }

  /** A one-word file is a composite hash alone; blanks around it are nothing. */
  lemma LegacyHash(before: string, hash: string, behind: string)
    requires Word(hash) && Blank(before) && Blank(behind)
    ensures ReadText(before + hash + behind) == AppliedMarker(hash, "", NoSections, false, [])
  {
    TrimmedText(before, hash, behind);
    WordHasNo(hash, '\n');
    WordHasNo(hash, ' ');
    SplitNone(hash, '\n');
  }

  /** What may stand behind the second word of a trimmed line. */
  predicate Rest(more: string) {
    more == "" || (IsSpace(more[0]) && !IsSpace(more[|more| - 1]) && '\n' !in more)
  }

  lemma LegacyWords(hash: string, gap: string, session: string, more: string)
    requires Word(hash) && Word(session) && Blank(gap) && gap != "" && Rest(more)
    ensures LegacyMarker(hash + gap + session + more) == AppliedMarker(hash, session, NoSections, false, [])
  {
    var line := hash + gap + session + more;
    assert line == hash + (gap + session + more);
    WordEndOf(hash, gap + session + more);
    assert line[|hash|..] == gap + (session + more);
    assert (session + more)[0] == session[0];
    SpacesTrimLeft(gap, session + more);
    WordEndOf(session, more);
  }

  /** A line of several words, with a plain blank somewhere, is a composite hash
      and a session; further words say nothing. */
  lemma LegacyHashAndSession(before: string, hash: string, gap: string, session: string, more: string, behind: string)
    requires Word(hash) && Word(session) && Blank(gap) && ' ' in gap && '\n' !in gap && Rest(more)
    requires Blank(before) && Blank(behind)
    ensures ReadText(before + (hash + gap + session + more) + behind)
         == AppliedMarker(hash, session, NoSections, false, [])
  {
    var line := hash + gap + session + more;
    assert line[0] == hash[0];
    assert !IsSpace(line[|line| - 1]) by {
      assert more == "" ==> line[|line| - 1] == session[|session| - 1];
      assert more != "" ==> line[|line| - 1] == more[|more| - 1];
    }
    TrimmedText(before, line, behind);
    WordHasNo(hash, '\n');
    WordHasNo(session, '\n');
    SplitNone(line, '\n');
    LegacyWords(hash, gap, session, more);
  }
}
