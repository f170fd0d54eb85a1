/** Registering a server in a TOML file: two sections of one text, set together. */
module TomlServer {
  import Texts
  import opened TomlSection
  import opened TomlRuns

  // ---------- One section does not disturb another ----------

  /** A section whose header and lines stand at a given place. */
  ghost predicate SectionAt(lines: seq<Line>, header: Line, h: nat, end: nat) {
    && h < end <= |lines| && Trim(lines[h]) == header
    && (forall j :: 0 <= j < h ==> Trim(lines[j]) != header)
    && (end < |lines| ==> OpensSection(lines[end]))
    && (forall j :: h < j < end ==> !OpensSection(lines[j]))
  }

  lemma SectionAtIs(lines: seq<Line>, header: Line, h: nat, end: nat)
    requires SectionAt(lines, header, h, end)
    ensures FindHeader(lines, header) == h && SectionEnd(lines, h + 1) == end
      && SectionOf(lines, header) == lines[h + 1..end]
  {
    hide Trim, OpensSection, FindHeader;
    FindHeaderIs(lines, header, h);
    SectionEndIs(lines, h + 1, end);
  }

  lemma TrimOpens(line: Line, header: Line)
    requires Trim(line) == header && ProperHeader(header)
    ensures OpensSection(line) && line != ""
  {
    DropSpaceKeepsStart(SkipSpace(line));
    DropSpaceKeepsStart(SkipSpace(header));
    SkipSpaceTwice(line);
  }

  lemma {:induction false} DropSpaceKeepsStart(s: string)
    ensures DropSpace(s) <= s
  {
    if s != "" && IsSpace(s[|s| - 1]) {
      DropSpaceKeepsStart(s[..|s| - 1]);
    }
  }

  lemma {:induction false} SkipSpaceTwice(s: string)
    ensures SkipSpace(s) != "" ==> !IsSpace(SkipSpace(s)[0])
  {
    if s != "" && IsSpace(s[0]) {
      SkipSpaceTwice(s[1..]);
    }
  }

  lemma SetAt(lines: seq<Line>, header: Line, assignments: seq<Assignment>)
    requires IsSet(lines, header, assignments)
    ensures var h := FindHeader(lines, header);
      SectionAt(lines, header, h, SectionEnd(lines, h + 1))
        && AllPut(lines[h + 1..SectionEnd(lines, h + 1)], assignments)
  {
  }

  lemma SetFrom(lines: seq<Line>, header: Line, h: nat, end: nat, assignments: seq<Assignment>)
    requires SectionAt(lines, header, h, end) && AllPut(lines[h + 1..end], assignments)
    ensures IsSet(lines, header, assignments)
  {
    hide Trim, OpensSection, AllPut;
    SectionAtIs(lines, header, h, end);
  }

  /** The section at a place, and its lines. */
  ghost predicate SectionIs(lines: seq<Line>, header: Line, h: nat, end: nat, section: seq<Line>) {
    SectionAt(lines, header, h, end) && lines[h + 1..end] == section
  }

  lemma SetFromSection(
    lines: seq<Line>, header: Line, h: nat, end: nat, section: seq<Line>, assignments: seq<Assignment>)
    requires SectionIs(lines, header, h, end, section) && AllPut(section, assignments)
    ensures IsSet(lines, header, assignments)
  {
    hide Trim, OpensSection, AllPut, IsSet;
    SetFrom(lines, header, h, end, assignments);
  }

  predicate NoneOpens(lines: seq<Line>) {
    forall j :: 0 <= j < |lines| ==> !OpensSection(lines[j])
  }

  /** A file with the middle lines [from, to) exchanged. */
  function Exchange(lines: seq<Line>, from: nat, to: nat, middle: seq<Line>): seq<Line>
    requires from <= to <= |lines|
  {
    lines[..from] + middle + lines[to..]
  }

  lemma EarlierSectionStays(lines: seq<Line>, header: Line, h: nat, end: nat, from: nat, to: nat, middle: seq<Line>)
    requires SectionAt(lines, header, h, end) && from <= to <= |lines| && end < from
    ensures SectionIs(Exchange(lines, from, to, middle), header, h, end, lines[h + 1..end])
  {
    hide Trim, OpensSection;
    var out := Exchange(lines, from, to, middle);
    assert forall j :: 0 <= j < from ==> out[j] == lines[j];
  }

  lemma LaterSectionStays(lines: seq<Line>, header: Line, h: nat, end: nat, from: nat, to: nat, middle: seq<Line>)
    requires SectionAt(lines, header, h, end) && from <= to <= h
    requires ProperHeader(header) && NoneOpens(middle)
    ensures var shift := from + |middle| - to;
      SectionIs(Exchange(lines, from, to, middle), header, h + shift, end + shift, lines[h + 1..end])
  {
    var out := Exchange(lines, from, to, middle);
    var shift := from + |middle| - to;
    forall j | 0 <= j < |middle| ensures Trim(middle[j]) != header {
      if Trim(middle[j]) == header {
        TrimOpens(middle[j], header);
      }
    }
    hide Trim, OpensSection, ProperHeader;
    forall j | 0 <= j < h + shift ensures Trim(out[j]) != header {
      if j < from {
        assert out[j] == lines[j];
      } else if j < from + |middle| {
        assert out[j] == middle[j - from];
      } else {
        assert out[j] == lines[j - shift];
      }
    }
    assert forall j :: to <= j < |lines| ==> out[j + shift] == lines[j];
    forall j | h + shift < j < end + shift ensures !OpensSection(out[j]) {
      assert out[j] == lines[j - shift];
    }
  }

  lemma SectionsAreApart(lines: seq<Line>, header: Line, h: nat, end: nat, other: Line, g: nat, to: nat)
    requires SectionAt(lines, header, h, end) && SectionAt(lines, other, g, to)
    requires header != other && ProperHeader(header) && ProperHeader(other)
    ensures h < end <= |lines| && g < to <= |lines| && (if h < g then end <= g else to <= h)
  {
    TrimOpens(lines[g], other);
    TrimOpens(lines[h], header);
    hide Trim, OpensSection, ProperHeader;
  }

  lemma ExchangeKeepsSet(
    lines: seq<Line>, header: Line, h: nat, end: nat, assignments: seq<Assignment>,
    other: Line, g: nat, to: nat, middle: seq<Line>)
    requires SectionAt(lines, header, h, end) && AllPut(lines[h + 1..end], assignments)
      && SectionAt(lines, other, g, to)
    requires header != other && ProperHeader(header) && ProperHeader(other)
    requires NoneOpens(middle)
    ensures IsSet(Exchange(lines, g + 1, to, middle), header, assignments)
  {
    hide *;
    SectionsAreApart(lines, header, h, end, other, g, to);
    if h < g {
      EarlierKeepsSet(lines, header, h, end, assignments, g + 1, to, middle);
    } else {
      LaterKeepsSet(lines, header, h, end, assignments, g + 1, to, middle);
    }
  }

  lemma EarlierKeepsSet(
    lines: seq<Line>, header: Line, h: nat, end: nat, assignments: seq<Assignment>, from: nat, to: nat,
      middle: seq<Line>)
    requires SectionAt(lines, header, h, end) && AllPut(lines[h + 1..end], assignments) && from <= to <= |lines|
      && end < from
    ensures IsSet(Exchange(lines, from, to, middle), header, assignments)
  {
    EarlierSectionStays(lines, header, h, end, from, to, middle);
    hide *;
    SetFromSection(Exchange(lines, from, to, middle), header, h, end, lines[h + 1..end], assignments);
  }

  lemma LaterKeepsSet(
    lines: seq<Line>, header: Line, h: nat, end: nat, assignments: seq<Assignment>, from: nat, to: nat,
      middle: seq<Line>)
    requires SectionAt(lines, header, h, end) && AllPut(lines[h + 1..end], assignments) && from <= to <= h
    requires ProperHeader(header) && NoneOpens(middle)
    ensures IsSet(Exchange(lines, from, to, middle), header, assignments)
  {
    LaterSectionStays(lines, header, h, end, from, to, middle);
    hide *;
    var shift := from + |middle| - to;
    SetFromSection(Exchange(lines, from, to, middle), header, h + shift, end + shift, lines[h + 1..end], assignments);
  }

  lemma FoundAt(lines: seq<Line>, header: Line)
    requires FindHeader(lines, header) < |lines|
    ensures var h := FindHeader(lines, header); SectionAt(lines, header, h, SectionEnd(lines, h + 1))
  {
  }

  lemma UpsertExchanges(lines: seq<Line>, header: Line, assignments: seq<Assignment>)
    requires ProperAll(assignments) && FindHeader(lines, header) < |lines|
    ensures var g := FindHeader(lines, header);
            var to := SectionEnd(lines, g + 1);
            var middle := PutAll(lines[g + 1..to], assignments);
            && Upsert(lines, header, assignments) == Exchange(lines, g + 1, to, middle)
            && NoneOpens(middle)
  {
    hide Trim, OpensSection, ProperAll, PutAll, FindHeader;
    var g := FindHeader(lines, header);
    PutAllOpensNothing(lines[g + 1..SectionEnd(lines, g + 1)], assignments);
  }

  lemma InPlaceKeepsOther(
    lines: seq<Line>, header: Line, assignments: seq<Assignment>, other: Line, others: seq<Assignment>)
    requires IsSet(lines, header, assignments) && header != other && ProperHeader(header) && ProperHeader(other)
    requires ProperAll(others) && FindHeader(lines, other) < |lines|
    ensures IsSet(Upsert(lines, other, others), header, assignments)
  {
    hide *;
    SetAt(lines, header, assignments);
    FoundAt(lines, other);
    UpsertExchanges(lines, other, others);
    var g := FindHeader(lines, other);
    var h := FindHeader(lines, header);
    var to := SectionEnd(lines, g + 1);
    ExchangeKeepsSet(lines, header, h, SectionEnd(lines, h + 1), assignments, other, g, to,
      PutAll(lines[g + 1..to], others));
  }

  lemma PutInLonger(section: seq<Line>, tail: seq<Line>, a: Assignment)
    requires IsPut(section, a)
    ensures IsPut(section + tail, a)
  {
    hide Assigns;
    FirstOfIs(section + tail, a.key, FirstOf(section, a.key));
  }

  lemma PutBeforeBlanks(section: seq<Line>, k: nat, a: Assignment)
    requires IsPut(section, a) && k <= |section| && Proper(a) && forall j :: k <= j < |section| ==> section[j] == ""
    ensures IsPut(section[..k], a)
  {
    AssignmentOpensNothing(a.line, a.key);
    hide Assigns, Proper;
    FirstOfIs(section[..k], a.key, FirstOf(section, a.key));
  }

  /** The lines without trailing blank ones, one blank line, and what follows. */
  function Tailed(front: seq<Line>, tail: seq<Line>): seq<Line> {
    front + [""] + tail
  }

  predicate BlankFrom(lines: seq<Line>, k: nat) {
    k <= |lines| && forall j :: k <= j < |lines| ==> lines[j] == ""
  }

  lemma TailedSectionAt(lines: seq<Line>, header: Line, h: nat, end: nat, k: nat, tail: seq<Line>)
    requires SectionAt(lines, header, h, end) && ProperHeader(header) && BlankFrom(lines, k)
    requires tail != [] ==> OpensSection(tail[0])
    ensures h < k && (end < k || end == |lines|)
    ensures SectionAt(Tailed(lines[..k], tail), header, h, if end < k then end else k + 1)
    ensures end < k ==> Tailed(lines[..k], tail)[h + 1..end] == lines[h + 1..end]
    ensures end >= k ==> Tailed(lines[..k], tail)[h + 1..k + 1] == lines[h + 1..end][..k - (h + 1)] + [""]
  {
    TrimOpens(lines[h], header);
    BlankOpensNothing();
    hide Trim, OpensSection, ProperHeader;
    var out := Tailed(lines[..k], tail);
    assert forall j :: 0 <= j < k ==> out[j] == lines[j];
    assert out[k] == "" && (tail != [] ==> out[k + 1] == tail[0]);
  }

  /** Exchanging trailing blank lines for one blank line and what follows it leaves a section as it was. */
  lemma TailedKeepsSet(
    lines: seq<Line>, header: Line, h: nat, end: nat, assignments: seq<Assignment>, k: nat, tail: seq<Line>)
    requires SectionAt(lines, header, h, end) && AllPut(lines[h + 1..end], assignments)
    requires ProperHeader(header) && ProperAll(assignments) && BlankFrom(lines, k)
    requires tail != [] ==> OpensSection(tail[0])
    ensures IsSet(Tailed(lines[..k], tail), header, assignments)
  {
    TailedSectionAt(lines, header, h, end, k, tail);
    var out := Tailed(lines[..k], tail);
    if end < k {
      hide Trim, OpensSection, ProperHeader, AllPut, ProperAll, IsSet, Tailed;
      SetFromSection(out, header, h, end, lines[h + 1..end], assignments);
    } else {
      var section := lines[h + 1..end];
      hide Trim, OpensSection, ProperHeader, AllPut, ProperAll, IsSet, Tailed;
      PutsBeforeBlank(section, k - (h + 1), assignments);
      SetFromSection(out, header, h, k + 1, section[..k - (h + 1)] + [""], assignments);
    }
  }

  lemma BlankEndKeepsSet(lines: seq<Line>, header: Line, assignments: seq<Assignment>, tail: seq<Line>)
    requires IsSet(lines, header, assignments) && ProperHeader(header) && ProperAll(assignments)
    requires tail != [] ==> OpensSection(tail[0])
    ensures DropBlankEnd(lines) != []
    ensures IsSet(Tailed(DropBlankEnd(lines), tail), header, assignments)
  {
    SetAt(lines, header, assignments);
    BlankEndIsPrefix(lines);
    hide Trim, OpensSection, ProperHeader, AllPut, ProperAll, IsSet, DropBlankEnd;
    var h := FindHeader(lines, header);
    var k := |DropBlankEnd(lines)|;
    assert DropBlankEnd(lines) == lines[..k];
    TailedKeepsSet(lines, header, h, SectionEnd(lines, h + 1), assignments, k, tail);
    TailedSectionAt(lines, header, h, SectionEnd(lines, h + 1), k, tail);
  }

  lemma PutsBeforeBlank(section: seq<Line>, k: nat, assignments: seq<Assignment>)
    requires AllPut(section, assignments) && ProperAll(assignments)
    requires k <= |section| && forall j :: k <= j < |section| ==> section[j] == ""
    ensures AllPut(section[..k] + [""], assignments)
  {
    hide IsPut, Proper;
    forall i | 0 <= i < |assignments| ensures IsPut(section[..k] + [""], assignments[i]) {
      PutBeforeBlanks(section, k, assignments[i]);
      PutInLonger(section[..k], [""], assignments[i]);
    }
  }

  lemma BlankOpensNothing()
    ensures !OpensSection("")
  {
  }

  lemma UpsertKeepsOther(
    lines: seq<Line>, header: Line, assignments: seq<Assignment>, other: Line, others: seq<Assignment>)
    requires IsSet(lines, header, assignments) && header != other && ProperHeader(header) && ProperHeader(other)
    requires ProperAll(assignments) && ProperAll(others)
    ensures IsSet(Upsert(lines, other, others), header, assignments)
  {
    assert OpensSection(other);
    hide *;
    if FindHeader(lines, other) < |lines| {
      InPlaceKeepsOther(lines, header, assignments, other, others);
    } else {
      BlankEndKeepsSet(lines, header, assignments, [other] + Lines(others));
      UpsertTails(lines, other, others);
    }
  }

  lemma UpsertTails(lines: seq<Line>, header: Line, assignments: seq<Assignment>)
    requires FindHeader(lines, header) == |lines| && DropBlankEnd(lines) != []
    ensures Upsert(lines, header, assignments) == Tailed(DropBlankEnd(lines), [header] + Lines(assignments))
  {
    hide Trim, FindHeader, DropBlankEnd;
  }

  // ---------- Both sections ----------

  datatype Section = Section(header: Line, assignments: seq<Assignment>)

  predicate ProperSection(s: Section) {
    ProperHeader(s.header) && ProperAll(s.assignments)
  }

  function UpsertBoth(lines: seq<Line>, a: Section, b: Section): seq<Line> {
    Upsert(Upsert(lines, a.header, a.assignments), b.header, b.assignments)
  }

  predicate BothSet(lines: seq<Line>, a: Section, b: Section) {
    IsSet(lines, a.header, a.assignments) && IsSet(lines, b.header, b.assignments)
  }

  lemma UpsertBothSets(lines: seq<Line>, a: Section, b: Section)
    requires ProperSection(a) && ProperSection(b) && a.header != b.header
    ensures BothSet(UpsertBoth(lines, a, b), a, b)
  {
    UpsertSets(lines, a.header, a.assignments);
    UpsertSets(Upsert(lines, a.header, a.assignments), b.header, b.assignments);
    UpsertKeepsOther(Upsert(lines, a.header, a.assignments), a.header, a.assignments, b.header, b.assignments);
  }

  lemma BothSetStays(lines: seq<Line>, a: Section, b: Section)
    requires BothSet(lines, a, b)
    ensures UpsertBoth(lines, a, b) == lines
  {
    SetStays(lines, a.header, a.assignments);
    SetStays(lines, b.header, b.assignments);
  }

  // ---------- Text ----------

  predicate OneLine(line: Line) {
    '\n' !in line
  }

  predicate OneLineEach(lines: seq<Line>) {
    forall i :: 0 <= i < |lines| ==> OneLine(lines[i])
  }

  function Split(text: string): (lines: seq<Line>)
    ensures lines != []
  {
    Texts.Split(text, '\n')
  }

  function Join(lines: seq<Line>): string {
    if lines == [] then "" else if |lines| == 1 then lines[0] else lines[0] + "\n" + Join(lines[1..])
  }

  /** Exactly one line break at the end. */
  function Terminate(text: string): string {
    DropBreaks(text) + "\n"
  }

  function DropBreaks(text: string): string {
    if text != "" && text[|text| - 1] == '\n' then DropBreaks(text[..|text| - 1]) else text
  }

  lemma SplitIsOneLineEach(text: string)
    ensures OneLineEach(Split(text))
  {
    Texts.PartsAreWithout(text, '\n');
  }

  lemma SplitOfLine(line: Line, text: string)
    requires OneLine(line)
    ensures Split(line + "\n" + text) == [line] + Split(text) && Split(line) == [line]
  {
    Texts.SplitOfPart(line, text, '\n');
  }

  lemma {:induction false} SplitOfJoin(lines: seq<Line>)
    requires lines != [] && OneLineEach(lines)
    ensures Split(Join(lines)) == lines
  {
    hide Split;
    if |lines| == 1 {
      SplitOfLine(lines[0], "");
    } else {
      SplitOfJoin(lines[1..]);
      SplitOfLine(lines[0], Join(lines[1..]));
    }
  }

  lemma {:induction false} JoinMore(lines: seq<Line>, last: Line)
    requires lines != []
    ensures Join(lines + [last]) == Join(lines) + "\n" + last
  {
    if |lines| > 1 {
      JoinMore(lines[1..], last);
      assert (lines + [last])[1..] == lines[1..] + [last];
    }
  }

  lemma {:induction false} DropBreaksOfJoin(lines: seq<Line>)
    requires DropBlankEnd(lines) != [] && OneLineEach(lines)
    ensures DropBreaks(Join(lines)) == Join(DropBlankEnd(lines))
  {
    var k := |lines| - 1;
    if lines[k] == "" {
      JoinMore(lines[..k], "");
      assert lines == lines[..k] + [""];
      assert (Join(lines[..k]) + "\n" + "")[..|Join(lines[..k])|] == Join(lines[..k]);
      DropBreaksOfJoin(lines[..k]);
    } else {
      JoinEnds(lines);
    }
  }

  lemma JoinEnds(lines: seq<Line>)
    requires lines != [] && lines[|lines| - 1] != "" && OneLineEach(lines)
    ensures Join(lines) != "" && Join(lines)[|Join(lines)| - 1] != '\n'
  {
    var k := |lines| - 1;
    assert lines[k][|lines[k]| - 1] in lines[k];
    if k > 0 {
      JoinMore(lines[..k], lines[k]);
      assert lines == lines[..k] + [lines[k]];
    }
  }

  lemma TerminateOfJoin(lines: seq<Line>)
    requires DropBlankEnd(lines) != [] && OneLineEach(lines)
    ensures Terminate(Join(lines)) == Join(Tailed(DropBlankEnd(lines), []))
  {
    DropBreaksOfJoin(lines);
    JoinMore(DropBlankEnd(lines), "");
    assert Tailed(DropBlankEnd(lines), []) == DropBlankEnd(lines) + [""];
  }

  function UpsertServer(raw: string, a: Section, b: Section): string {
    Terminate(Join(UpsertBoth(Split(raw), a, b)))
  }

  predicate SingleLine(s: Section) {
    OneLine(s.header) && forall i :: 0 <= i < |s.assignments| ==> OneLine(s.assignments[i].line)
  }

  lemma {:induction false} PutAllOneLineEach(section: seq<Line>, assignments: seq<Assignment>)
    requires OneLineEach(section) && forall i :: 0 <= i < |assignments| ==> OneLine(assignments[i].line)
    ensures OneLineEach(PutAll(section, assignments))
  {
    hide OneLine, FirstOf;
    if assignments != [] {
      PutAllOneLineEach(section, assignments[..|assignments| - 1]);
    }
  }

  lemma UpsertOneLineEach(lines: seq<Line>, s: Section)
    requires OneLineEach(lines) && SingleLine(s)
    ensures OneLineEach(Upsert(lines, s.header, s.assignments))
  {
    BlankEndIsPrefix(lines);
    hide OneLine, OpensSection, Trim, DropBlankEnd, FindHeader;
    var h := FindHeader(lines, s.header);
    if h < |lines| {
      PutAllOneLineEach(lines[h + 1..SectionEnd(lines, h + 1)], s.assignments);
    } else {
      assert OneLine("") by { BlankIsOneLine(); }
    }
  }

  lemma BlankIsOneLine()
    ensures OneLine("")
  {
  }

  lemma WrittenOneLineEach(raw: string, a: Section, b: Section)
    requires SingleLine(a) && SingleLine(b)
    ensures OneLineEach(UpsertBoth(Split(raw), a, b))
  {
    hide OneLineEach, SingleLine, Split, Upsert;
    SplitIsOneLineEach(raw);
    UpsertOneLineEach(Split(raw), a);
    UpsertOneLineEach(Upsert(Split(raw), a.header, a.assignments), b);
  }

  lemma WrittenBothSet(lines: seq<Line>, a: Section, b: Section)
    requires ProperSection(a) && ProperSection(b) && BothSet(lines, a, b)
    ensures DropBlankEnd(lines) != [] && BothSet(Tailed(DropBlankEnd(lines), []), a, b)
  {
    hide IsSet, ProperHeader, ProperAll, DropBlankEnd;
    BlankEndKeepsSet(lines, a.header, a.assignments, []);
    BlankEndKeepsSet(lines, b.header, b.assignments, []);
  }

  /** The lines of the text a registration writes. */
  lemma WrittenLines(raw: string, a: Section, b: Section)
    requires ProperSection(a) && ProperSection(b) && a.header != b.header && SingleLine(a) && SingleLine(b)
    ensures var written := Tailed(DropBlankEnd(UpsertBoth(Split(raw), a, b)), []);
            && UpsertServer(raw, a, b) == Join(written) && Split(UpsertServer(raw, a, b)) == written
            && BothSet(written, a, b)
  {
    var lines := UpsertBoth(Split(raw), a, b);
    BlankEndIsPrefix(lines);
    hide BothSet, ProperSection, SingleLine, Split, Join, UpsertBoth, DropBlankEnd, Terminate, OneLine;
    WrittenOneLineEach(raw, a, b);
    UpsertBothSets(Split(raw), a, b);
    WrittenBothSet(lines, a, b);
    TerminateOfJoin(lines);
    assert OneLine("") by { BlankIsOneLine(); }
    SplitOfJoin(Tailed(DropBlankEnd(lines), []));
  }

  lemma DropBlankEndOfTailed(front: seq<Line>)
    requires front != [] && front[|front| - 1] != ""
    ensures DropBlankEnd(Tailed(front, [])) == front
  {
    var lines := Tailed(front, []);
    assert lines == front + [""];
    assert lines[..|lines| - 1] == front;
  }

  /**
   Registering a server whose values hold no line break: both sections are set in the text written, and
   registering it again writes the same text.
   */
  lemma RegisteringTwice(raw: string, a: Section, b: Section)
    requires ProperSection(a) && ProperSection(b) && a.header != b.header && SingleLine(a) && SingleLine(b)
    ensures BothSet(Split(UpsertServer(raw, a, b)), a, b)
    ensures UpsertServer(UpsertServer(raw, a, b), a, b) == UpsertServer(raw, a, b)
  {
    WrittenLines(raw, a, b);
    UpsertBothSets(Split(raw), a, b);
    var front := DropBlankEnd(UpsertBoth(Split(raw), a, b));
    BlankEndIsPrefix(UpsertBoth(Split(raw), a, b));
    BlankEndKeepsSet(UpsertBoth(Split(raw), a, b), a.header, a.assignments, []);
    hide IsSet, ProperSection, Split, Join, UpsertBoth, DropBlankEnd, DropBreaks, SingleLine;
    var text := UpsertServer(raw, a, b);
    SplitIsOneLineEach(text);
    BothSetStays(Split(text), a, b);
    DropBlankEndOfTailed(front);
    TerminateOfJoin(Split(text));
  }

  // ---------- A server's own sections ----------

  datatype Server = Server(command: string, args: seq<string>, passport: string)

  function Escaped(value: string): string {
    if value == "" then ""
    else (if value[0] == '\\' then "\\\\" else if value[0] == '"' then "\\\"" else [value[0]]) + Escaped(value[1..])
  }

  function Quoted(value: string): string {
    "\"" + Escaped(value) + "\""
  }

  function QuotedAll(values: seq<string>): string {
    if values == [] then ""
    else if |values| == 1 then Quoted(values[0])
    else Quoted(values[0]) + ", " + QuotedAll(values[1..])
  }

  function Assign(key: string, value: string): Assignment {
    Assignment(key, key + " = " + value)
  }

  function MainSection(section: string, server: Server): Section {
    Section("[" + section + "]",
      [Assign("command", Quoted(server.command)), Assign("args", "[" + QuotedAll(server.args) + "]")])
  }

  function EnvSection(section: string, server: Server): Section {
    Section("[" + section + ".env]", [Assign("SEEDROP_PASSPORT", Quoted(server.passport))])
  }

  /** No value the registration writes holds a line break. */
  predicate SingleLineServer(section: string, server: Server) {
    OneLine(section) && OneLine(server.command) && OneLine(server.passport)
    && forall i :: 0 <= i < |server.args| ==> OneLine(server.args[i])
  }

  lemma {:induction false} EscapedIsOneLine(value: string)
    requires OneLine(value)
    ensures OneLine(Escaped(value))
  {
    if value != "" {
      EscapedIsOneLine(value[1..]);
      assert value[0] in value;
    }
  }

  lemma {:induction false} QuotedAllIsOneLine(values: seq<string>)
    requires forall i :: 0 <= i < |values| ==> OneLine(values[i])
    ensures OneLine(QuotedAll(values))
  {
    if values != [] {
      EscapedIsOneLine(values[0]);
      QuotedAllIsOneLine(values[1..]);
    }
  }

  lemma BracketsAreAHeader(name: string)
    ensures ProperHeader("[" + name + "]")
  {
    var header := "[" + name + "]";
    assert header[0] == '[' && header[|header| - 1] == ']';
    SkipSpaceStops(header);
    assert DropSpace(header) == header;
  }

  lemma AssignIsProper(key: string, value: string)
    requires BareKey(key)
    ensures Proper(Assign(key, value))
  {
    var line := key + " = " + value;
    assert line[0] == key[0];
    SkipSpaceStops(line);
    assert line[|key|..] == " = " + value;
    assert (" = " + value)[1..] == "= " + value;
    assert SkipSpace(" = " + value) == SkipSpace("= " + value);
    SkipSpaceStops("= " + value);
  }

  lemma SectionsAreProper(section: string, server: Server)
    ensures ProperSection(MainSection(section, server)) && ProperSection(EnvSection(section, server))
    ensures MainSection(section, server).header != EnvSection(section, server).header
  {
    hide Quoted, QuotedAll, Proper, ProperHeader;
    BracketsAreAHeader(section);
    BracketsAreAHeader(section + ".env");
    assert "[" + section + ".env]" == "[" + (section + ".env") + "]";
    AssignIsProper("command", Quoted(server.command));
    AssignIsProper("args", "[" + QuotedAll(server.args) + "]");
    AssignIsProper("SEEDROP_PASSPORT", Quoted(server.passport));
    assert |"[" + section + "]"| != |"[" + section + ".env]"|;
  }

  lemma SectionsAreSingleLine(section: string, server: Server)
    requires SingleLineServer(section, server)
    ensures SingleLine(MainSection(section, server)) && SingleLine(EnvSection(section, server))
  {
    QuotedIsOneLine(server.command);
    QuotedIsOneLine(server.passport);
    QuotedAllIsOneLine(server.args);
    hide Quoted, QuotedAll, Assign;
    AssignIsOneLine("command", Quoted(server.command));
    AssignIsOneLine("args", "[" + QuotedAll(server.args) + "]");
    AssignIsOneLine("SEEDROP_PASSPORT", Quoted(server.passport));
  }

  lemma QuotedIsOneLine(value: string)
    requires OneLine(value)
    ensures OneLine(Quoted(value))
  {
    EscapedIsOneLine(value);
  }

  lemma AssignIsOneLine(key: string, value: string)
    requires OneLine(key) && OneLine(value)
    ensures OneLine(Assign(key, value).line)
  {
  }

  /** Registering the same server twice is registering it once, and its three keys are then set. */
  lemma ServerRegisteredTwice(raw: string, section: string, server: Server)
    requires SingleLineServer(section, server)
    ensures var text := UpsertServer(raw, MainSection(section, server), EnvSection(section, server));
            && BothSet(Split(text), MainSection(section, server), EnvSection(section, server))
            && UpsertServer(text, MainSection(section, server), EnvSection(section, server)) == text
  {
    hide ProperSection, SingleLine, SingleLineServer, BothSet, UpsertServer, MainSection, EnvSection;
    SectionsAreProper(section, server);
    SectionsAreSingleLine(section, server);
    RegisteringTwice(raw, MainSection(section, server), EnvSection(section, server));
  }

  method UpsertTomlServer(raw: string, section: string, server: Server) returns (out: string)
    ensures out == UpsertServer(raw, MainSection(section, server), EnvSection(section, server))
  {
    var main, env := MainSection(section, server), EnvSection(section, server);
    var ensured := UpsertTomlSection(Split(raw), main.header, main.assignments);
    var withEnv := UpsertTomlSection(ensured, env.header, env.assignments);
    out := Terminate(Join(withEnv));
  }
}
