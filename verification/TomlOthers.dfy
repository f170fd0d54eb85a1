/** What a registration leaves of the rest of the file: every other line, in its order. */
module TomlOthers {
  import opened TomlSection
  import opened TomlRuns
  import opened TomlServer

  // ---------- A file without what is assigned ----------

  /** The file without the first assignment of each of the section's keys. */
  function Strip(lines: seq<Line>, s: Section): seq<Line> {
    var h := FindHeader(lines, s.header);
    if h == |lines| then lines
    else
      var end := SectionEnd(lines, h + 1);
      Exchange(lines, h + 1, end, WithoutAll(lines[h + 1..end], s.assignments))
  }

  function Others(lines: seq<Line>, a: Section, b: Section): seq<Line> {
    Strip(Strip(lines, b), a)
  }

  predicate Has(lines: seq<Line>, s: Section) {
    FindHeader(lines, s.header) < |lines|
  }

  predicate Blank(lines: seq<Line>) {
    forall i :: 0 <= i < |lines| ==> lines[i] == ""
  }

  function NonBlank(lines: seq<Line>): seq<Line> {
    if lines == [] then []
    else if lines[0] == "" then NonBlank(lines[1..]) else [lines[0]] + NonBlank(lines[1..])
  }

  /** The headers a registration has to add. */
  function Missing(lines: seq<Line>, a: Section, b: Section): seq<Line> {
    (if Has(lines, a) then [] else [a.header]) + (if Has(lines, b) then [] else [b.header])
  }

  // ---------- Removing lines from a section ----------

  lemma {:induction false} WithoutAllIsPart(section: seq<Line>, assignments: seq<Assignment>)
    ensures forall i :: 0 <= i < |WithoutAll(section, assignments)| ==> WithoutAll(section, assignments)[i] in section
  {
    hide FirstOf;
    if assignments != [] {
      WithoutAllIsPart(section, assignments[..|assignments| - 1]);
    }
  }

  lemma WithoutOpensNothing(section: seq<Line>, assignments: seq<Assignment>)
    requires NoneOpens(section)
    ensures NoneOpens(WithoutAll(section, assignments))
  {
    hide OpensSection, WithoutAll;
    WithoutAllIsPart(section, assignments);
  }

  lemma BlankAssignsNothing(key: string)
    requires BareKey(key)
    ensures !Assigns("", key)
  {
  }

  lemma FirstOfBlankTail(section: seq<Line>, blanks: seq<Line>, key: string)
    requires BareKey(key) && Blank(blanks)
    ensures var i := FirstOf(section, key);
      FirstOf(section + blanks, key) == if i < |section| then i else |section + blanks|
  {
    BlankAssignsNothing(key);
    hide Assigns, BareKey, FirstOf;
    var i := FirstOf(section, key);
    if i < |section| {
      FirstOfIs(section + blanks, key, i);
    } else {
      NoneOf(section + blanks, key);
    }
  }

  lemma CutBeforeTail(section: seq<Line>, blanks: seq<Line>, i: nat)
    requires i < |section|
    ensures Cut(section + blanks, i) == Cut(section, i) + blanks
  {
  }

  lemma WithoutBlankTail(section: seq<Line>, blanks: seq<Line>, key: string)
    requires BareKey(key) && Blank(blanks)
    ensures Without(section + blanks, key) == Without(section, key) + blanks
  {
    hide BareKey, Blank, FirstOf, Assigns;
    FirstOfBlankTail(section, blanks, key);
    if FirstOf(section, key) < |section| {
      CutBeforeTail(section, blanks, FirstOf(section, key));
    }
  }

  lemma {:induction false} WithoutAllBlankTail(section: seq<Line>, blanks: seq<Line>, assignments: seq<Assignment>)
    requires ProperAll(assignments) && Blank(blanks)
    ensures WithoutAll(section + blanks, assignments) == WithoutAll(section, assignments) + blanks
  {
    hide Without, Assigns;
    if assignments != [] {
      var k := |assignments| - 1;
      WithoutAllBlankTail(section, blanks, assignments[..k]);
      WithoutBlankTail(WithoutAll(section, assignments[..k]), blanks, assignments[k].key);
    }
  }

  // ---------- Stripping a file with a tail ----------

  /** Blank lines, and then nothing or the start of a section. */
  predicate Quiet(tail: seq<Line>, k: nat) {
    k <= |tail| && Blank(tail[..k]) && (k < |tail| ==> OpensSection(tail[k]))
  }

  lemma TailSectionAt(lines: seq<Line>, tail: seq<Line>, k: nat, header: Line, h: nat, end: nat)
    requires SectionAt(lines, header, h, end) && Quiet(tail, k)
    ensures SectionAt(lines + tail, header, h, if end < |lines| then end else end + k)
  {
    BlankOpensNothing();
    hide Trim, OpensSection;
    var all := lines + tail;
    assert forall j :: 0 <= j < |lines| ==> all[j] == lines[j];
    assert forall j :: 0 <= j < k ==> all[|lines| + j] == tail[..k][j];
    assert k < |tail| ==> all[|lines| + k] == tail[k];
  }

  lemma StripAt(lines: seq<Line>, s: Section, h: nat, end: nat)
    requires SectionAt(lines, s.header, h, end)
    ensures Has(lines, s)
      && Strip(lines, s) == Exchange(lines, h + 1, end, WithoutAll(lines[h + 1..end], s.assignments))
  {
    hide Trim, OpensSection, WithoutAll, FindHeader;
    SectionAtIs(lines, s.header, h, end);
  }

  lemma ExchangeBeforeTail(lines: seq<Line>, from: nat, to: nat, middle: seq<Line>, tail: seq<Line>)
    requires from <= to <= |lines|
    ensures Exchange(lines + tail, from, to, middle) == Exchange(lines, from, to, middle) + tail
    ensures (lines + tail)[from..to] == lines[from..to]
  {
  }

  lemma ExchangeIntoTail(lines: seq<Line>, from: nat, middle: seq<Line>, tail: seq<Line>, k: nat)
    requires from <= |lines| && k <= |tail|
    ensures Exchange(lines + tail, from, |lines| + k, middle + tail[..k]) ==
      Exchange(lines, from, |lines|, middle) + tail
    ensures (lines + tail)[from..|lines| + k] == lines[from..|lines|] + tail[..k]
  {
    assert (lines + tail)[|lines| + k..] == tail[k..];
    assert tail == tail[..k] + tail[k..];
  }

  lemma StripTailAt(lines: seq<Line>, tail: seq<Line>, k: nat, s: Section, h: nat, end: nat)
    requires SectionAt(lines, s.header, h, end) && h < end <= |lines| && ProperAll(s.assignments)
    requires Quiet(tail, k) && k <= |tail|
    ensures Has(lines + tail, s) && Strip(lines + tail, s) == Strip(lines, s) + tail
  {
    hide *;
    TailSectionAt(lines, tail, k, s.header, h, end);
    StripAt(lines, s, h, end);
    var kept := WithoutAll(lines[h + 1..end], s.assignments);
    if end == |lines| {
      StripAt(lines + tail, s, h, end + k);
      QuietStart(tail, k);
      WithoutAllBlankTail(lines[h + 1..end], tail[..k], s.assignments);
      ExchangeIntoTail(lines, h + 1, kept, tail, k);
    } else {
      StripAt(lines + tail, s, h, end);
      ExchangeBeforeTail(lines, h + 1, end, kept, tail);
    }
  }

  /** What is appended to a file, if it begins with blank lines up to a section, is not stripped. */
  lemma StripTail(lines: seq<Line>, tail: seq<Line>, k: nat, s: Section)
    requires Has(lines, s) && ProperAll(s.assignments) && Quiet(tail, k)
    ensures Has(lines + tail, s) && Strip(lines + tail, s) == Strip(lines, s) + tail
  {
    hide Trim, OpensSection, ProperAll, Strip, WithoutAll;
    FoundAt(lines, s.header);
    var h := FindHeader(lines, s.header);
    StripTailAt(lines, tail, k, s, h, SectionEnd(lines, h + 1));
  }

  lemma QuietStart(tail: seq<Line>, k: nat)
    requires Quiet(tail, k)
    ensures k <= |tail| && Blank(tail[..k])
  {
  }

  // ---------- Two sections are stripped independently ----------

  lemma StripMisses(lines: seq<Line>, s: Section, header: Line)
    requires ProperHeader(header) && FindHeader(lines, header) == |lines|
    ensures FindHeader(Strip(lines, s), header) == |Strip(lines, s)|
  {
    var h := FindHeader(lines, s.header);
    if h < |lines| {
      WithoutAllIsPart(lines[h + 1..SectionEnd(lines, h + 1)], s.assignments);
    }
    hide Trim, OpensSection, WithoutAll, ProperHeader;
    var out := Strip(lines, s);
    forall i | 0 <= i < |out| ensures Trim(out[i]) != header {
      assert out[i] in lines;
      var j :| 0 <= j < |lines| && lines[j] == out[i];
    }
    var f := FindHeader(out, header);
  }

  lemma SectionIsAt(lines: seq<Line>, header: Line, h: nat, end: nat, section: seq<Line>)
    requires SectionIs(lines, header, h, end, section)
    ensures SectionAt(lines, header, h, end) && h < end <= |lines| && lines[h + 1..end] == section
  {
  }

  /** Where two sections stand, one before the other. */
  lemma StripsCommuteInOrder(lines: seq<Line>, a: Section, b: Section, h: nat, end: nat, g: nat, to: nat)
    requires SectionAt(lines, a.header, h, end) && SectionAt(lines, b.header, g, to) && h < end <= g < to <= |lines|
    requires ProperHeader(b.header)
    ensures Has(Strip(lines, b), a) && Has(Strip(lines, a), b)
    ensures Strip(Strip(lines, b), a) == Strip(Strip(lines, a), b)
  {
    hide *;
    SectionOpensNothing(lines, a.header, h, end);
    WithoutOpensNothing(lines[h + 1..end], a.assignments);
    StripAt(lines, a, h, end);
    StripAt(lines, b, g, to);
    var withoutA, withoutB := WithoutAll(lines[h + 1..end], a.assignments), WithoutAll(lines[g + 1..to], b.assignments);
    StripFirst(lines, a, h, end, g, to, withoutB);
    StripSecond(lines, b, h, end, g, to, withoutA);
    ExchangesCommute(lines, h + 1, end, withoutA, g + 1, to, withoutB);
  }

  lemma StripFirst(lines: seq<Line>, s: Section, h: nat, end: nat, g: nat, to: nat, middle: seq<Line>)
    requires SectionAt(lines, s.header, h, end) && h < end <= g < to <= |lines|
    ensures var out := Exchange(lines, g + 1, to, middle);
      Has(out, s) && |out| >= end
      && Strip(out, s) == Exchange(out, h + 1, end, WithoutAll(lines[h + 1..end], s.assignments))
  {
    hide *;
    var out := Exchange(lines, g + 1, to, middle);
    EarlierSectionStays(lines, s.header, h, end, g + 1, to, middle);
    SectionIsAt(out, s.header, h, end, lines[h + 1..end]);
    StripAt(out, s, h, end);
  }

  lemma StripSecond(lines: seq<Line>, s: Section, h: nat, end: nat, g: nat, to: nat, middle: seq<Line>)
    requires SectionAt(lines, s.header, g, to) && h < end <= g < to <= |lines|
    requires ProperHeader(s.header) && NoneOpens(middle)
    ensures var out, shift := Exchange(lines, h + 1, end, middle), h + 1 + |middle| - end;
      && Has(out, s) && 0 <= g + 1 + shift <= to + shift <= |out|
      && Strip(out, s) == Exchange(out, g + 1 + shift, to + shift, WithoutAll(lines[g + 1..to], s.assignments))
  {
    hide *;
    var out, shift := Exchange(lines, h + 1, end, middle), h + 1 + |middle| - end;
    LaterSectionStays(lines, s.header, g, to, h + 1, end, middle);
    SectionIsAt(out, s.header, g + shift, to + shift, lines[g + 1..to]);
    StripAt(out, s, g + shift, to + shift);
  }

  lemma SectionOpensNothing(lines: seq<Line>, header: Line, h: nat, end: nat)
    requires SectionAt(lines, header, h, end)
    ensures NoneOpens(lines[h + 1..end])
  {
    hide Trim, OpensSection;
  }

  lemma ExchangesCommute(lines: seq<Line>, from: nat, to: nat, x: seq<Line>, from2: nat, to2: nat, y: seq<Line>)
    requires from <= to <= from2 <= to2 <= |lines|
    ensures var shift := from + |x| - to;
            && to2 + shift <= |Exchange(lines, from, to, x)|
            && Exchange(Exchange(lines, from2, to2, y), from, to, x) ==
               Exchange(Exchange(lines, from, to, x), from2 + shift, to2 + shift, y)
  {
    var shift := from + |x| - to;
    var left, right := Exchange(lines, from2, to2, y), Exchange(lines, from, to, x);
    assert left[..from] == lines[..from] && left[to..] == lines[to..from2] + y + lines[to2..];
    assert right[..from2 + shift] == lines[..from] + x + lines[to..from2] && right[to2 + shift..] == lines[to2..];
  }

  lemma StripsCommute(lines: seq<Line>, a: Section, b: Section)
    requires ProperSection(a) && ProperSection(b) && a.header != b.header
    ensures Strip(Strip(lines, b), a) == Strip(Strip(lines, a), b)
    ensures Has(Strip(lines, b), a) <==> Has(lines, a)
    ensures Has(Strip(lines, a), b) <==> Has(lines, b)
  {
    hide Trim, OpensSection, WithoutAll, FindHeader, ProperAll, ProperHeader, Strip;
    if !Has(lines, a) {
      StripMisses(lines, b, a.header);
      StripOfMissing(lines, a);
      StripOfMissing(Strip(lines, b), a);
    }
    if !Has(lines, b) {
      StripMisses(lines, a, b.header);
      StripOfMissing(lines, b);
      StripOfMissing(Strip(lines, a), b);
    }
    if Has(lines, a) && Has(lines, b) {
      BothPresentCommute(lines, a, b);
    }
  }

  lemma StripOfMissing(lines: seq<Line>, s: Section)
    requires !Has(lines, s)
    ensures Strip(lines, s) == lines
  {
  }

  lemma BothPresentCommute(lines: seq<Line>, a: Section, b: Section)
    requires ProperSection(a) && ProperSection(b) && a.header != b.header && Has(lines, a) && Has(lines, b)
    ensures Has(Strip(lines, b), a) && Has(Strip(lines, a), b)
    ensures Strip(Strip(lines, b), a) == Strip(Strip(lines, a), b)
  {
    FoundAt(lines, a.header);
    FoundAt(lines, b.header);
    hide Trim, OpensSection, WithoutAll, FindHeader, ProperAll, ProperHeader, Strip;
    var h, g := FindHeader(lines, a.header), FindHeader(lines, b.header);
    var end, to := SectionEnd(lines, h + 1), SectionEnd(lines, g + 1);
    SectionsAreApart(lines, a.header, h, end, b.header, g, to);
    if h < g {
      StripsCommuteInOrder(lines, a, b, h, end, g, to);
    } else {
      StripsCommuteInOrder(lines, b, a, g, to, h, end);
    }
  }

  // ---------- One upsert ----------

  lemma {:induction false} LinesWithoutAll(assignments: seq<Assignment>)
    requires ProperAll(assignments)
    ensures WithoutAll(Lines(assignments), assignments) == []
  {
    PutAllOfLines(assignments);
    PutAllKeepsOthers([], assignments);
    WithoutAllOfNothing(assignments);
  }

  lemma {:induction false} WithoutAllOfNothing(assignments: seq<Assignment>)
    ensures WithoutAll([], assignments) == []
  {
    if assignments != [] {
      WithoutAllOfNothing(assignments[..|assignments| - 1]);
    }
  }

  lemma {:induction false} PutAllOfLines(assignments: seq<Assignment>)
    requires ProperAll(assignments)
    ensures PutAll([], assignments) == Lines(assignments)
  {
    hide Assigns, BareKey, FirstOf;
    if assignments != [] {
      var k := |assignments| - 1;
      PutAllOfLines(assignments[..k]);
      assert Lines(assignments) == Lines(assignments[..k]) + [assignments[k].line];
      forall j | 0 <= j < k ensures !Assigns(assignments[j].line, assignments[k].key) {
        if Assigns(assignments[j].line, assignments[k].key) {
          OneKeyPerLine(assignments[j].line, assignments[j].key, assignments[k].key);
        }
      }
      NoneOf(Lines(assignments[..k]), assignments[k].key);
    }
  }

  /** Stripped of what it assigns, an upsert has added a missing header, and otherwise nothing. */
  lemma UpsertStripped(lines: seq<Line>, s: Section)
    requires ProperSection(s)
    ensures var out := Upsert(lines, s.header, s.assignments);
            && Has(out, s)
            && Strip(out, s) == if Has(lines, s) then Strip(lines, s) else Separated(DropBlankEnd(lines)) + [s.header]
  {
    hide Trim, OpensSection, FindHeader, ProperAll, ProperHeader, PutAll, WithoutAll, DropBlankEnd;
    if Has(lines, s) {
      PresentStripped(lines, s);
    } else {
      AbsentStripped(lines, s);
    }
  }

  lemma PresentStripped(lines: seq<Line>, s: Section)
    requires ProperSection(s) && Has(lines, s)
    ensures var out := Upsert(lines, s.header, s.assignments); Has(out, s) && Strip(out, s) == Strip(lines, s)
  {
    hide Trim, OpensSection, FindHeader, ProperAll, ProperHeader, PutAll, WithoutAll;
    UpsertInPlace(lines, s.header, s.assignments);
    UpsertKeepsOthers(lines, s.header, s.assignments);
  }

  lemma AbsentStripped(lines: seq<Line>, s: Section)
    requires ProperSection(s) && !Has(lines, s)
    ensures var out := Upsert(lines, s.header, s.assignments);
      Has(out, s) && Strip(out, s) == Separated(DropBlankEnd(lines)) + [s.header]
  {
    NoHeaderBefore(lines, s.header);
    LinesPut(s.assignments);
    LinesWithoutAll(s.assignments);
    var before := Separated(DropBlankEnd(lines));
    assert Upsert(lines, s.header, s.assignments) == before + [s.header] + Lines(s.assignments);
    hide *;
    LastStripped(before, s);
  }

  lemma LastStripped(before: seq<Line>, s: Section)
    requires ProperSection(s) && forall j :: 0 <= j < |before| ==> Trim(before[j]) != s.header
    requires NoneOpens(Lines(s.assignments)) && WithoutAll(Lines(s.assignments), s.assignments) == []
    ensures var out := before + [s.header] + Lines(s.assignments); Has(out, s) && Strip(out, s) == before + [s.header]
  {
    hide Trim, OpensSection, ProperAll, WithoutAll, FindHeader;
    var out := before + [s.header] + Lines(s.assignments);
    var h := |before|;
    forall j | h < j < |out| ensures !OpensSection(out[j]) {
      assert out[j] == Lines(s.assignments)[j - h - 1];
    }
    assert Trim(out[h]) == s.header && forall j :: 0 <= j < h ==> out[j] == before[j];
    assert SectionAt(out, s.header, h, |out|);
    StripAt(out, s, h, |out|);
    assert out[h + 1..|out|] == Lines(s.assignments) && out[..h + 1] == before + [s.header] && out[|out|..] == [];
  }

  // ---------- Trailing blank lines ----------

  function Trail(lines: seq<Line>): nat
  {
    BlankEndIsPrefix(lines);
    |lines| - |DropBlankEnd(lines)|
  }

  lemma {:induction false} TrailBehind(lines: seq<Line>, i: nat)
    requires i < |lines| && lines[i] != ""
    ensures Trail(lines) < |lines| - i
  {
    BlankEndIsPrefix(lines);
  }

  lemma {:induction false} TrailIsLast(lines: seq<Line>)
    ensures DropBlankEnd(lines) <= lines && Blank(lines[|lines| - Trail(lines)..])
    ensures Trail(lines) < |lines| ==> lines[|lines| - Trail(lines) - 1] != ""
  {
    BlankEndIsPrefix(lines);
  }

  /** Putting a key never leaves more trailing blank lines than there were. */
  lemma PutTrail(front: seq<Line>, section: seq<Line>, a: Assignment)
    requires front != [] && front[|front| - 1] != "" && Proper(a)
    ensures Trail(front + Put(section, a)) <= Trail(front + section)
  {
    AssignmentOpensNothing(a.line, a.key);
    hide Assigns, BareKey, FirstOf, DropBlankEnd;
    var was, now := front + section, front + Put(section, a);
    TrailIsLast(was);
    if |now| > |was| {
      TrailBehind(now, |now| - 1);
    } else {
      TrailBehind(was, |front| - 1);
      var i := |was| - Trail(was) - 1;
      assert now[i] != "" by {
        assert now[i] == was[i] || now[i] == a.line;
      }
      TrailBehind(now, i);
    }
  }

  lemma {:induction false} PutAllTrail(front: seq<Line>, section: seq<Line>, assignments: seq<Assignment>)
    requires front != [] && front[|front| - 1] != "" && ProperAll(assignments)
    ensures Trail(front + PutAll(section, assignments)) <= Trail(front + section)
  {
    hide Put, Proper, DropBlankEnd, Trail;
    if assignments != [] {
      var k := |assignments| - 1;
      PutAllTrail(front, section, assignments[..k]);
      PutTrail(front, PutAll(section, assignments[..k]), assignments[k]);
    }
  }

  lemma UpsertTrail(lines: seq<Line>, s: Section)
    requires ProperSection(s)
    ensures var out := Upsert(lines, s.header, s.assignments);
      Trail(out) <= if Has(lines, s) then Trail(lines) else 0
  {
    hide PutAll, DropBlankEnd, Trail, FindHeader;
    if Has(lines, s) {
      PresentTrail(lines, s);
    } else {
      AbsentTrail(lines, s);
    }
  }

  lemma AbsentTrail(lines: seq<Line>, s: Section)
    requires ProperSection(s) && !Has(lines, s)
    ensures Trail(Upsert(lines, s.header, s.assignments)) == 0
  {
    var out := Upsert(lines, s.header, s.assignments);
    if s.assignments == [] {
      BlankIsNoHeader(s.header);
    } else {
      var last := s.assignments[|s.assignments| - 1];
      AssignmentOpensNothing(last.line, last.key);
      assert out[|out| - 1] == last.line;
    }
    hide Assigns, BareKey, FindHeader, ProperHeader, Proper;
    TrailBehind(out, |out| - 1);
  }

  lemma PresentTrail(lines: seq<Line>, s: Section)
    requires ProperSection(s) && Has(lines, s)
    ensures Trail(Upsert(lines, s.header, s.assignments)) <= Trail(lines)
  {
    hide Trim, OpensSection, Trail, PutAll, ProperAll, ProperHeader;
    FoundAt(lines, s.header);
    var h := FindHeader(lines, s.header);
    var end := SectionEnd(lines, h + 1);
    TrimOpens(lines[h], s.header);
    if end < |lines| {
      OpensIsNotBlank(lines[end]);
    }
    PutInTrail(lines, h + 1, end, s.assignments);
  }

  lemma PutInTrail(lines: seq<Line>, from: nat, end: nat, assignments: seq<Assignment>)
    requires 0 < from <= end <= |lines| && lines[from - 1] != "" && (end < |lines| ==> lines[end] != "")
    requires ProperAll(assignments)
    ensures Trail(lines[..from] + PutAll(lines[from..end], assignments) + lines[end..]) <= Trail(lines)
  {
    hide *;
    var front, section := lines[..from], lines[from..end];
    var put := PutAll(section, assignments);
    if end == |lines| {
      PutAllTrail(front, section, assignments);
      assert lines == front + section;
      assert front + put + lines[end..] == front + put;
    } else {
      SameEnd(lines, front + put + lines[end..], |lines| - end);
    }
  }

  lemma OpensIsNotBlank(line: Line)
    requires OpensSection(line)
    ensures line != ""
  {
  }

  /** Files with the same last lines, one of them not blank, have the same trailing blank lines. */
  lemma SameEnd(lines: seq<Line>, out: seq<Line>, n: nat)
    requires 0 < n <= |lines| && n <= |out| && lines[|lines| - n..] == out[|out| - n..] && lines[|lines| - n] != ""
    ensures Trail(out) <= Trail(lines)
  {
    hide DropBlankEnd;
    TrailIsLast(lines);
    TrailBehind(lines, |lines| - n);
    var k := Trail(lines) + 1;
    assert lines[|lines| - k] == lines[|lines| - n..][n - k] == out[|out| - n..][n - k] == out[|out| - k];
    TrailBehind(out, |out| - k);
  }

  // ---------- Both upserts ----------

  lemma {:induction false} NonBlankConcat(x: seq<Line>, y: seq<Line>)
    ensures NonBlank(x + y) == NonBlank(x) + NonBlank(y)
    decreases |x|
  {
    if x == [] {
      assert x + y == y;
    } else {
      assert (x + y)[1..] == x[1..] + y;
      NonBlankConcat(x[1..], y);
    }
  }

  lemma {:induction false} NonBlankOfBlank(blanks: seq<Line>)
    requires Blank(blanks)
    ensures NonBlank(blanks) == []
  {
    if blanks != [] {
      NonBlankOfBlank(blanks[1..]);
    }
  }

  lemma NonBlankHeader(s: Section)
    requires ProperHeader(s.header)
    ensures NonBlank([s.header]) == [s.header] && NonBlank(["", s.header]) == [s.header]
  {
    BlankIsNoHeader(s.header);
    hide Trim, OpensSection, ProperHeader;
    assert ["", s.header][1..] == [s.header] && [s.header][1..] == [];
  }

  /** The base, line for line, and then nothing but blank lines and the given headers in their order. */
  predicate Extends(out: seq<Line>, base: seq<Line>, headers: seq<Line>) {
    base <= out && NonBlank(out[|base|..]) == headers
  }

  lemma ExtendsBy(base: seq<Line>, extra: seq<Line>)
    ensures Extends(base + extra, base, NonBlank(extra))
  {
    assert (base + extra)[|base|..] == extra;
  }

  lemma TailHasNot(lines: seq<Line>, tail: seq<Line>, s: Section)
    requires forall i :: 0 <= i < |tail| ==> Trim(tail[i]) != s.header
    ensures Has(lines + tail, s) <==> Has(lines, s)
  {
    hide Trim;
    var all := lines + tail;
    var h, g := FindHeader(lines, s.header), FindHeader(all, s.header);
    assert forall i :: 0 <= i < |lines| ==> all[i] == lines[i];
    assert forall i :: 0 <= i < |tail| ==> all[|lines| + i] == tail[i];
    if h < |lines| {
      FindHeaderIs(all, s.header, h);
    } else {
      forall i | 0 <= i < |all| ensures Trim(all[i]) != s.header {
        assert i < |lines| || all[i] == tail[i - |lines|];
      }
    }
  }

  lemma BlankTailHasNot(lines: seq<Line>, blanks: seq<Line>, s: Section)
    requires Blank(blanks) && ProperHeader(s.header)
    ensures Has(lines + blanks, s) <==> Has(lines, s)
  {
    BlankIsNoHeader(s.header);
    hide Trim, ProperHeader, FindHeader;
    TailHasNot(lines, blanks, s);
  }

  lemma HeaderTailHasNot(lines: seq<Line>, a: Section, b: Section)
    requires ProperHeader(a.header) && ProperHeader(b.header) && a.header != b.header
    ensures Has(Separated(lines) + [a.header], b) <==> Has(lines, b)
  {
    BlankIsNoHeader(b.header);
    assert Trim(a.header) == a.header;
    hide Trim, ProperHeader, FindHeader;
    var tail := (if lines == [] then [] else [""]) + [a.header];
    TailHasNot(lines, tail, b);
    assert Separated(lines) + [a.header] == lines + tail;
  }

  function BlankTail(lines: seq<Line>): seq<Line> {
    BlankEndIsPrefix(lines);
    lines[|DropBlankEnd(lines)|..]
  }

  lemma BlankTailIs(lines: seq<Line>)
    ensures lines == DropBlankEnd(lines) + BlankTail(lines) && Blank(BlankTail(lines))
      && |BlankTail(lines)| == Trail(lines)
  {
    BlankEndIsPrefix(lines);
  }

  lemma StripBlankTail(lines: seq<Line>, blanks: seq<Line>, s: Section)
    requires Has(lines, s) && ProperSection(s) && Blank(blanks)
    ensures Has(lines + blanks, s) && Strip(lines + blanks, s) == Strip(lines, s) + blanks
  {
    hide Has, Strip, ProperHeader, ProperAll, OpensSection;
    assert blanks[..|blanks|] == blanks;
    StripTail(lines, blanks, |blanks|, s);
  }

  lemma OthersBlankTail(lines: seq<Line>, blanks: seq<Line>, a: Section, b: Section)
    requires Has(lines, a) && Has(lines, b) && ProperSection(a) && ProperSection(b) && a.header != b.header
      && Blank(blanks)
    ensures Others(lines + blanks, a, b) == Others(lines, a, b) + blanks
  {
    hide Has, Strip, ProperSection, Blank;
    StripBlankTail(lines, blanks, b);
    StripsCommute(lines, a, b);
    StripBlankTail(Strip(lines, b), blanks, a);
  }

  lemma StripHeaderTail(lines: seq<Line>, header: Line, s: Section)
    requires Has(lines, s) && ProperSection(s) && ProperHeader(header)
    ensures Strip(lines + ["", header], s) == Strip(lines, s) + ["", header]
  {
    assert Quiet(["", header], 1) by {
      assert ["", header][..1] == [""];
    }
    hide Has, Strip, ProperHeader, ProperAll, Quiet;
    StripTail(lines, ["", header], 1, s);
  }

  /** A file after both upserts: what is kept of it, before its trailing blank lines are cut. */
  ghost predicate Kept(lines: seq<Line>, out: seq<Line>, a: Section, b: Section) {
    var base := Others(DropBlankEnd(lines), a, b);
    && Extends(Others(out, a, b), base, Missing(lines, a, b))
    && |base| + Trail(out) <= |Others(out, a, b)|
  }

  lemma KeptBy(lines: seq<Line>, out: seq<Line>, a: Section, b: Section, extra: seq<Line>)
    requires Others(out, a, b) == Others(DropBlankEnd(lines), a, b) + extra
    requires NonBlank(extra) == Missing(lines, a, b) && Trail(out) <= |extra|
    ensures Kept(lines, out, a, b)
  {
    hide Others, Missing, NonBlank, DropBlankEnd, Trail;
    ExtendsBy(Others(DropBlankEnd(lines), a, b), extra);
  }

  /** After the first upsert the second header is there exactly if it was. */
  lemma UpsertHasOther(lines: seq<Line>, a: Section, b: Section)
    requires ProperSection(a) && ProperSection(b) && a.header != b.header
    ensures Has(Upsert(lines, a.header, a.assignments), b) <==> Has(lines, b)
    ensures Has(DropBlankEnd(lines), a) <==> Has(lines, a)
    ensures Has(DropBlankEnd(lines), b) <==> Has(lines, b)
  {
    hide *;
    var out, front := Upsert(lines, a.header, a.assignments), DropBlankEnd(lines);
    ProperParts(a);
    ProperParts(b);
    UpsertStripped(lines, a);
    StripsCommute(out, a, b);
    StripsCommute(lines, a, b);
    BlankTailIs(lines);
    BlankTailHasNot(front, BlankTail(lines), a);
    BlankTailHasNot(front, BlankTail(lines), b);
    HeaderTailHasNot(front, a, b);
  }

  lemma ProperParts(s: Section)
    requires ProperSection(s)
    ensures ProperHeader(s.header) && ProperAll(s.assignments)
  {
  }

  lemma HasIsNotEmpty(lines: seq<Line>, s: Section)
    requires Has(lines, s)
    ensures lines != [] && Separated(lines) == lines + [""]
  {
  }

  lemma MissingIs(lines: seq<Line>, a: Section, b: Section)
    ensures Missing(lines, a, b) ==
      (if Has(lines, a) then [] else [a.header]) + (if Has(lines, b) then [] else [b.header])
  {
  }

  lemma OthersIs(lines: seq<Line>, a: Section, b: Section)
    ensures Others(lines, a, b) == Strip(Strip(lines, b), a)
  {
  }

  lemma BothPresentKept(lines: seq<Line>, a: Section, b: Section)
    requires ProperSection(a) && ProperSection(b) && a.header != b.header && Has(lines, a) && Has(lines, b)
    ensures Kept(lines, UpsertBoth(lines, a, b), a, b)
  {
    hide *;
    var first, front, blanks := Upsert(lines, a.header, a.assignments), DropBlankEnd(lines), BlankTail(lines);
    var out := Upsert(first, b.header, b.assignments);
    assert out == UpsertBoth(lines, a, b) by { BothIs(lines, a, b); }
    UpsertHasOther(lines, a, b);
    UpsertStripped(lines, a);
    UpsertStripped(first, b);
    StripsCommute(first, a, b);
    StripsCommute(lines, a, b);
    OthersIs(out, a, b);
    OthersIs(lines, a, b);
    BlankTailIs(lines);
    OthersBlankTail(front, blanks, a, b);
    NonBlankOfBlank(blanks);
    MissingIs(lines, a, b);
    UpsertTrail(lines, a);
    UpsertTrail(first, b);
    KeptBy(lines, out, a, b, blanks);
  }

  lemma BothIs(lines: seq<Line>, a: Section, b: Section)
    ensures UpsertBoth(lines, a, b) == Upsert(Upsert(lines, a.header, a.assignments), b.header, b.assignments)
  {
  }

  lemma FirstMissingKept(lines: seq<Line>, a: Section, b: Section)
    requires ProperSection(a) && ProperSection(b) && a.header != b.header && !Has(lines, a) && Has(lines, b)
    ensures Kept(lines, UpsertBoth(lines, a, b), a, b)
  {
    hide *;
    var first, front := Upsert(lines, a.header, a.assignments), DropBlankEnd(lines);
    var out := Upsert(first, b.header, b.assignments);
    assert out == UpsertBoth(lines, a, b) by { BothIs(lines, a, b); }
    ProperParts(a);
    UpsertHasOther(lines, a, b);
    UpsertStripped(lines, a);
    UpsertStripped(first, b);
    StripsCommute(first, a, b);
    OthersIs(out, a, b);
    OthersIs(front, a, b);
    HasIsNotEmpty(front, b);
    assert front + [""] + [a.header] == front + ["", a.header];
    StripHeaderTail(front, a.header, b);
    StripsCommute(front, a, b);
    StripOfMissing(front, a);
    NonBlankHeader(a);
    MissingIs(lines, a, b);
    UpsertTrail(lines, a);
    UpsertTrail(first, b);
    KeptBy(lines, out, a, b, ["", a.header]);
  }

  lemma SecondMissingKept(lines: seq<Line>, a: Section, b: Section)
    requires ProperSection(a) && ProperSection(b) && a.header != b.header && Has(lines, a) && !Has(lines, b)
    ensures Kept(lines, UpsertBoth(lines, a, b), a, b)
  {
    hide *;
    var first, front, blanks := Upsert(lines, a.header, a.assignments), DropBlankEnd(lines), BlankTail(lines);
    var out, cut := Upsert(first, b.header, b.assignments), DropBlankEnd(first);
    assert out == UpsertBoth(lines, a, b) by { BothIs(lines, a, b); }
    ProperParts(b);
    ProperParts(a);
    UpsertHasOther(lines, a, b);
    UpsertStripped(lines, a);
    UpsertStripped(first, b);
    OthersIs(out, a, b);
    OthersIs(front, a, b);
    StripOfMissing(front, b);
    BlankTailIs(lines);
    BlankTailIs(first);
    BlankTailHasNot(cut, BlankTail(first), a);
    StripBlankTail(front, blanks, a);
    StripBlankTail(cut, BlankTail(first), a);
    UpsertTrail(lines, a);
    UpsertTrail(first, b);
    var n := |blanks| - |BlankTail(first)|;
    CancelTail(Strip(cut, a), BlankTail(first), Strip(front, a), blanks);
    HasIsNotEmpty(cut, a);
    assert cut + [""] + [b.header] == cut + ["", b.header];
    StripHeaderTail(cut, b.header, a);
    assert Others(out, a, b) == Strip(front, a) + (blanks[..n] + ["", b.header]);
    NonBlankConcat(blanks[..n], ["", b.header]);
    BlankPart(blanks, n);
    NonBlankOfBlank(blanks[..n]);
    NonBlankHeader(b);
    MissingIs(lines, a, b);
    KeptBy(lines, out, a, b, blanks[..n] + ["", b.header]);
  }

  lemma CancelTail(x: seq<Line>, u: seq<Line>, y: seq<Line>, v: seq<Line>)
    requires x + u == y + v && |u| <= |v|
    ensures x == y + v[..|v| - |u|]
  {
    assert (x + u)[..|x|] == x;
    assert (y + v)[..|x|] == y + v[..|v| - |u|];
  }

  lemma BlankPart(blanks: seq<Line>, n: nat)
    requires Blank(blanks) && n <= |blanks|
    ensures Blank(blanks[..n]) && Blank(blanks[n..])
  {
  }

  lemma NoTrail(lines: seq<Line>)
    requires Trail(lines) == 0
    ensures DropBlankEnd(lines) == lines
  {
    BlankEndIsPrefix(lines);
  }

  lemma BothMissingKept(lines: seq<Line>, a: Section, b: Section)
    requires ProperSection(a) && ProperSection(b) && a.header != b.header && !Has(lines, a) && !Has(lines, b)
    ensures Kept(lines, UpsertBoth(lines, a, b), a, b)
  {
    hide *;
    var first, front := Upsert(lines, a.header, a.assignments), DropBlankEnd(lines);
    var out := Upsert(first, b.header, b.assignments);
    assert out == UpsertBoth(lines, a, b) by { BothIs(lines, a, b); }
    ProperParts(a);
    ProperParts(b);
    UpsertHasOther(lines, a, b);
    UpsertStripped(lines, a);
    UpsertStripped(first, b);
    UpsertTrail(lines, a);
    UpsertTrail(first, b);
    NoTrail(first);
    OthersIs(out, a, b);
    OthersIs(front, a, b);
    StripOfMissing(front, b);
    StripOfMissing(front, a);
    HasIsNotEmpty(first, a);
    assert first + [""] + [b.header] == first + ["", b.header];
    StripHeaderTail(first, b.header, a);
    var gap := if front == [] then [] else [""];
    assert Separated(front) == front + gap by { SeparatedIs(front); }
    var extra := gap + [a.header] + ["", b.header];
    assert Others(out, a, b) == front + extra;
    NonBlankConcat(gap + [a.header], ["", b.header]);
    NonBlankConcat(gap, [a.header]);
    GapIsBlank(gap);
    NonBlankOfBlank(gap);
    NonBlankHeader(a);
    NonBlankHeader(b);
    MissingIs(lines, a, b);
    KeptBy(lines, out, a, b, extra);
  }

  lemma SeparatedIs(front: seq<Line>)
    ensures Separated(front) == front + if front == [] then [] else [""]
  {
  }

  lemma GapIsBlank(gap: seq<Line>)
    requires gap == [] || gap == [""]
    ensures Blank(gap)
  {
  }

  lemma UpsertBothKeeps(lines: seq<Line>, a: Section, b: Section)
    requires ProperSection(a) && ProperSection(b) && a.header != b.header
    ensures Kept(lines, UpsertBoth(lines, a, b), a, b)
  {
    hide *;
    if Has(lines, a) {
      if Has(lines, b) {
        BothPresentKept(lines, a, b);
      } else {
        SecondMissingKept(lines, a, b);
      }
    } else {
      if Has(lines, b) {
        FirstMissingKept(lines, a, b);
      } else {
        BothMissingKept(lines, a, b);
      }
    }
  }

  // ---------- The text written ----------

  lemma CuttingKeeps(out: seq<Line>, base: seq<Line>, headers: seq<Line>, a: Section, b: Section)
    requires ProperSection(a) && ProperSection(b) && a.header != b.header && Has(out, a) && Has(out, b)
    requires Extends(Others(out, a, b), base, headers) && |base| + Trail(out) <= |Others(out, a, b)|
    ensures Extends(Others(DropBlankEnd(out) + [""], a, b), base, headers)
  {
    hide Others, Has, ProperSection, DropBlankEnd, Trail, NonBlank, BlankTail, Blank;
    var front, blanks := DropBlankEnd(out), BlankTail(out);
    BlankTailIs(out);
    ProperParts(a);
    ProperParts(b);
    BlankTailHasNot(front, blanks, a);
    BlankTailHasNot(front, blanks, b);
    OthersBlankTail(front, blanks, a, b);
    GapIsBlank([""]);
    OthersBlankTail(front, [""], a, b);
    var all, kept := Others(out, a, b), Others(front, a, b);
    assert all == kept + blanks;
    assert all[|base|..] == kept[|base|..] + blanks;
    NonBlankConcat(kept[|base|..], blanks);
    NonBlankOfBlank(blanks);
    NonBlankConcat(kept[|base|..], [""]);
    NonBlankOfBlank([""]);
    assert (kept + [""])[|base|..] == kept[|base|..] + [""];
  }

  lemma BothHave(lines: seq<Line>, a: Section, b: Section)
    requires BothSet(lines, a, b)
    ensures Has(lines, a) && Has(lines, b)
  {
  }

  /**
   Leave out of both texts the first assignment of each key that is written, and of the old one its trailing
   blank lines: the new text is the old one line for line, and behind it stand only the headers that were
   missing, in their order, and blank lines.
   */
  lemma RegisteringKeepsOthers(raw: string, a: Section, b: Section)
    requires ProperSection(a) && ProperSection(b) && a.header != b.header && SingleLine(a) && SingleLine(b)
    ensures Extends(Others(Split(UpsertServer(raw, a, b)), a, b), Others(DropBlankEnd(Split(raw)), a, b),
      Missing(Split(raw), a, b))
  {
    var lines := Split(raw);
    WrittenLines(raw, a, b);
    var out := UpsertBoth(lines, a, b);
    assert Split(UpsertServer(raw, a, b)) == DropBlankEnd(out) + [""] by {
      assert Tailed(DropBlankEnd(out), []) == DropBlankEnd(out) + [""];
    }
    hide ProperSection, SingleLine, Split, UpsertServer, UpsertBoth, Tailed, Others, Missing, DropBlankEnd, BothSet,
      Extends, Has;
    UpsertBothSets(lines, a, b);
    BothHave(out, a, b);
    UpsertBothKeeps(lines, a, b);
    CuttingKeeps(out, Others(DropBlankEnd(lines), a, b), Missing(lines, a, b), a, b);
  }

  /** So does registering a server: besides its own three lines and headers, the file keeps its lines in order. */
  lemma ServerKeepsOthers(raw: string, section: string, server: Server)
    requires SingleLineServer(section, server)
    ensures var a, b := MainSection(section, server), EnvSection(section, server);
      Extends(Others(Split(UpsertServer(raw, a, b)), a, b), Others(DropBlankEnd(Split(raw)), a, b),
        Missing(Split(raw), a, b))
  {
    hide *;
    SectionsAreProper(section, server);
    SectionsAreSingleLine(section, server);
    RegisteringKeepsOthers(raw, MainSection(section, server), EnvSection(section, server));
  }
}
