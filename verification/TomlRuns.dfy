/**
 What setting keys in a section achieves: the keys are set, everything else stays, and doing it again
 changes nothing.
 */
module TomlRuns {
  import opened TomlSection

  // ---------- Lines and keys ----------

  lemma {:induction false} SkipSpaceStops(s: string)
    requires s != "" && !IsSpace(s[0])
    ensures SkipSpace(s) == s
  {
  }

  lemma LongerKeyRulesOut(line: Line, a: string, b: string)
    requires BareKey(b) && Assigns(line, b) && |a| < |b| && a <= SkipSpace(line)
    ensures !Assigns(line, a)
  {
    var s := SkipSpace(line);
    assert s[|a|..][0] == s[|a|] == b[|a|];
    SkipSpaceStops(s[|a|..]);
  }

  /** No line assigns two different bare keys. */
  lemma OneKeyPerLine(line: Line, a: string, b: string)
    requires BareKey(a) && BareKey(b) && Assigns(line, a) && Assigns(line, b)
    ensures a == b
  {
    assert a <= SkipSpace(line) && b <= SkipSpace(line);
    hide Assigns, BareKey;
    if |a| < |b| {
      LongerKeyRulesOut(line, a, b);
    } else if |b| < |a| {
      LongerKeyRulesOut(line, b, a);
    }
  }

  lemma AssignmentOpensNothing(line: Line, key: string)
    requires BareKey(key) && Assigns(line, key)
    ensures !OpensSection(line) && line != ""
  {
    assert SkipSpace(line)[0] == key[0];
  }

  lemma {:induction false} FirstOfIs(lines: seq<Line>, key: string, i: nat)
    requires i < |lines| && Assigns(lines[i], key) && forall j :: 0 <= j < i ==> !Assigns(lines[j], key)
    ensures FirstOf(lines, key) == i
  {
    hide Assigns;
    if FirstOf(lines, key) < i {
      assert Assigns(lines[FirstOf(lines, key)], key);
    }
  }

  /** The first assignment of the key is the given line. */
  predicate IsPut(section: seq<Line>, a: Assignment) {
    var i := FirstOf(section, a.key);
    i < |section| && section[i] == a.line
  }

  lemma PutPuts(section: seq<Line>, a: Assignment)
    requires Proper(a)
    ensures IsPut(Put(section, a), a)
  {
    hide Assigns, BareKey;
    FirstOfIs(Put(section, a), a.key, FirstOf(section, a.key));
  }

  lemma PutKeepsOthers(section: seq<Line>, a: Assignment, b: Assignment)
    requires Proper(a) && Proper(b) && a.key != b.key && IsPut(section, a)
    ensures IsPut(Put(section, b), a)
  {
    hide Assigns, BareKey, FirstOf;
    var i, k := FirstOf(section, a.key), FirstOf(section, b.key);
    if k < |section| && k == i {
      OneKeyPerLine(section[i], a.key, b.key);
    }
    if Assigns(b.line, a.key) {
      OneKeyPerLine(b.line, a.key, b.key);
    }
    FirstOfIs(Put(section, b), a.key, i);
  }

  predicate ProperAll(assignments: seq<Assignment>) {
    && (forall i :: 0 <= i < |assignments| ==> Proper(assignments[i]))
    && forall i, j :: 0 <= i < j < |assignments| ==> assignments[i].key != assignments[j].key
  }

  predicate AllPut(section: seq<Line>, assignments: seq<Assignment>) {
    forall i :: 0 <= i < |assignments| ==> IsPut(section, assignments[i])
  }

  lemma {:induction false} PutAllPuts(section: seq<Line>, assignments: seq<Assignment>)
    requires ProperAll(assignments)
    ensures AllPut(PutAll(section, assignments), assignments)
  {
    hide Proper, IsPut, Put;
    if assignments != [] {
      var k := |assignments| - 1;
      PutAllPuts(section, assignments[..k]);
      var before := PutAll(section, assignments[..k]);
      PutPuts(before, assignments[k]);
      forall i | 0 <= i < k ensures IsPut(Put(before, assignments[k]), assignments[i]) {
        assert assignments[..k][i] == assignments[i];
        PutKeepsOthers(before, assignments[i], assignments[k]);
      }
    }
  }

  lemma {:induction false} PutAllOfPut(section: seq<Line>, assignments: seq<Assignment>)
    requires AllPut(section, assignments)
    ensures PutAll(section, assignments) == section
  {
    hide FirstOf;
    if assignments != [] {
      var k := |assignments| - 1;
      PutAllOfPut(section, assignments[..k]);
      assert IsPut(section, assignments[k]);
    }
  }

  // ---------- Everything else stays ----------

  function Cut(section: seq<Line>, i: nat): seq<Line>
    requires i < |section|
  {
    section[..i] + section[i + 1..]
  }

  function Without(section: seq<Line>, key: string): seq<Line> {
    var i := FirstOf(section, key);
    if i < |section| then Cut(section, i) else section
  }

  function WithoutAll(section: seq<Line>, assignments: seq<Assignment>): seq<Line> {
    if assignments == [] then section
    else Without(WithoutAll(section, assignments[..|assignments| - 1]), assignments[|assignments| - 1].key)
  }

  lemma PutThenWithout(section: seq<Line>, a: Assignment)
    requires Proper(a)
    ensures Without(Put(section, a), a.key) == Without(section, a.key)
  {
    hide Assigns, BareKey;
    FirstOfIs(Put(section, a), a.key, FirstOf(section, a.key));
  }

  lemma NoneOf(lines: seq<Line>, key: string)
    requires forall j :: 0 <= j < |lines| ==> !Assigns(lines[j], key)
    ensures FirstOf(lines, key) == |lines|
  {
    hide Assigns;
    var i := FirstOf(lines, key);
  }

  /** The first line that assigns a key is still the first after another key has been put. */
  lemma FirstAfterPut(section: seq<Line>, key: string, b: Assignment)
    requires BareKey(key) && Proper(b) && key != b.key
    ensures var i, put := FirstOf(section, key), Put(section, b);
      FirstOf(put, key) == if i < |section| then i else |put|
    ensures FirstOf(section, key) < |section| ==> FirstOf(section, key) != FirstOf(section, b.key)
  {
    var i, k := FirstOf(section, key), FirstOf(section, b.key);
    hide Assigns, BareKey, FirstOf;
    if Assigns(b.line, key) {
      OneKeyPerLine(b.line, key, b.key);
    }
    if i < |section| && i == k {
      OneKeyPerLine(section[i], key, b.key);
    }
    if i < |section| {
      FirstOfIs(Put(section, b), key, i);
    } else {
      NoneOf(Put(section, b), key);
    }
  }

  /** And so it is, at its new place, after the first line of another key has been taken out. */
  lemma FirstAfterWithout(section: seq<Line>, i: nat, key: string)
    requires i < |section| && i != FirstOf(section, key)
    ensures var k, less := FirstOf(section, key), Cut(section, i);
      |less| == |section| - 1 && FirstOf(less, key) == if k == |section| then |less| else if k < i then k else k - 1
  {
    hide Assigns, FirstOf;
    var k, less := FirstOf(section, key), Cut(section, i);
    if k < |section| {
      FirstOfIs(less, key, if k < i then k else k - 1);
    } else {
      NoneOf(less, key);
    }
  }

  lemma CutAndUpdate(section: seq<Line>, i: nat, k: nat, line: Line)
    requires i < |section| && k < |section| && i != k
    ensures Cut(section[k := line], i) == Cut(section, i)[if k < i then k else k - 1 := line]
  {
  }

  lemma CutAndAppend(section: seq<Line>, i: nat, line: Line)
    requires i < |section|
    ensures Cut(section + [line], i) == Cut(section, i) + [line]
  {
  }

  lemma WithoutIsCut(section: seq<Line>, key: string)
    ensures Without(section, key) ==
      if FirstOf(section, key) < |section| then Cut(section, FirstOf(section, key)) else section
  {
  }

  lemma PutIs(section: seq<Line>, a: Assignment)
    ensures Put(section, a) ==
      if FirstOf(section, a.key) < |section| then section[FirstOf(section, a.key) := a.line] else section + [a.line]
  {
  }

  /** Putting one key and taking out another can be done in either order. */
  lemma WithoutThenPut(section: seq<Line>, key: string, b: Assignment)
    requires BareKey(key) && Proper(b) && key != b.key
    ensures Without(Put(section, b), key) == Put(Without(section, key), b)
  {
    hide *;
    FirstAfterPut(section, key, b);
    PutIs(section, b);
    WithoutIsCut(section, key);
    WithoutIsCut(Put(section, b), key);
    PutIs(Without(section, key), b);
    var i, k := FirstOf(section, key), FirstOf(section, b.key);
    if i < |section| {
      FirstAfterWithout(section, i, b.key);
      if k < |section| {
        CutAndUpdate(section, i, k, b.line);
      } else {
        CutAndAppend(section, i, b.line);
      }
    }
  }

  lemma {:induction false} PutCommutes(section: seq<Line>, assignments: seq<Assignment>, b: Assignment)
    requires ProperAll(assignments) && Proper(b) && forall i :: 0 <= i < |assignments| ==> assignments[i].key != b.key
    ensures WithoutAll(Put(section, b), assignments) == Put(WithoutAll(section, assignments), b)
  {
    hide Without, Put, Assigns;
    if assignments != [] {
      var k := |assignments| - 1;
      PutCommutes(section, assignments[..k], b);
      WithoutThenPut(WithoutAll(section, assignments[..k]), assignments[k].key, b);
    }
  }

  /** Apart from the first assignment of each key, the section keeps its lines in their order. */
  lemma {:induction false} PutAllKeepsOthers(section: seq<Line>, assignments: seq<Assignment>)
    requires ProperAll(assignments)
    ensures WithoutAll(PutAll(section, assignments), assignments) == WithoutAll(section, assignments)
  {
    hide Without, Put, Proper;
    if assignments != [] {
      var k := |assignments| - 1;
      var front, last := assignments[..k], assignments[k];
      PutAllKeepsOthers(section, front);
      PutCommutes(PutAll(section, front), front, last);
      PutThenWithout(WithoutAll(section, front), last);
    }
  }

  // ---------- A section inside a file ----------

  /** A header line as the program writes it. */
  predicate ProperHeader(header: Line) {
    Trim(header) == header && OpensSection(header)
  }

  function SectionOf(lines: seq<Line>, header: Line): seq<Line>
    requires FindHeader(lines, header) < |lines|
  {
    var h := FindHeader(lines, header);
    lines[h + 1..SectionEnd(lines, h + 1)]
  }

  /** The file has the section, and in it each key is first assigned as given. */
  predicate IsSet(lines: seq<Line>, header: Line, assignments: seq<Assignment>) {
    FindHeader(lines, header) < |lines| && AllPut(SectionOf(lines, header), assignments)
  }

  lemma {:induction false} FindHeaderIs(lines: seq<Line>, header: Line, i: nat)
    requires i < |lines| && Trim(lines[i]) == header && forall j :: 0 <= j < i ==> Trim(lines[j]) != header
    ensures FindHeader(lines, header) == i
  {
    hide Trim;
    if FindHeader(lines, header) < i {
      assert Trim(lines[FindHeader(lines, header)]) == header;
    }
  }

  lemma SectionEndIs(lines: seq<Line>, from: nat, end: nat)
    requires from <= end <= |lines| && (end < |lines| ==> OpensSection(lines[end]))
    requires forall j :: from <= j < end ==> !OpensSection(lines[j])
    ensures SectionEnd(lines, from) == end
  {
    hide OpensSection;
    var e := SectionEnd(lines, from);
    assert e < |lines| ==> OpensSection(lines[e]);
  }

  lemma {:induction false} PutAllOpensNothing(section: seq<Line>, assignments: seq<Assignment>)
    requires ProperAll(assignments) && forall j :: 0 <= j < |section| ==> !OpensSection(section[j])
    ensures forall j :: 0 <= j < |PutAll(section, assignments)| ==> !OpensSection(PutAll(section, assignments)[j])
  {
    hide OpensSection, Assigns, BareKey;
    if assignments != [] {
      var k := |assignments| - 1;
      PutAllOpensNothing(section, assignments[..k]);
      AssignmentOpensNothing(assignments[k].line, assignments[k].key);
    }
  }

  /** Setting keys in a section the file has: the rest of the file stays line for line. */
  lemma UpsertInPlace(lines: seq<Line>, header: Line, assignments: seq<Assignment>)
    requires ProperAll(assignments) && FindHeader(lines, header) < |lines|
    ensures var out, h := Upsert(lines, header, assignments), FindHeader(lines, header);
            && FindHeader(out, header) == h && out[..h + 1] == lines[..h + 1]
            && SectionOf(out, header) == PutAll(SectionOf(lines, header), assignments)
            && out[SectionEnd(out, h + 1)..] == lines[SectionEnd(lines, h + 1)..]
  {
    hide OpensSection, Trim, PutAll, ProperAll, FindHeader;
    var h := FindHeader(lines, header);
    var e := SectionEnd(lines, h + 1);
    var section := PutAll(lines[h + 1..e], assignments);
    var out := lines[..h + 1] + section + lines[e..];
    PutAllOpensNothing(lines[h + 1..e], assignments);
    FindHeaderIs(out, header, h);
    assert e < |lines| ==> out[h + 1 + |section|] == lines[e];
    forall j | h + 1 <= j < h + 1 + |section| ensures !OpensSection(out[j]) {
      assert out[j] == section[j - (h + 1)];
    }
    SectionEndIs(out, h + 1, h + 1 + |section|);
  }

  lemma {:induction false} BlankEndIsPrefix(lines: seq<Line>)
    ensures DropBlankEnd(lines) <= lines
    ensures forall j :: |DropBlankEnd(lines)| <= j < |lines| ==> lines[j] == ""
    ensures DropBlankEnd(lines) != [] ==> DropBlankEnd(lines)[|DropBlankEnd(lines)| - 1] != ""
  {
    if lines != [] && lines[|lines| - 1] == "" {
      BlankEndIsPrefix(lines[..|lines| - 1]);
    }
  }

  lemma LinesPut(assignments: seq<Assignment>)
    requires ProperAll(assignments)
    ensures AllPut(Lines(assignments), assignments)
    ensures forall j :: 0 <= j < |assignments| ==> !OpensSection(Lines(assignments)[j])
  {
    hide Assigns, BareKey, OpensSection;
    forall i | 0 <= i < |assignments| ensures IsPut(Lines(assignments), assignments[i]) {
      forall j | 0 <= j < i ensures !Assigns(Lines(assignments)[j], assignments[i].key) {
        if Assigns(assignments[j].line, assignments[i].key) {
          OneKeyPerLine(assignments[j].line, assignments[j].key, assignments[i].key);
        }
      }
      FirstOfIs(Lines(assignments), assignments[i].key, i);
    }
    forall j | 0 <= j < |assignments| ensures !OpensSection(Lines(assignments)[j]) {
      AssignmentOpensNothing(assignments[j].line, assignments[j].key);
    }
  }

  lemma BlankIsNoHeader(header: Line)
    requires ProperHeader(header)
    ensures Trim("") != header && header != ""
  {
  }

  lemma LastSection(before: seq<Line>, header: Line, tail: seq<Line>)
    requires ProperHeader(header)
    requires forall j :: 0 <= j < |before| ==> Trim(before[j]) != header
    requires forall j :: 0 <= j < |tail| ==> !OpensSection(tail[j])
    ensures var out := before + [header] + tail;
            FindHeader(out, header) == |before| && SectionOf(out, header) == tail
  {
    hide OpensSection, Trim, FindHeader;
    var out := before + [header] + tail;
    FindHeaderIs(out, header, |before|);
    forall j | |before| + 1 <= j < |out| ensures !OpensSection(out[j]) {
      assert out[j] == tail[j - (|before| + 1)];
    }
    SectionEndIs(out, |before| + 1, |out|);
  }

  function Separated(front: seq<Line>): seq<Line> {
    front + (if front == [] then [] else [""])
  }

  lemma NoHeaderBefore(lines: seq<Line>, header: Line)
    requires ProperHeader(header) && FindHeader(lines, header) == |lines|
    ensures forall j :: 0 <= j < |Separated(DropBlankEnd(lines))| ==> Trim(Separated(DropBlankEnd(lines))[j]) != header
  {
    BlankIsNoHeader(header);
    BlankEndIsPrefix(lines);
    hide Trim, FindHeader, ProperHeader;
    var before := Separated(DropBlankEnd(lines));
    forall j | 0 <= j < |before| ensures Trim(before[j]) != header {
      assert j < |DropBlankEnd(lines)| ==> before[j] == lines[j];
    }
  }

  /** Adding the section at the end: all lines but trailing blank ones come first, in order. */
  lemma UpsertAtEnd(lines: seq<Line>, header: Line, assignments: seq<Assignment>)
    requires ProperAll(assignments) && ProperHeader(header) && FindHeader(lines, header) == |lines|
    ensures var out := Upsert(lines, header, assignments);
            && DropBlankEnd(lines) <= out
            && FindHeader(out, header) + 1 + |assignments| == |out|
            && SectionOf(out, header) == Lines(assignments)
  {
    LinesPut(assignments);
    NoHeaderBefore(lines, header);
    hide OpensSection, Trim, ProperAll, ProperHeader, DropBlankEnd, FindHeader, SectionOf;
    var before := Separated(DropBlankEnd(lines));
    LastSection(before, header, Lines(assignments));
    assert Upsert(lines, header, assignments) == before + [header] + Lines(assignments);
  }

  /** After setting them, the keys are set; and setting them again changes nothing. */
  lemma UpsertSets(lines: seq<Line>, header: Line, assignments: seq<Assignment>)
    requires ProperAll(assignments) && ProperHeader(header)
    ensures IsSet(Upsert(lines, header, assignments), header, assignments)
    ensures Upsert(Upsert(lines, header, assignments), header, assignments) == Upsert(lines, header, assignments)
  {
    hide OpensSection, Trim, ProperAll, ProperHeader, PutAll, Upsert, AllPut, FindHeader;
    if FindHeader(lines, header) < |lines| {
      UpsertInPlace(lines, header, assignments);
      PutAllPuts(SectionOf(lines, header), assignments);
    } else {
      UpsertAtEnd(lines, header, assignments);
      LinesPut(assignments);
    }
    SetStays(Upsert(lines, header, assignments), header, assignments);
  }

  lemma SetStays(lines: seq<Line>, header: Line, assignments: seq<Assignment>)
    requires IsSet(lines, header, assignments)
    ensures Upsert(lines, header, assignments) == lines
  {
    hide OpensSection, Trim, AllPut, FindHeader;
    PutAllOfPut(SectionOf(lines, header), assignments);
    var h := FindHeader(lines, header);
    var e := SectionEnd(lines, h + 1);
    assert lines == lines[..h + 1] + lines[h + 1..e] + lines[e..];
  }

  /** And the other lines of the section are still there, in their order. */
  lemma UpsertKeepsOthers(lines: seq<Line>, header: Line, assignments: seq<Assignment>)
    requires ProperAll(assignments) && FindHeader(lines, header) < |lines|
    ensures FindHeader(Upsert(lines, header, assignments), header) < |Upsert(lines, header, assignments)|
    ensures WithoutAll(SectionOf(Upsert(lines, header, assignments), header), assignments) ==
            WithoutAll(SectionOf(lines, header), assignments)
  {
    hide OpensSection, Trim, ProperAll, PutAll, WithoutAll, Upsert, FindHeader;
    UpsertInPlace(lines, header, assignments);
    PutAllKeepsOthers(SectionOf(lines, header), assignments);
  }
}
