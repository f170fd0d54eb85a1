/** Setting keys inside one section of a line-based file, and the file's shape when it is done. */
module TomlSection {

  type Line = string

  predicate IsSpace(c: char) {
    c in {' ', '\t', '\n', '\r', '\U{B}', '\U{C}', '\U{A0}', '\U{1680}', '\U{2028}', '\U{2029}', '\U{202F}', '\U{205F}',
      '\U{3000}', '\U{FEFF}'}
    || '\U{2000}' <= c <= '\U{200A}'
  }

  function SkipSpace(s: string): string {
    if s != "" && IsSpace(s[0]) then SkipSpace(s[1..]) else s
  }

  function DropSpace(s: string): string {
    if s != "" && IsSpace(s[|s| - 1]) then DropSpace(s[..|s| - 1]) else s
  }

  function Trim(s: string): string {
    DropSpace(SkipSpace(s))
  }

  predicate OpensSection(line: Line) {
    SkipSpace(line) != "" && SkipSpace(line)[0] == '['
  }

  /** A line that assigns `key`, spaces aside. */
  predicate Assigns(line: Line, key: string) {
    var s := SkipSpace(line);
    key <= s && SkipSpace(s[|key|..]) != "" && SkipSpace(s[|key|..])[0] == '='
  }

  datatype Assignment = Assignment(key: string, line: Line)

  /** A bare key: no spaces and no equals sign, so no line assigns it and another one. */
  predicate BareKey(key: string) {
    key != "" && key[0] != '[' && forall i :: 0 <= i < |key| ==> !IsSpace(key[i]) && key[i] != '='
  }

  predicate Proper(a: Assignment) {
    BareKey(a.key) && Assigns(a.line, a.key)
  }

  // ---------- The section as a list ----------

  /** The index of the first line that assigns `key`, or the length. */
  function FirstOf(lines: seq<Line>, key: string): (i: nat)
    ensures i <= |lines|
    ensures i < |lines| ==> Assigns(lines[i], key)
    ensures forall j :: 0 <= j < i ==> !Assigns(lines[j], key)
  {
    if lines == [] then 0 else if Assigns(lines[0], key) then 0 else 1 + FirstOf(lines[1..], key)
  }

  function Put(section: seq<Line>, a: Assignment): seq<Line> {
    var i := FirstOf(section, a.key);
    if i < |section| then section[i := a.line] else section + [a.line]
  }

  function PutAll(section: seq<Line>, assignments: seq<Assignment>): seq<Line> {
    if assignments == [] then section
    else Put(PutAll(section, assignments[..|assignments| - 1]), assignments[|assignments| - 1])
  }

  function FindHeader(lines: seq<Line>, header: Line): (i: nat)
    ensures i <= |lines|
    ensures i < |lines| ==> Trim(lines[i]) == header
    ensures forall j :: 0 <= j < i ==> Trim(lines[j]) != header
  {
    if lines == [] then 0 else if Trim(lines[0]) == header then 0 else 1 + FindHeader(lines[1..], header)
  }

  /** Where the section starting at `from` ends: at the next line that opens one. */
  function SectionEnd(lines: seq<Line>, from: nat): (i: nat)
    requires from <= |lines|
    ensures from <= i <= |lines|
    ensures i < |lines| ==> OpensSection(lines[i])
    ensures forall j :: from <= j < i ==> !OpensSection(lines[j])
    decreases |lines| - from
  {
    if from == |lines| || OpensSection(lines[from]) then from else SectionEnd(lines, from + 1)
  }

  function DropBlankEnd(lines: seq<Line>): seq<Line> {
    if lines != [] && lines[|lines| - 1] == "" then DropBlankEnd(lines[..|lines| - 1]) else lines
  }

  function Lines(assignments: seq<Assignment>): (lines: seq<Line>)
    ensures |lines| == |assignments|
  {
    seq(|assignments|, i requires 0 <= i < |assignments| => assignments[i].line)
  }

  function Upsert(lines: seq<Line>, header: Line, assignments: seq<Assignment>): seq<Line> {
    var h := FindHeader(lines, header);
    if h == |lines| then
      var front := DropBlankEnd(lines);
      front + (if front == [] then [] else [""]) + [header] + Lines(assignments)
    else
      var end := SectionEnd(lines, h + 1);
      lines[..h + 1] + PutAll(lines[h + 1..end], assignments) + lines[end..]
  }

  method FindFirst(out: seq<Line>, from: nat, to: nat, key: string) returns (i: nat)
    requires from <= to <= |out|
    ensures i == from + FirstOf(out[from..to], key)
  {
    i := from;
    while i < to && !Assigns(out[i], key)
      invariant from <= i <= to
      invariant from + FirstOf(out[from..to], key) == i + FirstOf(out[i..to], key)
    {
      assert out[i..to][1..] == out[i + 1..to];
      i := i + 1;
    }
  }

  method AppendSection(lines: seq<Line>, header: Line, assignments: seq<Assignment>) returns (out: seq<Line>)
    requires FindHeader(lines, header) == |lines|
    ensures out == Upsert(lines, header, assignments)
  {
    out := lines;
    while out != [] && out[|out| - 1] == ""
      invariant DropBlankEnd(out) == DropBlankEnd(lines)
      decreases |out|
    {
      out := out[..|out| - 1];
    }
    out := out + (if out == [] then [] else [""]) + [header] + Lines(assignments);
  }

  /** Three consecutive parts of a file: up to and including the header, the section, and the rest. */
  ghost predicate Parts(out: seq<Line>, start: nat, end: nat, front: seq<Line>, section: seq<Line>, back: seq<Line>) {
    start <= end <= |out| && out[..start] == front && out[start..end] == section && out[end..] == back
  }

  /** Replaces the first assignment of the key, or splices one in at the end of the section. */
  method PutOne(lines: seq<Line>, start: nat, end: nat, a: Assignment,
                ghost front: seq<Line>, ghost section: seq<Line>, ghost back: seq<Line>)
    returns (out: seq<Line>, newEnd: nat)
    requires Parts(lines, start, end, front, section, back)
    ensures Parts(out, start, newEnd, front, Put(section, a), back)
  {
    hide Assigns;
    var i := FindFirst(lines, start, end, a.key);
    if i < end {
      out, newEnd := lines[i := a.line], end;
      assert out[start..end] == section[i - start := a.line];
      assert out[..start] == front && out[end..] == back;
    } else {
      out, newEnd := lines[..end] + [a.line] + lines[end..], end + 1;
      Splice(lines, start, end, a.line);
    }
  }

  lemma Splice(lines: seq<Line>, start: nat, end: nat, line: Line)
    requires start <= end <= |lines|
    ensures var out := lines[..end] + [line] + lines[end..];
      out[..start] == lines[..start] && out[start..end + 1] == lines[start..end] + [line]
        && out[end + 1..] == lines[end..]
  {
  }

  /** Splices the assignments into the section in place. */
  method UpsertTomlSection(lines: seq<Line>, header: Line, assignments: seq<Assignment>) returns (out: seq<Line>)
    ensures out == Upsert(lines, header, assignments)
  {
    hide Assigns, Parts, Put, OpensSection, Trim;
    var existing := FindHeader(lines, header);
    if existing == |lines| {
      out := AppendSection(lines, header, assignments);
      return;
    }
    var end: nat := existing + 1;
    while end < |lines| && !OpensSection(lines[end])
      invariant existing + 1 <= end <= |lines|
      invariant SectionEnd(lines, end) == SectionEnd(lines, existing + 1)
    {
      end := end + 1;
    }
    out := lines;
    ghost var front, section, back := lines[..existing + 1], lines[existing + 1..end], lines[end..];
    assert Parts(out, existing + 1, end, front, section, back) by { PartsOf(lines, existing + 1, end); }
    for n := 0 to |assignments|
      invariant Parts(out, existing + 1, end, front, PutAll(section, assignments[..n]), back)
    {
      assert assignments[..n + 1][..n] == assignments[..n];
      out, end := PutOne(out, existing + 1, end, assignments[n], front, PutAll(section, assignments[..n]), back);
    }
    assert assignments[..|assignments|] == assignments;
    PartsMakeUp(out, existing + 1, end, front, PutAll(section, assignments), back);
  }

  lemma PartsOf(lines: seq<Line>, start: nat, end: nat)
    requires start <= end <= |lines|
    ensures Parts(lines, start, end, lines[..start], lines[start..end], lines[end..])
  {
  }

  lemma PartsMakeUp(out: seq<Line>, start: nat, end: nat, front: seq<Line>, section: seq<Line>, back: seq<Line>)
    requires Parts(out, start, end, front, section, back)
    ensures out == front + section + back
  {
    assert out == out[..start] + out[start..end] + out[end..];
  }
}
