/** Splitting a text at every occurrence of a character. */
module Texts {

  function Split(text: string, at: char): (parts: seq<string>)
    ensures parts != []
  {
    if text == "" then [""]
    else if text[0] == at then [""] + Split(text[1..], at)
    else
      var rest := Split(text[1..], at);
      [[text[0]] + rest[0]] + rest[1..]
  }

  /** The parts hold everything but the character. */
  lemma {:induction false} PartsAreWithout(text: string, at: char)
    ensures forall i :: 0 <= i < |Split(text, at)| ==> at !in Split(text, at)[i]
  {
    if text != "" {
      PartsAreWithout(text[1..], at);
    }
  }

  lemma {:induction false} SplitOfPart(part: string, text: string, at: char)
    requires at !in part
    ensures Split(part + [at] + text, at) == [part] + Split(text, at) && Split(part, at) == [part]
  {
    if part == "" {
      assert part + [at] + text == [at] + text;
    } else {
      SplitOfPart(part[1..], text, at);
      assert (part + [at] + text)[1..] == part[1..] + [at] + text;
      assert [part[0]] + part[1..] == part;
    }
  }
}
