/** Finding a character in a text, and cutting the text there. */
module Texts {
  import opened Options

  /** The index of the first `c`, or the length of the text. */
  function Find(text: string, c: char): (at: nat)
    ensures at <= |text| && c !in text[..at]
    ensures at < |text| ==> text[at] == c
  {
    if text == [] || text[0] == c then 0 else 1 + Find(text[1..], c)
  }

  lemma {:induction false} FindIs(text: string, c: char, at: nat)
    requires at <= |text| && c !in text[..at]
    requires at < |text| ==> text[at] == c
    ensures Find(text, c) == at
  {
  }

  datatype Halves = Halves(before: string, after: string)

  /** Cuts at the first separator, which is dropped. */
  function SplitOnce(text: string, separator: char): (halves: Option<Halves>)
    ensures halves.None? <==> separator !in text
    ensures halves.Some? ==>
              text == halves.value.before + [separator] + halves.value.after && separator !in halves.value.before
  {
    var at := Find(text, separator);
    if at == |text| then
      assert text[..at] == text;
      None
    else Some(Halves(text[..at], text[at + 1..]))
  }

  lemma {:induction false} SplitOnceIs(before: string, separator: char, after: string)
    requires separator !in before
    ensures SplitOnce(before + [separator] + after, separator) == Some(Halves(before, after))
  {
    var text := before + [separator] + after;
    assert text[..|before|] == before;
    FindIs(text, separator, |before|);
  }
}
