/**
 Texts taken apart at a separator and put together again.
 */
module Texts {

  /** The first place of c, or the length of the text if it is not there. */
  function IndexOf(text: string, c: char): (i: nat)
    ensures i <= |text| && c !in text[..i] && (i < |text| ==> text[i] == c)
  {
    if text == "" || text[0] == c then 0 else IndexOf(text[1..], c) + 1
  }

  lemma {:induction false} IndexFound(before: string, rest: string, c: char)
    requires c !in before && (rest == "" || rest[0] == c)
    ensures IndexOf(before + rest, c) == |before|
    decreases before
  {
    if before == "" {
      assert before + rest == rest;
    } else {
      assert (before + rest)[1..] == before[1..] + rest;
      IndexFound(before[1..], rest, c);
    }
  }

  function Join(parts: seq<string>, sep: char): string {
    if parts == [] then ""
    else if |parts| == 1 then parts[0]
    else parts[0] + [sep] + Join(parts[1..], sep)
  }

  function Split(text: string, sep: char): (parts: seq<string>)
    ensures parts != []
    decreases |text|
  {
    var i := IndexOf(text, sep);
    if i == |text| then [text] else [text[..i]] + Split(text[i + 1..], sep)
  }

  lemma SplitStep(first: string, rest: string, sep: char)
    requires sep !in first
    ensures Split(first, sep) == [first]
    ensures Split(first + [sep] + rest, sep) == [first] + Split(rest, sep)
  {
    IndexFound(first, "", sep);
    assert first + "" == first;
    IndexFound(first, [sep] + rest, sep);
    var text := first + [sep] + rest;
    assert text == first + ([sep] + rest);
    assert text[..|first|] == first && text[|first| + 1..] == rest;
  }

  /** Splitting what was joined gives the parts back, if they have no separator in them. */
  lemma {:induction false} SplitJoin(parts: seq<string>, sep: char)
    requires parts != [] && forall i :: 0 <= i < |parts| ==> sep !in parts[i]
    ensures Split(Join(parts, sep), sep) == parts
    decreases parts
  {
    if |parts| == 1 {
      SplitStep(parts[0], "", sep);
      assert [parts[0]] == parts;
    } else {
      SplitStep(parts[0], Join(parts[1..], sep), sep);
      SplitJoin(parts[1..], sep);
      assert [parts[0]] + parts[1..] == parts;
    }
  }

  lemma {:induction false} JoinAppend(parts: seq<string>, last: string, sep: char)
    requires parts != []
    ensures Join(parts + [last], sep) == Join(parts, sep) + ([sep] + last)
    decreases parts
  {
    if |parts| == 1 {
      assert parts + [last] == [parts[0], last];
      assert [parts[0], last][1..] == [last];
      assert parts[0] + [sep] + last == parts[0] + ([sep] + last);
    } else {
      JoinAppend(parts[1..], last, sep);
      assert (parts + [last])[1..] == parts[1..] + [last];
      assert parts[0] + [sep] + (Join(parts[1..], sep) + ([sep] + last)) ==
             parts[0] + [sep] + Join(parts[1..], sep) + ([sep] + last);
    }
  }
}
