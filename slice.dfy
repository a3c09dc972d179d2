/** String and array slices of the ownership chapter. Indices into a `&str`
    count bytes; the texts here are ASCII, where bytes and characters
    coincide, and `first_word` looks for the byte `b' '`, which in UTF-8
    only ever encodes the space character itself. */
module Slice {
  import opened Text

  /** `first_word`: scans for the first space and returns what precedes
      it, or the whole string when it has none. */
  method FirstWord(s: string) returns (word: string)
    ensures word <= s
    ensures ' ' !in word
    ensures |word| < |s| ==> s[|word|] == ' '
  {
    var i := 0;
    while i < |s|
      invariant 0 <= i <= |s|
      invariant forall j :: 0 <= j < i ==> s[j] != ' '
    {
      if s[i] == ' ' {
        word := s[..i];
        return;
      }
      i := i + 1;
    }
    word := s;
  }

  /** The conditions `FirstWord` ensures pick one answer: the prefix before
      the first space. */
  lemma FirstWordUnique(s: string, w1: string, w2: string)
    requires w1 <= s && ' ' !in w1 && (|w1| < |s| ==> s[|w1|] == ' ')
    requires w2 <= s && ' ' !in w2 && (|w2| < |s| ==> s[|w2|] == ' ')
    ensures w1 == w2
  {
    assert forall j :: 0 <= j < |w1| ==> s[j] == w1[j] != ' ';
    assert forall j :: 0 <= j < |w2| ==> s[j] == w2[j] != ' ';
  }

  /** demo_2: the first word of "hello world". */
  method FirstWordDemo() returns (word: string)
    ensures word == "hello"
  {
    var s := "hello world";
    word := FirstWord(s);
    assert s[..5] == "hello" && s[5] == ' ';
    FirstWordUnique(s, word, "hello");
  }

  /** demo_1: `&s[0..5]` and `&s[6..]` of "hello world". */
  lemma FixedSlices()
    ensures "hello world"[0..5] == "hello" && "hello world"[6..] == "world"
  {
  }

  /** demo_3: `&a[1..3]` of `[1, 2, 3, 4, 5]`. */
  method ArraySlice() returns (slice: seq<int>)
    ensures slice == [2, 3]
  {
    var a := new int[5] [1, 2, 3, 4, 5];
    slice := a[1..3];
  }
}
