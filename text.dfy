/** String operations of Rust's standard library that the modelled code uses,
    on Dafny strings (sequences of Unicode scalar values): the UTF-8 byte
    length that `str::len` reports, `contains`, ASCII `to_lowercase`,
    `repeat`, `join`, and the decimal rendering of integers by `{}`. */
module Text {

  /** Number of bytes the UTF-8 encoding of `c` takes. */
  function CharWidth(c: char): (w: nat)
    ensures 1 <= w <= 4
    ensures w == 1 <==> c as int < 0x80
  {
    if c as int < 0x80 then 1
    else if c as int < 0x800 then 2
    else if c as int < 0x1_0000 then 3
    else 4
  }

  /** `str::len`: the length of `s` in UTF-8 bytes; every character costs
      one to four bytes. */
  function Utf8Len(s: string): (n: nat)
    ensures |s| <= n <= 4 * |s|
  {
    if s == [] then 0 else CharWidth(s[0]) + Utf8Len(s[1..])
  }

  predicate IsAscii(s: string)
  {
    forall i :: 0 <= i < |s| ==> s[i] as int < 0x80
  }

  lemma {:induction false} Utf8LenAppend(a: string, b: string)
    ensures Utf8Len(a + b) == Utf8Len(a) + Utf8Len(b)
  {
    if a == [] {
      assert a + b == b;
    } else {
      assert (a + b)[1..] == a[1..] + b;
      Utf8LenAppend(a[1..], b);
    }
  }

  /** On ASCII text bytes and characters coincide. */
  lemma {:induction false} Utf8LenAscii(s: string)
    requires IsAscii(s)
    ensures Utf8Len(s) == |s|
  {
    if s != [] {
      assert s[0] as int < 0x80;
      Utf8LenAscii(s[1..]);
    }
  }

  /** `str::contains`: `pattern` is a prefix of `text` or of one of its
      suffixes (so the empty pattern occurs in every text). */
  predicate Contains(text: string, pattern: string)
    decreases |text|
  {
    pattern <= text || (text != [] && Contains(text[1..], pattern))
  }

  /** `pattern` is the piece of `text` that starts at position `i`. */
  predicate OccursAt(text: string, pattern: string, i: nat)
  {
    i + |pattern| <= |text| && text[i..i + |pattern|] == pattern
  }

  /** The reference reading of `contains`: some position of `text` starts
      an occurrence of `pattern`. */
  lemma ContainsOccurs(text: string, pattern: string)
    ensures Contains(text, pattern) <==> exists i :: 0 <= i <= |text| && OccursAt(text, pattern, i)
  {
    if Contains(text, pattern) {
      var i := ContainsWitness(text, pattern);
    }
    if exists i :: 0 <= i <= |text| && OccursAt(text, pattern, i) {
      var i :| 0 <= i <= |text| && OccursAt(text, pattern, i);
      OccursContains(text, pattern, i);
    }
  }

  lemma {:induction false} ContainsWitness(text: string, pattern: string) returns (i: nat)
    requires Contains(text, pattern)
    ensures i <= |text| && OccursAt(text, pattern, i)
  {
    if pattern <= text {
      i := 0;
    } else {
      var j := ContainsWitness(text[1..], pattern);
      assert text[j + 1..j + 1 + |pattern|] == text[1..][j..j + |pattern|];
      i := j + 1;
    }
  }

  lemma {:induction false} OccursContains(text: string, pattern: string, i: nat)
    requires OccursAt(text, pattern, i)
    ensures Contains(text, pattern)
  {
    if i > 0 {
      assert text[1..][i - 1..i - 1 + |pattern|] == text[i..i + |pattern|];
      OccursContains(text[1..], pattern, i - 1);
    }
  }

  lemma ContainsEmpty(text: string)
    ensures Contains(text, "")
  {
  }

  /** A pattern longer than the text cannot occur in it. */
  lemma {:induction false} ContainsTooLong(text: string, pattern: string)
    requires |pattern| > |text|
    ensures !Contains(text, pattern)
  {
    if text != [] {
      ContainsTooLong(text[1..], pattern);
    }
  }

  /** Every character of a contained pattern is a character of the text. */
  lemma ContainsChars(text: string, pattern: string, c: char)
    ensures Contains(text, pattern) && c in pattern ==> c in text
  {
    if Contains(text, pattern) && c in pattern {
      var i := ContainsWitness(text, pattern);
      var j :| 0 <= j < |pattern| && pattern[j] == c;
      assert text[i..i + |pattern|][j] == text[i + j];
    }
  }

  /** So a text lacking one of the pattern's characters does not contain it. */
  lemma NotContainsWithout(text: string, pattern: string, c: char)
    requires c in pattern && c !in text
    ensures !Contains(text, pattern)
  {
    ContainsChars(text, pattern, c);
  }

  /** Nothing can start inside `a` when `a` lacks the pattern's first
      character, so only `b` matters. */
  lemma {:induction false} NotContainsConcat(a: string, b: string, pattern: string)
    requires pattern != [] && pattern[0] !in a && !Contains(b, pattern)
    ensures !Contains(a + b, pattern)
  {
    if a != [] {
      assert (a + b)[0] == a[0];
      assert (a + b)[1..] == a[1..] + b;
      NotContainsConcat(a[1..], b, pattern);
    } else {
      assert a + b == b;
    }
  }

  /** `char::to_ascii_lowercase` (and `to_lowercase` restricted to ASCII). */
  function AsciiLower(c: char): (r: char)
    ensures 'A' <= c <= 'Z' ==> r as int == c as int + 32
    ensures !('A' <= c <= 'Z') ==> r == c
    ensures !('A' <= r <= 'Z')
  {
    if 'A' <= c <= 'Z' then (c as int + 32) as char else c
  }

  /** `str::to_lowercase`, character by character, with the ASCII mapping. */
  function ToLower(s: string): (r: string)
    ensures |r| == |s|
    ensures forall i :: 0 <= i < |s| ==> r[i] == AsciiLower(s[i])
  {
    seq(|s|, i requires 0 <= i < |s| => AsciiLower(s[i]))
  }

  lemma ToLowerAppend(a: string, b: string)
    ensures ToLower(a + b) == ToLower(a) + ToLower(b)
  {
  }

  /** A lowercase letter appears in a lowercased text exactly when it, or its
      uppercase form, appears in the text. */
  lemma LowerMember(s: string, c: char)
    requires 'a' <= c <= 'z'
    ensures c in ToLower(s) <==> c in s || (c as int - 32) as char in s
  {
    if c in ToLower(s) {
      var i :| 0 <= i < |s| && ToLower(s)[i] == c;
      assert AsciiLower(s[i]) == c;
    }
    if c in s {
      var i :| 0 <= i < |s| && s[i] == c;
      assert ToLower(s)[i] == c;
    }
    if (c as int - 32) as char in s {
      var i :| 0 <= i < |s| && s[i] == (c as int - 32) as char;
      assert ToLower(s)[i] == c;
    }
  }

  /** Lowercasing twice is lowercasing once. */
  lemma ToLowerIdempotent(s: string)
    ensures ToLower(ToLower(s)) == ToLower(s)
  {
  }

  /** `str::repeat` on a one-character string. */
  function Repeat(c: char, n: nat): (r: string)
    ensures |r| == n
    ensures forall i :: 0 <= i < n ==> r[i] == c
  {
    if n == 0 then [] else [c] + Repeat(c, n - 1)
  }

  lemma RepeatAsciiLen(c: char, n: nat)
    requires c as int < 0x80
    ensures Utf8Len(Repeat(c, n)) == n
  {
    Utf8LenAscii(Repeat(c, n));
  }

  /** `[String]::join(sep)`: the parts in order with `sep` between neighbours. */
  function Join(parts: seq<string>, sep: string): string
  {
    if parts == [] then ""
    else if |parts| == 1 then parts[0]
    else parts[0] + sep + Join(parts[1..], sep)
  }

  /** A part in front of a non-empty list is followed by one separator. */
  lemma JoinCons(x: string, parts: seq<string>, sep: string)
    requires parts != []
    ensures Join([x] + parts, sep) == x + sep + Join(parts, sep)
  {
    assert ([x] + parts)[1..] == parts;
  }

  /** Joining two non-empty lists is joining each and putting one separator
      between them. */
  lemma {:induction false} JoinAppend(a: seq<string>, b: seq<string>, sep: string)
    requires a != [] && b != []
    ensures Join(a + b, sep) == Join(a, sep) + sep + Join(b, sep)
  {
    if |a| == 1 {
      assert (a + b)[1..] == b;
    } else {
      assert (a + b)[1..] == a[1..] + b;
      JoinAppend(a[1..], b, sep);
    }
  }

  function DigitChar(d: nat): (c: char)
    requires d < 10
    ensures '0' <= c <= '9'
  {
    ('0' as int + d) as char
  }

  /** Decimal digits of a natural number, most significant first, no leading zeros. */
  function ShowNat(n: nat): (s: string)
    ensures s != []
    ensures forall i :: 0 <= i < |s| ==> '0' <= s[i] <= '9'
  {
    if n < 10 then [DigitChar(n)] else ShowNat(n / 10) + [DigitChar(n % 10)]
  }

  /** `{}` / `to_string` of an integer: an optional minus sign, then digits. */
  function ShowInt(i: int): (s: string)
    ensures s != []
    ensures s[0] == '-' <==> i < 0
    ensures forall k :: 1 <= k < |s| ==> '0' <= s[k] <= '9'
    ensures i >= 0 ==> '0' <= s[0] <= '9'
  {
    if i < 0 then "-" + ShowNat(-i) else ShowNat(i)
  }

  /** The decimal value of a digit string (reference reading of ShowNat). */
  function ParseNat(s: string): nat
    requires forall i :: 0 <= i < |s| ==> '0' <= s[i] <= '9'
  {
    if s == [] then 0 else ParseNat(s[..|s| - 1]) * 10 + (s[|s| - 1] as int - '0' as int)
  }

  function ParseInt(s: string): int
    requires s != []
    requires forall i :: 1 <= i < |s| ==> '0' <= s[i] <= '9'
    requires s[0] == '-' || '0' <= s[0] <= '9'
  {
    if s[0] == '-' then -(ParseNat(s[1..]) as int) else ParseNat(s)
  }

  lemma {:induction false} ParseShowNat(n: nat)
    ensures ParseNat(ShowNat(n)) == n
  {
    if n >= 10 {
      var s := ShowNat(n);
      assert s[..|s| - 1] == ShowNat(n / 10);
      ParseShowNat(n / 10);
    }
  }

  /** Rendering loses nothing: every integer can be read back from its text. */
  lemma ParseShowInt(i: int)
    ensures ParseInt(ShowInt(i)) == i
  {
    var s := ShowInt(i);
    if i < 0 {
      assert s == "-" + ShowNat(-i);
      assert s[1..] == ShowNat(-i);
      ParseShowNat(-i);
    } else {
      assert s == ShowNat(i);
      ParseShowNat(i);
    }
  }

  /** So the rendering is injective. */
  lemma ShowIntInjective(i: int, j: int)
    requires ShowInt(i) == ShowInt(j)
    ensures i == j
  {
    ParseShowInt(i);
    ParseShowInt(j);
  }

  /** A rendered integer never contains a comma or a space. */
  lemma ShowIntPlain(i: int)
    ensures forall k :: 0 <= k < |ShowInt(i)| ==> ShowInt(i)[k] != ',' && ShowInt(i)[k] != ' '
  {
  }
}
