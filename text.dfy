/** ASCII string helpers standing in for the Python `str` methods the core calls. */
module Text {

  predicate IsAsciiDigit(c: char) {
    '0' <= c <= '9'
  }

  predicate IsAsciiLetter(c: char) {
    'a' <= c <= 'z' || 'A' <= c <= 'Z'
  }

  predicate IsAsciiAlnumChar(c: char) {
    IsAsciiDigit(c) || IsAsciiLetter(c)
  }

  /** `str.isalnum()` restricted to ASCII: at least one character, and every character a letter or digit. */
  predicate IsAlnum(s: string) {
    |s| > 0 && forall i :: 0 <= i < |s| ==> IsAsciiAlnumChar(s[i])
  }

  function LowerChar(c: char): (r: char)
    ensures 'A' <= c <= 'Z' ==> r as int == c as int + 32
    ensures !('A' <= c <= 'Z') ==> r == c
  {
    if 'A' <= c <= 'Z' then (c as int + 32) as char else c
  }

  /** `str.lower()` restricted to ASCII. */
  function Lower(s: string): (r: string)
  {
    if s == [] then [] else [LowerChar(s[0])] + Lower(s[1..])
  }

  /** `s.replace(c, '')`: every occurrence of `c` removed. */
  function Remove(s: string, c: char): (r: string)
  {
    if s == [] then [] else (if s[0] == c then [] else [s[0]]) + Remove(s[1..], c)
  }

  predicate StartsWith(s: string, prefix: string) {
    |prefix| <= |s| && s[..|prefix|] == prefix
  }

  /** Lowering keeps the length and lowers each character in place. */
  lemma {:induction false} LowerAt(s: string)
    ensures |Lower(s)| == |s|
    ensures forall i :: 0 <= i < |s| ==> Lower(s)[i] == LowerChar(s[i])
  {
    if s != [] {
      LowerAt(s[1..]);
    }
  }

  /** Lowering an already lowered string changes nothing. */
  lemma {:induction false} LowerIdempotent(s: string)
    ensures Lower(Lower(s)) == Lower(s)
  {
    if s != [] {
      LowerIdempotent(s[1..]);
    }
  }

  /** Removal keeps exactly the characters of `s` other than `c`. */
  lemma {:induction false} RemoveSpec(s: string, c: char)
    ensures forall x :: x in Remove(s, c) <==> x in s && x != c
    ensures |Remove(s, c)| <= |s|
  {
    if s != [] {
      RemoveSpec(s[1..], c);
      assert s == [s[0]] + s[1..];
    }
  }

  lemma {:induction false} LowerAppend(a: string, b: string)
    ensures Lower(a + b) == Lower(a) + Lower(b)
  {
    if a == [] {
      assert a + b == b;
    } else {
      assert (a + b)[1..] == a[1..] + b;
      LowerAppend(a[1..], b);
    }
  }

  /** Lowering commutes with removing a character that is not an upper-case letter. */
  lemma {:induction false} LowerRemoveCommute(s: string, c: char)
    requires !('A' <= c <= 'Z') && !('a' <= c <= 'z')
    ensures Lower(Remove(s, c)) == Remove(Lower(s), c)
  {
    if s != [] {
      LowerRemoveCommute(s[1..], c);
      var l := Lower(s);
      assert l[0] == LowerChar(s[0]) && l[1..] == Lower(s[1..]);
      assert (LowerChar(s[0]) == c) == (s[0] == c);
      LowerAppend(if s[0] == c then [] else [s[0]], Remove(s[1..], c));
    }
  }

  /** A string is alphanumeric exactly when its lowered form is. */
  lemma LowerKeepsAlnum(s: string)
    ensures IsAlnum(Lower(s)) <==> IsAlnum(s)
  {
    LowerAt(s);
    if IsAlnum(Lower(s)) {
      forall i | 0 <= i < |s| ensures IsAsciiAlnumChar(s[i]) {
        assert Lower(s)[i] == LowerChar(s[i]);
      }
    }
  }
}
