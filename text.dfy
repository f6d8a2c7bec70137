/** String operations the core relies on: ASCII lower-casing, the substring test of
    Python's `in`, and Python's lexicographic string ordering. */
module Text {

  /** ASCII lower-casing of one character; every other character is left as is. */
  function LowerChar(c: char): char
  {
    if 'A' <= c <= 'Z' then (c as int + 32) as char else c
  }

  /** `s.lower()`, restricted to the ASCII letters. */
  function Lower(s: string): (r: string)
    ensures |r| == |s|
    ensures forall i :: 0 <= i < |s| ==> r[i] == LowerChar(s[i])
    ensures forall i :: 0 <= i < |s| ==> !('A' <= r[i] <= 'Z')
  {
    seq(|s|, i requires 0 <= i < |s| => LowerChar(s[i]))
  }

  /** `p` is a prefix of `s`. */
  predicate IsPrefix(p: string, s: string)
  {
    |p| <= |s| && s[..|p|] == p
  }

  /** `kw in text`: the substring test, scanning the start positions from left to right. */
  predicate Contains(text: string, kw: string)
    decreases |text|
  {
    IsPrefix(kw, text) || (|text| > 0 && Contains(text[1..], kw))
  }

  /** `kw` occurs in `text` starting at position `i`. */
  predicate OccursAt(text: string, kw: string, i: int)
  {
    0 <= i && i + |kw| <= |text| && text[i..i + |kw|] == kw
  }

  /** The scan finds `kw` exactly when `kw` occurs at some position of `text`. */
  lemma {:induction false} ContainsIffOccurs(text: string, kw: string)
    ensures Contains(text, kw) <==> exists i :: OccursAt(text, kw, i)
    decreases |text|
  {
    if IsPrefix(kw, text) {
      assert OccursAt(text, kw, 0);
    } else if |text| > 0 {
      ContainsIffOccurs(text[1..], kw);
      if Contains(text[1..], kw) {
        var i :| OccursAt(text[1..], kw, i);
        assert text[i + 1..i + 1 + |kw|] == text[1..][i..i + |kw|];
        assert OccursAt(text, kw, i + 1);
      }
      if exists i :: OccursAt(text, kw, i) {
        var i :| OccursAt(text, kw, i);
        assert i != 0;
        assert text[1..][i - 1..i - 1 + |kw|] == text[i..i + |kw|];
        assert OccursAt(text[1..], kw, i - 1);
      }
    }
  }

  /** An occurrence at a known position is found by the scan. */
  lemma ContainsAt(text: string, kw: string, i: nat)
    requires OccursAt(text, kw, i)
    ensures Contains(text, kw)
  {
    ContainsIffOccurs(text, kw);
  }

  /** Python's `a < b` on strings: lexicographic by code point, a proper prefix first. */
  predicate Less(a: string, b: string)
    decreases |a|
  {
    if |b| == 0 then false
    else if |a| == 0 then true
    else if a[0] != b[0] then a[0] < b[0]
    else Less(a[1..], b[1..])
  }

  /** Python's `a <= b` on strings. */
  predicate LessEq(a: string, b: string)
  {
    !Less(b, a)
  }

  lemma {:induction false} LessIrreflexive(a: string)
    ensures !Less(a, a)
    decreases |a|
  {
    if |a| > 0 {
      LessIrreflexive(a[1..]);
    }
  }

  lemma {:induction false} LessTransitive(a: string, b: string, c: string)
    requires Less(a, b) && Less(b, c)
    ensures Less(a, c)
    decreases |a|
  {
    if |a| > 0 && a[0] == b[0] && b[0] == c[0] {
      LessTransitive(a[1..], b[1..], c[1..]);
    }
  }

  /** Two different strings are always ordered one way or the other. */
  lemma {:induction false} LessTrichotomy(a: string, b: string)
    ensures a == b || Less(a, b) || Less(b, a)
    decreases |a|
  {
    if |a| > 0 && |b| > 0 && a[0] == b[0] {
      LessTrichotomy(a[1..], b[1..]);
      if a[1..] == b[1..] {
        assert a == [a[0]] + a[1..] && b == [b[0]] + b[1..];
      }
    }
  }

  /** `<=` on strings is a total order. */
  lemma LessEqTotalOrder(a: string, b: string, c: string)
    ensures LessEq(a, a)
    ensures LessEq(a, b) || LessEq(b, a)
    ensures LessEq(a, b) && LessEq(b, a) ==> a == b
    ensures LessEq(a, b) && LessEq(b, c) ==> LessEq(a, c)
  {
    LessIrreflexive(a);
    LessTrichotomy(a, b);
    LessTrichotomy(a, c);
    if Less(b, a) && Less(a, b) {
      LessTransitive(a, b, a);
      LessIrreflexive(a);
    }
    if LessEq(a, b) && LessEq(b, c) && Less(c, a) {
      LessTrichotomy(b, c);
      LessTrichotomy(a, b);
      if Less(a, b) {
        LessTransitive(c, a, b);
      } else {
        assert a == b;
      }
    }
  }
}
