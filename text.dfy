/**
 * String helpers shared by every module: Python's notion of whitespace
 * (str.isspace, str.strip, the regular-expression class \s), str.join,
 * decimal rendering of integers (f"{i}") and ASCII lower-casing.
 * Strings are sequences of Unicode scalar values, as in Python 3.
 */
module Text {

  /** Python's str.isspace(): the characters that str.strip() removes and \s matches. */
  predicate IsSpace(c: char)
  {
    c == ' ' || ('\t' <= c <= '\r') || ('\U{1c}' <= c <= '\U{1f}') || c == '\U{85}'
    || c == '\U{a0}' || c == '\U{1680}' || ('\U{2000}' <= c <= '\U{200a}')
    || c == '\U{2028}' || c == '\U{2029}' || c == '\U{202f}' || c == '\U{205f}' || c == '\U{3000}'
  }

  predicate AllSpace(s: string)
  {
    forall i | 0 <= i < |s| :: IsSpace(s[i])
  }

  /** Number of whitespace characters at the front of s. */
  function LeadCount(s: string): (n: nat)
    ensures n <= |s|
    ensures forall i | 0 <= i < n :: IsSpace(s[i])
    ensures n < |s| ==> !IsSpace(s[n])
  {
    if s != [] && IsSpace(s[0]) then 1 + LeadCount(s[1..]) else 0
  }

  /** Number of whitespace characters at the back of s. */
  function TrailCount(s: string): (n: nat)
    ensures n <= |s|
    ensures forall i | |s| - n <= i < |s| :: IsSpace(s[i])
    ensures n < |s| ==> !IsSpace(s[|s| - 1 - n])
  {
    if s != [] && IsSpace(s[|s| - 1]) then 1 + TrailCount(s[..|s| - 1]) else 0
  }

  /** Python's str.strip() with no argument. */
  function Strip(s: string): (r: string)
    ensures LeadCount(s) + |r| <= |s|
    ensures r == s[LeadCount(s)..LeadCount(s) + |r|]
    ensures forall i | 0 <= i < |s| && !(LeadCount(s) <= i < LeadCount(s) + |r|) :: IsSpace(s[i])
    ensures r != [] ==> !IsSpace(r[0]) && !IsSpace(r[|r| - 1])
    ensures r == [] <==> AllSpace(s)
  {
    var a := LeadCount(s);
    var t := s[a..];
    var r := t[..|t| - TrailCount(t)];
    r
  }

  /** Strip leaves a string alone whose ends are not whitespace. */
  lemma StripTrimmed(s: string)
    requires s != [] && !IsSpace(s[0]) && !IsSpace(s[|s| - 1])
    ensures Strip(s) == s
  {
    assert LeadCount(s) == 0;
    assert TrailCount(s[LeadCount(s)..]) == 0;
  }

  /** The characters of s that are not whitespace, in order. */
  function NonSpace(s: string): (r: string)
    ensures |r| <= |s|
    ensures forall i | 0 <= i < |r| :: !IsSpace(r[i])
  {
    if s == [] then [] else (if IsSpace(s[0]) then [] else [s[0]]) + NonSpace(s[1..])
  }

  lemma {:induction false} NonSpaceAppend(a: string, b: string)
    ensures NonSpace(a + b) == NonSpace(a) + NonSpace(b)
  {
    if a == [] {
      assert a + b == b;
    } else {
      assert (a + b)[1..] == a[1..] + b;
      NonSpaceAppend(a[1..], b);
    }
  }

  /** Only whitespace leaves nothing behind, and nothing else does. */
  lemma {:induction false} NonSpaceEmpty(s: string)
    ensures NonSpace(s) == [] <==> AllSpace(s)
  {
    if s != [] {
      NonSpaceEmpty(s[1..]);
      assert AllSpace(s) <==> IsSpace(s[0]) && AllSpace(s[1..]) by {
        if IsSpace(s[0]) && AllSpace(s[1..]) {
          forall i | 0 <= i < |s| ensures IsSpace(s[i]) {
            if i > 0 {
              assert s[i] == s[1..][i - 1];
            }
          }
        }
      }
    }
  }

  /** str.strip() removes whitespace only. */
  lemma StripKeepsNonSpace(s: string)
    ensures NonSpace(Strip(s)) == NonSpace(s)
  {
    var a := LeadCount(s);
    var r := Strip(s);
    var lead, trail := s[..a], s[a + |r|..];
    assert AllSpace(lead) by {
      forall i | 0 <= i < |lead| ensures IsSpace(lead[i]) {
        assert lead[i] == s[i];
      }
    }
    assert AllSpace(trail) by {
      forall i | 0 <= i < |trail| ensures IsSpace(trail[i]) {
        assert trail[i] == s[a + |r| + i];
      }
    }
    assert s == lead + r + trail;
    NonSpaceAppend(lead + r, trail);
    NonSpaceAppend(lead, r);
    NonSpaceEmpty(lead);
    NonSpaceEmpty(trail);
  }

  /** The parts written one after another, with no separator. */
  function Concat(parts: seq<string>): string
  {
    if parts == [] then [] else parts[0] + Concat(parts[1..])
  }

  lemma ConcatOne(part: string)
    ensures Concat([part]) == part
  {
    assert [part][1..] == [];
  }

  lemma {:induction false} ConcatAppend(a: seq<string>, b: seq<string>)
    ensures Concat(a + b) == Concat(a) + Concat(b)
  {
    if a == [] {
      assert a + b == b;
    } else {
      assert (a + b)[1..] == a[1..] + b;
      ConcatAppend(a[1..], b);
    }
  }

  /** Python's sep.join(parts). */
  function Join(sep: string, parts: seq<string>): string
  {
    if parts == [] then []
    else if |parts| == 1 then parts[0]
    else parts[0] + sep + Join(sep, parts[1..])
  }

  /** Where parts[i] begins inside Join(sep, parts). */
  function JoinOffset(sep: string, parts: seq<string>, i: nat): nat
    requires i <= |parts|
  {
    if i == 0 then 0 else JoinOffset(sep, parts, i - 1) + |parts[i - 1]| + |sep|
  }

  lemma {:induction false} JoinLength(sep: string, parts: seq<string>)
    requires parts != []
    ensures |Join(sep, parts)| == JoinOffset(sep, parts, |parts| - 1) + |parts[|parts| - 1]|
  {
    if |parts| > 1 {
      JoinLength(sep, parts[1..]);
      JoinOffsetShift(sep, parts, |parts| - 1);
    }
  }

  lemma {:induction false} JoinOffsetShift(sep: string, parts: seq<string>, i: nat)
    requires 1 <= i <= |parts|
    ensures JoinOffset(sep, parts, i) == |parts[0]| + |sep| + JoinOffset(sep, parts[1..], i - 1)
  {
    if i > 1 {
      JoinOffsetShift(sep, parts, i - 1);
    }
  }

  /** The i-th part is found, verbatim, at JoinOffset(sep, parts, i) of the joined string. */
  lemma {:induction false} JoinPartAt(sep: string, parts: seq<string>, i: nat)
    requires i < |parts|
    ensures JoinOffset(sep, parts, i) + |parts[i]| <= |Join(sep, parts)|
    ensures Join(sep, parts)[JoinOffset(sep, parts, i)..JoinOffset(sep, parts, i) + |parts[i]|] == parts[i]
  {
    if |parts| > 1 {
      var rest := Join(sep, parts[1..]);
      assert Join(sep, parts) == parts[0] + sep + rest;
      if i > 0 {
        JoinPartAt(sep, parts[1..], i - 1);
        JoinOffsetShift(sep, parts, i);
        var k := |parts[0]| + |sep|;
        var o := JoinOffset(sep, parts[1..], i - 1);
        assert Join(sep, parts)[k + o..k + o + |parts[i]|] == rest[o..o + |parts[i]|];
      }
    }
  }

  /** Later parts start strictly after earlier ones end. */
  lemma {:induction false} JoinOffsetsOrdered(sep: string, parts: seq<string>, i: nat, j: nat)
    requires i < j <= |parts|
    ensures JoinOffset(sep, parts, i) + |parts[i]| + |sep| <= JoinOffset(sep, parts, j)
  {
    if j > i + 1 {
      JoinOffsetsOrdered(sep, parts, i, j - 1);
    }
  }

  predicate StartsWith(s: string, prefix: string)
  {
    |prefix| <= |s| && s[..|prefix|] == prefix
  }

  predicate EndsWith(s: string, suffix: string)
  {
    |suffix| <= |s| && s[|s| - |suffix|..] == suffix
  }

  /** t occurs in s starting at index i. */
  predicate OccursAt(s: string, t: string, i: int)
  {
    0 <= i && i + |t| <= |s| && s[i..i + |t|] == t
  }

  /** A prefix one element longer is the prefix with that element appended. */
  lemma TakeOneMore<T>(s: seq<T>, i: nat)
    requires i < |s|
    ensures s[..i + 1] == s[..i] + [s[i]]
  {
  }

  /** Dropping a prefix of the first part of a concatenation. */
  lemma DropFromAppend<T>(a: seq<T>, b: seq<T>, n: nat)
    requires n <= |a|
    ensures (a + b)[n..] == a[n..] + b
  {
  }

  /** The last element of a concatenation with a non-empty second part, and what precedes it. */
  lemma DropLastOfAppend<T>(a: seq<T>, b: seq<T>)
    requires b != []
    ensures (a + b)[..|a + b| - 1] == a + b[..|b| - 1]
    ensures (a + b)[|a + b| - 1] == b[|b| - 1]
  {
  }

  lemma AppendAssociates<T>(a: seq<T>, b: seq<T>, c: seq<T>)
    ensures a + (b + c) == (a + b) + c
  {
  }

  /** A concatenation starts with its first part and ends with its second. */
  lemma ConcatEnds(a: string, b: string)
    ensures StartsWith(a + b, a) && EndsWith(a + b, b)
  {
    assert (a + b)[..|a|] == a;
    assert (a + b)[|a|..] == b;
  }

  /** Appending keeps a prefix. */
  lemma PrefixExtends(s: string, prefix: string, more: string)
    requires StartsWith(s, prefix)
    ensures StartsWith(s + more, prefix)
  {
    assert (s + more)[..|prefix|] == s[..|prefix|];
  }

  /** The middle part of a + t + b occurs right after a. */
  lemma ConcatMiddle(a: string, t: string, b: string)
    ensures OccursAt(a + t + b, t, |a|)
  {
    assert (a + t + b)[|a|..|a| + |t|] == t;
  }

  /** Python's `t in s` for strings. */
  predicate Contains(s: string, t: string)
  {
    exists i | 0 <= i <= |s| :: OccursAt(s, t, i)
  }

  predicate IsDigit(c: char)
  {
    '0' <= c <= '9'
  }

  function DigitChar(d: nat): (c: char)
    requires d < 10
    ensures IsDigit(c) && c as int - '0' as int == d
  {
    (d + '0' as int) as char
  }

  /** f"{n}" for a non-negative integer n. */
  function NatToString(n: nat): (s: string)
    ensures s != []
    ensures forall i | 0 <= i < |s| :: IsDigit(s[i])
    ensures |s| > 1 ==> s[0] != '0'
  {
    if n < 10 then [DigitChar(n)] else NatToString(n / 10) + [DigitChar(n % 10)]
  }

  /** Reads back a string of decimal digits. */
  function ParseNat(s: string): nat
    requires forall i | 0 <= i < |s| :: IsDigit(s[i])
  {
    if s == [] then 0
    else
      var last := s[|s| - 1];
      assert IsDigit(last);
      ParseNat(s[..|s| - 1]) * 10 + (last as int - '0' as int)
  }

  /** The decimal rendering loses nothing: distinct numbers get distinct labels. */
  lemma {:induction false} ParseNatToString(n: nat)
    ensures ParseNat(NatToString(n)) == n
  {
    if n >= 10 {
      var s := NatToString(n);
      assert s[..|s| - 1] == NatToString(n / 10);
      ParseNatToString(n / 10);
    }
  }

  lemma NatToStringInjective(m: nat, n: nat)
    requires NatToString(m) == NatToString(n)
    ensures m == n
  {
    ParseNatToString(m);
    ParseNatToString(n);
  }

  function AsciiLowerChar(c: char): char
  {
    if 'A' <= c <= 'Z' then (c as int + 32) as char else c
  }

  /**
   * str.lower() restricted to ASCII. Compared against the all-ASCII suffix
   * literals of the file loader and the crawler, it decides exactly as
   * Python's Unicode lower() does (no other character lower-cases onto
   * one of those literals' characters).
   */
  function AsciiLower(s: string): (r: string)
    ensures |r| == |s|
    ensures forall i | 0 <= i < |s| :: r[i] == AsciiLowerChar(s[i])
  {
    seq(|s|, i requires 0 <= i < |s| => AsciiLowerChar(s[i]))
  }
}
