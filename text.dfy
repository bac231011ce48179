/**
 * String primitives of the two runtimes the furnace software runs on:
 * .NET (`string.Trim`, `string.Split`, `IndexOf`, `ToUpperInvariant`) and
 * JavaScript (`toLowerCase`, `includes`). Strings are sequences of Unicode
 * scalar values.
 */
module Text {

  /** `char.IsWhiteSpace` of .NET: the characters with the Unicode White_Space property. */
  predicate IsWhiteSpace(c: char) {
    ('\U{9}' <= c <= '\U{D}') || c == ' ' || c == '\U{85}' || c == '\U{A0}' || c == '\U{1680}'
    || ('\U{2000}' <= c <= '\U{200A}') || c == '\U{2028}' || c == '\U{2029}'
    || c == '\U{202F}' || c == '\U{205F}' || c == '\U{3000}'
  }

  predicate AllWhiteSpace(s: string) {
    forall k :: 0 <= k < |s| ==> IsWhiteSpace(s[k])
  }

  /** The number of white-space characters at the front of `s`. */
  function LeadingWhite(s: string): (n: nat)
    ensures n <= |s| && AllWhiteSpace(s[..n])
    ensures n < |s| ==> !IsWhiteSpace(s[n])
  {
    if s != [] && IsWhiteSpace(s[0]) then
      var m := LeadingWhite(s[1..]);
      assert s[..1 + m] == [s[0]] + s[1..][..m];
      1 + m
    else 0
  }

  /** The number of white-space characters at the back of `s`. */
  function TrailingWhite(s: string): (n: nat)
    ensures n <= |s| && AllWhiteSpace(s[|s| - n..])
    ensures n < |s| ==> !IsWhiteSpace(s[|s| - n - 1])
  {
    if s != [] && IsWhiteSpace(s[|s| - 1]) then
      var t := s[..|s| - 1];
      var m := TrailingWhite(t);
      var tail := s[|s| - (1 + m)..];
      assert tail == t[|t| - m..] + [s[|s| - 1]];
      assert AllWhiteSpace(tail) by {
        forall k | 0 <= k < |tail| ensures IsWhiteSpace(tail[k]) {
          if k < m {
            assert tail[k] == t[|t| - m..][k];
          }
        }
      }
      assert 1 + m < |s| ==> s[|s| - (1 + m) - 1] == t[|t| - m - 1];
      1 + m
    else 0
  }

  /** `string.TrimStart()`: drops the leading white space, keeps the rest. */
  function TrimStart(s: string): string {
    s[LeadingWhite(s)..]
  }

  /** `string.TrimEnd()`: drops the trailing white space, keeps the rest. */
  function TrimEnd(s: string): string {
    s[..|s| - TrailingWhite(s)]
  }

  /** `string.Trim()`. */
  function Trim(s: string): string {
    TrimEnd(TrimStart(s))
  }

  /** What follows the leading white space is blank only when it is empty. */
  lemma WhiteAfterLeading(s: string)
    ensures AllWhiteSpace(s[LeadingWhite(s)..]) ==> LeadingWhite(s) == |s|
  {
    var n := LeadingWhite(s);
    if n < |s| {
      assert s[n..][0] == s[n];
    }
  }

  /** A trimmed string is empty exactly when the original is white space only. */
  lemma TrimEmptyIffBlank(s: string)
    ensures Trim(s) == [] <==> AllWhiteSpace(s)
  {
    var n := LeadingWhite(s);
    var a := s[n..];
    var m := TrailingWhite(a);
    if Trim(s) == [] {
      assert m == |a| && a[|a| - m..] == a;
      WhiteAfterLeading(s);
      assert s[..n] == s;
    } else {
      assert n < |s|;
      assert !IsWhiteSpace(s[n]);
    }
  }

  /** A character that is not white space does not occur in a blank string. */
  lemma NotInBlank(t: string, c: char)
    requires AllWhiteSpace(t) && !IsWhiteSpace(c)
    ensures c !in t
  {
    assert forall k :: 0 <= k < |t| ==> t[k] != c;
  }

  /** A string is its leading white space, its trimmed form and its trailing white space. */
  lemma TrimParts(s: string) returns (front: string, back: string)
    ensures s == front + Trim(s) + back
    ensures AllWhiteSpace(front) && AllWhiteSpace(back)
  {
    var n := LeadingWhite(s);
    var a := s[n..];
    var m := TrailingWhite(a);
    front, back := s[..n], a[|a| - m..];
    assert Trim(s) == a[..|a| - m];
    Around(s, n, m);
  }

  /** Trimming never removes or adds a character that is not white space. */
  lemma TrimKeepsNonWhite(s: string, c: char)
    requires !IsWhiteSpace(c)
    ensures c in Trim(s) <==> c in s
  {
    var front, back := TrimParts(s);
    NotInBlank(front, c);
    NotInBlank(back, c);
    assert c in s <==> c in front + Trim(s) || c in back;
    assert c in front + Trim(s) <==> c in front || c in Trim(s);
  }

  /** `s.IndexOf(c)`: the first position of `c`, or -1 when `c` does not occur. */
  function IndexOf(s: string, c: char): (r: int)
    ensures -1 <= r < |s|
    ensures r == -1 <==> c !in s
    ensures r >= 0 ==> s[r] == c && c !in s[..r]
  {
    if |s| == 0 then -1
    else if s[0] == c then 0
    else
      var k := IndexOf(s[1..], c);
      assert s[1..] == s[1..][..];
      if k < 0 then -1
      else
        assert s[..k + 1] == [s[0]] + s[1..][..k];
        k + 1
  }

  /** The first occurrence of `c` is where `c` occurs with no earlier occurrence. */
  lemma IndexOfAt(s: string, c: char, i: nat)
    requires i < |s| && s[i] == c && c !in s[..i]
    ensures IndexOf(s, c) == i
  {
    var r := IndexOf(s, c);
    assert forall j :: 0 <= j < i ==> s[j] != c by {
      forall j | 0 <= j < i ensures s[j] != c {
        assert s[..i][j] == s[j];
      }
    }
    assert forall j :: 0 <= j < r ==> s[j] != c by {
      forall j | 0 <= j < r ensures s[j] != c {
        assert s[..r][j] == s[j];
      }
    }
  }

  /** Splitting at the first separator: the piece before it, then the pieces after it. */
  lemma SplitAt(s: string, sep: char, i: nat)
    requires i < |s| && s[i] == sep && sep !in s[..i]
    ensures Split(s, sep) == [s[..i]] + Split(s[i + 1..], sep)
  {
    IndexOfAt(s, sep, i);
  }

  /** `s.Split(sep)`: the pieces between occurrences of `sep`, empty pieces included. */
  function Split(s: string, sep: char): (r: seq<string>)
    ensures |r| >= 1
    ensures forall p :: p in r ==> sep !in p
    decreases |s|
  {
    if sep !in s then [s]
    else
      var i := IndexOf(s, sep);
      [s[..i]] + Split(s[i + 1..], sep)
  }

  /** `string.Join(sep, parts)`. */
  function Join(parts: seq<string>, sep: char): string
    requires |parts| >= 1
  {
    if |parts| == 1 then parts[0] else parts[0] + [sep] + Join(parts[1..], sep)
  }

  /** Joining a piece in front of others puts one separator between them. */
  lemma JoinCons(first: string, others: seq<string>, sep: char)
    requires |others| >= 1
    ensures Join([first] + others, sep) == first + [sep] + Join(others, sep)
  {
    assert ([first] + others)[1..] == others;
  }

  /** Splitting loses nothing: joining the pieces back gives the original text. */
  lemma {:induction false} JoinSplit(s: string, sep: char)
    ensures Join(Split(s, sep), sep) == s
    decreases |s|
  {
    if sep in s {
      var i := IndexOf(s, sep);
      var rest := s[i + 1..];
      calc {
        Join(Split(s, sep), sep);
      == { SplitAt(s, sep, i); }
        Join([s[..i]] + Split(rest, sep), sep);
      == { JoinCons(s[..i], Split(rest, sep), sep); }
        s[..i] + [sep] + Join(Split(rest, sep), sep);
      == { JoinSplit(rest, sep); }
        s[..i] + [sep] + rest;
      == { assert s == s[..i] + [sep] + s[i + 1..]; }
        s;
      }
    }
  }

  /** Conversely, pieces free of `sep` are recovered by splitting their join. */
  lemma {:induction false} SplitJoin(parts: seq<string>, sep: char)
    requires |parts| >= 1
    requires forall p :: p in parts ==> sep !in p
    ensures Split(Join(parts, sep), sep) == parts
  {
    if |parts| > 1 {
      var first, others := parts[0], parts[1..];
      var rest := Join(others, sep);
      var s := Join(parts, sep);
      assert s == first + [sep] + rest;
      assert first in parts;
      assert s[|first|] == sep;
      assert s[..|first|] == first;
      assert s[|first| + 1..] == rest;
      SplitAt(s, sep, |first|);
      assert forall p :: p in others ==> p in parts;
      SplitJoin(others, sep);
      assert parts == [first] + others;
    }
  }

  /** A character absent from the text is absent from every piece of it. */
  lemma {:induction false} SplitAvoids(s: string, sep: char, c: char)
    requires c !in s
    ensures forall p :: p in Split(s, sep) ==> c !in p
    decreases |s|
  {
    if sep in s {
      var i := IndexOf(s, sep);
      assert c !in s[..i] by {
        assert forall j :: 0 <= j < i ==> s[..i][j] == s[j];
      }
      assert c !in s[i + 1..] by {
        var t := s[i + 1..];
        assert forall j :: 0 <= j < |t| ==> t[j] == s[i + 1 + j];
      }
      SplitAvoids(s[i + 1..], sep, c);
      assert Split(s, sep) == [s[..i]] + Split(s[i + 1..], sep);
      assert forall p :: p in Split(s, sep) ==> p == s[..i] || p in Split(s[i + 1..], sep);
    }
  }

  /** The pieces of `s.Split(sep, StringSplitOptions.RemoveEmptyEntries)`. */
  function NonEmpty(parts: seq<string>): (r: seq<string>)
    ensures forall p :: p in r ==> p in parts && p != []
    ensures forall p :: p in parts && p != [] ==> p in r
  {
    if parts == [] then []
    else if parts[0] == [] then NonEmpty(parts[1..])
    else [parts[0]] + NonEmpty(parts[1..])
  }

  /** One piece is kept exactly when it is not empty. */
  lemma NonEmptySingle(p: string)
    ensures NonEmpty([p]) == if p == [] then [] else [p]
  {
    assert [p][1..] == [];
  }

  /** Dropping the empty pieces goes piece by piece: the pieces kept from two runs of
      pieces are those kept from the first followed by those kept from the second, so
      the kept pieces stay in order, each as often as it occurs. */
  lemma {:induction false} NonEmptyConcat(a: seq<string>, b: seq<string>)
    ensures NonEmpty(a + b) == NonEmpty(a) + NonEmpty(b)
    decreases |a|
  {
    if a == [] {
      assert a + b == b;
    } else {
      NonEmptyConcat(a[1..], b);
      assert (a + b)[0] == a[0] && (a + b)[1..] == a[1..] + b;
    }
  }

  /** The number of occurrences of `c` in `s`. */
  function Count(s: string, c: char): nat {
    if s == [] then 0 else Count(s[..|s| - 1], c) + (if s[|s| - 1] == c then 1 else 0)
  }

  /** A character that does not occur is counted zero times. */
  lemma {:induction false} CountAbsent(s: string, c: char)
    requires c !in s
    ensures Count(s, c) == 0
  {
    if s != [] {
      assert c !in s[..|s| - 1] by {
        assert forall k :: 0 <= k < |s| - 1 ==> s[..|s| - 1][k] == s[k];
      }
      CountAbsent(s[..|s| - 1], c);
    }
  }

  /** `s.includes(sub)` / `s.Contains(sub)`: `sub` occurs in `s` as a contiguous piece. */
  predicate Contains(s: string, sub: string)
    decreases |s|
  {
    sub <= s || (|s| > 0 && Contains(s[1..], sub))
  }

  /** `sub` occurs in `s` starting at position `i`. */
  predicate OccursAt(s: string, sub: string, i: nat) {
    i + |sub| <= |s| && s[i..i + |sub|] == sub
  }

  /** The recursive definition of Contains agrees with the positional one. */
  lemma {:induction false} ContainsAt(s: string, sub: string)
    ensures Contains(s, sub) <==> exists i: nat :: OccursAt(s, sub, i)
    decreases |s|
  {
    if sub <= s {
      assert OccursAt(s, sub, 0);
    } else if |s| > 0 {
      ContainsAt(s[1..], sub);
      if exists i: nat :: OccursAt(s, sub, i) {
        var i: nat :| OccursAt(s, sub, i);
        assert i > 0;
        assert s[1..][i - 1..i - 1 + |sub|] == s[i..i + |sub|];
        assert OccursAt(s[1..], sub, i - 1);
      }
      if Contains(s[1..], sub) {
        var i: nat :| OccursAt(s[1..], sub, i);
        assert s[i + 1..i + 1 + |sub|] == s[1..][i..i + |sub|];
        assert OccursAt(s, sub, i + 1);
      }
    } else {
      assert forall i: nat :: !OccursAt(s, sub, i);
    }
  }

  /** `ToUpperInvariant` restricted to what can produce an ASCII letter:
      a-z, dotless i (U+0131) and long s (U+017F). Every other character is
      either unchanged by .NET or mapped to a non-ASCII character. */
  function UpperChar(c: char): (u: char)
    ensures ('a' <= c <= 'z') ==> u as int == c as int - 32
    ensures u == '=' <==> c == '='
  {
    if 'a' <= c <= 'z' then (c as int - 32) as char
    else if c == '\U{131}' then 'I'
    else if c == '\U{17F}' then 'S'
    else c
  }

  function ToUpperInvariant(s: string): (r: string)
    ensures |r| == |s|
    ensures forall i :: 0 <= i < |s| ==> r[i] == UpperChar(s[i])
  {
    seq(|s|, i requires 0 <= i < |s| => UpperChar(s[i]))
  }

  /** JavaScript `toLowerCase` on ASCII letters. */
  function LowerChar(c: char): (l: char)
    ensures ('A' <= c <= 'Z') ==> l as int == c as int + 32
    ensures !('A' <= c <= 'Z') ==> l == c
  {
    if 'A' <= c <= 'Z' then (c as int + 32) as char else c
  }

  function ToLowerCase(s: string): (r: string)
    ensures |r| == |s|
    ensures forall i :: 0 <= i < |s| ==> r[i] == LowerChar(s[i])
  {
    seq(|s|, i requires 0 <= i < |s| => LowerChar(s[i]))
  }

  /** Lower-casing twice is lower-casing once. */
  lemma LowerIdempotent(s: string)
    ensures ToLowerCase(ToLowerCase(s)) == ToLowerCase(s)
  {
    forall i | 0 <= i < |s| ensures ToLowerCase(ToLowerCase(s))[i] == ToLowerCase(s)[i] {
      assert LowerChar(LowerChar(s[i])) == LowerChar(s[i]);
    }
  }

  /** A sequence is its first `n` elements, a middle, and its last `m` elements. */
  lemma Around<T>(s: seq<T>, n: nat, m: nat)
    requires n + m <= |s|
    ensures s == s[..n] + s[n..][..|s| - n - m] + s[n..][|s| - n - m..]
  {
    var a := s[n..];
    assert a == a[..|a| - m] + a[|a| - m..];
    assert s == s[..n] + a;
  }

  /** Concatenation does not depend on grouping. */
  lemma Associative<T>(a: seq<T>, b: seq<T>, c: seq<T>)
    ensures a + (b + c) == (a + b) + c
  {
  }
}
