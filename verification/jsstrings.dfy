/**
 The JavaScript string operations the inventory client relies on, on strings
 modelled as sequences of characters: `v || ''`, `String(v)`, `trim`,
 `toLowerCase`, `includes`, `slice(0, n)`, `split`/`join` on one character and
 `replace` with a one-character string pattern.
 */
module JsStrings {

  /** A string-typed field as it arrives from the server: it may be absent. */
  datatype JsString = Undefined | Null | Text(s: string)

  /** `v || ''`: every falsy value (absent, null or the empty string) becomes ''. */
  function OrEmpty(v: JsString): (r: string)
    ensures v.Text? ==> r == v.s
    ensures r == "" <==> !(v.Text? && v.s != "")
  {
    match v
    case Text(s) => s
    case _ => ""
  }

  /** `String(v)`: a present string is itself, an absent value is spelled out, never empty. */
  function Stringify(v: JsString): (r: string)
    ensures v.Text? ==> r == v.s
    ensures v.Undefined? ==> r == "undefined"
    ensures v.Null? ==> r == "null"
    ensures !v.Text? ==> r != "" && r != OrEmpty(v)
  {
    match v
    case Undefined => "undefined"
    case Null => "null"
    case Text(s) => s
  }

  /** The characters `String.prototype.trim` removes: WhiteSpace and LineTerminator. */
  predicate IsWhitespace(c: char) {
    || c == '\t' || c == '\n' || c == '\U{B}' || c == '\U{C}' || c == '\r' || c == ' '
    || c == '\U{A0}' || c == '\U{1680}' || ('\U{2000}' <= c <= '\U{200A}')
    || c == '\U{2028}' || c == '\U{2029}' || c == '\U{202F}' || c == '\U{205F}'
    || c == '\U{3000}' || c == '\U{FEFF}'
  }

  predicate AllWhitespace(s: string) {
    forall i :: 0 <= i < |s| ==> IsWhitespace(s[i])
  }

  /** `r` is the infix of `s` starting at `i` with nothing but whitespace around it. */
  predicate WhitespaceAround(s: string, r: string, i: int) {
    0 <= i <= |s| - |r| && r == s[i..i + |r|] && AllWhitespace(s[..i]) && AllWhitespace(s[i + |r|..])
  }

  /** Neither end of `s` is whitespace. */
  predicate Trimmed(s: string) {
    s == "" || (!IsWhitespace(s[0]) && !IsWhitespace(s[|s| - 1]))
  }

  function TrimStart(s: string): (r: string)
    ensures |r| <= |s| && r == s[|s| - |r|..]
    ensures forall i :: 0 <= i < |s| - |r| ==> IsWhitespace(s[i])
    ensures r == "" || !IsWhitespace(r[0])
  {
    if |s| > 0 && IsWhitespace(s[0]) then TrimStart(s[1..]) else s
  }

  function TrimEnd(s: string): (r: string)
    ensures |r| <= |s| && r == s[..|r|]
    ensures forall i :: |r| <= i < |s| ==> IsWhitespace(s[i])
    ensures r == "" || !IsWhitespace(r[|r| - 1])
  {
    if |s| > 0 && IsWhitespace(s[|s| - 1]) then TrimEnd(s[..|s| - 1]) else s
  }

  /** `s.trim()`: the infix of `s` left after removing whitespace at both ends. */
  function Trim(s: string): (r: string)
    ensures |r| <= |s|
    ensures Trimmed(r)
    ensures r == "" <==> AllWhitespace(s)
    ensures Trimmed(s) ==> r == s
    ensures exists i :: WhitespaceAround(s, r, i)
  {
    var t := TrimStart(s);
    var r := TrimEnd(t);
    assert r != "" ==> r[0] == t[0];
    TrimIsInfix(s, t, r);
    r
  }

  /** Trimming the front and then the back leaves an infix framed by whitespace. */
  lemma TrimIsInfix(s: string, t: string, r: string)
    requires |t| <= |s| && t == s[|s| - |t|..]
    requires forall i :: 0 <= i < |s| - |t| ==> IsWhitespace(s[i])
    requires |r| <= |t| && r == t[..|r|]
    requires forall i :: |r| <= i < |t| ==> IsWhitespace(t[i])
    ensures WhitespaceAround(s, r, |s| - |t|)
  {
    var i := |s| - |t|;
    assert s[i..] == t;
    assert s[i..i + |r|] == t[..|r|];
    assert s[i + |r|..] == t[|r|..];
    assert AllWhitespace(s[..i]) by {
      forall k | 0 <= k < i ensures IsWhitespace(s[..i][k]) {
        assert s[..i][k] == s[k];
      }
    }
    assert AllWhitespace(t[|r|..]) by {
      forall k | 0 <= k < |t| - |r| ensures IsWhitespace(t[|r|..][k]) {
        assert t[|r|..][k] == t[|r| + k];
      }
    }
  }

  lemma JoinPair(a: string, b: string, sep: char)
    ensures Join([a, b], sep) == a + [sep] + b
  {
    assert [a, b][1..] == [b];
  }

  /** A word followed by one space trims to the word. */
  lemma TrimDropsTrailingSpace(w: string)
    requires Trimmed(w) && w != ""
    ensures Trim(w + [' ']) == w
  {
    var s := w + [' '];
    assert s[0] == w[0];
    assert TrimStart(s) == s;
    assert s[..|s| - 1] == w;
    assert TrimEnd(s) == TrimEnd(w);
  }

  /**
   `toLowerCase` on one character, for the Basic Latin and Latin-1 letters
   (A-Z and U+00C0..U+00DE except the multiplication sign); other characters are
   returned unchanged.
   */
  predicate IsLetter(c: char) {
    'A' <= c <= 'Z' || 'a' <= c <= 'z' || ('\U{C0}' <= c <= '\U{FF}' && c != '\U{D7}' && c != '\U{F7}')
  }

  function LowerChar(c: char): char {
    if 'A' <= c <= 'Z' || ('\U{C0}' <= c <= '\U{DE}' && c != '\U{D7}')
    then (c as int + 32) as char
    else c
  }

  function Lower(s: string): (r: string)
    ensures |r| == |s|
    ensures forall i :: 0 <= i < |s| ==> r[i] == LowerChar(s[i])
    ensures forall i :: 0 <= i < |r| ==> !('A' <= r[i] <= 'Z')
    ensures forall i :: 0 <= i < |s| && !IsLetter(s[i]) ==> r[i] == s[i]
  {
    seq(|s|, i requires 0 <= i < |s| => LowerChar(s[i]))
  }

  /** `k` occurs in `s` starting at index `i`. */
  predicate OccursAt(s: string, k: string, i: int) {
    0 <= i && i + |k| <= |s| && s[i..i + |k|] == k
  }

  /** `s.includes(k)`: `k` occurs in `s` at some position. */
  function Includes(s: string, k: string): (r: bool)
    ensures r <==> exists i :: OccursAt(s, k, i)
  {
    if k <= s then
      assert OccursAt(s, k, 0);
      true
    else if |s| == 0 then
      assert forall i :: !OccursAt(s, k, i);
      false
    else
      var r := Includes(s[1..], k);
      assert r ==> exists i :: OccursAt(s, k, i) by {
        if r {
          var j :| OccursAt(s[1..], k, j);
          assert s[j + 1..j + 1 + |k|] == s[1..][j..j + |k|];
          assert OccursAt(s, k, j + 1);
        }
      }
      assert (exists i :: OccursAt(s, k, i)) ==> r by {
        if exists i :: OccursAt(s, k, i) {
          var i :| OccursAt(s, k, i);
          if i > 0 {
            assert s[1..][i - 1..i - 1 + |k|] == s[i..i + |k|];
            assert OccursAt(s[1..], k, i - 1);
          }
        }
      }
      r
  }

  /** `s.slice(0, n)` for n >= 0. */
  function Take(s: string, n: nat): (r: string)
    ensures r <= s
    ensures |r| == if |s| <= n then |s| else n
  {
    if |s| <= n then s else s[..n]
  }

  /** `s.split(sep)` for a one-character separator: always at least one part. */
  function Split(s: string, sep: char): (parts: seq<string>)
    ensures |parts| >= 1
    ensures forall i :: 0 <= i < |parts| ==> sep !in parts[i]
  {
    if |s| == 0 then [""]
    else if s[0] == sep then [""] + Split(s[1..], sep)
    else
      var t := Split(s[1..], sep);
      [[s[0]] + t[0]] + t[1..]
  }

  /**
   `parts.join(sep)` for a one-character separator: the first part leads, and a
   separator stands right after it when a second part follows.
   */
  function Join(parts: seq<string>, sep: char): (r: string)
    ensures |parts| == 0 ==> r == ""
    ensures |parts| >= 1 ==> parts[0] <= r
    ensures |parts| >= 2 ==> |r| > |parts[0]| && r[|parts[0]|] == sep
  {
    if |parts| == 0 then ""
    else if |parts| == 1 then parts[0]
    else parts[0] + [sep] + Join(parts[1..], sep)
  }

  lemma {:induction false} JoinCons(p: string, parts: seq<string>, sep: char)
    requires |parts| >= 1
    ensures Join([p] + parts, sep) == p + [sep] + Join(parts, sep)
  {
    assert ([p] + parts)[1..] == parts;
  }

  /** Joining the parts of a split with the same separator gives back the string. */
  lemma {:induction false} JoinSplit(s: string, sep: char)
    ensures Join(Split(s, sep), sep) == s
  {
    if |s| == 0 {
    } else if s[0] == sep {
      JoinSplit(s[1..], sep);
      JoinCons("", Split(s[1..], sep), sep);
      assert s == [s[0]] + s[1..];
    } else {
      var t := Split(s[1..], sep);
      JoinSplit(s[1..], sep);
      if |t| == 1 {
        assert s == [s[0]] + s[1..];
      } else {
        JoinCons([s[0]] + t[0], t[1..], sep);
        assert t == [t[0]] + t[1..];
        JoinCons(t[0], t[1..], sep);
        assert s == [s[0]] + s[1..];
      }
    }
  }

  /** A separator-free prefix becomes the head of the first part. */
  lemma {:induction false} SplitPrefix(a: string, rest: string, sep: char)
    requires sep !in a
    ensures Split(a + rest, sep) == [a + Split(rest, sep)[0]] + Split(rest, sep)[1..]
  {
    if |a| == 0 {
      assert a + rest == rest;
      assert a + Split(rest, sep)[0] == Split(rest, sep)[0];
      assert Split(rest, sep) == [Split(rest, sep)[0]] + Split(rest, sep)[1..];
    } else {
      assert (a + rest)[1..] == a[1..] + rest;
      assert a[0] != sep by { assert a[0] in a; }
      SplitPrefix(a[1..], rest, sep);
      assert [a[0]] + (a[1..] + Split(rest, sep)[0]) == a + Split(rest, sep)[0];
    }
  }

  /** Splitting a join of separator-free parts gives back the parts. */
  lemma {:induction false} SplitJoin(parts: seq<string>, sep: char)
    requires |parts| >= 1
    requires forall i :: 0 <= i < |parts| ==> sep !in parts[i]
    ensures Split(Join(parts, sep), sep) == parts
  {
    if |parts| == 1 {
      SplitPrefix(parts[0], "", sep);
      assert parts[0] + "" == parts[0];
    } else {
      var tail := Join(parts[1..], sep);
      SplitJoin(parts[1..], sep);
      assert parts[0] + [sep] + tail == parts[0] + ([sep] + tail);
      SplitPrefix(parts[0], [sep] + tail, sep);
      assert ([sep] + tail)[1..] == tail;
      assert Split([sep] + tail, sep) == [""] + Split(tail, sep);
      assert parts[0] + "" == parts[0];
      assert parts == [parts[0]] + parts[1..];
    }
  }

  /** The number of characters in all the parts together. */
  function TotalLength(parts: seq<string>): nat {
    if |parts| == 0 then 0 else |parts[0]| + TotalLength(parts[1..])
  }

  lemma {:induction false} TotalLengthAppend(a: seq<string>, b: seq<string>)
    ensures TotalLength(a + b) == TotalLength(a) + TotalLength(b)
  {
    if |a| > 0 {
      assert (a + b)[0] == a[0] && (a + b)[1..] == a[1..] + b;
      TotalLengthAppend(a[1..], b);
    } else {
      assert a + b == b;
    }
  }

  /** A join is as long as its parts plus one separator between each two. */
  lemma {:induction false} JoinLength(parts: seq<string>, sep: char)
    requires |parts| >= 1
    ensures |Join(parts, sep)| == TotalLength(parts) + |parts| - 1
  {
    if |parts| > 1 {
      JoinLength(parts[1..], sep);
    }
  }

  /** A split loses exactly one character, the separator, between each two parts. */
  lemma SplitLength(s: string, sep: char)
    ensures TotalLength(Split(s, sep)) + |Split(s, sep)| - 1 == |s|
  {
    JoinSplit(s, sep);
    JoinLength(Split(s, sep), sep);
  }

  /** A character in none of the parts and other than the separator is not in the join. */
  lemma {:induction false} JoinAvoids(parts: seq<string>, sep: char, c: char)
    requires c != sep && forall i :: 0 <= i < |parts| ==> c !in parts[i]
    ensures c !in Join(parts, sep)
  {
    if |parts| > 1 {
      JoinAvoids(parts[1..], sep, c);
      assert c !in parts[0];
    }
  }

  /** Every part of a split is made of characters of the string. */
  lemma {:induction false} SplitPartsFromString(s: string, sep: char, c: char)
    requires c !in s
    ensures forall i :: 0 <= i < |Split(s, sep)| ==> c !in Split(s, sep)[i]
  {
    if |s| > 0 {
      SplitPartsFromString(s[1..], sep, c);
      if s[0] != sep {
        var t := Split(s[1..], sep);
        assert c !in [s[0]] + t[0] by { assert s[0] in s; }
      }
    }
  }

  /** The position of the first `a` in `s`. */
  function IndexOf(s: string, a: char): (i: nat)
    requires a in s
    ensures i < |s| && s[i] == a
    ensures forall j :: 0 <= j < i ==> s[j] != a
  {
    if s[0] == a then 0 else IndexOf(s[1..], a) + 1
  }

  /**
   `s.replace(a, b)` with a one-character string pattern: only the FIRST
   occurrence of `a` is rewritten; every later occurrence stays.
   */
  function ReplaceFirst(s: string, a: char, b: char): (r: string)
    ensures a !in s ==> r == s
    ensures a in s ==> var i := IndexOf(s, a); r == s[..i] + [b] + s[i + 1..]
  {
    if |s| == 0 then s
    else if s[0] == a then [b] + s[1..]
    else
      var t := ReplaceFirst(s[1..], a, b);
      assert a in s ==> a in s[1..];
      [s[0]] + t
  }

  /** The first `a` sits at `i`: exactly that character is rewritten. */
  lemma ReplaceFirstAt(s: string, a: char, b: char, i: nat)
    requires i < |s| && s[i] == a && forall j :: 0 <= j < i ==> s[j] != a
    ensures ReplaceFirst(s, a, b) == s[..i] + [b] + s[i + 1..]
  {
    assert a in s;
    var k := IndexOf(s, a);
    assert !(k < i) && !(i < k);
  }
}
