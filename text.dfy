/**
 * The JavaScript string operations the blocklist parser and the DNS proxy
 * rely on (`toLowerCase`, `trim`, `split('.')`, `split(/\s+/)`, `join('.')`),
 * restricted to ASCII.
 */
module Text {

  /** Characters matched by `\s` and removed by `trim`, ASCII part only. */
  predicate IsWhitespace(c: char) {
    c == ' ' || c == '\t' || c == '\n' || c == '\r' || c == '\U{B}' || c == '\U{C}'
  }

  predicate NoWhitespace(s: string) {
    forall i :: 0 <= i < |s| ==> !IsWhitespace(s[i])
  }

  predicate IsUpper(c: char) {
    'A' <= c <= 'Z'
  }

  predicate IsLowerCase(s: string) {
    forall c <- s :: !IsUpper(c)
  }

  function LowerChar(c: char): (r: char)
    ensures !IsUpper(r)
    ensures !IsUpper(c) ==> r == c
  {
    if IsUpper(c) then (c as int + 32) as char else c
  }

  /** `toLowerCase` on ASCII letters; every other character is kept. */
  function Lower(s: string): (r: string)
    ensures |r| == |s|
    ensures forall i :: 0 <= i < |s| ==> r[i] == LowerChar(s[i])
    ensures IsLowerCase(r)
  {
    seq(|s|, i requires 0 <= i < |s| => LowerChar(s[i]))
  }

  lemma {:induction false} LowerOfLowerCase(s: string)
    requires IsLowerCase(s)
    ensures Lower(s) == s
  {
  }

  predicate StartsWith(s: string, prefix: string) {
    |prefix| <= |s| && s[..|prefix|] == prefix
  }

  predicate EndsWith(s: string, suffix: string) {
    |suffix| <= |s| && s[|s| - |suffix|..] == suffix
  }

  function TrimStart(s: string): (r: string)
    ensures |r| <= |s| && r == s[|s| - |r|..]
    ensures r == [] || !IsWhitespace(r[0])
    ensures NoWhitespace(s) ==> r == s
  {
    if |s| > 0 && IsWhitespace(s[0]) then TrimStart(s[1..]) else s
  }

  /** What `TrimStart` drops is whitespace. */
  lemma {:induction false} TrimStartDropsWhitespace(s: string)
    ensures forall i :: 0 <= i < |s| - |TrimStart(s)| ==> IsWhitespace(s[i])
    decreases |s|
  {
    if |s| > 0 && IsWhitespace(s[0]) {
      TrimStartDropsWhitespace(s[1..]);
      forall i | 1 <= i < |s| - |TrimStart(s)| ensures IsWhitespace(s[i]) {
        assert s[i] == s[1..][i - 1];
      }
    }
  }

  function TrimEnd(s: string): (r: string)
    ensures |r| <= |s| && r == s[..|r|]
    ensures r == [] || !IsWhitespace(r[|r| - 1])
    ensures NoWhitespace(s) ==> r == s
  {
    if |s| > 0 && IsWhitespace(s[|s| - 1]) then TrimEnd(s[..|s| - 1]) else s
  }

  /** What `TrimEnd` drops is whitespace. */
  lemma {:induction false} TrimEndDropsWhitespace(s: string)
    ensures forall i :: |TrimEnd(s)| <= i < |s| ==> IsWhitespace(s[i])
    decreases |s|
  {
    if |s| > 0 && IsWhitespace(s[|s| - 1]) {
      TrimEndDropsWhitespace(s[..|s| - 1]);
    }
  }

  /** `trim`: drops leading and trailing whitespace. */
  function Trim(s: string): (r: string)
    ensures |r| <= |s|
    ensures r == [] || (!IsWhitespace(r[0]) && !IsWhitespace(r[|r| - 1]))
    ensures NoWhitespace(s) ==> r == s
  {
    TrimEnd(TrimStart(s))
  }

  /**
   * `trim` removes whitespace at the ends and nothing else: the result is
   * the slice of `s` between a whitespace-only prefix and a whitespace-only
   * suffix.
   */
  lemma {:induction false} TrimIsInfix(s: string)
    ensures var k := |s| - |TrimStart(s)|;
              && k + |Trim(s)| <= |s| && Trim(s) == s[k..k + |Trim(s)|]
              && (forall i :: 0 <= i < k ==> IsWhitespace(s[i]))
              && (forall i :: k + |Trim(s)| <= i < |s| ==> IsWhitespace(s[i]))
  {
    var t := TrimStart(s);
    var r := TrimEnd(t);
    var k := |s| - |t|;
    assert r == Trim(s);
    TrimStartDropsWhitespace(s);
    TrimEndDropsWhitespace(t);
    SliceOfSuffix(s, k, |r|);
    WhitespaceAfterSlice(s, k, |r|);
  }

  /** Whitespace at the end of a suffix of `s` is whitespace at the end of `s`. */
  lemma {:induction false} WhitespaceAfterSlice(s: string, k: nat, n: nat)
    requires k + n <= |s|
    requires forall i :: n <= i < |s[k..]| ==> IsWhitespace(s[k..][i])
    ensures forall i :: k + n <= i < |s| ==> IsWhitespace(s[i])
  {
    forall i | k + n <= i < |s| ensures IsWhitespace(s[i]) {
      assert s[i] == s[k..][i - k];
    }
  }

  lemma {:induction false} SliceOfSuffix(s: string, k: nat, n: nat)
    requires k + n <= |s|
    ensures s[k..][..n] == s[k..k + n]
  {
  }

  /** `split(sep)` with a one-character separator: the pieces between separators. */
  function Split(s: string, sep: char): (parts: seq<string>)
    ensures |parts| >= 1
    decreases |s|
  {
    if s == [] then [""]
    else if s[0] == sep then [""] + Split(s[1..], sep)
    else
      var rest := Split(s[1..], sep);
      [[s[0]] + rest[0]] + rest[1..]
  }

  /** `join(sep)`. */
  function Join(parts: seq<string>, sep: char): string {
    if parts == [] then ""
    else if |parts| == 1 then parts[0]
    else parts[0] + [sep] + Join(parts[1..], sep)
  }

  /** `split(/\s+/)`: the pieces between maximal runs of whitespace. */
  function SplitWhitespace(s: string): (parts: seq<string>)
    ensures |parts| >= 1
    decreases |s|
  {
    if s == [] then [""]
    else if IsWhitespace(s[0]) then [""] + SplitWhitespace(TrimStart(s[1..]))
    else
      var rest := SplitWhitespace(s[1..]);
      [[s[0]] + rest[0]] + rest[1..]
  }

  /** Splitting a string without the separator gives the string itself. */
  lemma {:induction false} SplitWithoutSeparator(s: string, sep: char)
    requires sep !in s
    ensures Split(s, sep) == [s]
    decreases |s|
  {
    if s != [] {
      SplitWithoutSeparator(s[1..], sep);
      assert [s[0]] + s[1..] == s;
    }
  }

  /** A separator cuts the list of pieces in two. */
  lemma {:induction false} SplitAtSeparator(a: string, b: string, sep: char)
    ensures Split(a + [sep] + b, sep) == Split(a, sep) + Split(b, sep)
    decreases |a|
  {
    var s := a + [sep] + b;
    if a == [] {
      assert s[1..] == b;
    } else {
      assert s[1..] == a[1..] + [sep] + b;
      SplitAtSeparator(a[1..], b, sep);
    }
  }

  /** No piece of a split contains the separator. */
  lemma {:induction false} SplitPiecesLackSeparator(s: string, sep: char)
    ensures forall p <- Split(s, sep) :: sep !in p
    decreases |s|
  {
    if s != [] {
      SplitPiecesLackSeparator(s[1..], sep);
    }
  }

  /** `join` undoes `split`. */
  lemma {:induction false} JoinSplit(s: string, sep: char)
    ensures Join(Split(s, sep), sep) == s
    decreases |s|
  {
    if s != [] {
      JoinSplit(s[1..], sep);
      var rest := Split(s[1..], sep);
      if s[0] != sep && |rest| > 1 {
        assert ([[s[0]] + rest[0]] + rest[1..])[1..] == rest[1..];
      }
    }
  }

  /** Joining two non-empty lists of pieces puts one separator between them. */
  lemma {:induction false} JoinAppend(x: seq<string>, y: seq<string>, sep: char)
    requires x != [] && y != []
    ensures Join(x + y, sep) == Join(x, sep) + [sep] + Join(y, sep)
    decreases |x|
  {
    if |x| > 1 {
      assert (x + y)[1..] == x[1..] + y;
      JoinAppend(x[1..], y, sep);
    } else {
      assert (x + y)[1..] == y;
    }
  }

  /** A leading non-whitespace character joins the first piece. */
  lemma {:induction false} SplitWhitespaceCons(c: char, t: string)
    requires !IsWhitespace(c)
    ensures SplitWhitespace([c] + t) == [[c] + SplitWhitespace(t)[0]] + SplitWhitespace(t)[1..]
  {
    assert ([c] + t)[1..] == t;
  }

  /** A single leading space before a word gives an empty first piece. */
  lemma {:induction false} SplitWhitespaceSpace(b: string)
    requires NoWhitespace(b)
    ensures SplitWhitespace(" " + b) == ["", b]
  {
    assert (" " + b)[1..] == b;
    assert TrimStart(b) == b;
    SplitWhitespaceOneWord(b);
  }

  lemma {:induction false} NoWhitespaceTail(a: string)
    requires a != [] && NoWhitespace(a)
    ensures !IsWhitespace(a[0]) && NoWhitespace(a[1..])
  {
    forall i | 0 <= i < |a| - 1 ensures !IsWhitespace(a[1..][i]) {
      assert a[1..][i] == a[i + 1];
    }
  }

  /** A whitespace-free prefix joins the first piece of what follows it. */
  lemma {:induction false} SplitWhitespacePrefix(a: string, t: string)
    requires NoWhitespace(a)
    ensures SplitWhitespace(a + t) == [a + SplitWhitespace(t)[0]] + SplitWhitespace(t)[1..]
    decreases |a|
  {
    var pieces := SplitWhitespace(t);
    if a == [] {
      assert a + t == t;
      assert a + pieces[0] == pieces[0];
      assert [pieces[0]] + pieces[1..] == pieces;
    } else {
      var rest := a[1..];
      NoWhitespaceTail(a);
      var u := rest + t;
      SplitWhitespacePrefix(rest, t);
      var inner := SplitWhitespace(u);
      assert inner[0] == rest + pieces[0] && inner[1..] == pieces[1..];
      assert a + t == [a[0]] + u;
      SplitWhitespaceCons(a[0], u);
      assert [a[0]] + (rest + pieces[0]) == a + pieces[0];
    }
  }

  /** `split(/\s+/)` on a string with one inner space gives the two words. */
  lemma {:induction false} SplitWhitespaceTwoWords(a: string, b: string)
    requires b != [] && NoWhitespace(a) && NoWhitespace(b)
    ensures SplitWhitespace(a + " " + b) == [a, b]
  {
    var t := " " + b;
    var s := a + t;
    assert a + " " + b == s;
    SplitWhitespaceSpace(b);
    SplitWhitespacePrefix(a, t);
    var pieces := SplitWhitespace(t);
    assert pieces == ["", b];
    assert SplitWhitespace(s) == [a + pieces[0]] + pieces[1..];
    assert a + pieces[0] == a;
    assert pieces[1..] == [b];
    assert [a] + [b] == [a, b];
  }

  lemma {:induction false} SplitWhitespaceOneWord(a: string)
    requires NoWhitespace(a)
    ensures SplitWhitespace(a) == [a]
    decreases |a|
  {
    if a != [] {
      SplitWhitespaceOneWord(a[1..]);
      assert [a[0]] + a[1..] == a;
    }
  }

  /** Lowering a list of pieces, one by one. */
  function LowerEach(parts: seq<string>): (r: seq<string>)
    ensures |r| == |parts| && forall i :: 0 <= i < |parts| ==> r[i] == Lower(parts[i])
  {
    seq(|parts|, i requires 0 <= i < |parts| => Lower(parts[i]))
  }

  /** Lowercasing commutes with splitting on a separator that is not a letter. */
  lemma {:induction false} SplitLower(s: string, sep: char)
    requires !IsUpper(sep) && !('a' <= sep <= 'z')
    ensures Split(Lower(s), sep) == LowerEach(Split(s, sep))
    decreases |s|
  {
    if s != [] {
      assert Lower(s)[1..] == Lower(s[1..]);
      SplitLower(s[1..], sep);
      if s[0] != sep {
        var rest := Split(s[1..], sep);
        assert Lower([s[0]] + rest[0]) == [LowerChar(s[0])] + Lower(rest[0]);
      }
    }
  }
}
