/**
 * The Python 2 string operations the host-list parser, the command builders and the
 * status reports rely on: `str.split()`, `str.split(sep)`, `str.strip()`, `sep.join(...)`
 * and `str(n)` / `'%s' % n` for integers.
 */
module Text {

  /** The characters Python 2's `str.split()` and `str.strip()` treat as whitespace. */
  predicate IsSpace(c: char) {
    c == ' ' || c == '\t' || c == '\n' || c == '\r' || c == '\U{B}' || c == '\U{C}'
  }

  predicate NoSpace(s: string) {
    forall i :: 0 <= i < |s| ==> !IsSpace(s[i])
  }

  /** Length of the leading run of non-whitespace characters of `s`. */
  function WordLength(s: string): (k: nat)
    ensures k <= |s|
    ensures forall i :: 0 <= i < k ==> !IsSpace(s[i])
    ensures k < |s| ==> IsSpace(s[k])
  {
    if s == [] || IsSpace(s[0]) then 0 else 1 + WordLength(s[1..])
  }

  /** Python's `s.split()` with no separator: the maximal runs of non-whitespace, in order. */
  function SplitWhitespace(s: string): (r: seq<string>)
    ensures forall i :: 0 <= i < |r| ==> r[i] != [] && NoSpace(r[i])
    decreases |s|
  {
    if s == [] then []
    else if IsSpace(s[0]) then SplitWhitespace(s[1..])
    else
      var k := WordLength(s);
      [s[..k]] + SplitWhitespace(s[k..])
  }

  /** Python's `sep.join(parts)`. */
  function Join(sep: string, parts: seq<string>): string
    decreases |parts|
  {
    if parts == [] then ""
    else if |parts| == 1 then parts[0]
    else parts[0] + sep + Join(sep, parts[1..])
  }

  /** `t` occurs in `s` starting at index `i`. */
  predicate OccursAt(s: string, t: string, i: nat) {
    i + |t| <= |s| && s[i..i + |t|] == t
  }

  /** `t` occurs in `s` (Python's `t in s`, `s.find(t) != -1`). */
  predicate Contains(s: string, t: string) {
    exists i: nat | i <= |s| :: OccursAt(s, t, i)
  }

  /** Index of the first `c` in `s`: where Python's `s.split(c, 1)` cuts. */
  function FirstIndex(s: string, c: char): (i: nat)
    requires c in s
    ensures i < |s| && s[i] == c
    ensures forall j :: 0 <= j < i ==> s[j] != c
  {
    if s[0] == c then 0 else 1 + FirstIndex(s[1..], c)
  }

  /** Index of the last `c` in `s`: where Python's `s.rsplit(c, 1)` cuts. */
  function LastIndex(s: string, c: char): (i: nat)
    requires c in s
    ensures i < |s| && s[i] == c
    ensures forall j :: i < j < |s| ==> s[j] != c
  {
    if s[|s| - 1] == c then |s| - 1 else LastIndex(s[..|s| - 1], c)
  }

  /** Python's `s.split(sep)` for a one-character separator: every piece, empty ones included. */
  function SplitOn(s: string, sep: char): (r: seq<string>)
    ensures |r| >= 1
    ensures forall i :: 0 <= i < |r| ==> sep !in r[i]
    decreases |s|
  {
    if s == [] then [""]
    else
      var rest := SplitOn(s[1..], sep);
      if s[0] == sep then [""] + rest else [[s[0]] + rest[0]] + rest[1..]
  }

  /** Removes leading whitespace. */
  function TrimStart(s: string): string {
    if s != [] && IsSpace(s[0]) then TrimStart(s[1..]) else s
  }

  /** Removes trailing whitespace. */
  function TrimEnd(s: string): string {
    if s != [] && IsSpace(s[|s| - 1]) then TrimEnd(s[..|s| - 1]) else s
  }

  /** Python's `s.strip()`. */
  function Strip(s: string): string {
    TrimEnd(TrimStart(s))
  }

  predicate IsDecimal(s: string) {
    forall i :: 0 <= i < |s| ==> '0' <= s[i] <= '9'
  }

  function DigitChar(d: nat): (c: char)
    requires d < 10
    ensures '0' <= c <= '9' && c as int - '0' as int == d
  {
    ('0' as int + d) as char
  }

  /** The decimal numeral of `n`, most significant digit first, without leading zeros. */
  function NatToDecimal(n: nat): (s: string)
    ensures s != [] && IsDecimal(s)
    ensures |s| > 1 ==> s[0] != '0'
    decreases n
  {
    if n < 10 then [DigitChar(n)] else NatToDecimal(n / 10) + [DigitChar(n % 10)]
  }

  /** The value of a decimal numeral. */
  function DecimalValue(s: string): nat
    requires IsDecimal(s)
    decreases |s|
  {
    if s == [] then 0 else 10 * DecimalValue(s[..|s| - 1]) + (s[|s| - 1] as int - '0' as int)
  }

  /** Python's `str(i)`, which is also what `'%s' % i` gives for an integer. */
  function IntToDecimal(i: int): (s: string)
    ensures s != [] && NoSpace(s)
    ensures (i < 0) <==> s[0] == '-'
  {
    if i < 0 then "-" + NatToDecimal(-i) else NatToDecimal(i)
  }

  // ---------------------------------------------------------------------------
  // Lemmas

  lemma WordLengthOfWord(w: string)
    requires NoSpace(w)
    ensures WordLength(w) == |w|
  {
  }

  lemma {:induction false} WordLengthAppend(a: string, b: string)
    requires WordLength(a) < |a| || b == [] || IsSpace(b[0])
    ensures WordLength(a + b) == WordLength(a)
    decreases |a|
  {
    if a == [] {
    } else if IsSpace(a[0]) {
    } else {
      assert (a + b)[1..] == a[1..] + b;
      WordLengthAppend(a[1..], b);
    }
  }

  /** A single word splits to itself. */
  lemma SplitWhitespaceWord(w: string)
    requires w != [] && NoSpace(w)
    ensures SplitWhitespace(w) == [w]
  {
    WordLengthOfWord(w);
    assert w[..|w|] == w;
    assert w[|w|..] == [];
  }

  /** Splitting at one whitespace character splits the two sides independently. */
  lemma SplitWhitespaceAround(a: string, c: char, b: string)
    requires IsSpace(c)
    ensures SplitWhitespace(a + [c] + b) == SplitWhitespace(a) + SplitWhitespace(b)
  {
    var t := [c] + b;
    assert a + [c] + b == a + t;
    SplitWhitespaceAppend(a, t);
    SplitWhitespaceSpace(t);
    assert t[1..] == b;
  }

  /** Text followed by text that starts with whitespace splits as the two parts do. */
  lemma {:induction false} SplitWhitespaceAppend(a: string, t: string)
    requires t != [] && IsSpace(t[0])
    ensures SplitWhitespace(a + t) == SplitWhitespace(a) + SplitWhitespace(t)
    decreases |a|
  {
    if a == [] {
      assert a + t == t;
    } else if IsSpace(a[0]) {
      SplitWhitespaceSpace(a + t);
      SplitWhitespaceSpace(a);
      assert (a + t)[1..] == a[1..] + t;
      SplitWhitespaceAppend(a[1..], t);
    } else {
      var k := WordLength(a);
      WordLengthAppend(a, t);
      SplitWhitespaceWordStep(a + t);
      SplitWhitespaceWordStep(a);
      assert (a + t)[..k] == a[..k];
      assert (a + t)[k..] == a[k..] + t;
      SplitWhitespaceAppend(a[k..], t);
    }
  }

  /** `split()` skips a leading whitespace character. */
  lemma SplitWhitespaceSpace(s: string)
    requires s != [] && IsSpace(s[0])
    ensures SplitWhitespace(s) == SplitWhitespace(s[1..])
  {
  }

  /** `split()` of a text starting with a word: that word, then the split of the rest. */
  lemma SplitWhitespaceWordStep(s: string)
    requires s != [] && !IsSpace(s[0])
    ensures WordLength(s) >= 1
    ensures SplitWhitespace(s) == [s[..WordLength(s)]] + SplitWhitespace(s[WordLength(s)..])
  {
  }

  /** Joining non-empty, whitespace-free words with single spaces and splitting gives the words back. */
  lemma {:induction false} SplitWhitespaceJoin(words: seq<string>)
    requires forall i :: 0 <= i < |words| ==> words[i] != [] && NoSpace(words[i])
    ensures SplitWhitespace(Join(" ", words)) == words
    decreases |words|
  {
    if words == [] {
    } else if |words| == 1 {
      SplitWhitespaceWord(words[0]);
    } else {
      var rest := Join(" ", words[1..]);
      assert Join(" ", words) == words[0] + [' '] + rest;
      SplitWhitespaceAround(words[0], ' ', rest);
      SplitWhitespaceWord(words[0]);
      SplitWhitespaceJoin(words[1..]);
      assert words == [words[0]] + words[1..];
    }
  }

  /** Splitting blank-joined words, joined in turn to at most one more text, gives the words, then the words of that text. */
  lemma SplitWhitespaceJoinTail(words: seq<string>, tail: seq<string>)
    requires words != [] && |tail| <= 1
    requires forall i :: 0 <= i < |words| ==> words[i] != [] && NoSpace(words[i])
    ensures SplitWhitespace(Join(" ", words + tail)) == words + (if tail == [] then [] else SplitWhitespace(tail[0]))
  {
    SplitWhitespaceJoin(words);
    if tail != [] {
      var e := tail[0];
      assert tail == [e];
      JoinSnoc(" ", words, e);
      assert Join(" ", words) + " " + e == Join(" ", words) + [' '] + e;
      SplitWhitespaceAround(Join(" ", words), ' ', e);
    } else {
      assert words + tail == words;
    }
  }

  lemma JoinCons(sep: string, p: string, ps: seq<string>)
    requires ps != []
    ensures Join(sep, [p] + ps) == p + sep + Join(sep, ps)
  {
    assert ([p] + ps)[1..] == ps;
  }

  /** `sep.join(ps + [p])` is `sep.join(ps) + sep + p` for a non-empty `ps`. */
  lemma {:induction false} JoinSnoc(sep: string, ps: seq<string>, p: string)
    requires ps != []
    ensures Join(sep, ps + [p]) == Join(sep, ps) + sep + p
    decreases |ps|
  {
    if |ps| == 1 {
      assert (ps + [p])[1..] == [p];
    } else {
      assert (ps + [p])[1..] == ps[1..] + [p];
      JoinSnoc(sep, ps[1..], p);
    }
  }

  /** Joining the pieces of `s.split(sep)` with `sep` gives `s` back. */
  lemma {:induction false} JoinSplitOn(s: string, sep: char)
    ensures Join([sep], SplitOn(s, sep)) == s
    decreases |s|
  {
    if s != [] {
      var rest := SplitOn(s[1..], sep);
      JoinSplitOn(s[1..], sep);
      if s[0] == sep {
        JoinCons([sep], "", rest);
      } else if |rest| == 1 {
        assert SplitOn(s, sep) == [[s[0]] + rest[0]];
      } else {
        var first := [s[0]] + rest[0];
        assert SplitOn(s, sep) == [first] + rest[1..];
        JoinCons([sep], first, rest[1..]);
        JoinCons([sep], rest[0], rest[1..]);
        assert rest == [rest[0]] + rest[1..];
      }
    }
  }

  /** `(a + sep + b).split(sep)` is `a.split(sep) + b.split(sep)`. */
  lemma {:induction false} SplitOnAround(a: string, sep: char, b: string)
    ensures SplitOn(a + [sep] + b, sep) == SplitOn(a, sep) + SplitOn(b, sep)
    decreases |a|
  {
    if a == [] {
      assert a + [sep] + b == [sep] + b;
      assert ([sep] + b)[1..] == b;
    } else {
      assert (a + [sep] + b)[1..] == a[1..] + [sep] + b;
      SplitOnAround(a[1..], sep, b);
    }
  }

  /** The first `c` of `a + [c] + b` is the one after `a` when `a` has none. */
  lemma FirstIndexAfter(a: string, c: char, b: string)
    requires c !in a
    ensures c in a + [c] + b && FirstIndex(a + [c] + b, c) == |a|
  {
    var s := a + [c] + b;
    assert s[|a|] == c;
    assert s[..|a|] == a;
  }

  /** The last `c` of `a + [c] + b` is the one before `b` when `b` has none. */
  lemma LastIndexBefore(a: string, c: char, b: string)
    requires c !in b
    ensures c in a + [c] + b && LastIndex(a + [c] + b, c) == |a|
  {
    var s := a + [c] + b;
    assert s[|a|] == c;
    assert s[|a| + 1..] == b;
  }

  /** `TrimStart` drops a prefix made of whitespace only, and what is left does not start with any. */
  lemma {:induction false} TrimStartDropsSpace(s: string)
    ensures var r := TrimStart(s);
      && |r| <= |s| && r == s[|s| - |r|..]
      && (r == [] || !IsSpace(r[0]))
      && forall i :: 0 <= i < |s| - |r| ==> IsSpace(s[i])
    decreases |s|
  {
    if s != [] && IsSpace(s[0]) {
      TrimStartDropsSpace(s[1..]);
    }
  }

  /** `TrimEnd` drops a suffix made of whitespace only, and what is left does not end with any. */
  lemma {:induction false} TrimEndDropsSpace(s: string)
    ensures var r := TrimEnd(s);
      && |r| <= |s| && r == s[..|r|]
      && (r == [] || !IsSpace(r[|r| - 1]))
      && forall i :: |r| <= i < |s| ==> IsSpace(s[i])
    decreases |s|
  {
    if s != [] && IsSpace(s[|s| - 1]) {
      TrimEndDropsSpace(s[..|s| - 1]);
    }
  }

  /** A stripped string neither starts nor ends with whitespace; it is empty exactly when `s` is all whitespace. */
  lemma StripEnds(s: string)
    ensures var r := Strip(s);
      && |r| <= |s|
      && (r == [] || (!IsSpace(r[0]) && !IsSpace(r[|r| - 1])))
      && (r == [] <==> forall i :: 0 <= i < |s| ==> IsSpace(s[i]))
  {
    var t := TrimStart(s);
    TrimStartDropsSpace(s);
    TrimEndDropsSpace(t);
    var r := TrimEnd(t);
    if r != [] {
      assert r[0] == t[0];
    }
  }

  lemma StripOfStripped(s: string)
    requires s == [] || (!IsSpace(s[0]) && !IsSpace(s[|s| - 1]))
    ensures Strip(s) == s
  {
  }

  /** Stripping twice is stripping once. */
  lemma StripIdempotent(s: string)
    ensures Strip(Strip(s)) == Strip(s)
  {
    StripEnds(s);
    StripOfStripped(Strip(s));
  }

  lemma ContainsAfter(p: string, s: string, t: string)
    requires Contains(s, t)
    ensures Contains(p + s, t)
  {
    var i: nat :| i <= |s| && OccursAt(s, t, i);
    assert (p + s)[|p| + i..|p| + i + |t|] == t;
    assert OccursAt(p + s, t, |p| + i);
  }

  lemma ContainsBefore(s: string, q: string, t: string)
    requires Contains(s, t)
    ensures Contains(s + q, t)
  {
    var i: nat :| i <= |s| && OccursAt(s, t, i);
    assert (s + q)[i..i + |t|] == t;
    assert OccursAt(s + q, t, i);
  }

  /** What occurs in a part of a string occurs in the string. */
  lemma ContainsTransitive(a: string, b: string, c: string)
    requires Contains(a, b) && Contains(b, c)
    ensures Contains(a, c)
  {
    var i: nat :| i <= |a| && OccursAt(a, b, i);
    var j: nat :| j <= |b| && OccursAt(b, c, j);
    forall k | 0 <= k < |c|
      ensures a[i + j + k] == c[k]
    {
      assert c[k] == b[j..j + |c|][k] == b[j + k];
      assert b[j + k] == a[i..i + |b|][j + k];
    }
    assert a[i + j..i + j + |c|] == c;
    assert OccursAt(a, c, i + j);
  }

  /** Each part of a join occurs in the joined string. */
  lemma {:induction false} JoinContainsPart(sep: string, parts: seq<string>, k: nat)
    requires k < |parts|
    ensures Contains(Join(sep, parts), parts[k])
    decreases |parts|
  {
    if k == 0 {
      var j := Join(sep, parts);
      assert j[0..|parts[0]|] == parts[0];
      assert OccursAt(j, parts[0], 0);
    } else {
      JoinContainsPart(sep, parts[1..], k - 1);
      ContainsAfter(parts[0] + sep, Join(sep, parts[1..]), parts[k]);
    }
  }

  /** Reading a numeral back gives the number it was written from. */
  lemma {:induction false} DecimalRoundTrip(n: nat)
    ensures DecimalValue(NatToDecimal(n)) == n
    decreases n
  {
    if n >= 10 {
      var s := NatToDecimal(n);
      assert s[..|s| - 1] == NatToDecimal(n / 10);
      DecimalRoundTrip(n / 10);
    }
  }

  lemma NatToDecimalInjective(a: nat, b: nat)
    requires NatToDecimal(a) == NatToDecimal(b)
    ensures a == b
  {
    DecimalRoundTrip(a);
    DecimalRoundTrip(b);
  }

  /** Distinct integers have distinct decimal forms. */
  lemma IntToDecimalInjective(a: int, b: int)
    requires IntToDecimal(a) == IntToDecimal(b)
    ensures a == b
  {
    if a < 0 && b < 0 {
      assert IntToDecimal(a)[1..] == NatToDecimal(-a);
      assert IntToDecimal(b)[1..] == NatToDecimal(-b);
      NatToDecimalInjective(-a, -b);
    } else if a >= 0 && b >= 0 {
      NatToDecimalInjective(a, b);
    }
  }
}
