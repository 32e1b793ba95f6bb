/** The parts of Python's `str` that the cheat-sheet builder relies on:
    `find`, `in`, `split(sep)`, `split()`, `rsplit(None, 1)`, `join`,
    ASCII case folding and `isspace`. */
module Text {

  predicate IsDigit(c: char) {
    '0' <= c <= '9'
  }

  predicate IsAsciiLetter(c: char) {
    'A' <= c <= 'Z' || 'a' <= c <= 'z'
  }

  /** The characters for which Python's `str.isspace` holds. */
  predicate IsSpace(c: char) {
    || c == ' ' || ('\t' <= c <= '\r') || ('\U{1C}' <= c <= '\U{1F}')
    || c == '\U{85}' || c == '\U{A0}' || c == '\U{1680}'
    || ('\U{2000}' <= c <= '\U{200A}')
    || c == '\U{2028}' || c == '\U{2029}' || c == '\U{202F}' || c == '\U{205F}' || c == '\U{3000}'
  }

  function Lower(c: char): char {
    if 'A' <= c <= 'Z' then (c as int + 32) as char else c
  }

  function Upper(c: char): char {
    if 'a' <= c <= 'z' then (c as int - 32) as char else c
  }

  function LowerAll(s: string): string {
    seq(|s|, k requires 0 <= k < |s| => Lower(s[k]))
  }

  function UpperAll(s: string): string {
    seq(|s|, k requires 0 <= k < |s| => Upper(s[k]))
  }

  /** `p` occurs in `s` at index `i`. */
  predicate MatchAt(s: string, p: string, i: int) {
    0 <= i && i + |p| <= |s| && s[i..i + |p|] == p
  }

  /** Python's `s.find(p, start)`: the first index at or after `start` where
      `p` occurs, or -1. */
  function FindFrom(s: string, p: string, start: nat): (r: int)
    ensures r == -1 || (start <= r && MatchAt(s, p, r))
    ensures forall i {:trigger MatchAt(s, p, i)} :: start <= i && (r == -1 || i < r) ==> !MatchAt(s, p, i)
    decreases |s| - start
  {
    if start + |p| > |s| then -1
    else if s[start..start + |p|] == p then start
    else FindFrom(s, p, start + 1)
  }

  function Find(s: string, p: string): int {
    FindFrom(s, p, 0)
  }

  /** Python's `p in s`. */
  predicate Contains(s: string, p: string) {
    Find(s, p) != -1
  }

  lemma ContainsIff(s: string, p: string)
    ensures Contains(s, p) <==> exists i :: MatchAt(s, p, i)
  {
    if Contains(s, p) {
      assert MatchAt(s, p, Find(s, p));
    }
  }

  /** A string whose first character does not occur in `s` at or after
      `start` is not found there. */
  lemma {:induction false} AbsentFrom(s: string, p: string, start: nat)
    requires start <= |s| && |p| > 0 && p[0] !in s[start..]
    ensures FindFrom(s, p, start) == -1
    decreases |s| - start
  {
    if start + |p| <= |s| {
      assert s[start..start + |p|][0] == s[start..][0];
      AbsentFrom(s, p, start + 1);
    }
  }

  lemma Absent(s: string, p: string)
    requires |p| > 0 && p[0] !in s
    ensures !Contains(s, p)
  {
    AbsentFrom(s, p, 0);
  }

  /** A string too long to fit is never contained. */
  lemma TooLong(s: string, p: string)
    requires |p| > |s|
    ensures !Contains(s, p)
  {
  }

  lemma PrefixContained(s: string, p: string)
    requires |p| <= |s| && s[..|p|] == p
    ensures Find(s, p) == 0 && Contains(s, p)
  {
  }

  /** Python's `sep.join(parts)`. */
  function Join(sep: string, parts: seq<string>): string
    decreases |parts|
  {
    if |parts| == 0 then ""
    else if |parts| == 1 then parts[0]
    else parts[0] + sep + Join(sep, parts[1..])
  }

  /** The first index at or after `i` holding `c`, or `|s|`. */
  function IndexOfChar(s: string, c: char, i: nat): (r: nat)
    requires i <= |s|
    ensures i <= r <= |s| && (r < |s| ==> s[r] == c)
    ensures forall k :: i <= k < r ==> s[k] != c
    decreases |s| - i
  {
    if i == |s| || s[i] == c then i else IndexOfChar(s, c, i + 1)
  }

  /** Python's `s.split(sep)` for a one-character separator; splitting and
      joining back gives the original string. */
  function Split(s: string, sep: char): (parts: seq<string>)
    ensures |parts| >= 1
    ensures forall k :: 0 <= k < |parts| ==> sep !in parts[k]
    ensures Join([sep], parts) == s
    decreases |s|
  {
    var i := IndexOfChar(s, sep, 0);
    if i == |s| then [s]
    else
      var rest := Split(s[i + 1..], sep);
      assert s == s[..i] + [sep] + s[i + 1..];
      [s[..i]] + rest
  }

  lemma SplitNoSeparator(s: string, sep: char)
    requires sep !in s
    ensures Split(s, sep) == [s]
  {
    assert IndexOfChar(s, sep, 0) == |s|;
  }

  /** Text before the first separator is the first part. */
  lemma SplitHead(s: string, sep: char, t: string)
    requires sep !in s
    ensures Split(s + [sep] + t, sep)[0] == s
  {
    var u := s + [sep] + t;
    assert u[|s|] == sep;
    assert forall k :: 0 <= k < |s| ==> u[k] == s[k];
    assert IndexOfChar(u, sep, 0) == |s|;
    assert u[..|s|] == s;
  }

  /** Splitting `a + [sep] + b` where neither part holds the separator. */
  lemma SplitTwo(a: string, sep: char, b: string)
    requires sep !in a && sep !in b
    ensures Split(a + [sep] + b, sep) == [a, b]
  {
    var u := a + [sep] + b;
    assert u[|a|] == sep;
    assert forall k :: 0 <= k < |a| ==> u[k] == a[k];
    assert IndexOfChar(u, sep, 0) == |a|;
    assert u[..|a|] == a && u[|a| + 1..] == b;
    SplitNoSeparator(b, sep);
  }

  /** Splitting undoes joining with the separator, when no part holds it. */
  lemma {:induction false} JoinSplit(parts: seq<string>, sep: char)
    requires |parts| >= 1
    requires forall k :: 0 <= k < |parts| ==> sep !in parts[k]
    ensures Split(Join([sep], parts), sep) == parts
    decreases |parts|
  {
    if |parts| == 1 {
      SplitNoSeparator(parts[0], sep);
    } else {
      var rest := Join([sep], parts[1..]);
      var u := parts[0] + [sep] + rest;
      assert Join([sep], parts) == u;
      SplitAtFirst(parts[0], sep, rest);
      JoinSplit(parts[1..], sep);
      assert parts == [parts[0]] + parts[1..];
    }
  }

  /** A string with one separator after a part free of it splits there
      first. */
  lemma SplitAtFirst(p: string, sep: char, rest: string)
    requires sep !in p
    ensures Split(p + [sep] + rest, sep) == [p] + Split(rest, sep)
  {
    var u := p + [sep] + rest;
    assert u[|p|] == sep;
    assert forall k :: 0 <= k < |p| ==> u[k] == p[k];
    assert IndexOfChar(u, sep, 0) == |p|;
    assert u[..|p|] == p && u[|p| + 1..] == rest;
  }

  /** A character in neither the separator nor any part is not in the join. */
  lemma {:induction false} JoinAvoids(sep: string, parts: seq<string>, c: char)
    requires c !in sep
    requires forall k :: 0 <= k < |parts| ==> c !in parts[k]
    ensures c !in Join(sep, parts)
    decreases |parts|
  {
    if |parts| > 1 {
      JoinAvoids(sep, parts[1..], c);
    }
  }

  /** `row[:n]` padded with empty cells to `n` cells. */
  function Pad(row: seq<string>, n: nat): (p: seq<string>)
    ensures |p| == n
    ensures forall k :: 0 <= k < n ==> p[k] == if k < |row| then row[k] else ""
  {
    if |row| >= n then row[..n] else row + seq(n - |row|, _ => "")
  }

  /** The index just past the word (maximal run of non-space characters)
      starting at `i`. */
  function WordEnd(s: string, i: nat): (r: nat)
    requires i <= |s|
    ensures i <= r <= |s| && (r < |s| ==> IsSpace(s[r]))
    ensures forall k :: i <= k < r ==> !IsSpace(s[k])
    decreases |s| - i
  {
    if i == |s| || IsSpace(s[i]) then i else WordEnd(s, i + 1)
  }

  /** Python's `s.split()`: the whitespace-separated words, none empty. */
  function Words(s: string): (ws: seq<string>)
    ensures forall k :: 0 <= k < |ws| ==> ws[k] != "" && forall c :: c in ws[k] ==> !IsSpace(c)
    ensures ws == [] <==> forall c :: c in s ==> IsSpace(c)
    decreases |s|
  {
    if s == [] then []
    else if IsSpace(s[0]) then
      var ws := Words(s[1..]);
      assert forall c :: c in s ==> c == s[0] || c in s[1..];
      ws
    else
      var j := WordEnd(s, 0);
      assert forall c :: c in s[..j] ==> !IsSpace(c);
      [s[..j]] + Words(s[j..])
  }

  /** Words of a string that starts with a non-space run followed by a
      space or the end. */
  lemma WordsHead(w: string, t: string)
    requires w != [] && forall c :: c in w ==> !IsSpace(c)
    requires t == [] || IsSpace(t[0])
    ensures Words(w + t) != [] && Words(w + t)[0] == w
  {
    var s := w + t;
    assert s[0] == w[0];
    assert forall k :: 0 <= k < |w| ==> s[k] == w[k] && !IsSpace(s[k]);
    WordEndAt(s, 0, |w|);
    assert s[..|w|] == w;
  }

  lemma {:induction false} WordEndAt(s: string, i: nat, j: nat)
    requires i <= j <= |s| && (j == |s| || IsSpace(s[j]))
    requires forall k :: i <= k < j ==> !IsSpace(s[k])
    ensures WordEnd(s, i) == j
    decreases j - i
  {
    if i < j {
      WordEndAt(s, i + 1, j);
    }
  }

  lemma WordsSkipSpace(c: char, t: string)
    requires IsSpace(c)
    ensures Words([c] + t) == Words(t)
  {
    assert ([c] + t)[1..] == t;
  }

  /** The length of `s` once trailing whitespace is removed. */
  function TrimEndLen(s: string): (n: nat)
    ensures n <= |s| && (n == 0 || !IsSpace(s[n - 1]))
    ensures forall k :: n <= k < |s| ==> IsSpace(s[k])
    decreases |s|
  {
    if s == [] || !IsSpace(s[|s| - 1]) then |s| else TrimEndLen(s[..|s| - 1])
  }

  /** The start of the word that ends at `j`. */
  function WordStart(s: string, j: nat): (w: nat)
    requires j <= |s|
    ensures w <= j && (w == 0 || IsSpace(s[w - 1]))
    ensures forall k :: w <= k < j ==> !IsSpace(s[k])
    decreases j
  {
    if j == 0 || IsSpace(s[j - 1]) then j else WordStart(s, j - 1)
  }

  /** Python's `s.rsplit(None, 1)`: the last word, preceded by everything
      before it (leading whitespace kept, the separating whitespace dropped)
      when anything but whitespace precedes it. */
  function RSplitOnce(s: string): (parts: seq<string>)
    ensures |parts| <= 2
    ensures parts == [] <==> forall k :: 0 <= k < |s| ==> IsSpace(s[k])
    ensures |parts| >= 1 ==> parts[|parts| - 1] != "" && forall c :: c in parts[|parts| - 1] ==> !IsSpace(c)
    ensures |parts| == 2 ==> parts[0] != "" && !IsSpace(parts[0][|parts[0]| - 1])
  {
    var j := TrimEndLen(s);
    if j == 0 then []
    else
      var w := WordStart(s, j);
      var k := TrimEndLen(s[..w]);
      assert forall c :: c in s[w..j] ==> !IsSpace(c);
      if k == 0 then [s[w..j]] else [s[..k], s[w..j]]
  }

  /** `rsplit(None, 1)` undoes joining a word onto a text with one space. */
  lemma RSplitOnceJoin(a: string, b: string)
    requires a != [] && !IsSpace(a[|a| - 1])
    requires b != [] && forall c :: c in b ==> !IsSpace(c)
    ensures RSplitOnce(a + " " + b) == [a, b]
  {
    var s := a + " " + b;
    assert s[|s| - 1] == b[|b| - 1];
    assert TrimEndLen(s) == |s|;
    assert forall k :: |a| + 1 <= k < |s| ==> s[k] == b[k - |a| - 1];
    WordStartAt(s, |a| + 1, |s|);
    assert s[..|a| + 1] == a + " ";
    assert TrimEndLen(a + " ") == TrimEndLen(a) == |a|;
    assert s[..|a|] == a && s[|a| + 1..|s|] == b;
  }

  lemma {:induction false} WordStartAt(s: string, w: nat, j: nat)
    requires 0 < w <= j <= |s| && IsSpace(s[w - 1])
    requires forall k :: w <= k < j ==> !IsSpace(s[k])
    ensures WordStart(s, j) == w
    decreases j
  {
    if j > w {
      WordStartAt(s, w, j - 1);
    }
  }

  /** The index just past the maximal run of ASCII digits starting at `i`. */
  function DigitRunEnd(s: string, i: nat): (r: nat)
    requires i <= |s|
    ensures i <= r <= |s| && (r < |s| ==> !IsDigit(s[r]))
    ensures forall k :: i <= k < r ==> IsDigit(s[k])
    decreases |s| - i
  {
    if i == |s| || !IsDigit(s[i]) then i else DigitRunEnd(s, i + 1)
  }

  /** Python's `int(s)` for a string of ASCII digits. */
  function DigitsValue(s: string): nat
    decreases |s|
  {
    if s == [] then 0
    else DigitsValue(s[..|s| - 1]) * 10 + (if IsDigit(s[|s| - 1]) then s[|s| - 1] as int - '0' as int else 0)
  }

  /** The index of the next newline at or after `i`, or `|s|`. */
  function LineEnd(s: string, i: nat): (r: nat)
    requires i <= |s|
    ensures i <= r <= |s|
  {
    IndexOfChar(s, '\n', i)
  }
}
