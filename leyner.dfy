/** The roster's Torah-reader text: who reads a given aliyah
    (`extract_aliyah_leyner`) and the list of reader names
    (`extract_torah_readers`). The regular expressions these use become the
    scanners below. Digits are ASCII digits. */
module Leyner {
  import opened Common
  import opened Text

  // ---------------------------------------------------------------------------
  // re.findall("(\d+)-(\d+)", line) and re.findall("\d+", line)

  /** One match of `(\d+)-(\d+)`: its two groups and where the match starts. */
  datatype RangeToken = RangeToken(first: string, last: string, at: nat)

  function RangeText(t: RangeToken): string {
    t.first + "-" + t.last
  }

  predicate AllDigits(s: string) {
    forall k :: 0 <= k < |s| ==> IsDigit(s[k])
  }

  /** `t` is a match of `(\d+)-(\d+)` in `line` at `t.at`. */
  predicate TokenAt(line: string, t: RangeToken) {
    && t.first != "" && t.last != "" && AllDigits(t.first) && AllDigits(t.last)
    && MatchAt(line, RangeText(t), t.at)
  }

  /** The matches of `(\d+)-(\d+)` at or after `i`, left to right and not
      overlapping. A match can only start where a digit run starts: a start
      inside a run ends at the same place and meets the same character. */
  function RangeTokensFrom(line: string, i: nat): (ts: seq<RangeToken>)
    requires i <= |line|
    ensures forall k :: 0 <= k < |ts| ==> i <= ts[k].at && TokenAt(line, ts[k])
    ensures ts != [] ==> exists k :: i <= k < |line| && IsDigit(line[k])
    decreases |line| - i
  {
    if i == |line| then []
    else if !IsDigit(line[i]) then RangeTokensFrom(line, i + 1)
    else
      var e := DigitRunEnd(line, i);
      if e + 1 < |line| && line[e] == '-' && IsDigit(line[e + 1]) then
        var e2 := DigitRunEnd(line, e + 1);
        var t := RangeToken(line[i..e], line[e + 1..e2], i);
        assert line[i..e2] == line[i..e] + "-" + line[e + 1..e2];
        assert |t.first| == e - i && |t.last| == e2 - e - 1;
        assert AllDigits(t.first) && AllDigits(t.last) && |RangeText(t)| == e2 - i;
        assert TokenAt(line, t);
        var rest := RangeTokensFrom(line, e2);
        assert forall k :: 0 <= k < |rest| ==> i <= rest[k].at && TokenAt(line, rest[k]);
        [t] + rest
      else RangeTokensFrom(line, e)
  }

  /** The matches of `\d+` at or after `i`: the maximal digit runs. */
  function DigitRunsFrom(line: string, i: nat): (ns: seq<string>)
    requires i <= |line|
    ensures forall k :: 0 <= k < |ns| ==> ns[k] != "" && AllDigits(ns[k])
    ensures ns == [] <==> forall k :: i <= k < |line| ==> !IsDigit(line[k])
    decreases |line| - i
  {
    if i == |line| then []
    else if !IsDigit(line[i]) then DigitRunsFrom(line, i + 1)
    else [line[i..DigitRunEnd(line, i)]] + DigitRunsFrom(line, DigitRunEnd(line, i))
  }

  // `re.findall` takes the leftmost match, extends it as far as the pattern
  // allows, and searches again from where that match ends. The lemmas below
  // say the scanners return exactly those matches, in order.

  /** `p` starts a run of digits, for a search that begins at `i`. */
  predicate DigitRunStart(line: string, i: nat, p: nat) {
    i <= p < |line| && IsDigit(line[p]) && (p == i || !IsDigit(line[p - 1]))
  }

  /** The run starts in `[p, |line|)`, left to right, for a search that
      begins at `i`: every position, filtered. */
  ghost function RunStarts(line: string, i: nat, p: nat): (ps: seq<nat>)
    requires p <= |line|
    ensures forall k :: 0 <= k < |ps| ==> p <= ps[k] < |line|
    ensures forall q: nat :: q in ps <==> p <= q && DigitRunStart(line, i, q)
    ensures forall a, b :: 0 <= a < b < |ps| ==> ps[a] < ps[b]
    decreases |line| - p
  {
    if p == |line| then []
    else
      var rest := RunStarts(line, i, p + 1);
      (if DigitRunStart(line, i, p) then [p] else []) + rest
  }

  /** Positions strictly inside a run start nothing. */
  lemma {:induction false} RunStartsSkip(line: string, i: nat, p: nat, e: nat)
    requires i < p <= e <= |line| && forall k :: p - 1 <= k < e ==> IsDigit(line[k])
    ensures RunStarts(line, i, p) == RunStarts(line, i, e)
    decreases e - p
  {
    if p < e {
      assert !DigitRunStart(line, i, p);
      RunStartsSkip(line, i, p + 1, e);
    }
  }

  /** One step of the scanner and of the filter, from a position that does
      not split a run: a run taken whole, or a non-digit passed over. */
  lemma DigitRunsStep(line: string, i: nat, j: nat)
    requires i <= j < |line|
    requires j == i || !IsDigit(line[j - 1]) || !IsDigit(line[j])
    ensures IsDigit(line[j]) ==>
      && DigitRunsFrom(line, j) == [line[j..DigitRunEnd(line, j)]] + DigitRunsFrom(line, DigitRunEnd(line, j))
      && RunStarts(line, i, j) == [j] + RunStarts(line, i, DigitRunEnd(line, j))
    ensures !IsDigit(line[j]) ==>
      && DigitRunsFrom(line, j) == DigitRunsFrom(line, j + 1)
      && RunStarts(line, i, j) == RunStarts(line, i, j + 1)
  {
    if IsDigit(line[j]) {
      assert DigitRunStart(line, i, j);
      RunStartsSkip(line, i, j + 1, DigitRunEnd(line, j));
    } else {
      assert !DigitRunStart(line, i, j);
    }
  }

  /** Putting the run at `j` in front keeps each number the run at its
      position. */
  lemma RunsCons(line: string, j: nat, ns: seq<string>, ps: seq<nat>)
    requires j < |line| && |ns| == |ps|
    requires forall k :: 0 <= k < |ps| ==> ps[k] <= |line| && ns[k] == line[ps[k]..DigitRunEnd(line, ps[k])]
    ensures var ns', ps' := [line[j..DigitRunEnd(line, j)]] + ns, [j] + ps;
      forall k :: 0 <= k < |ps'| ==> ns'[k] == line[ps'[k]..DigitRunEnd(line, ps'[k])]
  {
    var ns', ps' := [line[j..DigitRunEnd(line, j)]] + ns, [j] + ps;
    forall k | 0 < k < |ps'|
      ensures ns'[k] == line[ps'[k]..DigitRunEnd(line, ps'[k])]
    {
      assert ns'[k] == ns[k - 1] && ps'[k] == ps[k - 1];
    }
  }

  /** From a position that does not split a run, the scanner finds one number
      per run start, each run whole. */
  lemma {:induction false} DigitRunsAt(line: string, i: nat, j: nat)
    requires i <= j <= |line|
    requires j == i || j == |line| || !IsDigit(line[j - 1]) || !IsDigit(line[j])
    ensures |DigitRunsFrom(line, j)| == |RunStarts(line, i, j)|
    ensures forall k :: 0 <= k < |RunStarts(line, i, j)| ==>
      DigitRunsFrom(line, j)[k] == line[RunStarts(line, i, j)[k]..DigitRunEnd(line, RunStarts(line, i, j)[k])]
    decreases |line| - j
  {
    if j < |line| {
      DigitRunsStep(line, i, j);
      if IsDigit(line[j]) {
        var e := DigitRunEnd(line, j);
        DigitRunsAt(line, i, e);
        RunsCons(line, j, DigitRunsFrom(line, e), RunStarts(line, i, e));
      } else {
        DigitRunsAt(line, i, j + 1);
      }
    }
  }

  /** The numbers found from `i` are the line's digit runs from `i`: one per
      run start, in order, each run whole, and none missed. */
  lemma DigitRunsComplete(line: string, i: nat)
    requires i <= |line|
    ensures var ns, ps := DigitRunsFrom(line, i), RunStarts(line, i, i);
      && |ns| == |ps|
      && (forall k :: 0 <= k < |ps| ==> ns[k] == line[ps[k]..DigitRunEnd(line, ps[k])])
      && (forall q: nat :: q in ps <==> DigitRunStart(line, i, q))
      && (forall a, b :: 0 <= a < b < |ps| ==> ps[a] < ps[b])
  {
    DigitRunsAt(line, i, i);
  }

  /** There is a match of `(\d+)-(\d+)` at `p`: a digit, the rest of its run,
      a dash and another digit. A start inside a run sees the same dash. */
  predicate RangeMatchAt(line: string, p: nat) {
    p < |line| && IsDigit(line[p])
    && DigitRunEnd(line, p) + 1 < |line| && line[DigitRunEnd(line, p)] == '-'
    && IsDigit(line[DigitRunEnd(line, p) + 1])
  }

  /** The match at `p`, each group as long as the pattern lets it be. */
  function GreedyRange(line: string, p: nat): (t: RangeToken)
    requires RangeMatchAt(line, p)
    ensures TokenAt(line, t) && t.at == p
  {
    var e := DigitRunEnd(line, p);
    var e2 := DigitRunEnd(line, e + 1);
    var t := RangeToken(line[p..e], line[e + 1..e2], p);
    assert line[p..e2] == line[p..e] + "-" + line[e + 1..e2];
    assert AllDigits(t.first) && AllDigits(t.last) && |RangeText(t)| == e2 - p;
    t
  }

  /** Where a range match ends. */
  function RangeEnd(t: RangeToken): nat {
    t.at + |RangeText(t)|
  }

  /** The first match at or after `i` starts at a digit-run start. */
  predicate RangeStart(line: string, i: nat, p: nat) {
    DigitRunStart(line, i, p) && RangeMatchAt(line, p)
  }

  /** One step of the scanner, as findall takes it: skip a non-digit, skip a
      run that starts no match, or take the match at a run start and go on
      from its end. */
  lemma RangeTokensStep(line: string, i: nat)
    requires i < |line|
    ensures !IsDigit(line[i]) ==> RangeTokensFrom(line, i) == RangeTokensFrom(line, i + 1)
    ensures IsDigit(line[i]) && !RangeMatchAt(line, i)
      ==> RangeTokensFrom(line, i) == RangeTokensFrom(line, DigitRunEnd(line, i))
    ensures RangeMatchAt(line, i)
      ==> && RangeEnd(GreedyRange(line, i)) == DigitRunEnd(line, DigitRunEnd(line, i) + 1)
          && RangeTokensFrom(line, i) == [GreedyRange(line, i)] + RangeTokensFrom(line, RangeEnd(GreedyRange(line, i)))
  {
  }

  /** Where the scanner goes after position `i`: past a non-digit, past a
      run that starts no match, or past the match taken at `i`. */
  function NextScan(line: string, i: nat): (j: nat)
    requires i < |line|
    ensures i < j <= |line|
    ensures j == |line| || !IsDigit(line[j - 1]) || !IsDigit(line[j])
  {
    if RangeMatchAt(line, i) then DigitRunEnd(line, DigitRunEnd(line, i) + 1)
    else if IsDigit(line[i]) then DigitRunEnd(line, i)
    else i + 1
  }

  /** From a position that does not split a run, a later match start is a
      match start for a search from either position. */
  lemma RangeStartRebase(line: string, i: nat, j: nat, q: nat)
    requires i < j <= q && j <= |line|
    requires j == |line| || !IsDigit(line[j - 1]) || !IsDigit(line[j])
    ensures RangeStart(line, i, q) <==> RangeStart(line, j, q)
  {
  }

  /** The scanner's step passes no match start that the match it takes
      leaves uncovered, except that match's own start. */
  lemma NextScanReaches(line: string, i: nat, p: nat)
    requires i < |line|
    requires RangeStart(line, i, p) && Uncovered(RangeTokensFrom(line, i), p)
    requires !(RangeMatchAt(line, i) && p == i)
    ensures NextScan(line, i) <= p
  {
    RangeTokensSplit(line, i);
    if RangeMatchAt(line, i) {
      var ts := RangeTokensFrom(line, i);
      assert !(ts[0].at < p < RangeEnd(ts[0]));
    } else {
      assert p != i;
      assert !IsDigit(line[p - 1]);
    }
  }

  /** The tokens found from `i`: the one taken at `i`, if any, then those
      found from where the scanner goes next. */
  lemma RangeTokensSplit(line: string, i: nat)
    requires i < |line|
    ensures var ts, rest := RangeTokensFrom(line, i), RangeTokensFrom(line, NextScan(line, i));
      if RangeMatchAt(line, i)
      then ts == [GreedyRange(line, i)] + rest && RangeEnd(GreedyRange(line, i)) == NextScan(line, i)
      else ts == rest
  {
    RangeTokensStep(line, i);
  }

  /** Each token found from `i` is the whole match at a digit-run start. */
  lemma {:induction false} RangeTokensAtStarts(line: string, i: nat)
    requires i <= |line|
    ensures var ts := RangeTokensFrom(line, i);
      forall k :: 0 <= k < |ts| ==> RangeStart(line, i, ts[k].at) && ts[k] == GreedyRange(line, ts[k].at)
    decreases |line| - i
  {
    if i < |line| {
      var j := NextScan(line, i);
      var ts, rest := RangeTokensFrom(line, i), RangeTokensFrom(line, j);
      RangeTokensSplit(line, i);
      RangeTokensAtStarts(line, j);
      forall k | 0 <= k < |rest|
        ensures RangeStart(line, i, rest[k].at)
      {
        RangeStartRebase(line, i, j, rest[k].at);
      }
      if RangeMatchAt(line, i) {
        forall k | 0 < k < |ts|
          ensures RangeStart(line, i, ts[k].at) && ts[k] == GreedyRange(line, ts[k].at)
        {
          assert ts[k] == rest[k - 1];
        }
      }
    }
  }

  /** A token placed before tokens in order, all starting where it ends,
      keeps them in order. */
  lemma RangeOrderCons(t: RangeToken, rest: seq<RangeToken>)
    requires forall k :: 0 <= k < |rest| ==> RangeEnd(t) <= rest[k].at
    requires forall a, b :: 0 <= a < b < |rest| ==> RangeEnd(rest[a]) <= rest[b].at
    ensures var ts := [t] + rest;
      forall a, b :: 0 <= a < b < |ts| ==> RangeEnd(ts[a]) <= ts[b].at
  {
    var ts := [t] + rest;
    forall a, b | 0 <= a < b < |ts|
      ensures RangeEnd(ts[a]) <= ts[b].at
    {
      assert ts[b] == rest[b - 1];
      if a > 0 {
        assert ts[a] == rest[a - 1];
      }
    }
  }

  /** The tokens found come left to right, each ending before the next
      begins. */
  lemma {:induction false} RangeTokensInOrder(line: string, i: nat)
    requires i <= |line|
    ensures var ts := RangeTokensFrom(line, i);
      forall a, b :: 0 <= a < b < |ts| ==> RangeEnd(ts[a]) <= ts[b].at
    decreases |line| - i
  {
    if i < |line| {
      var j := NextScan(line, i);
      var ts, rest := RangeTokensFrom(line, i), RangeTokensFrom(line, j);
      RangeTokensSplit(line, i);
      RangeTokensInOrder(line, j);
      if RangeMatchAt(line, i) {
        RangeOrderCons(ts[0], rest);
      }
    }
  }

  /** No token found covers position `p`. */
  predicate Uncovered(ts: seq<RangeToken>, p: nat) {
    forall k :: 0 <= k < |ts| ==> !(ts[k].at < p < RangeEnd(ts[k]))
  }

  /** No match is missed: every match start from `i` that no token found
      covers is the start of a token found. */
  lemma {:induction false} RangeTokensComplete(line: string, i: nat)
    requires i <= |line|
    ensures var ts := RangeTokensFrom(line, i);
      forall p: nat :: RangeStart(line, i, p) && Uncovered(ts, p) ==> exists k :: 0 <= k < |ts| && ts[k].at == p
    decreases |line| - i
  {
    if i < |line| {
      var j := NextScan(line, i);
      var ts, rest := RangeTokensFrom(line, i), RangeTokensFrom(line, j);
      RangeTokensSplit(line, i);
      RangeTokensComplete(line, j);
      forall p: nat | RangeStart(line, i, p) && Uncovered(ts, p)
        ensures exists k :: 0 <= k < |ts| && ts[k].at == p
      {
        RangeFoundAt(line, i, p);
      }
    }
  }

  /** The tokens found from the next scan position are those found from
      `i` less the one taken at `i`, if any. */
  lemma RangeTokensTail(line: string, i: nat)
    requires i < |line|
    ensures var ts := RangeTokensFrom(line, i);
      var d := if RangeMatchAt(line, i) then 1 else 0;
      d <= |ts| && RangeTokensFrom(line, NextScan(line, i)) == ts[d..]
  {
    RangeTokensSplit(line, i);
  }

  /** One step of `RangeTokensComplete`: a match start `p` from `i` that no
      token covers is found, given that this holds from the next scan
      position. */
  lemma RangeFoundAt(line: string, i: nat, p: nat)
    requires i < |line|
    requires var ts := RangeTokensFrom(line, i);
      RangeStart(line, i, p) && Uncovered(ts, p)
    requires var j := NextScan(line, i);
      var rest := RangeTokensFrom(line, j);
      p >= j && RangeStart(line, j, p) && Uncovered(rest, p) ==> exists k :: 0 <= k < |rest| && rest[k].at == p
    ensures var ts := RangeTokensFrom(line, i);
      exists k :: 0 <= k < |ts| && ts[k].at == p
  {
    var j := NextScan(line, i);
    if RangeMatchAt(line, i) && p == i {
      RangeTokensSplit(line, i);
      assert RangeTokensFrom(line, i)[0].at == p;
    } else {
      NextScanReaches(line, i, p);
      RangeStartRebase(line, i, j, p);
      UncoveredTail(line, i, p);
      FoundTail(line, i, p);
    }
  }

  /** A position no token from `i` covers is covered by no token from the
      next scan position. */
  lemma UncoveredTail(line: string, i: nat, p: nat)
    requires i < |line| && Uncovered(RangeTokensFrom(line, i), p)
    ensures Uncovered(RangeTokensFrom(line, NextScan(line, i)), p)
  {
    var ts, rest := RangeTokensFrom(line, i), RangeTokensFrom(line, NextScan(line, i));
    RangeTokensTail(line, i);
    var d := if RangeMatchAt(line, i) then 1 else 0;
    forall k | 0 <= k < |rest|
      ensures !(rest[k].at < p < RangeEnd(rest[k]))
    {
      assert rest[k] == ts[k + d];
    }
  }

  /** A token found at `p` from the next scan position is found from `i`. */
  lemma FoundTail(line: string, i: nat, p: nat)
    requires i < |line|
    requires var rest := RangeTokensFrom(line, NextScan(line, i));
      exists k :: 0 <= k < |rest| && rest[k].at == p
    ensures var ts := RangeTokensFrom(line, i);
      exists k :: 0 <= k < |ts| && ts[k].at == p
  {
    var ts, rest := RangeTokensFrom(line, i), RangeTokensFrom(line, NextScan(line, i));
    RangeTokensTail(line, i);
    var d := if RangeMatchAt(line, i) then 1 else 0;
    var k :| 0 <= k < |rest| && rest[k].at == p;
    assert ts[k + d].at == p;
  }

  /** A range token whose bounds enclose aliyah `n`. */
  predicate Covers(t: RangeToken, n: int) {
    DigitsValue(t.first) <= n <= DigitsValue(t.last)
  }

  function FirstCovering(ts: seq<RangeToken>, n: int): (r: Option<RangeToken>)
    ensures r.Some? ==> r.value in ts && Covers(r.value, n)
    ensures r.None? <==> forall k :: 0 <= k < |ts| ==> !Covers(ts[k], n)
  {
    if ts == [] then None
    else if Covers(ts[0], n) then Some(ts[0])
    else FirstCovering(ts[1..], n)
  }

  lemma {:induction false} FirstCoveringAt(ts: seq<RangeToken>, n: int, k: nat)
    requires k < |ts| && Covers(ts[k], n)
    requires forall j :: 0 <= j < k ==> !Covers(ts[j], n)
    ensures FirstCovering(ts, n) == Some(ts[k])
  {
    if k > 0 {
      FirstCoveringAt(ts[1..], n, k - 1);
    }
  }

  // ---------------------------------------------------------------------------
  // extract_aliyah_leyner

  /** `str.find` handed an int raises TypeError. */
  const FindGivenInt := TypeMismatch("must be str, not int")

  /** `s.split()[0]`. */
  function FirstWord(s: string): (r: Result<string>)
    ensures r.Err? <==> forall c :: c in s ==> IsSpace(c)
    ensures r.Err? ==> r.error.IndexOutOfRange?
    ensures r.Ok? ==> r.value != "" && forall c :: c in r.value ==> !IsSpace(c)
  {
    var ws := Words(s);
    if ws == [] then Err(IndexOutOfRange("list index out of range")) else Ok(ws[0])
  }

  /** `line[line.find(":", line.find(f"{first}-{last}")) + 1:].split()[0]`:
      the first word after the first colon that follows the token's first
      occurrence, or the line's first word when no colon follows. */
  function ReaderAfter(line: string, t: RangeToken): (r: Result<string>)
    requires TokenAt(line, t)
  {
    var p := Find(line, RangeText(t));
    assert MatchAt(line, RangeText(t), t.at);
    var q := FindFrom(line, ":", p);
    FirstWord(line[q + 1..])
  }

  /** What one line decides for aliyah `n`: None when the scan moves on to
      the next line, otherwise the value returned or the exception raised.
      Range tokens are tried first, then single numbers, and a line with
      neither names the reader outright. */
  function LineReader(line: string, n: int): Option<Result<string>> {
    var ranges := RangeTokensFrom(line, 0);
    var hit := FirstCovering(ranges, n);
    if hit.Some? then Some(ReaderAfter(line, hit.value))
    else
      var aliyot := DigitRunsFrom(line, 0);
      if exists k :: 0 <= k < |aliyot| && DigitsValue(aliyot[k]) == n then Some(Err(FindGivenInt))
      else if ranges == [] && aliyot == [] then Some(FirstWord(line))
      else None
  }

  /** A line's decision, or the scan of the lines after it when it has none. */
  function Then(o: Option<Result<string>>, rest: Result<Option<string>>): Result<Option<string>> {
    match o
    case None => rest
    case Some(Ok(w)) => Ok(Some(w))
    case Some(Err(e)) => Err(e)
  }

  /** The scan over the lines from index `i`; falling off the end is None. */
  function ReaderFrom(lines: seq<string>, n: int, i: nat): Result<Option<string>>
    requires i <= |lines|
    decreases |lines| - i
  {
    if i == |lines| then Ok(None) else Then(LineReader(lines[i], n), ReaderFrom(lines, n, i + 1))
  }

  function AliyahLeyner(raw: string, n: int): Result<Option<string>> {
    ReaderFrom(Split(raw, '\n'), n, 0)
  }

  /** `extract_aliyah_leyner(raw_data, aliyah_number)`. */
  method ExtractAliyahLeyner(raw: string, n: int) returns (r: Result<Option<string>>)
    ensures r == AliyahLeyner(raw, n)
  {
    var lines := Split(raw, '\n');
    var i := 0;
    while i < |lines|
      invariant i <= |lines|
      invariant ReaderFrom(lines, n, i) == ReaderFrom(lines, n, 0)
      decreases |lines| - i
    {
      var o := ScanLine(lines[i], n);
      if o.Some? {
        if o.value.Err? {
          return Err(o.value.error);
        }
        return Ok(Some(o.value.value));
      }
      i := i + 1;
    }
    return Ok(None);
  }

  /** The body of the source's loop for one line. */
  method ScanLine(line: string, n: int) returns (o: Option<Result<string>>)
    ensures o == LineReader(line, n)
  {
    var ranges := RangeTokensFrom(line, 0);
    var k := 0;
    while k < |ranges|
      invariant k <= |ranges|
      invariant forall j :: 0 <= j < k ==> !Covers(ranges[j], n)
    {
      var t := ranges[k];
      if n >= DigitsValue(t.first) && n <= DigitsValue(t.last) {
        FirstCoveringAt(ranges, n, k);
        return Some(ReaderAfter(line, t));
      }
      k := k + 1;
    }
    var aliyot := DigitRunsFrom(line, 0);
    k := 0;
    while k < |aliyot|
      invariant k <= |aliyot|
      invariant forall j :: 0 <= j < k ==> DigitsValue(aliyot[j]) != n
    {
      if n == DigitsValue(aliyot[k]) {
        return Some(Err(FindGivenInt));
      }
      k := k + 1;
    }
    if ranges == [] && aliyot == [] {
      return Some(FirstWord(line));
    }
    return None;
  }

  // ---------------------------------------------------------------------------
  // Properties of the reader scan

  /** Whatever the scan returns is one whitespace-free word. */
  lemma {:induction false} ReaderIsWord(lines: seq<string>, n: int, i: nat)
    requires i <= |lines|
    ensures ReaderFrom(lines, n, i).Ok? && ReaderFrom(lines, n, i).value.Some? ==>
      ReaderFrom(lines, n, i).value.value != "" &&
      forall c :: c in ReaderFrom(lines, n, i).value.value ==> !IsSpace(c)
    decreases |lines| - i
  {
    if i < |lines| && LineReader(lines[i], n).None? {
      ReaderIsWord(lines, n, i + 1);
    }
  }

  /** A range that encloses the aliyah decides the line, even when the
      aliyah's number also stands alone on it: the single-number branch,
      which raises, is never reached. */
  lemma RangeBeforeSingle(line: string, n: int, k: nat)
    requires k < |RangeTokensFrom(line, 0)| && Covers(RangeTokensFrom(line, 0)[k], n)
    ensures LineReader(line, n).Some?
    ensures LineReader(line, n) != Some(Err(FindGivenInt))
  {
  }

  /** A single number equal to the aliyah, with no enclosing range, raises. */
  lemma SingleNumberRaises(line: string, n: int, k: nat)
    requires forall j :: 0 <= j < |RangeTokensFrom(line, 0)| ==> !Covers(RangeTokensFrom(line, 0)[j], n)
    requires k < |DigitRunsFrom(line, 0)| && DigitsValue(DigitRunsFrom(line, 0)[k]) == n
    ensures LineReader(line, n) == Some(Err(FindGivenInt))
  {
  }

  lemma NoDigitsNoRanges(line: string, i: nat)
    requires i <= |line|
    requires forall k :: i <= k < |line| ==> !IsDigit(line[k])
    ensures RangeTokensFrom(line, i) == [] && DigitRunsFrom(line, i) == []
  {
  }

  /** A line without digits names its reader: its first word (IndexError
      when the line is blank). */
  lemma NoDigitsFirstWord(line: string, n: int)
    requires forall c :: c in line ==> !IsDigit(c)
    ensures LineReader(line, n) == Some(FirstWord(line))
  {
    NoDigitsNoRanges(line, 0);
  }

  lemma {:induction false} DigitRunEndAt(s: string, i: nat, j: nat)
    requires i <= j <= |s| && (j == |s| || !IsDigit(s[j]))
    requires forall k :: i <= k < j ==> IsDigit(s[k])
    ensures DigitRunEnd(s, i) == j
    decreases j - i
  {
    if i < j {
      DigitRunEndAt(s, i + 1, j);
    }
  }

  /** The first occurrence of a character is where it first appears. */
  lemma FindCharAt(s: string, c: char, j: nat)
    requires j < |s| && s[j] == c && forall k :: 0 <= k < j ==> s[k] != c
    ensures FindFrom(s, [c], 0) == j
  {
    assert MatchAt(s, [c], j);
    var r := FindFrom(s, [c], 0);
    assert s[r..r + 1][0] == s[r];
  }

  /** The line "a-b: name" and where its parts sit. */
  predicate RosterLine(a: string, b: string, name: string) {
    && a != "" && b != "" && AllDigits(a) && AllDigits(b)
    && name != "" && forall c :: c in name ==> !IsDigit(c) && !IsSpace(c)
  }

  function RosterText(a: string, b: string, name: string): string {
    a + "-" + b + ": " + name
  }

  lemma RosterLineLayout(a: string, b: string, name: string)
    requires RosterLine(a, b, name)
    ensures var line := RosterText(a, b, name);
      && DigitRunEnd(line, 0) == |a| && line[|a|] == '-' && IsDigit(line[|a| + 1])
      && DigitRunEnd(line, |a| + 1) == |a| + 1 + |b|
      && line[0..|a|] == a && line[|a| + 1..|a| + 1 + |b|] == b
      && forall k :: |a| + 1 + |b| <= k < |line| ==> !IsDigit(line[k])
  {
    var line := RosterText(a, b, name);
    var e, e2 := |a|, |a| + 1 + |b|;
    assert forall k :: 0 <= k < e ==> line[k] == a[k];
    assert forall k :: e + 1 <= k < e2 ==> line[k] == b[k - e - 1];
    assert line[e] == '-' && line[e2] == ':' && line[e2 + 1] == ' ';
    assert forall k :: e2 + 2 <= k < |line| ==> line[k] == name[k - e2 - 2];
    DigitRunEndAt(line, 0, e);
    DigitRunEndAt(line, e + 1, e2);
    assert line[0..e] == a && line[e + 1..e2] == b;
  }

  /** A roster line "a-b: name" has the one range token `a-b`. */
  lemma RosterLineRanges(a: string, b: string, name: string)
    requires RosterLine(a, b, name)
    ensures RangeTokensFrom(RosterText(a, b, name), 0) == [RangeToken(a, b, 0)]
  {
    var line := RosterText(a, b, name);
    RosterLineLayout(a, b, name);
    NoDigitsNoRanges(line, |a| + 1 + |b|);
  }

  /** Its single numbers are `a` and `b`. */
  lemma RosterLineNumbers(a: string, b: string, name: string)
    requires RosterLine(a, b, name)
    ensures DigitRunsFrom(RosterText(a, b, name), 0) == [a, b]
  {
    var line := RosterText(a, b, name);
    RosterLineLayout(a, b, name);
    NoDigitsNoRanges(line, |a| + 1 + |b|);
    assert DigitRunsFrom(line, |a| + 1) == [b];
  }

  /** The range's reader is `name`. */
  lemma RosterLineReader(a: string, b: string, name: string)
    requires RosterLine(a, b, name)
    ensures TokenAt(RosterText(a, b, name), RangeToken(a, b, 0))
    ensures ReaderAfter(RosterText(a, b, name), RangeToken(a, b, 0)) == Ok(name)
  {
    var line := RosterText(a, b, name);
    var t := RangeToken(a, b, 0);
    var e2 := |a| + 1 + |b|;
    assert line[..|RangeText(t)|] == RangeText(t);
    PrefixContained(line, RangeText(t));
    assert forall k :: 0 <= k < |a| ==> line[k] == a[k] && IsDigit(line[k]);
    assert forall k :: |a| + 1 <= k < e2 ==> line[k] == b[k - |a| - 1] && IsDigit(line[k]);
    FindCharAt(line, ':', e2);
    assert line[e2 + 1..] == [' '] + name;
    WordsSkipSpace(' ', name);
    WordsHead(name, "");
    assert name + "" == name;
  }

  /** A roster line decides aliyah `n` from its range, raises on one of its
      bounds standing alone, or passes to the next line. */
  lemma RosterLineDecides(a: string, b: string, name: string, n: int)
    requires RosterLine(a, b, name)
    ensures LineReader(RosterText(a, b, name), n) ==
      if DigitsValue(a) <= n <= DigitsValue(b) then Some(Ok(name))
      else if n == DigitsValue(a) || n == DigitsValue(b) then Some(Err(FindGivenInt))
      else None
  {
    var line := RosterText(a, b, name);
    var t := RangeToken(a, b, 0);
    RosterLineRanges(a, b, name);
    assert FirstCovering([t], n) == if Covers(t, n) then Some(t) else None;
    if Covers(t, n) {
      RosterLineReader(a, b, name);
    } else {
      RosterLineNumbers(a, b, name);
      var aliyot := [a, b];
      if n == DigitsValue(a) {
        assert DigitsValue(aliyot[0]) == n;
      } else if n == DigitsValue(b) {
        assert DigitsValue(aliyot[1]) == n;
      } else {
        forall k | 0 <= k < |aliyot|
          ensures DigitsValue(aliyot[k]) != n
        {
          assert k == 0 || k == 1;
        }
      }
    }
  }

  /** A name of ASCII letters holds no digit and no space. */
  lemma NameOfLetters(name: string)
    requires forall k :: 0 <= k < |name| ==> IsAsciiLetter(name[k])
    ensures forall c :: c in name ==> !IsDigit(c) && !IsSpace(c)
  {
  }

  /** A two-line text is decided by its first line, else by its second. */
  lemma TwoLines(l1: string, l2: string, n: int)
    requires '\n' !in l1 && '\n' !in l2
    ensures AliyahLeyner(l1 + "\n" + l2, n) == Then(LineReader(l1, n), Then(LineReader(l2, n), Ok(None)))
  {
    SplitTwo(l1, '\n', l2);
    var lines := Split(l1 + "\n" + l2, '\n');
    assert lines[0] == l1 && lines[1] == l2 && |lines| == 2;
    assert ReaderFrom(lines, n, 1) == Then(LineReader(l2, n), ReaderFrom(lines, n, 2));
  }

  /** The parts of the roster "5-7: Cohen\n1-4: Levi". */
  lemma CohenLevi()
    ensures RosterLine("5", "7", "Cohen") && RosterLine("1", "4", "Levi")
    ensures "5-7: Cohen\n1-4: Levi" == RosterText("5", "7", "Cohen") + "\n" + RosterText("1", "4", "Levi")
    ensures '\n' !in RosterText("5", "7", "Cohen") && '\n' !in RosterText("1", "4", "Levi")
    ensures DigitsValue("5") == 5 && DigitsValue("7") == 7 && DigitsValue("1") == 1 && DigitsValue("4") == 4
  {
    NameOfLetters("Cohen");
    NameOfLetters("Levi");
    assert RosterText("5", "7", "Cohen") == "5-7: Cohen";
    assert RosterText("1", "4", "Levi") == "1-4: Levi";
  }

  /** In that roster aliyah 6 is Cohen's ... */
  lemma RosterSixIsCohen()
    ensures AliyahLeyner("5-7: Cohen\n1-4: Levi", 6) == Ok(Some("Cohen"))
  {
    CohenLevi();
    TwoLines(RosterText("5", "7", "Cohen"), RosterText("1", "4", "Levi"), 6);
    RosterLineDecides("5", "7", "Cohen", 6);
  }

  /** ... aliyah 2 is Levi's ... */
  lemma RosterTwoIsLevi()
    ensures AliyahLeyner("5-7: Cohen\n1-4: Levi", 2) == Ok(Some("Levi"))
  {
    CohenLevi();
    TwoLines(RosterText("5", "7", "Cohen"), RosterText("1", "4", "Levi"), 2);
    RosterLineDecides("5", "7", "Cohen", 2);
    RosterLineDecides("1", "4", "Levi", 2);
  }

  /** ... and nobody is named for aliyah 8. */
  lemma RosterEightUnnamed()
    ensures AliyahLeyner("5-7: Cohen\n1-4: Levi", 8) == Ok(None)
  {
    CohenLevi();
    TwoLines(RosterText("5", "7", "Cohen"), RosterText("1", "4", "Levi"), 8);
    RosterLineDecides("5", "7", "Cohen", 8);
    RosterLineDecides("1", "4", "Levi", 8);
  }

  // ---------------------------------------------------------------------------
  // extract_torah_readers: re.findall("[A-Za-z]+ [A-Za-z\-]*", raw_data)

  predicate IsNameChar(c: char) {
    IsAsciiLetter(c) || c == '-'
  }

  function LetterRunEnd(s: string, i: nat): (r: nat)
    requires i <= |s|
    ensures i <= r <= |s| && (r < |s| ==> !IsAsciiLetter(s[r]))
    ensures forall k :: i <= k < r ==> IsAsciiLetter(s[k])
    decreases |s| - i
  {
    if i == |s| || !IsAsciiLetter(s[i]) then i else LetterRunEnd(s, i + 1)
  }

  function NameRunEnd(s: string, i: nat): (r: nat)
    requires i <= |s|
    ensures i <= r <= |s| && (r < |s| ==> !IsNameChar(s[r]))
    ensures forall k :: i <= k < r ==> IsNameChar(s[k])
    decreases |s| - i
  {
    if i == |s| || !IsNameChar(s[i]) then i else NameRunEnd(s, i + 1)
  }

  /** A match of the reader pattern: letters, one space, then letters and
      hyphens. */
  predicate ReaderShaped(w: string) {
    exists j :: 0 < j < |w| && w[j] == ' ' &&
      (forall k :: 0 <= k < j ==> IsAsciiLetter(w[k])) &&
      (forall k :: j < k < |w| ==> IsNameChar(w[k]))
  }

  /** The matches at or after `i`, left to right. A match starts where a
      letter run starts and needs a space right after the run. */
  function ReaderNamesFrom(s: string, i: nat): (ns: seq<string>)
    requires i <= |s|
    ensures forall k :: 0 <= k < |ns| ==> ReaderShaped(ns[k])
    ensures (forall k :: i <= k < |s| ==> !IsAsciiLetter(s[k])) ==> ns == []
    decreases |s| - i
  {
    if i == |s| then []
    else if !IsAsciiLetter(s[i]) then ReaderNamesFrom(s, i + 1)
    else
      var e := LetterRunEnd(s, i);
      if e < |s| && s[e] == ' ' then
        var e2 := NameRunEnd(s, e + 1);
        var w := s[i..e2];
        assert w[e - i] == ' ';
        assert ReaderShaped(w);
        [w] + ReaderNamesFrom(s, e2)
      else ReaderNamesFrom(s, e)
  }

  /** `p` starts a run of letters, for a search that begins at `i`. */
  predicate LetterRunStart(s: string, i: nat, p: nat) {
    i <= p < |s| && IsAsciiLetter(s[p]) && (p == i || !IsAsciiLetter(s[p - 1]))
  }

  /** There is a match of the reader pattern at `p`: a letter, the rest of
      its run, then a space. A start inside a run sees the same space. */
  predicate ReaderMatchAt(s: string, p: nat) {
    p < |s| && IsAsciiLetter(s[p]) && LetterRunEnd(s, p) < |s| && s[LetterRunEnd(s, p)] == ' '
  }

  /** A match start for a search that begins at `i`. */
  predicate ReaderStart(s: string, i: nat, p: nat) {
    LetterRunStart(s, i, p) && ReaderMatchAt(s, p)
  }

  /** Where the match at `p` ends: after the letters and hyphens that follow
      the space, as many as there are. */
  function ReaderEnd(s: string, p: nat): (r: nat)
    requires p <= |s|
    ensures p <= r <= |s|
    ensures ReaderMatchAt(s, p) ==> p < r && (r == |s| || !IsAsciiLetter(s[r]))
  {
    if ReaderMatchAt(s, p) then NameRunEnd(s, LetterRunEnd(s, p) + 1) else p
  }

  /** Where the scanner goes after position `i`. */
  function NextReaderScan(s: string, i: nat): (j: nat)
    requires i < |s|
    ensures i < j <= |s|
    ensures j == |s| || !IsAsciiLetter(s[j - 1]) || !IsAsciiLetter(s[j])
  {
    if ReaderMatchAt(s, i) then ReaderEnd(s, i)
    else if IsAsciiLetter(s[i]) then LetterRunEnd(s, i)
    else i + 1
  }

  /** The names found from `i`: the match at `i`, if any, then those found
      from where the scanner goes next. */
  lemma ReaderNamesSplit(s: string, i: nat)
    requires i < |s|
    ensures ReaderNamesFrom(s, i)
         == (if ReaderMatchAt(s, i) then [s[i..ReaderEnd(s, i)]] else []) + ReaderNamesFrom(s, NextReaderScan(s, i))
  {
  }

  /** The positions where the scanner takes its matches. */
  ghost function ReaderStartsFound(s: string, i: nat): (ps: seq<nat>)
    requires i <= |s|
    ensures forall k :: 0 <= k < |ps| ==> i <= ps[k] < |s|
    decreases |s| - i
  {
    if i == |s| then []
    else (if ReaderMatchAt(s, i) then [i] else []) + ReaderStartsFound(s, NextReaderScan(s, i))
  }

  /** Each name found is the whole match at the matching position. */
  lemma {:induction false} ReaderNamesAt(s: string, i: nat)
    requires i <= |s|
    ensures var ns, ps := ReaderNamesFrom(s, i), ReaderStartsFound(s, i);
      |ns| == |ps| && forall k :: 0 <= k < |ps| ==> ns[k] == s[ps[k]..ReaderEnd(s, ps[k])]
    decreases |s| - i
  {
    if i < |s| {
      var j := NextReaderScan(s, i);
      ReaderNamesSplit(s, i);
      ReaderNamesAt(s, j);
      if ReaderMatchAt(s, i) {
        var ns, ps := ReaderNamesFrom(s, i), ReaderStartsFound(s, i);
        var ns', ps' := ReaderNamesFrom(s, j), ReaderStartsFound(s, j);
        assert ps == ReaderStartsFound(s, i) && ps' == ReaderStartsFound(s, j);
        assert ns == [s[i..ReaderEnd(s, i)]] + ns' && ps == [i] + ps';
        forall k | 0 < k < |ps|
          ensures ns[k] == s[ps[k]..ReaderEnd(s, ps[k])]
        {
          assert ns[k] == ns'[k - 1] && ps[k] == ps'[k - 1];
        }
      }
    }
  }

  /** From a position that does not split a letter run, a later match start
      is a match start for a search from either position. */
  lemma ReaderStartRebase(s: string, i: nat, j: nat, q: nat)
    requires i < j <= q && j <= |s|
    requires j == |s| || !IsAsciiLetter(s[j - 1]) || !IsAsciiLetter(s[j])
    ensures ReaderStart(s, i, q) <==> ReaderStart(s, j, q)
  {
  }

  /** Each position found is a match start. */
  lemma {:induction false} ReaderStartsAtStarts(s: string, i: nat)
    requires i <= |s|
    ensures var ps := ReaderStartsFound(s, i);
      forall k :: 0 <= k < |ps| ==> ReaderStart(s, i, ps[k])
    decreases |s| - i
  {
    if i < |s| {
      var j := NextReaderScan(s, i);
      var ps, rest := ReaderStartsFound(s, i), ReaderStartsFound(s, j);
      assert ps == ReaderStartsFound(s, i) && rest == ReaderStartsFound(s, j);
      ReaderStartsAtStarts(s, j);
      forall k | 0 <= k < |rest|
        ensures ReaderStart(s, i, rest[k])
      {
        ReaderStartRebase(s, i, j, rest[k]);
      }
      if ReaderMatchAt(s, i) {
        assert ps == [i] + rest;
        forall k | 0 < k < |ps|
          ensures ReaderStart(s, i, ps[k])
        {
          assert ps[k] == rest[k - 1];
        }
      } else {
        assert ps == rest;
      }
    }
  }

  /** A match placed before matches in order, all starting where it ends,
      keeps them in order. */
  lemma ReaderOrderCons(s: string, i: nat, rest: seq<nat>)
    requires i < |s|
    requires forall k :: 0 <= k < |rest| ==> ReaderEnd(s, i) <= rest[k] <= |s|
    requires forall a, b :: 0 <= a < b < |rest| ==> ReaderEnd(s, rest[a]) <= rest[b]
    ensures var ps := [i] + rest;
      forall a, b :: 0 <= a < b < |ps| ==> ReaderEnd(s, ps[a]) <= ps[b]
  {
    var ps := [i] + rest;
    forall a, b | 0 <= a < b < |ps|
      ensures ReaderEnd(s, ps[a]) <= ps[b]
    {
      assert ps[b] == rest[b - 1];
      if a > 0 {
        assert ps[a] == rest[a - 1];
      }
    }
  }

  /** The matches come left to right, each ending before the next begins. */
  lemma {:induction false} ReaderStartsInOrder(s: string, i: nat)
    requires i <= |s|
    ensures var ps := ReaderStartsFound(s, i);
      forall a, b :: 0 <= a < b < |ps| ==> ReaderEnd(s, ps[a]) <= ps[b]
    decreases |s| - i
  {
    if i < |s| {
      var j := NextReaderScan(s, i);
      ReaderStartsInOrder(s, j);
      if ReaderMatchAt(s, i) {
        ReaderOrderCons(s, i, ReaderStartsFound(s, j));
      } else {
        assert ReaderStartsFound(s, i) == ReaderStartsFound(s, j);
      }
    }
  }

  /** No match found covers position `p`. */
  predicate ReaderUncovered(s: string, ps: seq<nat>, p: nat)
    requires forall k :: 0 <= k < |ps| ==> ps[k] <= |s|
  {
    forall k :: 0 <= k < |ps| ==> !(ps[k] < p < ReaderEnd(s, ps[k]))
  }

  /** No match is missed: every match start from `i` that no match found
      covers is a position found. */
  lemma {:induction false} ReaderStartsComplete(s: string, i: nat)
    requires i <= |s|
    ensures var ps := ReaderStartsFound(s, i);
      forall p: nat :: ReaderStart(s, i, p) && ReaderUncovered(s, ps, p) ==> p in ps
    decreases |s| - i
  {
    if i < |s| {
      var j := NextReaderScan(s, i);
      ReaderStartsComplete(s, j);
      var ps := ReaderStartsFound(s, i);
      assert ps == ReaderStartsFound(s, i);
      forall p: nat | ReaderStart(s, i, p) && ReaderUncovered(s, ps, p)
        ensures p in ps
      {
        ReaderFoundAt(s, i, p);
      }
    }
  }

  /** The scanner's step passes no reader match start that the match it
      takes leaves uncovered, except that match's own start. */
  lemma NextReaderScanReaches(s: string, i: nat, p: nat)
    requires i < |s|
    requires ReaderStart(s, i, p) && ReaderUncovered(s, ReaderStartsFound(s, i), p)
    requires !(ReaderMatchAt(s, i) && p == i)
    ensures NextReaderScan(s, i) <= p
  {
    var ps := ReaderStartsFound(s, i);
    assert ps == ReaderStartsFound(s, i);
    if ReaderMatchAt(s, i) {
      assert ps == [i] + ReaderStartsFound(s, NextReaderScan(s, i));
      assert !(ps[0] < p < ReaderEnd(s, ps[0]));
    } else {
      assert p != i;
      assert !IsAsciiLetter(s[p - 1]);
    }
  }

  /** One step of `ReaderStartsComplete`. */
  lemma ReaderFoundAt(s: string, i: nat, p: nat)
    requires i < |s|
    requires var ps := ReaderStartsFound(s, i);
      ReaderStart(s, i, p) && ReaderUncovered(s, ps, p)
    requires var j := NextReaderScan(s, i);
      var rest := ReaderStartsFound(s, j);
      p >= j && ReaderStart(s, j, p) && ReaderUncovered(s, rest, p) ==> p in rest
    ensures p in ReaderStartsFound(s, i)
  {
    var j := NextReaderScan(s, i);
    if ReaderMatchAt(s, i) && p == i {
      assert ReaderStartsFound(s, i)[0] == p;
    } else {
      NextReaderScanReaches(s, i, p);
      ReaderStartRebase(s, i, j, p);
      ReaderUncoveredTail(s, i, p);
      ReaderFoundTail(s, i, p);
    }
  }

  /** A match found at `p` from the next scan position is found from `i`. */
  lemma ReaderFoundTail(s: string, i: nat, p: nat)
    requires i < |s| && p in ReaderStartsFound(s, NextReaderScan(s, i))
    ensures p in ReaderStartsFound(s, i)
  {
    assert ReaderStartsFound(s, i)
      == (if ReaderMatchAt(s, i) then [i] else []) + ReaderStartsFound(s, NextReaderScan(s, i));
  }

  /** A position no match from `i` covers is covered by no match from the
      next scan position. */
  lemma ReaderUncoveredTail(s: string, i: nat, p: nat)
    requires i < |s| && ReaderUncovered(s, ReaderStartsFound(s, i), p)
    ensures ReaderUncovered(s, ReaderStartsFound(s, NextReaderScan(s, i)), p)
  {
    var rest := ReaderStartsFound(s, NextReaderScan(s, i));
    assert rest == ReaderStartsFound(s, NextReaderScan(s, i));
    forall k | 0 <= k < |rest|
      ensures !(rest[k] < p < ReaderEnd(s, rest[k]))
    {
      assert rest[k] in ReaderStartsFound(s, i);
    }
  }

  /** The names found from `i` are the findall matches of the reader
      pattern: each the whole match at a letter-run start, left to right and
      not overlapping, and every match start that no earlier match covers is
      found. */
  lemma ReaderNamesComplete(s: string, i: nat)
    requires i <= |s|
    ensures var ns := ReaderNamesFrom(s, i);
      exists ps: seq<nat> ::
        && |ps| == |ns|
        && (forall k :: 0 <= k < |ps| ==> ReaderStart(s, i, ps[k]) && ns[k] == s[ps[k]..ReaderEnd(s, ps[k])])
        && (forall a, b :: 0 <= a < b < |ps| ==> ReaderEnd(s, ps[a]) <= ps[b])
        && (forall p: nat :: ReaderStart(s, i, p) && ReaderUncovered(s, ps, p) ==> p in ps)
  {
    var ps := ReaderStartsFound(s, i);
    ReaderNamesAt(s, i);
    ReaderStartsAtStarts(s, i);
    ReaderStartsInOrder(s, i);
    ReaderStartsComplete(s, i);
  }

  /** `extract_torah_readers(raw_data)`. */
  function TorahReaders(raw: string): string {
    Join(", ", ReaderNamesFrom(raw, 0))
  }

  /** Text without ASCII letters names no readers. */
  lemma NoLettersNoReaders(raw: string)
    requires forall c :: c in raw ==> !IsAsciiLetter(c)
    ensures TorahReaders(raw) == ""
  {
    assert forall k :: 0 <= k < |raw| ==> raw[k] in raw;
  }

  /** A single "First Last" entry after its aliyah numbers is found whole. */
  lemma OneReader(prefix: string, first: string, last: string)
    requires forall c :: c in prefix ==> !IsAsciiLetter(c)
    requires first != "" && forall c :: c in first ==> IsAsciiLetter(c)
    requires forall c :: c in last ==> IsNameChar(c)
    ensures TorahReaders(prefix + first + " " + last) == first + " " + last
  {
    var s := prefix + first + " " + last;
    var i, e := |prefix|, |prefix| + |first|;
    assert forall k :: 0 <= k < i ==> s[k] == prefix[k] && !IsAsciiLetter(s[k]);
    assert forall k :: i <= k < e ==> s[k] == first[k - i] && IsAsciiLetter(s[k]);
    assert s[e] == ' ';
    assert forall k :: e + 1 <= k < |s| ==> s[k] == last[k - e - 1] && IsNameChar(s[k]);
    SkipNonLetters(s, 0, i);
    LetterRunEndAt(s, i, e);
    NameRunEndAt(s, e + 1, |s|);
    assert s[i..|s|] == first + " " + last;
  }

  lemma {:induction false} SkipNonLetters(s: string, i: nat, j: nat)
    requires i <= j <= |s| && forall k :: i <= k < j ==> !IsAsciiLetter(s[k])
    ensures ReaderNamesFrom(s, i) == ReaderNamesFrom(s, j)
    decreases j - i
  {
    if i < j {
      SkipNonLetters(s, i + 1, j);
    }
  }

  lemma {:induction false} LetterRunEndAt(s: string, i: nat, j: nat)
    requires i <= j <= |s| && (j == |s| || !IsAsciiLetter(s[j]))
    requires forall k :: i <= k < j ==> IsAsciiLetter(s[k])
    ensures LetterRunEnd(s, i) == j
    decreases j - i
  {
    if i < j {
      LetterRunEndAt(s, i + 1, j);
    }
  }

  lemma {:induction false} NameRunEndAt(s: string, i: nat, j: nat)
    requires i <= j <= |s| && (j == |s| || !IsNameChar(s[j]))
    requires forall k :: i <= k < j ==> IsNameChar(s[k])
    ensures NameRunEnd(s, i) == j
    decreases j - i
  {
    if i < j {
      NameRunEndAt(s, i + 1, j);
    }
  }
}
