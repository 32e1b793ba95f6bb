/** `collect_page_numbers`: the page-number sheet scanned top to bottom for
    the rows whose Torah or haftarah columns hold the given book, chapter
    and verse. Rows after the first empty row list maftir readings. The
    sheet's rows are an input. */
module Pages {
  import opened Common
  import opened Text
  import opened FieldKeys

  /** Where a reading starts, as `collect_fields` reads it back from the
      dict (None only if the dict held Python's None there). */
  datatype Coordinates = Coordinates(book: Option<string>, chapter: Option<string>, verse: Option<string>)

  /** Columns `i`, `i + 1`, `i + 2` of a padded row hold the coordinates. */
  predicate MatchesAt(row: seq<string>, i: nat, c: Coordinates)
    requires i + 2 < |row|
  {
    Some(row[i]) == c.book && Some(row[i + 1]) == c.chapter && Some(row[i + 2]) == c.verse
  }

  /** Columns 3-5 (the Torah reading) of the row, padded to 11 cells. */
  predicate TorahMatch(row: seq<string>, c: Coordinates) {
    MatchesAt(Pad(row, 11), 3, c)
  }

  /** Columns 8-10 (the haftarah) match, and column 0 names the parasha
      when one is asked for. */
  predicate HaftarahMatch(row: seq<string>, c: Coordinates, parasha: Option<string>) {
    var r := Pad(row, 11);
    MatchesAt(r, 8, c) && (parasha.None? || parasha == Some(r[0]))
  }

  /** The loop's state: the fields so far and the sticky `maftir` flag. */
  datatype PageScan = PageScan(fields: Fields, maftir: bool)

  /** The Torah half of the loop body: a matching row's pages go to the
      maftir keys once the flag is set and to the parasha keys before. */
  function TorahPages(f: Fields, maftir: bool, row: seq<string>, c: Coordinates): Fields {
    var r := Pad(row, 11);
    if !TorahMatch(row, c) then f
    else if maftir then f[MaftirEtzHayim := Some(r[1])][MaftirHertz := Some(r[2])]
    else f[ParashaEtzHayim := Some(r[1])][ParashaHertz := Some(r[2])]
  }

  /** The haftarah half of the loop body. */
  function HaftarahPages(f: Fields, row: seq<string>, c: Coordinates, parasha: Option<string>): Fields {
    var r := Pad(row, 11);
    if HaftarahMatch(row, c, parasha) then f[HaftarahEtzHayim := Some(r[6])][HaftarahHertz := Some(r[7])] else f
  }

  /** One pass of the loop body: an empty row sets the flag for good. */
  function PageRow(st: PageScan, row: seq<string>, c: Coordinates, parasha: Option<string>): PageScan {
    var maftir := st.maftir || row == [];
    PageScan(HaftarahPages(TorahPages(st.fields, maftir, row, c), row, c, parasha), maftir)
  }

  /** The loop over the rows, as a fold. */
  function ScanPages(rows: seq<seq<string>>, c: Coordinates, parasha: Option<string>): PageScan
    decreases |rows|
  {
    if rows == [] then PageScan(map[], false)
    else PageRow(ScanPages(rows[..|rows| - 1], c, parasha), rows[|rows| - 1], c, parasha)
  }

  function PageNumbers(rows: seq<seq<string>>, c: Coordinates, parasha: Option<string>): Fields {
    ScanPages(rows, c, parasha).fields
  }

  /** `collect_page_numbers`' loop. */
  method CollectPageNumbers(rows: seq<seq<string>>, c: Coordinates, parasha: Option<string>) returns (fields: Fields)
    ensures fields == PageNumbers(rows, c, parasha)
  {
    fields := map[];
    var maftir := false;
    var i := 0;
    while i < |rows|
      invariant 0 <= i <= |rows|
      invariant ScanPages(rows[..i], c, parasha) == PageScan(fields, maftir)
    {
      ScanPagesSnoc(rows, c, parasha, i + 1);
      ghost var st := PageScan(fields, maftir);
      var row := rows[i];
      if row == [] {
        maftir := true;
      }
      var r := Pad(row, 11);
      if Some(r[3]) == c.book && Some(r[4]) == c.chapter && Some(r[5]) == c.verse {
        if maftir {
          fields := fields[MaftirEtzHayim := Some(r[1])];
          fields := fields[MaftirHertz := Some(r[2])];
        } else {
          fields := fields[ParashaEtzHayim := Some(r[1])];
          fields := fields[ParashaHertz := Some(r[2])];
        }
      }
      assert fields == TorahPages(st.fields, maftir, row, c);
      ghost var torah := fields;
      if Some(r[8]) == c.book && Some(r[9]) == c.chapter && Some(r[10]) == c.verse && (parasha.None? || parasha == Some(r[0])) {
        fields := fields[HaftarahEtzHayim := Some(r[6])];
        fields := fields[HaftarahHertz := Some(r[7])];
      }
      assert fields == HaftarahPages(torah, row, c, parasha);
      i := i + 1;
    }
    assert rows[..|rows|] == rows;
  }

  // ---------------------------------------------------------------------------
  // Reference definitions: searching back from the end

  /** The index of the first empty row, or the number of rows. */
  function FirstBlank(rows: seq<seq<string>>): (n: nat)
    ensures n <= |rows| && (n < |rows| ==> rows[n] == [])
    ensures forall k :: 0 <= k < n ==> rows[k] != []
    decreases |rows|
  {
    if rows == [] then 0
    else if rows[0] == [] then 0
    else 1 + FirstBlank(rows[1..])
  }

  /** The last index in [lo, hi) whose Torah columns match. */
  function LastTorahMatch(rows: seq<seq<string>>, c: Coordinates, lo: nat, hi: nat): (r: Option<nat>)
    requires hi <= |rows|
    ensures r.Some? ==> lo <= r.value < hi && TorahMatch(rows[r.value], c)
                        && forall j :: r.value < j < hi ==> !TorahMatch(rows[j], c)
    ensures r.None? ==> forall j :: lo <= j < hi ==> !TorahMatch(rows[j], c)
    decreases hi
  {
    if hi <= lo then None
    else if TorahMatch(rows[hi - 1], c) then Some(hi - 1)
    else LastTorahMatch(rows, c, lo, hi - 1)
  }

  /** The last index in [0, hi) whose haftarah columns match. */
  function LastHaftarahMatch(rows: seq<seq<string>>, c: Coordinates, parasha: Option<string>, hi: nat): (r: Option<nat>)
    requires hi <= |rows|
    ensures r.Some? ==> r.value < hi && HaftarahMatch(rows[r.value], c, parasha)
                        && forall j :: r.value < j < hi ==> !HaftarahMatch(rows[j], c, parasha)
    ensures r.None? ==> forall j :: 0 <= j < hi ==> !HaftarahMatch(rows[j], c, parasha)
    decreases hi
  {
    if hi == 0 then None
    else if HaftarahMatch(rows[hi - 1], c, parasha) then Some(hi - 1)
    else LastHaftarahMatch(rows, c, parasha, hi - 1)
  }

  /** The two page fields `etz` and `hertz` hold columns `col` and
      `col + 1` of row `m` when `m` is Some, and are absent when it is None. */
  predicate PagesFrom(f: Fields, etz: Key, hertz: Key, rows: seq<seq<string>>, m: Option<nat>, col: nat)
    requires col + 1 < 11
  {
    && (etz in f <==> m.Some?) && (hertz in f <==> m.Some?)
    && (m.Some? ==>
          && m.value < |rows|
          && f[etz] == Some(Pad(rows[m.value], 11)[col])
          && f[hertz] == Some(Pad(rows[m.value], 11)[col + 1]))
  }

  /** Writing other keys keeps what `PagesFrom` says. */
  lemma PagesFromOther(f: Fields, etz: Key, hertz: Key, rows: seq<seq<string>>, m: Option<nat>, col: nat, k1: Key, k2: Key, v1: Option<string>, v2: Option<string>)
    requires col + 1 < 11 && PagesFrom(f, etz, hertz, rows, m, col)
    requires k1 != etz && k1 != hertz && k2 != etz && k2 != hertz
    ensures PagesFrom(f[k1 := v1][k2 := v2], etz, hertz, rows, m, col)
  {
  }

  /** The first empty row, if it is among the first `n`. */
  function Lookahead(rows: seq<seq<string>>, n: nat): nat {
    if n < FirstBlank(rows) then n else FirstBlank(rows)
  }

  predicate ParashaAgrees(rows: seq<seq<string>>, c: Coordinates, n: nat, f: Fields)
    requires n <= |rows|
  {
    PagesFrom(f, ParashaEtzHayim, ParashaHertz, rows, LastTorahMatch(rows, c, 0, Lookahead(rows, n)), 1)
  }

  predicate MaftirAgrees(rows: seq<seq<string>>, c: Coordinates, n: nat, f: Fields)
    requires n <= |rows|
  {
    PagesFrom(f, MaftirEtzHayim, MaftirHertz, rows,
              if FirstBlank(rows) < n then LastTorahMatch(rows, c, FirstBlank(rows), n) else None, 1)
  }

  predicate HaftarahAgrees(rows: seq<seq<string>>, c: Coordinates, parasha: Option<string>, n: nat, f: Fields)
    requires n <= |rows|
  {
    PagesFrom(f, HaftarahEtzHayim, HaftarahHertz, rows, LastHaftarahMatch(rows, c, parasha, n), 6)
  }

  const PageKeys := {ParashaEtzHayim, ParashaHertz, MaftirEtzHayim, MaftirHertz, HaftarahEtzHayim, HaftarahHertz}

  /** Membership in `PageKeys`, by the key's constructor. */
  predicate PageKey(k: Key) {
    || k.ParashaEtzHayim? || k.ParashaHertz? || k.MaftirEtzHayim? || k.MaftirHertz?
    || k.HaftarahEtzHayim? || k.HaftarahHertz?
  }

  /** What the scan of the first `n` rows has found, stated by the
      reference definitions. */
  predicate ScanAgrees(rows: seq<seq<string>>, c: Coordinates, parasha: Option<string>, n: nat, st: PageScan)
    requires n <= |rows|
  {
    && (st.maftir <==> FirstBlank(rows) < n)
    && ParashaAgrees(rows, c, n, st.fields)
    && MaftirAgrees(rows, c, n, st.fields)
    && HaftarahAgrees(rows, c, parasha, n, st.fields)
    && st.fields.Keys <= PageKeys
  }

  lemma TorahStepParasha(rows: seq<seq<string>>, c: Coordinates, n: nat, f: Fields, maftir: bool)
    requires n < |rows| && (maftir <==> FirstBlank(rows) < n + 1)
    requires ParashaAgrees(rows, c, n, f)
    ensures ParashaAgrees(rows, c, n + 1, TorahPages(f, maftir, rows[n], c))
  {
    var r := Pad(rows[n], 11);
    var g := TorahPages(f, maftir, rows[n], c);
    var fb := FirstBlank(rows);
    if maftir {
      assert Lookahead(rows, n + 1) == Lookahead(rows, n) == fb;
      if TorahMatch(rows[n], c) {
        assert g == f[MaftirEtzHayim := Some(r[1])][MaftirHertz := Some(r[2])];
        PagesFromOther(f, ParashaEtzHayim, ParashaHertz, rows, LastTorahMatch(rows, c, 0, fb), 1,
                       MaftirEtzHayim, MaftirHertz, Some(r[1]), Some(r[2]));
      } else {
        assert g == f;
      }
    } else {
      assert Lookahead(rows, n + 1) == n + 1 && Lookahead(rows, n) == n;
      if TorahMatch(rows[n], c) {
        assert LastTorahMatch(rows, c, 0, n + 1) == Some(n);
        assert g == f[ParashaEtzHayim := Some(r[1])][ParashaHertz := Some(r[2])];
      } else {
        assert LastTorahMatch(rows, c, 0, n + 1) == LastTorahMatch(rows, c, 0, n);
        assert g == f;
      }
    }
  }

  lemma TorahStepMaftir(rows: seq<seq<string>>, c: Coordinates, n: nat, f: Fields, maftir: bool)
    requires n < |rows| && (maftir <==> FirstBlank(rows) < n + 1)
    requires MaftirAgrees(rows, c, n, f)
    ensures MaftirAgrees(rows, c, n + 1, TorahPages(f, maftir, rows[n], c))
  {
    var r := Pad(rows[n], 11);
    var g := TorahPages(f, maftir, rows[n], c);
    var fb := FirstBlank(rows);
    if maftir {
      if TorahMatch(rows[n], c) {
        assert LastTorahMatch(rows, c, fb, n + 1) == Some(n);
        assert g == f[MaftirEtzHayim := Some(r[1])][MaftirHertz := Some(r[2])];
      } else {
        assert LastTorahMatch(rows, c, fb, n + 1) == LastTorahMatch(rows, c, fb, n);
        assert fb == n ==> LastTorahMatch(rows, c, fb, n) == None;
        assert g == f;
      }
    } else {
      if TorahMatch(rows[n], c) {
        assert g == f[ParashaEtzHayim := Some(r[1])][ParashaHertz := Some(r[2])];
        PagesFromOther(f, MaftirEtzHayim, MaftirHertz, rows, None, 1,
                       ParashaEtzHayim, ParashaHertz, Some(r[1]), Some(r[2]));
      } else {
        assert g == f;
      }
    }
  }

  lemma HaftarahStepOwn(rows: seq<seq<string>>, c: Coordinates, parasha: Option<string>, n: nat, f: Fields)
    requires n < |rows| && HaftarahAgrees(rows, c, parasha, n, f)
    ensures HaftarahAgrees(rows, c, parasha, n + 1, HaftarahPages(f, rows[n], c, parasha))
  {
    var r := Pad(rows[n], 11);
    if HaftarahMatch(rows[n], c, parasha) {
      assert LastHaftarahMatch(rows, c, parasha, n + 1) == Some(n);
      assert HaftarahPages(f, rows[n], c, parasha) == f[HaftarahEtzHayim := Some(r[6])][HaftarahHertz := Some(r[7])];
    } else {
      assert LastHaftarahMatch(rows, c, parasha, n + 1) == LastHaftarahMatch(rows, c, parasha, n);
      assert HaftarahPages(f, rows[n], c, parasha) == f;
    }
  }

  lemma HaftarahStepOthers(rows: seq<seq<string>>, c: Coordinates, parasha: Option<string>, n: nat, f: Fields)
    requires n < |rows| && ParashaAgrees(rows, c, n + 1, f) && MaftirAgrees(rows, c, n + 1, f)
    ensures ParashaAgrees(rows, c, n + 1, HaftarahPages(f, rows[n], c, parasha))
    ensures MaftirAgrees(rows, c, n + 1, HaftarahPages(f, rows[n], c, parasha))
  {
    var r := Pad(rows[n], 11);
    if HaftarahMatch(rows[n], c, parasha) {
      assert HaftarahPages(f, rows[n], c, parasha) == f[HaftarahEtzHayim := Some(r[6])][HaftarahHertz := Some(r[7])];
      PagesFromOther(f, ParashaEtzHayim, ParashaHertz, rows, LastTorahMatch(rows, c, 0, Lookahead(rows, n + 1)), 1,
                     HaftarahEtzHayim, HaftarahHertz, Some(r[6]), Some(r[7]));
      PagesFromOther(f, MaftirEtzHayim, MaftirHertz, rows,
                     if FirstBlank(rows) < n + 1 then LastTorahMatch(rows, c, FirstBlank(rows), n + 1) else None, 1,
                     HaftarahEtzHayim, HaftarahHertz, Some(r[6]), Some(r[7]));
    } else {
      assert HaftarahPages(f, rows[n], c, parasha) == f;
    }
  }

  lemma StepKeys(st: PageScan, row: seq<string>, c: Coordinates, parasha: Option<string>)
    requires st.fields.Keys <= PageKeys
    ensures PageRow(st, row, c, parasha).fields.Keys <= PageKeys
  {
  }

  lemma ScanStep(rows: seq<seq<string>>, c: Coordinates, parasha: Option<string>, n: nat, st: PageScan)
    requires n < |rows| && ScanAgrees(rows, c, parasha, n, st)
    ensures ScanAgrees(rows, c, parasha, n + 1, PageRow(st, rows[n], c, parasha))
  {
    var maftir := st.maftir || rows[n] == [];
    assert maftir <==> FirstBlank(rows) < n + 1;
    TorahStepParasha(rows, c, n, st.fields, maftir);
    TorahStepMaftir(rows, c, n, st.fields, maftir);
    var f := TorahPages(st.fields, maftir, rows[n], c);
    HaftarahStepOwn(rows, c, parasha, n, f);
    HaftarahStepOthers(rows, c, parasha, n, f);
    StepKeys(st, rows[n], c, parasha);
  }

  lemma {:induction false} ScanAgreesUpTo(rows: seq<seq<string>>, c: Coordinates, parasha: Option<string>, n: nat)
    requires n <= |rows|
    ensures ScanAgrees(rows, c, parasha, n, ScanPages(rows[..n], c, parasha))
    decreases n
  {
    if n > 0 {
      ScanAgreesUpTo(rows, c, parasha, n - 1);
      ScanPagesSnoc(rows, c, parasha, n);
      ScanStep(rows, c, parasha, n - 1, ScanPages(rows[..n - 1], c, parasha));
    } else {
      ScanAgreesStart(rows, c, parasha);
    }
  }

  lemma ScanPagesSnoc(rows: seq<seq<string>>, c: Coordinates, parasha: Option<string>, n: nat)
    requires 0 < n <= |rows|
    ensures ScanPages(rows[..n], c, parasha) == PageRow(ScanPages(rows[..n - 1], c, parasha), rows[n - 1], c, parasha)
  {
    assert rows[..n][..n - 1] == rows[..n - 1];
    assert rows[..n][n - 1] == rows[n - 1];
  }

  lemma ScanAgreesStart(rows: seq<seq<string>>, c: Coordinates, parasha: Option<string>)
    ensures ScanAgrees(rows, c, parasha, 0, ScanPages(rows[..0], c, parasha))
  {
    assert rows[..0] == [];
  }

  /** Which rows `collect_page_numbers` takes its pages from: parasha pages
      from the last matching row before the first empty row, maftir pages
      from the last matching row from the empty row on, haftarah pages from
      the last row whose haftarah columns and parasha match. Nothing else is
      written. */
  lemma PageNumbersFound(rows: seq<seq<string>>, c: Coordinates, parasha: Option<string>)
    ensures var f, fb := PageNumbers(rows, c, parasha), FirstBlank(rows);
      && PagesFrom(f, ParashaEtzHayim, ParashaHertz, rows, LastTorahMatch(rows, c, 0, fb), 1)
      && PagesFrom(f, MaftirEtzHayim, MaftirHertz, rows, LastTorahMatch(rows, c, fb, |rows|), 1)
      && PagesFrom(f, HaftarahEtzHayim, HaftarahHertz, rows, LastHaftarahMatch(rows, c, parasha, |rows|), 6)
      && f.Keys <= PageKeys
  {
    ScanAgreesUpTo(rows, c, parasha, |rows|);
    assert rows[..|rows|] == rows;
    var fb := FirstBlank(rows);
    assert Lookahead(rows, |rows|) == fb;
    if fb == |rows| {
      assert LastTorahMatch(rows, c, fb, |rows|) == None;
    }
  }

  /** A sheet without an empty row gives no maftir pages. */
  lemma NoBlankNoMaftir(rows: seq<seq<string>>, c: Coordinates, parasha: Option<string>)
    requires forall k :: 0 <= k < |rows| ==> rows[k] != []
    ensures MaftirEtzHayim !in PageNumbers(rows, c, parasha)
  {
    PageNumbersFound(rows, c, parasha);
  }

  /** Only the six page keys are written. */
  lemma PageNumbersLack(rows: seq<seq<string>>, c: Coordinates, parasha: Option<string>, k: Key)
    requires !PageKey(k)
    ensures k !in PageNumbers(rows, c, parasha)
  {
    PageKeysOnly(rows, c, parasha);
    PageKeyIff(k);
  }

  /** The parasha pages of a sheet whose parasha rows hold a match. */
  lemma ParashaPagesFound(rows: seq<seq<string>>, c: Coordinates, parasha: Option<string>, m: nat)
    requires LastTorahMatch(rows, c, 0, FirstBlank(rows)) == Some(m)
    ensures var f := PageNumbers(rows, c, parasha);
      && ParashaEtzHayim in f && f[ParashaEtzHayim] == Some(Pad(rows[m], 11)[1])
      && ParashaHertz in f && f[ParashaHertz] == Some(Pad(rows[m], 11)[2])
  {
    PageNumbersFound(rows, c, parasha);
  }

  /** No parasha pages when no parasha row matches. */
  lemma NoParashaPages(rows: seq<seq<string>>, c: Coordinates, parasha: Option<string>)
    requires LastTorahMatch(rows, c, 0, FirstBlank(rows)).None?
    ensures ParashaEtzHayim !in PageNumbers(rows, c, parasha) && ParashaHertz !in PageNumbers(rows, c, parasha)
  {
    PageNumbersFound(rows, c, parasha);
  }

  /** The keys the merge reads back after writing page numbers. */
  predicate SameCoordinates(f: Fields, g: Fields) {
    && SameAt(f, g, MaftirBookEnglish) && SameAt(f, g, MaftirChapter) && SameAt(f, g, MaftirVerse)
    && SameAt(f, g, ParashaBookEnglish) && SameAt(f, g, ParashaChapter) && SameAt(f, g, ParashaVerse)
    && SameAt(f, g, ParashaTitle)
    && SameAt(f, g, HaftarahBookEnglish) && SameAt(f, g, HaftarahChapter) && SameAt(f, g, HaftarahVerse)
  }

  /** Writing page numbers leaves those keys as they were. */
  lemma PagesKeepCoordinates(f: Fields, rows: seq<seq<string>>, c: Coordinates, parasha: Option<string>)
    ensures SameCoordinates(f + PageNumbers(rows, c, parasha), f)
  {
    var p := PageNumbers(rows, c, parasha);
    PageKeysOnly(rows, c, parasha);
    UpdateKeeps(f, p, MaftirBookEnglish);
    UpdateKeeps(f, p, MaftirChapter);
    UpdateKeeps(f, p, MaftirVerse);
    UpdateKeeps(f, p, ParashaBookEnglish);
    UpdateKeeps(f, p, ParashaChapter);
    UpdateKeeps(f, p, ParashaVerse);
    UpdateKeeps(f, p, ParashaTitle);
    UpdateKeeps(f, p, HaftarahBookEnglish);
    UpdateKeeps(f, p, HaftarahChapter);
    UpdateKeeps(f, p, HaftarahVerse);
  }

  lemma PageKeysOnly(rows: seq<seq<string>>, c: Coordinates, parasha: Option<string>)
    ensures PageNumbers(rows, c, parasha).Keys <= PageKeys
  {
    PageNumbersFound(rows, c, parasha);
  }

  lemma PageKeyIff(k: Key)
    ensures PageKey(k) <==> k in PageKeys
  {
  }
}
