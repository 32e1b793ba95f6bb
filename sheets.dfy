/** The spreadsheets the builder reads for one Shabbat: the davening
    calendar (`collect_fields_from_calendar`), the kiddush and scotch
    sign-up sheets (`collect_fields_from_kiddush_spreadsheet`) and the
    mi shebeyrach list (`collect_mi_shebeyrach_list`). Each sheet's rows are
    an input, as a list of rows of cells with trailing empty cells dropped
    (as the Sheets service returns them). The Shabbat's date is an input in
    the renderings the collectors compare with. */
module Sheets {
  import opened Common
  import opened FieldKeys
  import opened Text
  import opened Leyner
  import Scheduling
  import opened Classifier

  /** The Shabbat's date as the collectors render it: `%-m/%-d/%Y`,
      `%-m/%-d`, and the date a week later as `%B %-d` with its month and
      day numbers. */
  datatype ShabbatDate = ShabbatDate(
    numeric: string,
    monthDay: string,
    nextMeeting: string,
    nextMonth: int,
    nextDay: int)

  /** The shamashim file: a short name to the full name printed in the
      thank-yous. */
  type Shamashim = map<string, string>

  /** `get_shamash_full_name_and_email(n)[0]`: the full name, or the name
      itself when the file does not list it. */
  function FullName(sh: Shamashim, n: string): (full: string)
    ensures n in sh ==> full == sh[n]
    ensures n !in sh ==> full == n
  {
    if n in sh then sh[n] else n
  }

  // ---------------------------------------------------------------------------
  // The davening calendar

  /** `[row for row in rows if row[0] == date]`; an empty row raises
      IndexError. */
  function RowsDated(rows: seq<seq<string>>, date: string): (r: Result<seq<seq<string>>>)
    ensures r.Err? <==> exists k :: 0 <= k < |rows| && rows[k] == []
    ensures r.Err? ==> r.error.IndexOutOfRange?
    ensures r.Ok? ==> forall row :: row in r.value ==> row in rows && row != [] && row[0] == date
    decreases |rows|
  {
    if rows == [] then Ok([])
    else if rows[0] == [] then Err(IndexOutOfRange("row[0]"))
    else
      var rest := RowsDated(rows[1..], date);
      assert rest.Err? ==> exists k :: 0 <= k < |rows| && rows[k] == [] by {
        if rest.Err? {
          var k :| 0 <= k < |rows[1..]| && rows[1..][k] == [];
          assert rows[k + 1] == [];
        }
      }
      assert (exists k :: 0 <= k < |rows| && rows[k] == []) ==> rest.Err? by {
        if exists k :: 0 <= k < |rows| && rows[k] == [] {
          var k :| 0 <= k < |rows| && rows[k] == [];
          assert rows[1..][k - 1] == [];
        }
      }
      if rest.Err? then Err(rest.error)
      else if rows[0][0] == date then Ok([rows[0]] + rest.value)
      else rest
  }

  predicate Dated(row: seq<string>, date: string) {
    row != [] && row[0] == date
  }

  /** The rows dated `date` are, in order, the selected row alone when it is
      the only one. */
  lemma {:induction false} OnlyRowDated(rows: seq<seq<string>>, date: string, k: nat)
    requires forall j :: 0 <= j < |rows| ==> rows[j] != []
    requires k < |rows| && rows[k][0] == date
    requires forall j :: 0 <= j < |rows| && j != k ==> rows[j][0] != date
    ensures RowsDated(rows, date) == Ok([rows[k]])
    decreases |rows|
  {
    if k == 0 {
      NoRowDated(rows[1..], date);
      assert [rows[0]] + [] == [rows[0]];
    } else {
      OnlyRowDated(rows[1..], date, k - 1);
    }
  }

  lemma {:induction false} NoRowDated(rows: seq<seq<string>>, date: string)
    requires forall j :: 0 <= j < |rows| ==> rows[j] != [] && rows[j][0] != date
    ensures RowsDated(rows, date) == Ok([])
    decreases |rows|
  {
    if rows != [] {
      NoRowDated(rows[1..], date);
    }
  }

  /** Two rows dated `date` are both kept. */
  lemma {:induction false} TwoRowsDated(rows: seq<seq<string>>, date: string, i: nat, k: nat)
    requires forall j :: 0 <= j < |rows| ==> rows[j] != []
    requires i < k < |rows| && rows[i][0] == date && rows[k][0] == date
    ensures RowsDated(rows, date).Ok? && |RowsDated(rows, date).value| >= 2
    decreases |rows|
  {
    if i == 0 {
      OneRowDated(rows[1..], date, k - 1);
    } else {
      TwoRowsDated(rows[1..], date, i - 1, k - 1);
    }
  }

  lemma {:induction false} OneRowDated(rows: seq<seq<string>>, date: string, k: nat)
    requires forall j :: 0 <= j < |rows| ==> rows[j] != []
    requires k < |rows| && rows[k][0] == date
    ensures RowsDated(rows, date).Ok? && |RowsDated(rows, date).value| >= 1
    decreases |rows|
  {
    if k > 0 {
      OneRowDated(rows[1..], date, k - 1);
    }
  }

  /** The shamash thanked in the "thank you" line: the source skips a
      shamash whose name contains the host's. As written an empty host is
      contained in every name; the intended reading only skips a shamash
      when there is a host. */
  predicate Thanked(r: Reading, host: string, shamash: string) {
    match r
    case AsWritten => !Contains(shamash, host)
    case Intended => host == "" || !Contains(shamash, host)
  }

  function ShamashThanks(r: Reading, sh: Shamashim, s1: string, s2: string, host: string): string {
    var first := if Thanked(r, host, s1) then [FullName(sh, s1)] else [];
    var second := if Thanked(r, host, s2) then [FullName(sh, s2)] else [];
    Join(", ", first + second)
  }

  /** The thank-you line names, in order, the full names of the two shamashim
      that are thanked, separated by ", ". */
  lemma ShamashThanksCases(r: Reading, sh: Shamashim, s1: string, s2: string, host: string)
    ensures Thanked(r, host, s1) && Thanked(r, host, s2) ==>
      ShamashThanks(r, sh, s1, s2, host) == FullName(sh, s1) + ", " + FullName(sh, s2)
    ensures Thanked(r, host, s1) && !Thanked(r, host, s2) ==> ShamashThanks(r, sh, s1, s2, host) == FullName(sh, s1)
    ensures !Thanked(r, host, s1) && Thanked(r, host, s2) ==> ShamashThanks(r, sh, s1, s2, host) == FullName(sh, s2)
    ensures !Thanked(r, host, s1) && !Thanked(r, host, s2) ==> ShamashThanks(r, sh, s1, s2, host) == ""
  {
    if Thanked(r, host, s1) && Thanked(r, host, s2) {
      var both := [FullName(sh, s1)] + [FullName(sh, s2)];
      assert |both| == 2 && both[0] == FullName(sh, s1);
      assert both[1..] == [FullName(sh, s2)];
      assert Join(", ", both[1..]) == FullName(sh, s2);
    }
  }

  /** A shamash who is also the host is not thanked a second time; with a
      host the two readings agree. */
  lemma HostIsNotThankedTwice(r: Reading, host: string, shamash: string)
    ensures host != "" && shamash == host ==> !Thanked(r, host, shamash)
    ensures host != "" ==> (Thanked(AsWritten, host, shamash) <==> Thanked(Intended, host, shamash))
  {
    if host != "" && shamash == host {
      PrefixContained(shamash, host);
    }
  }

  /** As written, a Shabbat with no host thanks no shamash at all. */
  lemma NoHostThanksNobodyAsWritten(sh: Shamashim, s1: string, s2: string)
    ensures ShamashThanks(AsWritten, sh, s1, s2, "") == ""
  {
    PrefixContained(s1, "");
    PrefixContained(s2, "");
  }

  /** Read as intended, a Shabbat with no host thanks both shamashim. */
  lemma NoHostThanksBothIntended(sh: Shamashim, s1: string, s2: string)
    ensures ShamashThanks(Intended, sh, s1, s2, "") == FullName(sh, s1) + ", " + FullName(sh, s2)
  {
    ShamashThanksCases(Intended, sh, s1, s2, "");
  }

  const CalendarKeys: set<Key> := {
    ParashaTitle, S1, S2, Host, Shacharit, Maftir, TorahMultiline, Torah, ParashaName,
    ParashaSixthAndSeventh, MaftirAliyah, HaftarahParasha, MiShebeyrachS1, Musaf, DvarTorah,
    Greeter, NextMeetingDate, Key.NextMeetingTime, ThankYouHost, ThankYouShamash,
    ThankYouShacharit, ThankYouTorah, ThankYouHaftarah, ThankYouMusaf, ThankYouTeaching,
    ThankYouGreeter}

  /** The line that introduces the week's haftarah. */
  function HaftarahFor(title: string): (line: string)
    ensures |line| == 26 + |title| && line[26..] == title
  {
    "The haftarah for Parashat " + title
  }

  /** What the collector takes from the Shabbat's row, padded to 12 cells
      (title B, shacharit D, torah E, maftir F, musaf G, dvar torah H,
      greeter I, shamashim J and K, host L), and what it derives from it. */
  datatype CalendarEntry = CalendarEntry(
    title: string, shacharit: string, torahMultiline: string, maftir: string,
    musaf: string, dvarTorah: string, greeter: string, s1: string, s2: string, host: string,
    torah: string, nextMeetingDate: string, nextMeetingTime: string,
    thankYouHost: string, thankYouShamash: string, thankYouTorah: string)

  function ReadRow(r: Reading, row: seq<string>, d: ShabbatDate, sh: Shamashim): (e: CalendarEntry)
    requires |row| == 12
  {
    CalendarEntry(row[1], row[3], row[4], row[5], row[6], row[7], row[8], row[9], row[10], row[11],
      Join("; ", Split(row[4], '\n')), d.nextMeeting, Scheduling.NextMeetingTime(d.nextMonth, d.nextDay),
      FullName(sh, row[11]), ShamashThanks(r, sh, row[9], row[10], row[11]), TorahReaders(row[4]))
  }

  /** The 26 fields the collector sets, several of them repeating a cell
      for another place in the sheet. */
  function EntryFields(e: CalendarEntry): (f: Fields) {
    map[ParashaTitle := Some(e.title), S1 := Some(e.s1), S2 := Some(e.s2), Host := Some(e.host),
        Shacharit := Some(e.shacharit), Maftir := Some(e.maftir), TorahMultiline := Some(e.torahMultiline),
        Torah := Some(e.torah), ParashaName := Some(e.title), ParashaSixthAndSeventh := Some(e.title),
        MaftirAliyah := Some(e.maftir), HaftarahParasha := Some(HaftarahFor(e.title)),
        MiShebeyrachS1 := Some(e.s1), Musaf := Some(e.musaf), DvarTorah := Some(e.dvarTorah),
        Greeter := Some(e.greeter), NextMeetingDate := Some(e.nextMeetingDate),
        Key.NextMeetingTime := Some(e.nextMeetingTime), ThankYouHost := Some(e.thankYouHost),
        ThankYouShamash := Some(e.thankYouShamash), ThankYouShacharit := Some(e.shacharit),
        ThankYouTorah := Some(e.thankYouTorah), ThankYouHaftarah := Some(e.maftir),
        ThankYouMusaf := Some(e.musaf), ThankYouTeaching := Some(e.dvarTorah),
        ThankYouGreeter := Some(e.greeter)]
  }

  function RowFields(r: Reading, row: seq<string>, d: ShabbatDate, sh: Shamashim): Fields
    requires |row| == 12
  {
    EntryFields(ReadRow(r, row, d, sh))
  }

  /** `collect_fields_from_calendar`: exactly one row must carry the date. */
  function CalendarFields(r: Reading, rows: seq<seq<string>>, d: ShabbatDate, sh: Shamashim): (res: Result<Fields>)
    ensures (exists k :: 0 <= k < |rows| && rows[k] == []) ==> res.Err? && res.error.IndexOutOfRange?
  {
    var dated :- RowsDated(rows, d.numeric);
    if |dated| != 1 then
      Err(AssertionFailed("Could not find this Shabbat's row in davening calendar (or more than one row?)"))
    else Ok(RowFields(r, Pad(dated[0], 12), d, sh))
  }

  /** The calendar collector writes exactly the calendar keys. */
  lemma CalendarFieldsKeys(r: Reading, rows: seq<seq<string>>, d: ShabbatDate, sh: Shamashim)
    ensures CalendarFields(r, rows, d, sh).Ok? ==> CalendarFields(r, rows, d, sh).value.Keys == CalendarKeys
  {
  }

  /** The two calendar fields the merge reads back are always written, the
      torah readers' cell as a string. */
  lemma CalendarReadBack(r: Reading, rows: seq<seq<string>>, d: ShabbatDate, sh: Shamashim)
    ensures var c := CalendarFields(r, rows, d, sh);
      c.Ok? ==> TorahMultiline in c.value && c.value[TorahMultiline].Some? && ParashaTitle in c.value
  {
    if CalendarFields(r, rows, d, sh).Ok? {
      var dated := RowsDated(rows, d.numeric).value;
      EntryFieldsReadBack(ReadRow(r, Pad(dated[0], 12), d, sh));
    }
  }

  lemma EntryFieldsReadBack(e: CalendarEntry)
    ensures var f := EntryFields(e);
      && TorahMultiline in f && f[TorahMultiline] == Some(e.torahMultiline)
      && ParashaTitle in f && f[ParashaTitle] == Some(e.title)
  {
  }

  lemma EntryFieldsTorah(e: CalendarEntry)
    ensures var f := EntryFields(e);
      && TorahMultiline in f && f[TorahMultiline] == Some(e.torahMultiline)
      && Torah in f && f[Torah] == Some(e.torah)
  {
  }

  /** Membership in `CalendarKeys`, by the key's constructor. */
  predicate CalendarKey(k: Key) {
    k.ParashaTitle? || k.S1? || k.S2? || k.Host? || k.Shacharit? || k.Maftir? || k.TorahMultiline? || k.Torah?
    || k.ParashaName? || k.ParashaSixthAndSeventh? || k.MaftirAliyah? || k.HaftarahParasha?
    || k.MiShebeyrachS1? || k.Musaf? || k.DvarTorah? || k.Greeter? || k.NextMeetingDate? || k.NextMeetingTime?
    || k.ThankYouHost? || k.ThankYouShamash? || k.ThankYouShacharit? || k.ThankYouTorah?
    || k.ThankYouHaftarah? || k.ThankYouMusaf? || k.ThankYouTeaching? || k.ThankYouGreeter?
  }

  /** A key outside the calendar's is never written by it. */
  lemma CalendarLacks(r: Reading, rows: seq<seq<string>>, d: ShabbatDate, sh: Shamashim, k: Key)
    requires !CalendarKey(k)
    ensures CalendarFields(r, rows, d, sh).Ok? ==> k !in CalendarFields(r, rows, d, sh).value
  {
    CalendarFieldsKeys(r, rows, d, sh);
    CalendarKeyIff(k);
  }

  lemma CalendarKeyIff(k: Key)
    ensures CalendarKey(k) <==> k in CalendarKeys
  {
  }

  /** The only row carrying the date gives the fields. */
  lemma CalendarRowSelected(r: Reading, rows: seq<seq<string>>, d: ShabbatDate, sh: Shamashim, k: nat)
    requires forall j :: 0 <= j < |rows| ==> rows[j] != []
    requires k < |rows| && rows[k][0] == d.numeric
    requires forall j :: 0 <= j < |rows| && j != k ==> rows[j][0] != d.numeric
    ensures CalendarFields(r, rows, d, sh) == Ok(RowFields(r, Pad(rows[k], 12), d, sh))
  {
    OnlyRowDated(rows, d.numeric, k);
  }

  /** No row, or two rows, carrying the date fail the assertion. */
  lemma CalendarRowMissingOrRepeated(r: Reading, rows: seq<seq<string>>, d: ShabbatDate, sh: Shamashim, i: nat, k: nat)
    requires forall j :: 0 <= j < |rows| ==> rows[j] != []
    requires (forall j :: 0 <= j < |rows| ==> rows[j][0] != d.numeric)
          || (i < k < |rows| && rows[i][0] == d.numeric && rows[k][0] == d.numeric)
    ensures CalendarFields(r, rows, d, sh).Err? && CalendarFields(r, rows, d, sh).error.AssertionFailed?
  {
    if forall j :: 0 <= j < |rows| ==> rows[j][0] != d.numeric {
      NoRowDated(rows, d.numeric);
    } else {
      TwoRowsDated(rows, d.numeric, i, k);
    }
  }

  /** The repeated fields restate the cells they come from. */
  lemma EntryFieldsRestate(e: CalendarEntry)
    ensures var f := EntryFields(e);
      && f[ParashaName] == f[ParashaTitle] && f[ParashaSixthAndSeventh] == f[ParashaTitle]
      && f[MiShebeyrachS1] == f[S1] && f[MaftirAliyah] == f[Maftir]
  {
  }

  /** The thank-you fields name the people in the roles they thank. */
  lemma EntryFieldsThank(e: CalendarEntry)
    ensures var f := EntryFields(e);
      && f[ThankYouShacharit] == f[Shacharit] && f[ThankYouHaftarah] == f[Maftir]
      && f[ThankYouMusaf] == f[Musaf] && f[ThankYouTeaching] == f[DvarTorah]
      && f[ThankYouGreeter] == f[Greeter]
  {
  }

  /** The one-line torah reading holds no line break, and is the cell
      itself when the cell is one line. */
  lemma RowTorahOneLine(r: Reading, row: seq<string>, d: ShabbatDate, sh: Shamashim)
    requires |row| == 12
    ensures var f := RowFields(r, row, d, sh);
      && f[Torah].Some? && '\n' !in f[Torah].value
      && ('\n' !in row[4] ==> f[Torah] == f[TorahMultiline])
  {
    var e := ReadRow(r, row, d, sh);
    EntryFieldsTorah(e);
    var lines := Split(row[4], '\n');
    assert e.torah == Join("; ", lines) && e.torahMultiline == row[4];
    JoinAvoids("; ", lines, '\n');
    if '\n' !in row[4] {
      SplitNoSeparator(row[4], '\n');
    }
  }

  /** The next meeting is at the summer time exactly from March 14 through
      November 6. */
  lemma RowMeetingTime(r: Reading, row: seq<string>, d: ShabbatDate, sh: Shamashim)
    requires |row| == 12 && 1 <= d.nextDay <= 31
    ensures RowFields(r, row, d, sh)[Key.NextMeetingTime] == Some("9:30") <==>
      Scheduling.MonthDay(3, 14) <= Scheduling.MonthDay(d.nextMonth, d.nextDay) <= Scheduling.MonthDay(11, 6)
  {
  }

  /** The Sheets service drops a row's trailing empty cells, so a Shabbat
      with no host comes back with at most 11 cells. As written its thank-you
      line then names no shamash; read as intended it names both. */
  lemma RowWithoutHost(row: seq<string>, d: ShabbatDate, sh: Shamashim)
    requires |row| <= 11
    ensures RowFields(AsWritten, Pad(row, 12), d, sh)[ThankYouShamash] == Some("")
    ensures RowFields(Intended, Pad(row, 12), d, sh)[ThankYouShamash] ==
      Some(FullName(sh, Pad(row, 12)[9]) + ", " + FullName(sh, Pad(row, 12)[10]))
  {
    var p := Pad(row, 12);
    assert p[11] == "";
    NoHostThanksNobodyAsWritten(sh, p[9], p[10]);
    NoHostThanksBothIntended(sh, p[9], p[10]);
  }

  // ---------------------------------------------------------------------------
  // The kiddush and scotch sheets

  /** `md` occurs in `cell` at `i` with no digit right before or after it,
      so that it is the whole of a month/day, not part of a longer one. */
  predicate DateTokenAt(cell: string, md: string, i: nat) {
    && MatchAt(cell, md, i)
    && (i == 0 || !IsDigit(cell[i - 1]))
    && (i + |md| == |cell| || !IsDigit(cell[i + |md|]))
  }

  /** Whether `md` occurs as a whole date at or after `i`. */
  function DateTokenFrom(cell: string, md: string, i: nat): (b: bool)
    ensures b <==> exists j :: i <= j && DateTokenAt(cell, md, j)
    decreases |cell| - i
  {
    if i + |md| > |cell| then
      assert forall j :: i <= j ==> !MatchAt(cell, md, j);
      false
    else DateTokenAt(cell, md, i) || DateTokenFrom(cell, md, i + 1)
  }

  /** The kiddush sheet's date test: as written `md in row[0]`, a substring
      test; as intended the month/day as a whole. */
  predicate DateCellMatches(r: Reading, cell: string, md: string) {
    match r
    case AsWritten => Contains(cell, md)
    case Intended => DateTokenFrom(cell, md, 0)
  }

  predicate KiddushRow(r: Reading, row: seq<string>, md: string) {
    row != [] && DateCellMatches(r, row[0], md)
  }

  /** The first kiddush row at or after `i` for the date. */
  function FirstKiddushRow(r: Reading, rows: seq<seq<string>>, md: string, i: nat): (k: Option<nat>)
    ensures k.Some? ==> i <= k.value < |rows| && KiddushRow(r, rows[k.value], md)
    ensures k.Some? ==> forall j :: i <= j < k.value ==> !KiddushRow(r, rows[j], md)
    ensures k.None? ==> forall j :: i <= j < |rows| ==> !KiddushRow(r, rows[j], md)
    decreases |rows| - i
  {
    if i >= |rows| then None
    else if KiddushRow(r, rows[i], md) then Some(i)
    else FirstKiddushRow(r, rows, md, i + 1)
  }

  /** The first scotch row at or after `i` whose first cell is the date. */
  function FirstScotchRow(rows: seq<seq<string>>, date: string, i: nat): (k: Option<nat>)
    ensures k.Some? ==> i <= k.value < |rows| && Dated(rows[k.value], date)
    ensures k.Some? ==> forall j :: i <= j < k.value ==> !Dated(rows[j], date)
    ensures k.None? ==> forall j :: i <= j < |rows| ==> !Dated(rows[j], date)
    decreases |rows| - i
  {
    if i >= |rows| then None
    else if Dated(rows[i], date) then Some(i)
    else FirstScotchRow(rows, date, i + 1)
  }

  /** `collect_fields_from_kiddush_spreadsheet`: the first kiddush row for
      the date gives the volunteer (E) and the sponsor (B, D); the scotch
      sheet is read only then, and its first row for the date gives the
      scotch sponsor (C, E) and the volunteer's thank-you. */
  function KiddushFields(r: Reading, kRows: seq<seq<string>>, sRows: seq<seq<string>>, d: ShabbatDate): (f: Fields)
    ensures f.Keys <= KiddushKeys
  {
    match FirstKiddushRow(r, kRows, d.monthDay, 0)
    case None => map[]
    case Some(k) =>
      var row := Pad(kRows[k], 5);
      var f := map[KiddushVolunteer := Some(row[4]), KiddushSponsor := Some(row[1] + ", " + row[3])];
      match FirstScotchRow(sRows, d.numeric, 0)
      case None => f
      case Some(s) =>
        var srow := Pad(sRows[s], 5);
        f[ScotchSponsor := Some(srow[2] + ", " + srow[4])][ThankYouKiddushVolunteer := Some(row[4])]
  }

  const KiddushKeys := {KiddushVolunteer, KiddushSponsor, ScotchSponsor, ThankYouKiddushVolunteer}

  /** Membership in `KiddushKeys`, by the key's constructor. */
  predicate KiddushKey(k: Key) {
    k.KiddushVolunteer? || k.KiddushSponsor? || k.ScotchSponsor? || k.ThankYouKiddushVolunteer?
  }

  /** A key outside the kiddush keys is never written by the collector. */
  lemma KiddushLacks(r: Reading, kRows: seq<seq<string>>, sRows: seq<seq<string>>, d: ShabbatDate, k: Key)
    requires !KiddushKey(k)
    ensures k !in KiddushFields(r, kRows, sRows, d)
  {
    assert k !in KiddushKeys;
  }

  /** Nothing is written without a kiddush row for the date; with one, the
      volunteer and the sponsor are, and the scotch sponsor and the
      volunteer's thank-you exactly when some scotch row has the date. */
  lemma KiddushFieldsShape(r: Reading, kRows: seq<seq<string>>, sRows: seq<seq<string>>, d: ShabbatDate)
    ensures var f := KiddushFields(r, kRows, sRows, d);
      && (f == map[] <==> forall j :: 0 <= j < |kRows| ==> !KiddushRow(r, kRows[j], d.monthDay))
      && (f.Keys == {} || f.Keys == {KiddushVolunteer, KiddushSponsor}
          || f.Keys == {KiddushVolunteer, KiddushSponsor, ScotchSponsor, ThankYouKiddushVolunteer})
      && (ScotchSponsor in f <==> KiddushVolunteer in f && exists j :: 0 <= j < |sRows| && Dated(sRows[j], d.numeric))
      && (ThankYouKiddushVolunteer in f ==> f[ThankYouKiddushVolunteer] == f[KiddushVolunteer])
  {
    var f := KiddushFields(r, kRows, sRows, d);
    var o := FirstKiddushRow(r, kRows, d.monthDay, 0);
    if o.Some? {
      assert KiddushRow(r, kRows[o.value], d.monthDay);
      var row := Pad(kRows[o.value], 5);
      var t := FirstScotchRow(sRows, d.numeric, 0);
      if t.Some? {
        assert Dated(sRows[t.value], d.numeric);
        assert f.Keys == {KiddushVolunteer, KiddushSponsor, ScotchSponsor, ThankYouKiddushVolunteer};
      } else {
        assert f == map[KiddushVolunteer := Some(row[4]), KiddushSponsor := Some(row[1] + ", " + row[3])];
        assert f.Keys == {KiddushVolunteer, KiddushSponsor};
      }
    } else {
      assert f == map[];
    }
  }

  /** The first kiddush row for the date, and the first scotch row for it,
      give the printed names. */
  lemma KiddushRowsSelected(r: Reading, kRows: seq<seq<string>>, sRows: seq<seq<string>>, d: ShabbatDate, k: nat)
    requires k < |kRows| && KiddushRow(r, kRows[k], d.monthDay)
    requires forall j :: 0 <= j < k ==> !KiddushRow(r, kRows[j], d.monthDay)
    ensures var f := KiddushFields(r, kRows, sRows, d);
      && KiddushVolunteer in f && KiddushSponsor in f
      && f[KiddushVolunteer] == Some(Pad(kRows[k], 5)[4])
      && f[KiddushSponsor] == Some(Pad(kRows[k], 5)[1] + ", " + Pad(kRows[k], 5)[3])
      && forall s :: 0 <= s < |sRows| && Dated(sRows[s], d.numeric) && (forall j :: 0 <= j < s ==> !Dated(sRows[j], d.numeric)) ==>
           ScotchSponsor in f && f[ScotchSponsor] == Some(Pad(sRows[s], 5)[2] + ", " + Pad(sRows[s], 5)[4])
  {
    var o := FirstKiddushRow(r, kRows, d.monthDay, 0);
    assert o == Some(k);
    forall s | 0 <= s < |sRows| && Dated(sRows[s], d.numeric) && (forall j :: 0 <= j < s ==> !Dated(sRows[j], d.numeric))
      ensures KiddushFields(r, kRows, sRows, d)[ScotchSponsor] == Some(Pad(sRows[s], 5)[2] + ", " + Pad(sRows[s], 5)[4])
    {
      var t := FirstScotchRow(sRows, d.numeric, 0);
      assert t == Some(s);
    }
  }

  /** A month/day matched as a whole date is also matched as written, so the
      intended reading only drops rows. */
  lemma IntendedIsStricter(cell: string, md: string)
    ensures DateCellMatches(Intended, cell, md) ==> DateCellMatches(AsWritten, cell, md)
  {
    ContainsIff(cell, md);
  }

  /** A cell holding the full date `md/year`, or `md` alone, is matched by
      the intended reading. */
  lemma IntendedMatchesFullDate(md: string, year: string)
    requires year == [] || year[0] == '/'
    ensures DateCellMatches(Intended, md + year, md)
  {
    assert DateTokenAt(md + year, md, 0) by {
      assert (md + year)[..|md|] == md;
    }
  }

  /** "2/1" occurs in "12/14/2024", but only after a digit. */
  lemma TwoOneInDecember()
    ensures DateCellMatches(AsWritten, "12/14/2024", "2/1")
    ensures !DateCellMatches(Intended, "12/14/2024", "2/1")
  {
    var cell := "12/14/2024";
    assert cell[1..4] == "2/1";
    assert MatchAt(cell, "2/1", 1);
    ContainsIff(cell, "2/1");
    forall j | 0 <= j ensures !DateTokenAt(cell, "2/1", j) {
      if j <= 7 && MatchAt(cell, "2/1", j) {
        var w := cell[j..j + 3];
        assert w == "2/1";
        assert w[0] == cell[j] && w[1] == cell[j + 1];
        assert j == 1;
      }
    }
  }

  /** As written, the month/day 2/1 selects a kiddush row dated 12/14/2024
      when the sheet has no row for 2/1; read as intended it selects none. */
  lemma KiddushSubstringMatch(d: ShabbatDate, kRows: seq<seq<string>>, sRows: seq<seq<string>>)
    requires d.monthDay == "2/1"
    requires |kRows| == 1 && |kRows[0]| == 5 && kRows[0][0] == "12/14/2024"
    ensures var f := KiddushFields(AsWritten, kRows, sRows, d);
      KiddushSponsor in f && f[KiddushSponsor] == Some(kRows[0][1] + ", " + kRows[0][3])
    ensures KiddushFields(Intended, kRows, sRows, d) == map[]
  {
    TwoOneInDecember();
    KiddushRowsSelected(AsWritten, kRows, sRows, d, 0);
    assert Pad(kRows[0], 5) == kRows[0];
  }

  // ---------------------------------------------------------------------------
  // The mi shebeyrach list

  /** `[row[0] for row in rows if row]`. */
  function FirstCells(rows: seq<seq<string>>): (names: seq<string>)
    ensures |names| <= |rows|
    ensures names == [] <==> forall j :: 0 <= j < |rows| ==> rows[j] == []
    ensures forall n :: n in names ==> exists j :: 0 <= j < |rows| && rows[j] != [] && n == rows[j][0]
    decreases |rows|
  {
    if rows == [] then []
    else
      var rest := FirstCells(rows[1..]);
      assert forall n :: n in rest ==> exists j :: 0 <= j < |rows| && rows[j] != [] && n == rows[j][0] by {
        forall n | n in rest ensures exists j :: 0 <= j < |rows| && rows[j] != [] && n == rows[j][0] {
          var j :| 0 <= j < |rows[1..]| && rows[1..][j] != [] && n == rows[1..][j][0];
          assert rows[j + 1] == rows[1..][j];
        }
      }
      assert rest == [] <==> forall j :: 1 <= j < |rows| ==> rows[j] == [] by {
        assert forall j :: 1 <= j < |rows| ==> rows[j] == rows[1..][j - 1];
      }
      if rows[0] == [] then rest else [rows[0][0]] + rest
  }

  /** `collect_mi_shebeyrach_list`: the names one per line. */
  function MiShebeyrachFields(rows: seq<seq<string>>): (f: Fields)
    ensures f.Keys == {MiShebeyrachList}
    ensures f[MiShebeyrachList].Some?
  {
    map[MiShebeyrachList := Some(Join("\n", FirstCells(rows)))]
  }

  /** When no name holds a line break, splitting the list at line breaks
      gives back the names of the non-empty rows. */
  lemma MiShebeyrachNames(rows: seq<seq<string>>)
    requires exists j :: 0 <= j < |rows| && rows[j] != []
    requires forall j :: 0 <= j < |rows| && rows[j] != [] ==> '\n' !in rows[j][0]
    ensures Split(MiShebeyrachFields(rows)[MiShebeyrachList].value, '\n') == FirstCells(rows)
  {
    var names := FirstCells(rows);
    assert forall k :: 0 <= k < |names| ==> '\n' !in names[k] by {
      forall k | 0 <= k < |names| ensures '\n' !in names[k] {
        assert names[k] in names;
      }
    }
    assert "\n" == ['\n'];
    JoinSplit(names, '\n');
  }
}
