/** The special-Shabbat classifier (`get_special_shabbat`) as a specification:
    the calendar service's answers are inputs, the rules run in source order
    and later rules overwrite earlier ones. `Classify` is the code as
    written; `ClassifyIntended` differs only where the Findings section of
    README.md says the code is wrong. */
module Classifier {
  import opened Common
  import opened Text

  /** Python's `date.weekday()`: Monday is 0, Sunday is 6. */
  type Weekday = w: int | 0 <= w < 7

  datatype DayName = DayName(english: string, hebrew: string)

  /** The source's WEEKDAY_TO_NAMES table. */
  function WeekdayNames(w: Weekday): (n: DayName)
    ensures (n.english == "Sunday") <==> w == 6
  {
    if w == 0 then DayName("Monday", "Sheni")
    else if w == 1 then DayName("Tuesday", "Sh'lishi")
    else if w == 2 then DayName("Wednesday", "Revi'i")
    else if w == 3 then DayName("Thursday", "Chamishi")
    else if w == 4 then DayName("Friday", "Shishi")
    else if w == 5 then DayName("Saturday", "Shabbat Kodesh")
    else DayName("Sunday", "Rishon")
  }

  /** The converter's answer for the Shabbat: `hm`, `hd` and `hy`. */
  datatype HebrewDate = HebrewDate(month: string, day: int, year: int)

  /** One entry of the look-ahead answer: how many days after the Shabbat it
      is, its weekday and its event names. */
  datatype UpcomingDay = UpcomingDay(offset: int, weekday: Weekday, events: seq<string>)

  /** Everything the classifier reads. `dateHasTime` is true when the date
      is a `datetime` (the `--date` path of `main`) rather than a `date`. */
  datatype ClassifierInput = ClassifierInput(
    today: HebrewDate,
    events: seq<string>,
    coming: seq<UpcomingDay>,
    dateHasTime: bool)

  datatype Mevarchim = Mevarchim(month: string, days: seq<DayName>)

  /** The keys of the `special` dict about the new month. */
  datatype NewMonth = NewMonth(
    roshChodesh: bool,
    ulchaparatPasha: bool,
    macharChodesh: bool,
    mevarchim: Option<Mevarchim>)

  /** The keys the haftarah-title chain reads. `shuva` is False or the event
      string in the source; None stands for False. `hanukkah` is the parsed
      day number. */
  datatype Haftarot = Haftarot(
    hanukkah: Option<int>,
    fourParshiyot: Option<string>,
    shabbatHagadol: bool,
    rebuke: Option<int>,
    chazon: bool,
    nachamu: bool,
    consolation: Option<int>,
    consolation3AppendedTo5: bool,
    shuva: Option<string>)

  /** The keys that call for a named leyner. */
  datatype StandingAliyot = StandingAliyot(
    shabbatShira: bool,
    vaetchanan: bool,
    yitro: bool,
    lastParasha: bool)

  /** The `special` dict, its keys grouped by the code that reads them. */
  datatype Special = Special(
    psalm27: bool,
    omitAvHarachamim: bool,
    newMonth: NewMonth,
    omer: Option<string>,
    haftarot: Haftarot,
    aliyot: StandingAliyot,
    notes: seq<string>)

  const Initial := Special(false, false, NewMonth(false, false, false, None), None,
    Haftarot(None, None, false, None, false, false, None, false, None),
    StandingAliyot(false, false, false, false), [])

  // ---------------------------------------------------------------------------
  // Date windows read with the Shabbat's own month

  predicate Psalm27Season(month: string, day: int) {
    month == "Elul" || (month == "Tishrei" && day <= 21)
  }

  /** The fixed table of dates on which Av HaRachamim is not said. */
  predicate NoAvHaRachamimDate(month: string, day: int) {
    || month == "Nisan"
    || (month == "Iyyar" && (day == 14 || day == 18))
    || (month == "Sivan" && 6 <= day <= 12)
    || (month == "Av" && day == 15)
    || (month == "Tishrei" && day >= 9)
    || (month == "Sh'vat" && day == 15)
    || (month in {"Adar", "Adar I", "Adar II"} && (day == 14 || day == 15))
  }

  // ---------------------------------------------------------------------------
  // The two regular-expression searches, with ASCII case folding

  /** `p` (already lower case) matches `s` at `i` ignoring ASCII case. */
  predicate MatchAtIgnoreCase(s: string, p: string, i: int) {
    0 <= i && i + |p| <= |s| && LowerAll(s[i..i + |p|]) == p
  }

  const RoshChodeshPattern := "rosh chodesh "

  /** `re.search("Rosh Chodesh (.*)", e, re.IGNORECASE).group(1)` searched
      from `start`: the rest of the line after the leftmost match. */
  function RoshChodeshMonthFrom(e: string, start: nat): (m: Option<string>)
    ensures m.Some? <==> exists i :: start <= i && MatchAtIgnoreCase(e, RoshChodeshPattern, i)
    ensures m.Some? ==> '\n' !in m.value
    decreases |e| - start
  {
    if start + |RoshChodeshPattern| > |e| then None
    else if LowerAll(e[start..start + |RoshChodeshPattern|]) == RoshChodeshPattern then
      var g := start + |RoshChodeshPattern|;
      var k := LineEnd(e, g);
      assert forall c :: c in e[g..k] ==> c != '\n';
      assert MatchAtIgnoreCase(e, RoshChodeshPattern, start);
      Some(e[g..k])
    else RoshChodeshMonthFrom(e, start + 1)
  }

  function RoshChodeshMonth(e: string): Option<string> {
    RoshChodeshMonthFrom(e, 0)
  }

  const HanukkahPattern := "chanukah day "

  /** `int(re.search("Chanukah Day (\\d+)", e, re.IGNORECASE).group(1))`
      searched from `start`. */
  function HanukkahDayFrom(e: string, start: nat): (n: Option<int>)
    ensures n.Some? <==> exists i :: (start <= i && MatchAtIgnoreCase(e, HanukkahPattern, i)
                                      && i + |HanukkahPattern| < |e| && IsDigit(e[i + |HanukkahPattern|]))
    ensures n.Some? ==> n.value >= 0
    decreases |e| - start
  {
    if start + |HanukkahPattern| >= |e| then None
    else if LowerAll(e[start..start + |HanukkahPattern|]) == HanukkahPattern
      && IsDigit(e[start + |HanukkahPattern|]) then
      var g := start + |HanukkahPattern|;
      assert MatchAtIgnoreCase(e, HanukkahPattern, start);
      Some(DigitsValue(e[g..DigitRunEnd(e, g)]))
    else HanukkahDayFrom(e, start + 1)
  }

  function HanukkahDay(e: string): Option<int> {
    HanukkahDayFrom(e, 0)
  }

  // ---------------------------------------------------------------------------
  // The look-ahead loop for Shabbat Mevarchim

  /** State of the look-ahead loop: the collected (weekday, Hebrew weekday)
      pairs, the `month` variable and the Machar Chodesh flag. */
  datatype Scan = Scan(days: seq<DayName>, month: string, machar: bool)

  /** `upcoming_date == tomorrow`; a date never equals a datetime. */
  predicate IsTomorrow(input: ClassifierInput, d: UpcomingDay) {
    !input.dateHasTime && d.offset == 1
  }

  /** `upcoming_date == next_sunday`. */
  predicate IsNextSunday(input: ClassifierInput, d: UpcomingDay) {
    !input.dateHasTime && d.offset == 8
  }

  /** The inner loop over one upcoming day's events, from event `j`. */
  function ScanEvents(input: ClassifierInput, sc: Scan, d: UpcomingDay, j: nat): Result<Scan>
    requires j <= |d.events|
    decreases |d.events| - j
  {
    if j == |d.events| then Ok(sc)
    else match RoshChodeshMonth(d.events[j])
      case None => ScanEvents(input, sc, d, j + 1)
      case Some(m) =>
        if IsTomorrow(input, d) && d.weekday != 6 then Err(AssertionFailed("weekday == 6"))
        else ScanEvents(input, Scan(sc.days + [WeekdayNames(d.weekday)], m, sc.machar || IsTomorrow(input, d)), d, j + 1)
  }

  /** The outer loop over the upcoming days, from day `i`; it stops at next
      Sunday when nothing has been collected. */
  function ScanFrom(input: ClassifierInput, sc: Scan, i: nat): Result<Scan>
    requires i <= |input.coming|
    decreases |input.coming| - i
  {
    if i == |input.coming| then Ok(sc)
    else if IsNextSunday(input, input.coming[i]) && sc.days == [] then Ok(sc)
    else match ScanEvents(input, sc, input.coming[i], 0)
      case Err(e) => Err(e)
      case Ok(sc') => ScanFrom(input, sc', i + 1)
  }

  function ScanStart(input: ClassifierInput): Scan {
    Scan([], input.today.month, false)
  }

  function RenameAdar(m: string): (r: string)
    ensures r != "Adar I" && r != "Adar II"
  {
    if m == "Adar I" then "Adar Rishon" else if m == "Adar II" then "Adar Sheni" else m
  }

  const BirkatFieldNames := ["birkat_hachodesh_month", "birkat_hachodesh_day"]

  // ---------------------------------------------------------------------------
  // The per-event rule table

  /** The months the event rules read: what the source reads (`month`, the
      variable the look-ahead reassigns) or what the Findings section says it
      evidently meant. */
  datatype EventContext = EventContext(
    month: string, ulchaparatMonth: string, rebukeMonth: string, day: int, year: int)

  /** The rule loop's state: the record and FIELDS. */
  datatype Acc = Acc(special: Special, fields: seq<string>)

  const HanukkahFieldNames := ["maftir_hanukkah_day", "maftir_book", "maftir_chapter",
    "maftir_verse", "maftir_etz_hayim", "maftir_hertz", "maftir_hanukkah_note"]
  const LeapResidues: set<int> := {0, 3, 6, 8, 11, 14, 17}
  const UlchaparatMonths: set<string> := {"Cheshvan", "Kislev", "Tevet", "Sh'vat", "Adar I", "Adar II"}
  const FourParshiyotNames: set<string> := {"Shabbat Parah", "Shabbat HaChodesh", "Shabbat Zachor", "Shabbat Shekalim"}

  const ShiraNote := "Shabbat Shira"
  const HaGadolNote := "Shabbat HaGadol (different haftarah, no Av HaRachamim)"
  const ChazonNote := "1st Aliyah: ends at 1:10. 2nd Aliyah: begins at 1:11. 1:12 in Eycha Trope"
  const KiTavoNote := "Aliyah 6: Tokhekhah. Aliyah to Ba’al Koreh"
  const VaetchananNotes := ["4th Aliyah: ends at 5:18, and contains Aseret HaDibrot", "5th Aliyah: begins at 5:19"]
  const YitroNote := "6th Aliyah contains Aseret HaDibrot"
  const BereshitNote := "6th Aliyah begins with 5:1, not 4:23"
  const TerumahNote := "3rd Aliyah begins with 26:1, not 25:31"

  function BechukotaiNote(e: string): string {
    "Aliyah " + (if Contains(e, "Behar") then "5" else "3") + ": Tokhekhah. Aliyah to Ba’al Koreh"
  }

  predicate IsLastParashaEvent(e: string) {
    Contains(e, "Vayechi") || Contains(e, "Pekudei") || Contains(e, "Bechukotai") || Contains(e, "Masei")
  }

  // Each rule below is one record update. Where the source assigns the
  // same key several times in a row, the field's value is written as a
  // chain that tests the last assignment first.

  function HanukkahRule(a: Acc, e: string): Acc {
    match HanukkahDay(e)
    case None => a
    case Some(n) =>
      var s := a.special;
      Acc(s.(haftarot := s.haftarot.(hanukkah := Some(n)), omitAvHarachamim := true), a.fields + HanukkahFieldNames)
  }

  predicate LeapYearMonth(year: int, month: string) {
    year % 19 in LeapResidues && month in UlchaparatMonths
  }

  function RoshChodeshRule(ctx: EventContext, a: Acc, e: string): Acc {
    if Contains(e, "Rosh Chodesh") then
      var s := a.special;
      var nm := s.newMonth;
      Acc(s.(newMonth := nm.(roshChodesh := true,
                             ulchaparatPasha := nm.ulchaparatPasha || LeapYearMonth(ctx.year, ctx.ulchaparatMonth)),
             omitAvHarachamim := true), a.fields)
    else a
  }

  function OmerRule(a: Acc, e: string): Acc {
    if Contains(e, "Omer") then Acc(a.special.(omer := Some(e)), a.fields + ["omer"]) else a
  }

  function ShiraRule(a: Acc, e: string): Acc {
    if e == "Shabbat Shirah" then
      var s := a.special;
      Acc(s.(aliyot := s.aliyot.(shabbatShira := true), notes := s.notes + [ShiraNote]), a.fields + ["shirat_hayam_leyner"])
    else a
  }

  function FourParshiyotRule(a: Acc, e: string): Acc {
    var s := a.special;
    var h := s.haftarot;
    var parsha, hagadol := e in FourParshiyotNames, e == "Shabbat HaGadol";
    Acc(s.(haftarot := h.(fourParshiyot := if parsha then Some(e) else h.fourParshiyot,
                          shabbatHagadol := h.shabbatHagadol || hagadol),
           omitAvHarachamim := s.omitAvHarachamim || parsha || hagadol,
           notes := if hagadol then s.notes + [HaGadolNote] else s.notes), a.fields)
  }

  function RebukeOf(month: string, day: int, prev: Option<int>): Option<int> {
    if (month == "Tamuz" && day >= 26) || (month == "Av" && day <= 2) then Some(2)
    else if month == "Tamuz" && 19 <= day <= 24 then Some(1)
    else prev
  }

  function RebukeRule(ctx: EventContext, a: Acc, e: string): Acc {
    var s := a.special;
    var h := s.haftarot;
    var chazon := e == "Shabbat Chazon";
    Acc(s.(haftarot := h.(rebuke := RebukeOf(ctx.rebukeMonth, ctx.day, h.rebuke), chazon := h.chazon || chazon),
           notes := if chazon then s.notes + [ChazonNote] else s.notes), a.fields)
  }

  function ConsolationOf(e: string, prev: Option<int>): Option<int> {
    if Contains(e, "Nitzavim") then Some(7)
    else if Contains(e, "Ki Tavo") then Some(6)
    else if Contains(e, "Ki Teitzei") then Some(5)
    else if Contains(e, "Shoftim") then Some(4)
    else if Contains(e, "Re'eh") then Some(3)
    else if Contains(e, "Eikev") then Some(2)
    else prev
  }

  function ConsolationRule(ctx: EventContext, a: Acc, e: string): Acc {
    var s := a.special;
    var h := s.haftarot;
    Acc(s.(haftarot := h.(nachamu := h.nachamu || e == "Shabbat Nachamu",
                          consolation := ConsolationOf(e, h.consolation),
                          consolation3AppendedTo5 := h.consolation3AppendedTo5
                            || (Contains(e, "Ki Teitzei") && ctx.month == "Av" && ctx.day == 15)),
           notes := if Contains(e, "Ki Tavo") then s.notes + [KiTavoNote] else s.notes), a.fields)
  }

  function ShuvaRule(ctx: EventContext, a: Acc, e: string): Acc {
    if e == "Shabbat Shuva" && ctx.month == "Tishrei" && 1 <= ctx.day <= 10 then
      var s := a.special;
      Acc(s.(haftarot := s.haftarot.(shuva := Some(e))), a.fields + ["haftarah_note"])
    else a
  }

  function AseretHaDibrotRule(a: Acc, e: string): Acc {
    var s := a.special;
    var v, y := Contains(e, "Vaetchanan"), Contains(e, "Yitro");
    Acc(s.(aliyot := s.aliyot.(vaetchanan := s.aliyot.vaetchanan || v, yitro := s.aliyot.yitro || y),
           notes := s.notes + (if v then VaetchananNotes else []) + (if y then [YitroNote] else [])),
        a.fields + (if v then ["ten_commandments_leyner"] else []) + (if y then ["ten_commandments_leyner"] else []))
  }

  function LastParashaRule(a: Acc, e: string): Acc {
    if IsLastParashaEvent(e) then
      var s := a.special;
      Acc(s.(aliyot := s.aliyot.(lastParasha := true)), a.fields + ["last_parasha_leyner"])
    else a
  }

  function SpecialAliyotRule(a: Acc, e: string): Acc {
    var s := a.special;
    Acc(s.(notes := s.notes
        + (if Contains(e, "Bereshit") then [BereshitNote] else [])
        + (if Contains(e, "Bechukotai") then [BechukotaiNote(e)] else [])
        + (if Contains(e, "Terumah") then [TerumahNote] else [])), a.fields)
  }

  /** One pass of the rule loop body, rules in source order. */
  function EventStep(ctx: EventContext, a: Acc, e: string): Acc {
    var a := HanukkahRule(a, e);
    var a := RoshChodeshRule(ctx, a, e);
    var a := OmerRule(a, e);
    var a := ShiraRule(a, e);
    var a := FourParshiyotRule(a, e);
    var a := RebukeRule(ctx, a, e);
    var a := ConsolationRule(ctx, a, e);
    var a := ShuvaRule(ctx, a, e);
    var a := AseretHaDibrotRule(a, e);
    var a := LastParashaRule(a, e);
    SpecialAliyotRule(a, e)
  }

  /** The rule loop over the Shabbat's events. */
  function FoldEvents(ctx: EventContext, a: Acc, evs: seq<string>): Acc
    decreases |evs|
  {
    if evs == [] then a else EventStep(ctx, FoldEvents(ctx, a, evs[..|evs| - 1]), evs[|evs| - 1])
  }

  /** The two checks after the rule loop. */
  function PostPass(a: Acc): Acc {
    var s := a.special;
    var fields := if s.newMonth.roshChodesh && (Truthy(s.haftarot.fourParshiyot) || TruthyInt(s.haftarot.hanukkah))
      then a.fields + ["parasha_sixth_and_seventh"] else a.fields;
    Acc(s, if s.notes != [] then fields + ["notes"] else fields)
  }

  // ---------------------------------------------------------------------------
  // The whole classifier

  /** The record the call returns and FIELDS after the call. */
  datatype Classification = Classification(special: Special, fields: seq<string>)

  datatype Reading = AsWritten | Intended

  /** The record before the look-ahead: psalm 27 and the Av HaRachamim
      window, both read with the Shabbat's own month. */
  function Windows(today: HebrewDate): Special {
    var s := if Psalm27Season(today.month, today.day) then Initial.(psalm27 := true) else Initial;
    if NoAvHaRachamimDate(today.month, today.day) then s.(omitAvHarachamim := true) else s
  }

  /** The look-ahead's effect on the record and on FIELDS; the month it
      returns is the `month` variable the later rules read. */
  function AfterLookahead(s: Special, sc: Scan, fields: seq<string>): (Special, seq<string>, string) {
    var s := s.(newMonth := s.newMonth.(macharChodesh := sc.machar));
    if sc.days != [] then
      var m := RenameAdar(sc.month);
      (s.(newMonth := s.newMonth.(mevarchim := Some(Mevarchim(m, sc.days))), omitAvHarachamim := m !in {"Iyyar", "Sivan"}),
       fields + BirkatFieldNames, m)
    else (s, fields, sc.month)
  }

  function ContextFor(r: Reading, input: ClassifierInput, sc: Scan, month: string): EventContext {
    match r
    case AsWritten => EventContext(month, month, month, input.today.day, input.today.year)
    case Intended => EventContext(month, sc.month, input.today.month, input.today.day, input.today.year)
  }

  /** Everything after the look-ahead has produced `sc`. */
  function Conclude(r: Reading, input: ClassifierInput, sc: Scan, fields: seq<string>): Classification {
    var (s, fields, month) := AfterLookahead(Windows(input.today), sc, fields);
    var a := PostPass(FoldEvents(ContextFor(r, input, sc, month), Acc(s, fields), input.events));
    Classification(a.special, a.fields)
  }

  /** The input as each reading sees it: the intended reading compares
      dates with dates, as when the Shabbat is a `date`. */
  function ReadInput(r: Reading, input: ClassifierInput): ClassifierInput {
    if r == Intended then input.(dateHasTime := false) else input
  }

  /** The call, FIELDS being `fields` before it. */
  function ClassifyWith(r: Reading, input: ClassifierInput, fields: seq<string>): Result<Classification> {
    var input := ReadInput(r, input);
    var sc :- ScanFrom(input, ScanStart(input), 0);
    Ok(Conclude(r, input, sc, fields))
  }

  /** `get_special_shabbat` as written. */
  function Classify(input: ClassifierInput, fields: seq<string>): Result<Classification> {
    ClassifyWith(AsWritten, input, fields)
  }

  /** `get_special_shabbat` as the Findings section says it was meant. */
  function ClassifyIntended(input: ClassifierInput, fields: seq<string>): Result<Classification> {
    ClassifyWith(Intended, input, fields)
  }
}
