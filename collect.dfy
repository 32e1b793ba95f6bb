/** `collect_fields`: the value of every placeholder for one Shabbat, built
    by merging the collectors' dicts in a fixed order, each `update`
    overwriting what earlier ones wrote under the same key. */
module Collect {
  import opened Common
  import opened FieldKeys
  import opened Tables
  import opened Classifier
  import opened ClassifierFacts
  import opened Leyning
  import opened SpecialFields
  import opened Pages
  import opened Sheets
  import opened Text

  /** What the spreadsheets and the calendar service hold for the Shabbat. */
  datatype Sources = Sources(
    calendar: seq<seq<string>>,
    kiddush: seq<seq<string>>,
    scotch: seq<seq<string>>,
    leyning: seq<LeyningItem>,
    pageNumbers: seq<seq<string>>,
    miShebeyrach: seq<seq<string>>,
    shamashim: Shamashim)

  const FamilyProgrammingNote :=
    "Tot shabbat will be starting at 10:30 in the classroom on the left, followed by Parent & Me at 11:00, "
    + "and junior minyan will be starting at 11:00 in the classroom on the right."

  /** The two fields `collect_fields` sets itself. */
  function Opening(d: ShabbatDate): (f: Fields)
    ensures f.Keys == {Date, FamilyProgramming}
  {
    map[Date := Some(d.numeric), FamilyProgramming := Some(FamilyProgrammingNote)]
  }

  /** `fields[k]`: a KeyError when the key is absent. */
  function ValueAt(f: Fields, k: Key): (r: Result<Option<string>>)
    ensures r.Ok? <==> k in f
    ensures r.Ok? ==> r.value == f[k]
    ensures r.Err? ==> r.error == KeyMissing(Name(k))
  {
    if k in f then Ok(f[k]) else Err(KeyMissing(Name(k)))
  }

  /** `fields[k]` used as a string: a KeyError when absent, and a TypeError
      when the value is None. */
  function TextAt(f: Fields, k: Key): (r: Result<string>)
    ensures r.Ok? <==> k in f && f[k].Some?
    ensures r.Ok? ==> r.value == f[k].value
    ensures r.Err? && k !in f ==> r.error == KeyMissing(Name(k))
  {
    var v :- ValueAt(f, k);
    if v.None? then Err(TypeMismatch(Name(k))) else Ok(v.value)
  }

  /** The book, chapter and verse passed to `collect_page_numbers`, read in
      that order. */
  function CoordinatesAt(f: Fields, book: Key, chapter: Key, verse: Key): (r: Result<Coordinates>)
    ensures r.Ok? <==> book in f && chapter in f && verse in f
    ensures r.Ok? ==> r.value == Coordinates(f[book], f[chapter], f[verse])
    ensures book !in f ==> r == Err(KeyMissing(Name(book)))
  {
    var b :- ValueAt(f, book);
    var c :- ValueAt(f, chapter);
    var v :- ValueAt(f, verse);
    Ok(Coordinates(b, c, v))
  }

  /** The parasha a haftarah row must name: Noach for Noach and for the
      combined consolation haftarah (so that Ki Teitze's row, which starts
      at the same verse, is not taken), and Beha'alotcha for Beha'alotcha
      (so that Hanukkah's row is not taken). */
  function SpecificParasha(title: Option<string>, appended: bool): (p: Option<string>)
    ensures p == Some("Beha'alotcha") <==> title == Some("Beha'alotcha")
    ensures p == Some("Noach") <==> title != Some("Beha'alotcha") && (title == Some("Noach") || appended)
    ensures p.None? <==> title != Some("Beha'alotcha") && title != Some("Noach") && !appended
  {
    if title == Some("Beha'alotcha") then Some("Beha'alotcha")
    else if title == Some("Noach") || appended then Some("Noach")
    else None
  }

  // ---------------------------------------------------------------------------
  // The collectors and the merge

  /** What the collectors that read the spreadsheets and the calendar
      service return; none of them reads `fields`. */
  datatype Collections = Collections(
    calendar: Result<Fields>,
    kiddush: Fields,
    leyning: Result<Fields>,
    miShebeyrach: Fields)

  function Collect(r: Reading, d: ShabbatDate, src: Sources): Collections {
    Collections(
      CalendarFields(r, src.calendar, d, src.shamashim),
      KiddushFields(r, src.kiddush, src.scotch, d),
      LeyningFields(src.leyning),
      MiShebeyrachFields(src.miShebeyrach))
  }

  /** The collectors that read the special-Shabbat record, the first of them
      also the torah readers' cell. */
  function SpecialStage(s: Special, f: Fields): Result<Fields> {
    var torah :- TextAt(f, TorahMultiline);
    var standing :- StandingAliyahFields(s, torah);
    var haftarah :- SpecialHaftarahFields(s);
    var hanukkah :- HanukkahFields(s);
    var birkat :- BirkatHachodeshFields(s);
    Ok(f + standing + haftarah + hanukkah + OmerField(s) + birkat + NotesField(s))
  }

  /** The page numbers: the maftir's first, so that where the maftir starts
      where a parasha does the parasha's pages overwrite them; then the
      parasha's; then the haftarah's. */
  function PageStage(f: Fields, rows: seq<seq<string>>, appended: bool): Result<Fields> {
    var mc :- CoordinatesAt(f, MaftirBookEnglish, MaftirChapter, MaftirVerse);
    var f1 := f + PageNumbers(rows, mc, None);
    var pc :- CoordinatesAt(f1, ParashaBookEnglish, ParashaChapter, ParashaVerse);
    var f2 := f1 + PageNumbers(rows, pc, None);
    var title :- ValueAt(f2, ParashaTitle);
    var hc :- CoordinatesAt(f2, HaftarahBookEnglish, HaftarahChapter, HaftarahVerse);
    Ok(f2 + PageNumbers(rows, hc, SpecificParasha(title, appended)))
  }

  /** The merge of the collections for the Shabbat `d` whose
      special-Shabbat record is `s`: the opening fields, the calendar, kiddush
      and leyning fields, the special-Shabbat stage, the page stage and the
      mi shebeyrach list, in that order. The calendar and then the leyning
      collector raise first; the kiddush and mi shebeyrach collectors never
      raise. */
  function Merge(d: ShabbatDate, s: Special, c: Collections, rows: seq<seq<string>>): Result<Fields> {
    var cal :- c.calendar;
    var ley :- c.leyning;
    var f :- SpecialStage(s, Opening(d) + cal + c.kiddush + ley);
    var f :- PageStage(f, rows, s.haftarot.consolation3AppendedTo5);
    Ok(f + c.miShebeyrach)
  }

  /** `collect_fields`: the first collector that raises ends it with that
      exception. */
  function Collected(r: Reading, d: ShabbatDate, s: Special, src: Sources): Result<Fields> {
    Merge(d, s, Collect(r, d, src), src.pageNumbers)
  }

  // ---------------------------------------------------------------------------
  // What the merge relies on the collectors for

  /** What the merge relies on the calendar for: it writes the torah
      readers' cell as a string and the title, and neither opening key nor
      the maftir's book. */
  predicate CalendarShaped(cal: Result<Fields>) {
    cal.Ok? ==>
      var f := cal.value;
      && Date !in f && FamilyProgramming !in f && MaftirBookEnglish !in f
      && TorahMultiline in f && f[TorahMultiline].Some? && ParashaTitle in f
  }

  /** The kiddush collector writes none of the keys the merge reads back. */
  predicate KiddushShaped(kid: Fields) {
    && Date !in kid && FamilyProgramming !in kid && MaftirBookEnglish !in kid
    && TorahMultiline !in kid && ParashaTitle !in kid
  }

  /** The leyning collector writes neither opening key, nor the torah
      readers' cell, nor the title. */
  predicate LeyningShaped(ley: Result<Fields>) {
    ley.Ok? ==>
      var f := ley.value;
      && Date !in f && FamilyProgramming !in f && TorahMultiline !in f && ParashaTitle !in f
  }

  predicate Shaped(c: Collections) {
    && CalendarShaped(c.calendar) && KiddushShaped(c.kiddush) && LeyningShaped(c.leyning)
    && c.miShebeyrach.Keys == {MiShebeyrachList}
  }

  /** The collectors' results have the shape the merge relies on. */
  lemma CollectShaped(r: Reading, d: ShabbatDate, src: Sources)
    ensures Shaped(Collect(r, d, src))
  {
    CalendarIsShaped(r, src.calendar, d, src.shamashim);
    KiddushIsShaped(r, src.kiddush, src.scotch, d);
    LeyningIsShaped(src.leyning);
  }

  lemma CalendarIsShaped(r: Reading, rows: seq<seq<string>>, d: ShabbatDate, sh: Shamashim)
    ensures CalendarShaped(CalendarFields(r, rows, d, sh))
  {
    var cal := CalendarFields(r, rows, d, sh);
    if cal.Ok? {
      CalendarLacks(r, rows, d, sh, Date);
      CalendarLacks(r, rows, d, sh, FamilyProgramming);
      CalendarLacks(r, rows, d, sh, MaftirBookEnglish);
      CalendarReadBack(r, rows, d, sh);
      var f := cal.value;
      assert Date !in f && FamilyProgramming !in f && MaftirBookEnglish !in f;
      assert TorahMultiline in f && f[TorahMultiline].Some? && ParashaTitle in f;
    }
  }

  lemma KiddushIsShaped(r: Reading, kRows: seq<seq<string>>, sRows: seq<seq<string>>, d: ShabbatDate)
    ensures KiddushShaped(KiddushFields(r, kRows, sRows, d))
  {
    KiddushLacks(r, kRows, sRows, d, Date);
    KiddushLacks(r, kRows, sRows, d, FamilyProgramming);
    KiddushLacks(r, kRows, sRows, d, MaftirBookEnglish);
    KiddushLacks(r, kRows, sRows, d, TorahMultiline);
    KiddushLacks(r, kRows, sRows, d, ParashaTitle);
  }

  lemma LeyningIsShaped(items: seq<LeyningItem>)
    ensures LeyningShaped(LeyningFields(items))
  {
    LeyningLacks(items, Date);
    LeyningLacks(items, FamilyProgramming);
    LeyningLacks(items, TorahMultiline);
    LeyningLacks(items, ParashaTitle);
  }

  /** The sheet collectors' merge holds the torah readers' cell as a string,
      and the title, for the stages after it to read. */
  lemma SheetReadBack(o: Fields, cal: Fields, kid: Fields, ley: Fields)
    requires CalendarShaped(Ok(cal)) && KiddushShaped(kid) && LeyningShaped(Ok(ley))
    ensures var f := o + cal + kid + ley;
      TorahMultiline in f && f[TorahMultiline].Some? && ParashaTitle in f
  {
  }

  // ---------------------------------------------------------------------------
  // The merge as the source performs it

  /** `collect_fields`: the collectors in order, the first that raises
      ending it, then the merge one `update` at a time. The leyning and
      page-number collectors run as loops. */
  method CollectFields(r: Reading, d: ShabbatDate, s: Special, src: Sources) returns (res: Result<Fields>)
    ensures res == Collected(r, d, s, src)
  {
    var cal := CalendarFields(r, src.calendar, d, src.shamashim);
    if cal.Err? {
      return Err(cal.error);
    }
    var kiddush := KiddushFields(r, src.kiddush, src.scotch, d);
    var ley := CollectLeyningFields(src.leyning);
    if ley.Err? {
      return Err(ley.error);
    }
    var c := Collections(cal, kiddush, ley, MiShebeyrachFields(src.miShebeyrach));
    assert c == Collect(r, d, src);
    CollectShaped(r, d, src);
    res := MergeUpdates(d, s, c, src.pageNumbers);
  }

  /** The updates of the merge, in order. */
  method MergeUpdates(d: ShabbatDate, s: Special, c: Collections, rows: seq<seq<string>>) returns (res: Result<Fields>)
    requires Shaped(c) && c.calendar.Ok? && c.leyning.Ok?
    ensures res == Merge(d, s, c, rows)
  {
    var fields := Opening(d);
    fields := fields + c.calendar.value;
    fields := fields + c.kiddush;
    fields := fields + c.leyning.value;
    SheetReadBack(Opening(d), c.calendar.value, c.kiddush, c.leyning.value);
    var special := SpecialUpdates(s, fields);
    if special.Err? {
      return Err(special.error);
    }
    SpecialStageKeeps(s, fields, ParashaTitle);
    var paged := PageUpdates(special.value, rows, s.haftarot.consolation3AppendedTo5);
    if paged.Err? {
      return Err(paged.error);
    }
    return Ok(paged.value + c.miShebeyrach);
  }

  /** The special-Shabbat collectors' updates. */
  method SpecialUpdates(s: Special, f: Fields) returns (res: Result<Fields>)
    requires TorahMultiline in f && f[TorahMultiline].Some?
    ensures res == SpecialStage(s, f)
  {
    var fields := f;
    var torah := fields[TorahMultiline].value;
    var standing := StandingAliyahFields(s, torah);
    if standing.Err? {
      return Err(standing.error);
    }
    fields := fields + standing.value;
    var haftarah := SpecialHaftarahFields(s);
    if haftarah.Err? {
      return Err(haftarah.error);
    }
    fields := fields + haftarah.value;
    // the special-haftarah collector has already looked the day's ordinal up
    var hanukkah := HanukkahFields(s).value;
    fields := fields + hanukkah;
    fields := fields + OmerField(s);
    var birkat := BirkatHachodeshFields(s);
    if birkat.Err? {
      return Err(birkat.error);
    }
    fields := fields + birkat.value;
    fields := fields + NotesField(s);
    return Ok(fields);
  }

  /** The three page-number updates. */
  method PageUpdates(f: Fields, rows: seq<seq<string>>, appended: bool) returns (res: Result<Fields>)
    requires ParashaTitle in f
    ensures res == PageStage(f, rows, appended)
  {
    var fields := f;
    var mc := CoordinatesAt(fields, MaftirBookEnglish, MaftirChapter, MaftirVerse);
    if mc.Err? {
      return Err(mc.error);
    }
    var pages := CollectPageNumbers(rows, mc.value, None);
    PagesKeepCoordinates(fields, rows, mc.value, None);
    fields := fields + pages;
    var pc := CoordinatesAt(fields, ParashaBookEnglish, ParashaChapter, ParashaVerse);
    if pc.Err? {
      return Err(pc.error);
    }
    pages := CollectPageNumbers(rows, pc.value, None);
    PagesKeepCoordinates(fields, rows, pc.value, None);
    fields := fields + pages;
    // the title is the calendar's, which no page update removes
    var title := fields[ParashaTitle];
    var specific := SpecificParasha(title, appended);
    var hc := CoordinatesAt(fields, HaftarahBookEnglish, HaftarahChapter, HaftarahVerse);
    if hc.Err? {
      return Err(hc.error);
    }
    pages := CollectPageNumbers(rows, hc.value, specific);
    fields := fields + pages;
    return Ok(fields);
  }

  // ---------------------------------------------------------------------------
  // What survives the merge

  /** The special-Shabbat stage leaves every key it does not write as it
      was. */
  lemma SpecialStageKeeps(s: Special, f: Fields, k: Key)
    requires !SpecialKey(k)
    ensures SpecialStage(s, f).Ok? ==> SameAt(SpecialStage(s, f).value, f, k)
  {
    var torah := TextAt(f, TorahMultiline);
    if SpecialStage(s, f).Ok? {
      SpecialCollectorsLack(s, torah.value, k);
      var standing := StandingAliyahFields(s, torah.value).value;
      var haftarah := SpecialHaftarahFields(s).value;
      var hanukkah := HanukkahFields(s).value;
      var birkat := BirkatHachodeshFields(s).value;
      assert SpecialStage(s, f) == Ok(f + standing + haftarah + hanukkah + OmerField(s) + birkat + NotesField(s));
      UpdateKeeps(f, standing, k);
      UpdateKeeps(f + standing, haftarah, k);
      UpdateKeeps(f + standing + haftarah, hanukkah, k);
      UpdateKeeps(f + standing + haftarah + hanukkah, OmerField(s), k);
      UpdateKeeps(f + standing + haftarah + hanukkah + OmerField(s), birkat, k);
      UpdateKeeps(f + standing + haftarah + hanukkah + OmerField(s) + birkat, NotesField(s), k);
    }
  }

  /** The page stage leaves every key but the six page keys as it was. */
  lemma PageStageKeeps(f: Fields, rows: seq<seq<string>>, appended: bool, k: Key)
    requires !PageKey(k)
    ensures PageStage(f, rows, appended).Ok? ==> SameAt(PageStage(f, rows, appended).value, f, k)
  {
    var mc := CoordinatesAt(f, MaftirBookEnglish, MaftirChapter, MaftirVerse);
    if PageStage(f, rows, appended).Ok? {
      var p1 := PageNumbers(rows, mc.value, None);
      var f1 := f + p1;
      var pc := CoordinatesAt(f1, ParashaBookEnglish, ParashaChapter, ParashaVerse).value;
      var p2 := PageNumbers(rows, pc, None);
      var f2 := f1 + p2;
      var title := ValueAt(f2, ParashaTitle).value;
      var hc := CoordinatesAt(f2, HaftarahBookEnglish, HaftarahChapter, HaftarahVerse).value;
      var p3 := PageNumbers(rows, hc, SpecificParasha(title, appended));
      assert PageStage(f, rows, appended) == Ok(f2 + p3);
      PageNumbersLack(rows, mc.value, None, k);
      PageNumbersLack(rows, pc, None, k);
      PageNumbersLack(rows, hc, SpecificParasha(title, appended), k);
      UpdateKeeps(f, p1, k);
      UpdateKeeps(f1, p2, k);
      UpdateKeeps(f2, p3, k);
    }
  }

  /** The fields the sheet collectors give, merged over the opening ones. */
  function SheetFields(d: ShabbatDate, c: Collections): Fields
    requires c.calendar.Ok? && c.leyning.Ok?
  {
    Opening(d) + c.calendar.value + c.kiddush + c.leyning.value
  }

  /** The stages of a merge that succeeds. */
  lemma MergeStages(d: ShabbatDate, s: Special, c: Collections, rows: seq<seq<string>>)
    returns (f1: Fields, f2: Fields)
    requires Merge(d, s, c, rows).Ok?
    ensures c.calendar.Ok? && c.leyning.Ok?
    ensures SpecialStage(s, SheetFields(d, c)) == Ok(f1)
    ensures PageStage(f1, rows, s.haftarot.consolation3AppendedTo5) == Ok(f2)
    ensures Merge(d, s, c, rows) == Ok(f2 + c.miShebeyrach)
  {
    f1 := SpecialStage(s, SheetFields(d, c)).value;
    f2 := PageStage(f1, rows, s.haftarot.consolation3AppendedTo5).value;
  }

  /** Three updates that do not hold `k` leave it as it was. */
  lemma ThreeUpdatesKeep(o: Fields, a: Fields, b: Fields, c: Fields, k: Key)
    requires k !in a && k !in b && k !in c
    ensures SameAt(o + a + b + c, o, k)
  {
  }

  /** A key no special-Shabbat collector, page update or the mi shebeyrach
      list writes reaches the finished dict as the sheet collectors left it. */
  lemma MergeKeepsSheets(d: ShabbatDate, s: Special, c: Collections, rows: seq<seq<string>>, k: Key)
    requires !SpecialKey(k) && !PageKey(k) && k !in c.miShebeyrach
    ensures var m := Merge(d, s, c, rows);
      m.Ok? ==> c.calendar.Ok? && c.leyning.Ok? && SameAt(m.value, SheetFields(d, c), k)
  {
    if Merge(d, s, c, rows).Ok? {
      var f1, f2 := MergeStages(d, s, c, rows);
      SpecialStageKeeps(s, SheetFields(d, c), k);
      PageStageKeeps(f1, rows, s.haftarot.consolation3AppendedTo5, k);
      UpdateKeeps(f2, c.miShebeyrach, k);
    }
  }

  /** A key no page update nor the mi shebeyrach list writes reaches the
      finished dict as the special-Shabbat stage left it. */
  lemma MergeKeepsSpecial(d: ShabbatDate, s: Special, c: Collections, rows: seq<seq<string>>, k: Key)
    requires !PageKey(k) && k !in c.miShebeyrach
    ensures var m := Merge(d, s, c, rows);
      m.Ok? ==> && c.calendar.Ok? && c.leyning.Ok? && SpecialStage(s, SheetFields(d, c)).Ok?
                && SameAt(m.value, SpecialStage(s, SheetFields(d, c)).value, k)
  {
    if Merge(d, s, c, rows).Ok? {
      var f1, f2 := MergeStages(d, s, c, rows);
      PageStageKeeps(f1, rows, s.haftarot.consolation3AppendedTo5, k);
      UpdateKeeps(f2, c.miShebeyrach, k);
    }
  }

  /** The date and the family-programming note the merge starts with are in
      the finished dict unchanged: no collector writes either key. */
  lemma MergeKeepsOpening(d: ShabbatDate, s: Special, c: Collections, rows: seq<seq<string>>)
    requires Shaped(c)
    ensures var m := Merge(d, s, c, rows);
      m.Ok? ==> && Date in m.value && m.value[Date] == Some(d.numeric)
                && FamilyProgramming in m.value && m.value[FamilyProgramming] == Some(FamilyProgrammingNote)
  {
    MergeKeepsOpeningKey(d, s, c, rows, Date);
    MergeKeepsOpeningKey(d, s, c, rows, FamilyProgramming);
  }

  lemma MergeKeepsOpeningKey(d: ShabbatDate, s: Special, c: Collections, rows: seq<seq<string>>, k: Key)
    requires Shaped(c) && (k == Date || k == FamilyProgramming)
    ensures var m := Merge(d, s, c, rows);
      m.Ok? ==> SameAt(m.value, Opening(d), k)
  {
    assert !SpecialKey(k) && !PageKey(k) && k !in c.miShebeyrach;
    MergeKeepsSheets(d, s, c, rows, k);
    if c.calendar.Ok? && c.leyning.Ok? {
      SheetKeepsOpening(d, c, k);
    }
  }

  /** No sheet collector writes an opening key. */
  lemma SheetKeepsOpening(d: ShabbatDate, c: Collections, k: Key)
    requires Shaped(c) && c.calendar.Ok? && c.leyning.Ok? && (k == Date || k == FamilyProgramming)
    ensures SameAt(SheetFields(d, c), Opening(d), k)
  {
    ThreeUpdatesKeep(Opening(d), c.calendar.value, c.kiddush, c.leyning.value, k);
  }

  lemma CollectedKeepsOpening(r: Reading, d: ShabbatDate, s: Special, src: Sources)
    ensures var c := Collected(r, d, s, src);
      c.Ok? ==> && Date in c.value && c.value[Date] == Some(d.numeric)
                && FamilyProgramming in c.value && c.value[FamilyProgramming] == Some(FamilyProgrammingNote)
  {
    CollectShaped(r, d, src);
    MergeKeepsOpening(d, s, Collect(r, d, src), src.pageNumbers);
  }

  /** On the Hanukkah Shabbat the finished dict names the day's ordinal as
      both collectors that write it do. */
  lemma MergeHanukkahDay(d: ShabbatDate, s: Special, c: Collections, rows: seq<seq<string>>)
    requires TruthyInt(s.haftarot.hanukkah) && Shaped(c)
    ensures var m := Merge(d, s, c, rows);
      m.Ok? ==> && s.haftarot.hanukkah.value in Ordinals
                && MaftirHanukkahDay in m.value && m.value[MaftirHanukkahDay] == Some(Ordinals[s.haftarot.hanukkah.value])
  {
    if Merge(d, s, c, rows).Ok? {
      MergeKeepsSpecial(d, s, c, rows, MaftirHanukkahDay);
      HanukkahStage(s, SheetFields(d, c));
    }
  }

  lemma CollectedHanukkahDay(r: Reading, d: ShabbatDate, s: Special, src: Sources)
    requires TruthyInt(s.haftarot.hanukkah)
    ensures var c := Collected(r, d, s, src);
      c.Ok? ==> && s.haftarot.hanukkah.value in Ordinals
                && MaftirHanukkahDay in c.value && c.value[MaftirHanukkahDay] == Some(Ordinals[s.haftarot.hanukkah.value])
  {
    CollectShaped(r, d, src);
    MergeHanukkahDay(d, s, Collect(r, d, src), src.pageNumbers);
  }

  /** The Hanukkah collector writes the day's ordinal last in the
      special-Shabbat stage. */
  lemma HanukkahStage(s: Special, f: Fields)
    requires TruthyInt(s.haftarot.hanukkah)
    ensures var st := SpecialStage(s, f);
      st.Ok? ==> && s.haftarot.hanukkah.value in Ordinals
                 && MaftirHanukkahDay in st.value && st.value[MaftirHanukkahDay] == Some(Ordinals[s.haftarot.hanukkah.value])
  {
    if SpecialStage(s, f).Ok? {
      var torah := TextAt(f, TorahMultiline).value;
      var standing := StandingAliyahFields(s, torah).value;
      var haftarah := SpecialHaftarahFields(s).value;
      var hanukkah := HanukkahFields(s).value;
      var birkat := BirkatHachodeshFields(s).value;
      var g := f + standing + haftarah;
      assert SpecialStage(s, f) == Ok(g + hanukkah + OmerField(s) + birkat + NotesField(s));
      HanukkahWrites(s);
      HanukkahDayKept(s);
      WrittenThenThreeKept(g, hanukkah, OmerField(s), birkat, NotesField(s), MaftirHanukkahDay);
    }
  }

  /** On Shabbat Shuva the haftarah's book, chapter, verse and note in the
      finished dict are the Shuva haftarah's, whatever the leyning said: the
      special-haftarah collector overwrites them and nothing later does. */
  lemma MergeShuvaHaftarah(d: ShabbatDate, s: Special, c: Collections, rows: seq<seq<string>>)
    requires Truthy(s.haftarot.shuva) && s.haftarot.shuva.value != "Parashat Vayeilech" && Shaped(c)
    ensures var m := Merge(d, s, c, rows);
      m.Ok? ==> && HaftarahBookEnglish in m.value && m.value[HaftarahBookEnglish] == Some("Joel")
                && HaftarahChapter in m.value && m.value[HaftarahChapter] == Some("2")
                && HaftarahVerse in m.value && m.value[HaftarahVerse] == Some("15")
                && HaftarahNote in m.value && m.value[HaftarahNote] == Some("Yoel 2:15-27")
  {
    if Merge(d, s, c, rows).Ok? {
      MergeKeepsBook(d, s, c, rows);
      ShuvaStage(s, SheetFields(d, c));
    }
  }

  /** The haftarah's book, chapter, verse and note as the special-Shabbat
      stage leaves them. */
  predicate SameBook(f: Fields, g: Fields) {
    && SameAt(f, g, HaftarahBookEnglish) && SameAt(f, g, HaftarahChapter)
    && SameAt(f, g, HaftarahVerse) && SameAt(f, g, HaftarahNote)
  }

  lemma MergeKeepsBook(d: ShabbatDate, s: Special, c: Collections, rows: seq<seq<string>>)
    requires Shaped(c)
    ensures var m := Merge(d, s, c, rows);
      m.Ok? ==> && c.calendar.Ok? && c.leyning.Ok? && SpecialStage(s, SheetFields(d, c)).Ok?
                && SameBook(m.value, SpecialStage(s, SheetFields(d, c)).value)
  {
    if Merge(d, s, c, rows).Ok? {
      var f1, f2 := MergeStages(d, s, c, rows);
      PagesKeepBook(f1, rows, s.haftarot.consolation3AppendedTo5, c.miShebeyrach);
    }
  }

  /** Neither the page updates nor the mi shebeyrach list touch the
      haftarah's book keys. */
  lemma PagesKeepBook(f: Fields, rows: seq<seq<string>>, appended: bool, mi: Fields)
    requires mi.Keys == {MiShebeyrachList}
    ensures var p := PageStage(f, rows, appended);
      p.Ok? ==> SameBook(p.value + mi, f)
  {
    if PageStage(f, rows, appended).Ok? {
      var p := PageStage(f, rows, appended).value;
      PageStageKeeps(f, rows, appended, HaftarahBookEnglish);
      PageStageKeeps(f, rows, appended, HaftarahChapter);
      PageStageKeeps(f, rows, appended, HaftarahVerse);
      PageStageKeeps(f, rows, appended, HaftarahNote);
      UpdateKeeps(p, mi, HaftarahBookEnglish);
      UpdateKeeps(p, mi, HaftarahChapter);
      UpdateKeeps(p, mi, HaftarahVerse);
      UpdateKeeps(p, mi, HaftarahNote);
    }
  }

  lemma CollectedShuvaHaftarah(r: Reading, d: ShabbatDate, s: Special, src: Sources)
    requires Truthy(s.haftarot.shuva) && s.haftarot.shuva.value != "Parashat Vayeilech"
    ensures var c := Collected(r, d, s, src);
      c.Ok? ==> && HaftarahBookEnglish in c.value && c.value[HaftarahBookEnglish] == Some("Joel")
                && HaftarahChapter in c.value && c.value[HaftarahChapter] == Some("2")
                && HaftarahVerse in c.value && c.value[HaftarahVerse] == Some("15")
                && HaftarahNote in c.value && c.value[HaftarahNote] == Some("Yoel 2:15-27")
  {
    CollectShaped(r, d, src);
    MergeShuvaHaftarah(d, s, Collect(r, d, src), src.pageNumbers);
  }

  lemma ShuvaStage(s: Special, f: Fields)
    requires Truthy(s.haftarot.shuva) && s.haftarot.shuva.value != "Parashat Vayeilech"
    ensures var st := SpecialStage(s, f);
      st.Ok? ==> && HaftarahBookEnglish in st.value && st.value[HaftarahBookEnglish] == Some("Joel")
                 && HaftarahChapter in st.value && st.value[HaftarahChapter] == Some("2")
                 && HaftarahVerse in st.value && st.value[HaftarahVerse] == Some("15")
                 && HaftarahNote in st.value && st.value[HaftarahNote] == Some("Yoel 2:15-27")
  {
    if SpecialStage(s, f).Ok? {
      var torah := TextAt(f, TorahMultiline).value;
      var standing := StandingAliyahFields(s, torah).value;
      var haftarah := SpecialHaftarahFields(s).value;
      var hanukkah := HanukkahFields(s).value;
      var birkat := BirkatHachodeshFields(s).value;
      var g := f + standing + haftarah;
      assert SpecialStage(s, f) == Ok(g + hanukkah + OmerField(s) + birkat + NotesField(s));
      ShuvaHaftarah(s);
      LaterCollectorsLack(s, HaftarahBookEnglish);
      LaterCollectorsLack(s, HaftarahChapter);
      LaterCollectorsLack(s, HaftarahVerse);
      LaterCollectorsLack(s, HaftarahNote);
      WrittenThenKept(f + standing, haftarah, hanukkah, OmerField(s), birkat, NotesField(s), HaftarahBookEnglish);
      WrittenThenKept(f + standing, haftarah, hanukkah, OmerField(s), birkat, NotesField(s), HaftarahChapter);
      WrittenThenKept(f + standing, haftarah, hanukkah, OmerField(s), birkat, NotesField(s), HaftarahVerse);
      WrittenThenKept(f + standing, haftarah, hanukkah, OmerField(s), birkat, NotesField(s), HaftarahNote);
    }
  }

  /** A key one update writes and the four after it do not holds what that
      update wrote. */
  lemma WrittenThenKept(f: Fields, w: Fields, a: Fields, b: Fields, c: Fields, e: Fields, k: Key)
    requires k in w && k !in a && k !in b && k !in c && k !in e
    ensures k in f + w + a + b + c + e && (f + w + a + b + c + e)[k] == w[k]
  {
  }

  /** A key one update writes and the three after it do not holds what that
      update wrote. */
  lemma WrittenThenThreeKept(f: Fields, w: Fields, a: Fields, b: Fields, c: Fields, k: Key)
    requires k in w && k !in a && k !in b && k !in c
    ensures k in f + w + a + b + c && (f + w + a + b + c)[k] == w[k]
  {
  }

  /** Whatever the service's leyning, a classified Shabbat Shuva's sheet
      reads the haftarah from Joel 2:15: the classifier's `shuva` is never
      "Parashat Vayeilech". */
  lemma ClassifiedShuvaSheet(r: Reading, input: ClassifierInput, fields: seq<string>,
                             d: ShabbatDate, src: Sources)
    ensures var c := ClassifyWith(r, input, fields);
      c.Ok? && Truthy(c.value.special.haftarot.shuva) && Collected(r, d, c.value.special, src).Ok? ==>
        var f := Collected(r, d, c.value.special, src).value;
        HaftarahNote in f && f[HaftarahNote] == Some("Yoel 2:15-27")
  {
    var c := ClassifyWith(r, input, fields);
    if c.Ok? && Truthy(c.value.special.haftarot.shuva) {
      ClassifyHaftarot(r, input, fields);
      CollectedShuvaHaftarah(r, d, c.value.special, src);
    }
  }

  /** When the leyning names no maftir, collecting the maftir's page numbers
      raises KeyError on `maftir_book_english`. */
  lemma MergeMissingMaftir(d: ShabbatDate, s: Special, c: Collections, rows: seq<seq<string>>)
    requires Shaped(c) && c.calendar.Ok? && c.leyning.Ok? && MaftirBookEnglish !in c.leyning.value
    requires SpecialStage(s, SheetFields(d, c)).Ok?
    ensures Merge(d, s, c, rows) == Err(KeyMissing(Name(MaftirBookEnglish)))
  {
    ThreeUpdatesKeep(Opening(d), c.calendar.value, c.kiddush, c.leyning.value, MaftirBookEnglish);
    SpecialStageKeeps(s, SheetFields(d, c), MaftirBookEnglish);
  }

  lemma MissingMaftirRaises(r: Reading, d: ShabbatDate, s: Special, src: Sources)
    requires CalendarFields(r, src.calendar, d, src.shamashim).Ok? && LeyningFields(src.leyning).Ok?
    requires MaftirBookEnglish !in LeyningFields(src.leyning).value
    requires SpecialStage(s, SheetFields(d, Collect(r, d, src))).Ok?
    ensures Collected(r, d, s, src) == Err(KeyMissing("maftir_book_english"))
  {
    CollectShaped(r, d, src);
    MergeMissingMaftir(d, s, Collect(r, d, src), src.pageNumbers);
    MaftirBookName();
  }

  /** The keys the page stage reads. */
  const CoordinateKeys := {MaftirBookEnglish, MaftirChapter, MaftirVerse, ParashaBookEnglish, ParashaChapter,
                           ParashaVerse, ParashaTitle, HaftarahBookEnglish, HaftarahChapter, HaftarahVerse}

  /** The parasha's page numbers are the parasha's: when the parasha's
      coordinates match a Torah row before the first empty row, its last
      such row gives the parasha pages, whatever the maftir's coordinates
      match, provided the haftarah's coordinates match no Torah row there. */
  lemma ParashaPagesWin(f: Fields, rows: seq<seq<string>>, appended: bool, m: nat)
    requires CoordinateKeys <= f.Keys
    requires var pc := Coordinates(f[ParashaBookEnglish], f[ParashaChapter], f[ParashaVerse]);
      LastTorahMatch(rows, pc, 0, FirstBlank(rows)) == Some(m)
    requires var hc := Coordinates(f[HaftarahBookEnglish], f[HaftarahChapter], f[HaftarahVerse]);
      LastTorahMatch(rows, hc, 0, FirstBlank(rows)).None?
    ensures PageStage(f, rows, appended).Ok?
    ensures var g := PageStage(f, rows, appended).value;
      && ParashaEtzHayim in g && g[ParashaEtzHayim] == Some(Pad(rows[m], 11)[1])
      && ParashaHertz in g && g[ParashaHertz] == Some(Pad(rows[m], 11)[2])
  {
    var mc := CoordinatesAt(f, MaftirBookEnglish, MaftirChapter, MaftirVerse).value;
    var p1 := PageNumbers(rows, mc, None);
    var f1 := f + p1;
    PagesKeepCoordinates(f, rows, mc, None);
    var pc := CoordinatesAt(f1, ParashaBookEnglish, ParashaChapter, ParashaVerse).value;
    var p2 := PageNumbers(rows, pc, None);
    var f2 := f1 + p2;
    PagesKeepCoordinates(f1, rows, pc, None);
    ParashaPagesFound(rows, pc, None, m);
    var title := ValueAt(f2, ParashaTitle).value;
    var hc := CoordinatesAt(f2, HaftarahBookEnglish, HaftarahChapter, HaftarahVerse).value;
    var p3 := PageNumbers(rows, hc, SpecificParasha(title, appended));
    NoParashaPages(rows, hc, SpecificParasha(title, appended));
    assert PageStage(f, rows, appended) == Ok(f2 + p3);
    UpdateWins(f1, p2, ParashaEtzHayim);
    UpdateWins(f1, p2, ParashaHertz);
    UpdateKeeps(f2, p3, ParashaEtzHayim);
    UpdateKeeps(f2, p3, ParashaHertz);
  }
}
