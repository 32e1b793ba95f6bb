/** The builder object. Its one piece of mutable state is FIELDS, the list
    of placeholder names the cheat sheet must fill; the classifier appends to
    it as a special Shabbat calls for more placeholders. */
module Builder {
  import opened Common
  import opened Text
  import opened Tables
  import opened Classifier
  import opened Document

  class CheatSheetBuilder {
    /** FIELDS. */
    var fields: seq<string>

    constructor ()
      ensures fields == InitialFields
    {
      fields := InitialFields;
    }

    /** `get_special_shabbat`: the record and the new FIELDS are those of
        `Classify`; when the look-ahead assertion fails FIELDS is untouched. */
    method GetSpecialShabbat(input: ClassifierInput) returns (r: Result<Special>)
      modifies this
      ensures Classify(input, old(fields)).Err? ==> r == Err(Classify(input, old(fields)).error) && fields == old(fields)
      ensures Classify(input, old(fields)).Ok? ==>
        r == Ok(Classify(input, old(fields)).value.special) && fields == Classify(input, old(fields)).value.fields
    {
      var month, day, year := input.today.month, input.today.day, input.today.year;
      var psalm27, omit := false, false;
      if month == "Elul" || (month == "Tishrei" && day <= 21) {
        psalm27 := true;
      }
      if NoAvHaRachamimDate(month, day) {
        omit := true;
      }
      var special := Initial.(psalm27 := psalm27, omitAvHarachamim := omit);
      assert special == Windows(input.today);

      // Shabbat Mevarchim
      var scan := LookAhead(input);
      if scan.Err? {
        return Err(scan.error);
      }
      ghost var la := AfterLookahead(special, scan.value, old(fields));
      special, month := RecordMevarchim(special, scan.value);
      ghost var ctx := EventContext(month, month, month, day, year);
      assert ctx == ContextFor(AsWritten, input, scan.value, month);
      ghost var a0 := Acc(la.0, la.1);

      special := RunRules(month, day, year, special, input.events);

      if special.newMonth.roshChodesh && (Truthy(special.haftarot.fourParshiyot) || TruthyInt(special.haftarot.hanukkah)) {
        fields := fields + ["parasha_sixth_and_seventh"];
      }
      if special.notes != [] {
        fields := fields + ["notes"];
      }
      assert Acc(special, fields) == PostPass(FoldEvents(ctx, a0, input.events));
      return Ok(special);
    }

    /** The look-ahead's conclusion: Shabbat Mevarchim and the month the
        later rules read. */
    method RecordMevarchim(special: Special, scan: Scan) returns (s: Special, month: string)
      modifies this
      ensures (s, fields, month) == AfterLookahead(special, scan, old(fields))
    {
      var days := scan.days;
      month := scan.month;
      var newMonth := special.newMonth.(macharChodesh := scan.machar);
      var omit := special.omitAvHarachamim;
      if days != [] {
        if month == "Adar I" {
          month := "Adar Rishon";
        }
        if month == "Adar II" {
          month := "Adar Sheni";
        }
        newMonth := newMonth.(mevarchim := Some(Mevarchim(month, days)));
        fields := fields + BirkatFieldNames;
        omit := month !in {"Iyyar", "Sivan"};
      }
      s := special.(newMonth := newMonth, omitAvHarachamim := omit);
    }

    /** The look-ahead loops over the coming week's events. */
    method LookAhead(input: ClassifierInput) returns (r: Result<Scan>)
      ensures r == ScanFrom(input, ScanStart(input), 0)
    {
      var days: seq<DayName> := [];
      var month := input.today.month;
      var machar := false;
      var i := 0;
      while i < |input.coming|
        invariant 0 <= i <= |input.coming|
        invariant ScanFrom(input, ScanStart(input), 0) == ScanFrom(input, Scan(days, month, machar), i)
        decreases |input.coming| - i
      {
        var d := input.coming[i];
        if IsNextSunday(input, d) && days == [] {
          break;
        }
        var j := 0;
        while j < |d.events|
          invariant 0 <= j <= |d.events|
          invariant ScanFrom(input, ScanStart(input), 0)
            == match ScanEvents(input, Scan(days, month, machar), d, j)
               case Err(e) => Err(e)
               case Ok(sc) => ScanFrom(input, sc, i + 1)
          decreases |d.events| - j
        {
          var m := RoshChodeshMonth(d.events[j]);
          if m.Some? {
            month := m.value;
            days := days + [WeekdayNames(d.weekday)];
            if IsTomorrow(input, d) {
              if d.weekday != 6 {
                return Err(AssertionFailed("weekday == 6"));
              }
              machar := true;
            }
          }
          j := j + 1;
        }
        i := i + 1;
      }
      return Ok(Scan(days, month, machar));
    }

    /** The rule table, once per event of the Shabbat. */
    method RunRules(month: string, day: int, year: int, special: Special, events: seq<string>) returns (s: Special)
      modifies this
      ensures Acc(s, fields) == FoldEvents(EventContext(month, month, month, day, year), Acc(special, old(fields)), events)
    {
      ghost var ctx := EventContext(month, month, month, day, year);
      s := special;
      var k := 0;
      while k < |events|
        invariant 0 <= k <= |events|
        invariant Acc(s, fields) == FoldEvents(ctx, Acc(special, old(fields)), events[..k])
        decreases |events| - k
      {
        assert events[..k + 1][..k] == events[..k];
        s := ApplyRules(month, day, year, s, events[k]);
        k := k + 1;
      }
      assert events[..k] == events;
    }

    /** One pass of the rule loop's body, reading the reassigned `month`;
        one helper per section of the source's rule table. */
    method ApplyRules(month: string, day: int, year: int, special: Special, event: string) returns (s: Special)
      modifies this
      ensures Acc(s, fields) == EventStep(EventContext(month, month, month, day, year), Acc(special, old(fields)), event)
    {
      s := HandleHanukkah(special, event);
      s := HandleRoshChodesh(month, day, year, s, event);
      s := HandleOmerAndShira(s, event);
      s := HandleFourParshiyot(s, event);
      s := HandleRebuke(month, day, year, s, event);
      s := HandleConsolation(month, day, year, s, event);
      s := HandleShuva(month, day, year, s, event);
      s := HandleAseretHaDibrot(s, event);
      s := HandleLastParasha(s, event);
      s := HandleSpecialAliyot(s, event);
    }

    method HandleHanukkah(special: Special, event: string) returns (s: Special)
      modifies this
      ensures Acc(s, fields) == HanukkahRule(Acc(special, old(fields)), event)
    {
      s := special;
      var n := HanukkahDay(event);
      if n.Some? {
        s := s.(haftarot := s.haftarot.(hanukkah := n), omitAvHarachamim := true);
        fields := fields + HanukkahFieldNames;
      }
    }

    method HandleRoshChodesh(month: string, day: int, year: int, special: Special, event: string) returns (s: Special)
      ensures Acc(s, fields) == RoshChodeshRule(EventContext(month, month, month, day, year), Acc(special, fields), event)
    {
      var roshChodesh, ulchaparat, omit := special.newMonth.roshChodesh, special.newMonth.ulchaparatPasha, special.omitAvHarachamim;
      if Contains(event, "Rosh Chodesh") {
        roshChodesh := true;
        if year % 19 in LeapResidues && month in UlchaparatMonths {
          ulchaparat := true;
        }
        omit := true;
      }
      s := special.(newMonth := special.newMonth.(roshChodesh := roshChodesh, ulchaparatPasha := ulchaparat),
                    omitAvHarachamim := omit);
    }

    method HandleOmerAndShira(special: Special, event: string) returns (s: Special)
      modifies this
      ensures Acc(s, fields) == ShiraRule(OmerRule(Acc(special, old(fields)), event), event)
    {
      var omer, shira, notes := special.omer, special.aliyot.shabbatShira, special.notes;
      if Contains(event, "Omer") {
        omer := Some(event);
        fields := fields + ["omer"];
      }
      if event == "Shabbat Shirah" {
        shira := true;
        notes := notes + [ShiraNote];
        fields := fields + ["shirat_hayam_leyner"];
      }
      s := special.(omer := omer, aliyot := special.aliyot.(shabbatShira := shira), notes := notes);
    }

    method HandleFourParshiyot(special: Special, event: string) returns (s: Special)
      ensures Acc(s, fields) == FourParshiyotRule(Acc(special, fields), event)
    {
      var h := special.haftarot;
      var parsha, hagadol, omit, notes := h.fourParshiyot, h.shabbatHagadol, special.omitAvHarachamim, special.notes;
      if event in FourParshiyotNames {
        parsha := Some(event);
        omit := true;
      }
      if event == "Shabbat HaGadol" {
        hagadol := true;
        omit := true;
        notes := notes + [HaGadolNote];
      }
      s := special.(haftarot := h.(fourParshiyot := parsha, shabbatHagadol := hagadol), omitAvHarachamim := omit, notes := notes);
    }

    method HandleRebuke(month: string, day: int, year: int, special: Special, event: string) returns (s: Special)
      ensures Acc(s, fields) == RebukeRule(EventContext(month, month, month, day, year), Acc(special, fields), event)
    {
      var h := special.haftarot;
      var rebuke, chazon, notes := h.rebuke, h.chazon, special.notes;
      if month == "Tamuz" && 19 <= day <= 24 {
        rebuke := Some(1);
      }
      if (month == "Tamuz" && day >= 26) || (month == "Av" && day <= 2) {
        rebuke := Some(2);
      }
      if event == "Shabbat Chazon" {
        chazon := true;
        notes := notes + [ChazonNote];
      }
      s := special.(haftarot := h.(rebuke := rebuke, chazon := chazon), notes := notes);
    }

    method HandleConsolation(month: string, day: int, year: int, special: Special, event: string) returns (s: Special)
      ensures Acc(s, fields) == ConsolationRule(EventContext(month, month, month, day, year), Acc(special, fields), event)
    {
      var h := special.haftarot;
      var nachamu, consolation, appended, notes := h.nachamu, h.consolation, h.consolation3AppendedTo5, special.notes;
      if event == "Shabbat Nachamu" {
        nachamu := true;
      }
      if Contains(event, "Eikev") {
        consolation := Some(2);
      }
      if Contains(event, "Re'eh") {
        consolation := Some(3);
      }
      if Contains(event, "Shoftim") {
        consolation := Some(4);
      }
      if Contains(event, "Ki Teitzei") {
        consolation := Some(5);
        if month == "Av" && day == 15 {
          appended := true;
        }
      }
      if Contains(event, "Ki Tavo") {
        consolation := Some(6);
        notes := notes + [KiTavoNote];
      }
      if Contains(event, "Nitzavim") {
        consolation := Some(7);
      }
      s := special.(haftarot := h.(nachamu := nachamu, consolation := consolation, consolation3AppendedTo5 := appended),
                    notes := notes);
    }

    method HandleShuva(month: string, day: int, year: int, special: Special, event: string) returns (s: Special)
      modifies this
      ensures Acc(s, fields) == ShuvaRule(EventContext(month, month, month, day, year), Acc(special, old(fields)), event)
    {
      s := special;
      if event == "Shabbat Shuva" && month == "Tishrei" && 1 <= day <= 10 {
        s := s.(haftarot := s.haftarot.(shuva := Some(event)));
        fields := fields + ["haftarah_note"];
      }
    }

    method HandleAseretHaDibrot(special: Special, event: string) returns (s: Special)
      modifies this
      ensures Acc(s, fields) == AseretHaDibrotRule(Acc(special, old(fields)), event)
    {
      var vaetchanan, yitro, notes := special.aliyot.vaetchanan, special.aliyot.yitro, special.notes;
      if Contains(event, "Vaetchanan") {
        vaetchanan := true;
        notes := notes + VaetchananNotes;
        fields := fields + ["ten_commandments_leyner"];
      }
      if Contains(event, "Yitro") {
        yitro := true;
        notes := notes + [YitroNote];
        fields := fields + ["ten_commandments_leyner"];
      }
      s := special.(aliyot := special.aliyot.(vaetchanan := vaetchanan, yitro := yitro), notes := notes);
    }

    method HandleLastParasha(special: Special, event: string) returns (s: Special)
      modifies this
      ensures Acc(s, fields) == LastParashaRule(Acc(special, old(fields)), event)
    {
      s := special;
      if IsLastParashaEvent(event) {
        s := s.(aliyot := s.aliyot.(lastParasha := true));
        fields := fields + ["last_parasha_leyner"];
      }
    }

    method HandleSpecialAliyot(special: Special, event: string) returns (s: Special)
      ensures Acc(s, fields) == SpecialAliyotRule(Acc(special, fields), event)
    {
      var notes := special.notes;
      if Contains(event, "Bereshit") {
        notes := notes + [BereshitNote];
      }
      if Contains(event, "Bechukotai") {
        notes := notes + [BechukotaiNote(event)];
      }
      if Contains(event, "Terumah") {
        notes := notes + [TerumahNote];
      }
      s := special.(notes := notes);
    }

    // -------------------------------------------------------------------------
    // Placeholder discovery reads FIELDS

    /** `find_fields_in_content(content)`: the placeholders of FIELDS in the
        content's table cells and then its paragraph, with their spans. */
    method FindFieldsInContent(content: Content) returns (found: map<string, (int, int)>)
      ensures found == FieldsInContent(content, fields)
      decreases content, 1
    {
      found := FindFieldsInCells(content);
      found := FindFieldsInParagraph(content.elements, found);
    }

    /** The loops over the table's rows, cells and cell contents. */
    method FindFieldsInCells(content: Content) returns (found: map<string, (int, int)>)
      ensures found == TableFields(content, |content.cells|, fields)
      decreases content, 0
    {
      found := map[];
      var k := 0;
      while k < |content.cells|
        invariant k <= |content.cells|
        invariant found == TableFields(content, k, fields)
      {
        var inner := FindFieldsInContent(content.cells[k]);
        TableFieldsSnoc(content, k, fields);
        found := found + inner;
        k := k + 1;
      }
    }

    /** The loop over the paragraph's elements. */
    method FindFieldsInParagraph(els: seq<Element>, before: map<string, (int, int)>) returns (found: map<string, (int, int)>)
      ensures found == before + ParagraphFields(els, fields)
    {
      found := before;
      var j := 0;
      assert before + ParagraphFields(els[..0], fields) == before;
      while j < |els|
        invariant j <= |els|
        invariant found == before + ParagraphFields(els[..j], fields)
      {
        ParagraphFieldsSnoc(els, j, fields);
        UpdateTwice(before, ParagraphFields(els[..j], fields), ElementFields(els[j], fields));
        found := FindFieldsInElement(els[j], found);
        j := j + 1;
      }
      assert els[..j] == els;
    }

    /** The loop over FIELDS for one paragraph element. */
    method FindFieldsInElement(e: Element, before: map<string, (int, int)>) returns (found: map<string, (int, int)>)
      ensures found == before + ElementFields(e, fields)
    {
      found := before;
      if e.textRun.None? {
        return;
      }
      var text := e.textRun.value;
      var i := 0;
      while i < |fields|
        invariant i <= |fields|
        invariant forall f :: f in found <==> f in before || (f in fields[..i] && Contains(text, Placeholder(f)))
        invariant forall f :: f in found ==>
          found[f] == if f in fields[..i] && Contains(text, Placeholder(f)) then PlaceholderSpan(e, f) else before[f]
      {
        var field := fields[i];
        var placeholder := "<" + UpperAll(field) + ">";
        assert fields[..i + 1] == fields[..i] + [field];
        if Contains(text, placeholder) {
          var start := (if e.startIndex.Some? then e.startIndex.value else 0) + Find(text, placeholder);
          found := found[field := (start, start + |placeholder|)];
        }
        i := i + 1;
      }
      assert fields[..i] == fields;
    }

    /** `find_fields(document_id)` on the document's body. */
    method FindFields(body: seq<Content>) returns (found: map<string, (int, int)>)
      ensures found == FieldsInBody(body, fields)
    {
      found := map[];
      var i := 0;
      while i < |body|
        invariant i <= |body|
        invariant found == FieldsInBody(body[..i], fields)
      {
        assert body[..i + 1][..i] == body[..i];
        var inner := FindFieldsInContent(body[i]);
        found := found + inner;
        i := i + 1;
      }
      assert body[..i] == body;
    }
  }
}
