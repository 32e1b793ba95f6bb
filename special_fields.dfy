/** The collectors that read only the classifier's `special` dict: the
    standing-aliyah leyners, the haftarah title chain, the Hanukkah day, the
    omer count, Birkat HaChodesh and the notes. Each builds a fresh dict. */
module SpecialFields {
  import opened Common
  import opened FieldKeys
  import opened Text
  import opened Tables
  import opened Classifier
  import opened Leyner
  import opened ClassifierFacts

  /** `ORDINALS[n]`: a KeyError for a number outside 1..8 (the error names
      the table rather than the integer key). */
  function Ordinal(n: int): (r: Result<string>)
    ensures r.Ok? <==> 1 <= n <= 8
    ensures r.Ok? ==> r.value == Ordinals[n]
    ensures r.Err? ==> r.error.KeyMissing?
  {
    OrdinalsDomain();
    if n in Ordinals then Ok(Ordinals[n]) else Err(KeyMissing("ORDINALS"))
  }

  // ---------------------------------------------------------------------------
  // collect_standing_aliyah_leyner_field

  /** One `if special[...]` step: look up the leyner of aliyah `n` and store
      it (possibly None) under `key`. */
  function LeynerStep(f: Fields, asked: bool, key: Key, torah: string, n: int): Result<Fields> {
    if !asked then Ok(f)
    else
      var l :- AliyahLeyner(torah, n);
      Ok(f[key := l])
  }

  /** The leyners of the Ten Commandments (aliyah 6 for Yitro, 4 for
      Vaetchanan, which is checked second and so wins), of the last parasha
      (aliyah 7) and of the Song of the Sea (aliyah 4). An extraction that
      raises makes the whole collector raise. */
  function StandingAliyahFields(s: Special, torah: string): (r: Result<Fields>)
    ensures var a := s.aliyot;
      r.Err? <==> || (a.yitro && AliyahLeyner(torah, 6).Err?)
                  || ((a.vaetchanan || a.shabbatShira) && AliyahLeyner(torah, 4).Err?)
                  || (a.lastParasha && AliyahLeyner(torah, 7).Err?)
    ensures var a := s.aliyot;
      r.Ok? ==>
        && r.value.Keys <= {TenCommandmentsLeyner, LastParashaLeyner, ShiratHayamLeyner}
        && (TenCommandmentsLeyner in r.value <==> a.yitro || a.vaetchanan)
        && (LastParashaLeyner in r.value <==> a.lastParasha)
        && (ShiratHayamLeyner in r.value <==> a.shabbatShira)
    ensures var a := s.aliyot;
      r.Ok? ==>
        && (a.vaetchanan ==> r.value[TenCommandmentsLeyner] == AliyahLeyner(torah, 4).value)
        && (a.yitro && !a.vaetchanan ==> r.value[TenCommandmentsLeyner] == AliyahLeyner(torah, 6).value)
        && (a.lastParasha ==> r.value[LastParashaLeyner] == AliyahLeyner(torah, 7).value)
        && (a.shabbatShira ==> r.value[ShiratHayamLeyner] == AliyahLeyner(torah, 4).value)
  {
    var a := s.aliyot;
    var f :- LeynerStep(map[], a.yitro, TenCommandmentsLeyner, torah, 6);
    var f :- LeynerStep(f, a.vaetchanan, TenCommandmentsLeyner, torah, 4);
    var f :- LeynerStep(f, a.lastParasha, LastParashaLeyner, torah, 7);
    var f :- LeynerStep(f, a.shabbatShira, ShiratHayamLeyner, torah, 4);
    Ok(f)
  }

  /** No leyner, or a single whitespace-free word. */
  predicate IsReader(o: Option<string>) {
    o.Some? ==> o.value != "" && forall c :: c in o.value ==> !IsSpace(c)
  }

  lemma LeynerStepKeeps(f: Fields, asked: bool, key: Key, torah: string, n: int)
    requires forall k :: k in f ==> IsReader(f[k])
    ensures LeynerStep(f, asked, key, torah, n).Ok? ==>
      forall k :: k in LeynerStep(f, asked, key, torah, n).value ==> IsReader(LeynerStep(f, asked, key, torah, n).value[k])
  {
    ReaderIsWord(Split(torah, '\n'), n, 0);
  }

  /** Every leyner the collector names is a single whitespace-free word. */
  lemma StandingLeynersAreWords(s: Special, torah: string)
    ensures var r := StandingAliyahFields(s, torah);
      r.Ok? ==> forall k :: k in r.value ==> IsReader(r.value[k])
  {
    var a := s.aliyot;
    var f0: Fields := map[];
    LeynerStepKeeps(f0, a.yitro, TenCommandmentsLeyner, torah, 6);
    var r1 := LeynerStep(f0, a.yitro, TenCommandmentsLeyner, torah, 6);
    if r1.Ok? {
      LeynerStepKeeps(r1.value, a.vaetchanan, TenCommandmentsLeyner, torah, 4);
      var r2 := LeynerStep(r1.value, a.vaetchanan, TenCommandmentsLeyner, torah, 4);
      if r2.Ok? {
        LeynerStepKeeps(r2.value, a.lastParasha, LastParashaLeyner, torah, 7);
        var r3 := LeynerStep(r2.value, a.lastParasha, LastParashaLeyner, torah, 7);
        if r3.Ok? {
          LeynerStepKeeps(r3.value, a.shabbatShira, ShiratHayamLeyner, torah, 4);
        }
      }
    }
  }

  // ---------------------------------------------------------------------------
  // collect_special_haftarah_field

  const RoshChodeshTitle := "The haftarah for Shabbat Rosh Chodesh"
  const MacharChodeshTitle := "The haftarah for Machar Chodesh"
  const HagadolTitle := "The Haftarah for Shabbat HaGadol"
  const ChazonTitle := "The haftarah for Shabbat Chazon"
  const NachamuTitle := "The haftarah for Shabbat Nachamu"
  const ShuvaTitle := "The Haftarah for Shabbat Shuva"
  const AppendedConsolationTitle :=
    "We follow the tradition that, when Rosh Chodesh Elul coincides with Shabbat Parashat Re’eh, "
    + "the third haftarah of consolation is appended to the fifth.  This combined haftarah is the same as the one read for Parashat Noach, which"

  function HanukkahTitle(day: int): string {
    if day == 1 then "The haftarah for the first Shabbat Hanukkah"
    else if day == 8 then "The haftarah for the second Shabbat Hanukkah"
    else "The haftarah for Shabbat Hanukkah"
  }

  function FourParshiyotTitle(name: string): string {
    "The Haftarah for " + name
  }

  function RebukeTitle(ordinal: string): string {
    "The " + ordinal + " haftarah of rebuke read during the weeks preceding Tisha B’av"
  }

  function ConsolationTitle(ordinal: string): string {
    "The " + ordinal + " haftarah of consolation, read during the weeks leading up to Rosh Hashanah,"
  }

  /** The haftarah fields besides the title that the Shuva rule writes:
      Micah for the Shabbat of Parashat Vayeilech, Joel otherwise. */
  function ShuvaFields(f: Fields, shuva: string): Fields {
    if shuva == "Parashat Vayeilech" then
      f[HaftarahBookEnglish := Some("Micah")][HaftarahBook := Some("Mikhah (Micah)")]
       [HaftarahChapter := Some("7")][HaftarahVerse := Some("18")][HaftarahNote := Some("Mikhah 7:18-20")]
    else
      f[HaftarahBookEnglish := Some("Joel")][HaftarahBook := Some("Yoel (Joel)")]
       [HaftarahChapter := Some("2")][HaftarahVerse := Some("15")][HaftarahNote := Some("Yoel 2:15-27")]
  }

  /** The day numbers the chain looks up in `ORDINALS` are all in the table. */
  predicate OrdinalsDefined(h: Haftarot) {
    && (TruthyInt(h.hanukkah) ==> 1 <= h.hanukkah.value <= 8)
    && (TruthyInt(h.rebuke) ==> 1 <= h.rebuke.value <= 8)
    && (TruthyInt(h.consolation) ==> 1 <= h.consolation.value <= 8)
  }

  /** One `if special[...]` step of the chain: a rule that applies
      replaces the title so far. */
  function Overwrite(t: Option<string>, applies: bool, title: string): (u: Option<string>)
    ensures u == if applies then Some(title) else t
  {
    if applies then Some(title) else t
  }

  /** A step whose title holds an `ORDINALS` word (rebuke, consolation) or
      that looks one up (Hanukkah): it raises when the number is outside the
      table. */
  function OrdinalStep(t: Option<string>, n: Option<int>, title: string -> string): (r: Result<Option<string>>)
    ensures r.Ok? <==> (TruthyInt(n) ==> 1 <= n.value <= 8)
    ensures r.Ok? ==> r.value == if TruthyInt(n) then Some(title(Ordinals[n.value])) else t
  {
    if TruthyInt(n) then
      var w :- Ordinal(n.value);
      Ok(Some(title(w)))
    else Ok(t)
  }

  /** The value the chain of `if special[...]` assignments leaves under
      HaftarahParasha, in source order: each applicable rule overwrites
      the title the previous ones set, and an ordinal lookup outside the
      table raises. */
  function TitleChain(s: Special): (r: Result<Option<string>>)
    ensures r.Ok? <==> OrdinalsDefined(s.haftarot)
    ensures r.Ok? && Truthy(s.haftarot.shuva) ==> r.value == Some(ShuvaTitle)
  {
    var h := s.haftarot;
    var t := Overwrite(None, s.newMonth.roshChodesh, RoshChodeshTitle);
    var t := Overwrite(t, s.newMonth.macharChodesh, MacharChodeshTitle);
    var day := if h.hanukkah.Some? then h.hanukkah.value else 0;
    var t :- OrdinalStep(t, h.hanukkah, _ => HanukkahTitle(day));
    var t := Overwrite(t, Truthy(h.fourParshiyot), FourParshiyotTitle(if h.fourParshiyot.Some? then h.fourParshiyot.value else ""));
    var t := Overwrite(t, h.shabbatHagadol, HagadolTitle);
    var t :- OrdinalStep(t, h.rebuke, RebukeTitle);
    var t := Overwrite(t, h.chazon, ChazonTitle);
    var t := Overwrite(t, h.nachamu, NachamuTitle);
    var t :- OrdinalStep(t, h.consolation,
                         w => if h.consolation3AppendedTo5 then AppendedConsolationTitle else ConsolationTitle(w));
    var t := Overwrite(t, Truthy(h.shuva), ShuvaTitle);
    Ok(t)
  }

  const HaftarahBookKeys := {HaftarahBookEnglish, HaftarahBook, HaftarahChapter, HaftarahVerse, HaftarahNote}

  /** `collect_special_haftarah_field`: the title the chain leaves, the
      Hanukkah day's ordinal and, on Shabbat Shuva, the haftarah's book,
      chapter, verse and note. */
  function SpecialHaftarahFields(s: Special): (r: Result<Fields>)
    ensures r.Ok? <==> OrdinalsDefined(s.haftarot)
    ensures r.Ok? ==> r.value.Keys <= {HaftarahParasha, MaftirHanukkahDay} + HaftarahBookKeys
    ensures r.Ok? ==>
      (MaftirHanukkahDay in r.value <==> TruthyInt(s.haftarot.hanukkah))
      && (MaftirHanukkahDay in r.value ==> r.value[MaftirHanukkahDay] == Some(Ordinals[s.haftarot.hanukkah.value]))
    ensures r.Ok? ==> forall k :: k in HaftarahBookKeys ==> (k in r.value <==> Truthy(s.haftarot.shuva))
  {
    var h := s.haftarot;
    var t :- TitleChain(s);
    var f: Fields := if t.Some? then map[HaftarahParasha := t] else map[];
    var f := if TruthyInt(h.hanukkah) then f[MaftirHanukkahDay := Some(Ordinals[h.hanukkah.value])] else f;
    var f := if Truthy(h.shuva) then ShuvaFields(f, h.shuva.value) else f;
    Ok(f)
  }

  /** The title as the highest-precedence applicable rule gives it, read
      from the top: shuva, consolation, nachamu, chazon, rebuke, HaGadol,
      the four parshiyot, Hanukkah, Machar Chodesh, Rosh Chodesh. */
  function TitleByPrecedence(s: Special): Option<string>
    requires OrdinalsDefined(s.haftarot)
  {
    var h := s.haftarot;
    if Truthy(h.shuva) then Some(ShuvaTitle)
    else if TruthyInt(h.consolation) then
      Some(if h.consolation3AppendedTo5 then AppendedConsolationTitle else ConsolationTitle(Ordinals[h.consolation.value]))
    else if h.nachamu then Some(NachamuTitle)
    else if h.chazon then Some(ChazonTitle)
    else if TruthyInt(h.rebuke) then Some(RebukeTitle(Ordinals[h.rebuke.value]))
    else if h.shabbatHagadol then Some(HagadolTitle)
    else if Truthy(h.fourParshiyot) then Some(FourParshiyotTitle(h.fourParshiyot.value))
    else if TruthyInt(h.hanukkah) then Some(HanukkahTitle(h.hanukkah.value))
    else if s.newMonth.macharChodesh then Some(MacharChodeshTitle)
    else if s.newMonth.roshChodesh then Some(RoshChodeshTitle)
    else None
  }

  /** The last applicable rule of the chain decides the title: the chain
      agrees with the precedence order read from the top, and the fields
      hold a title exactly when some rule applies. */
  lemma HaftarahTitlePrecedence(s: Special)
    requires OrdinalsDefined(s.haftarot)
    ensures TitleChain(s) == Ok(TitleByPrecedence(s))
    ensures var r := SpecialHaftarahFields(s);
      && r.Ok?
      && (HaftarahParasha in r.value <==> TitleByPrecedence(s).Some?)
      && (HaftarahParasha in r.value ==> r.value[HaftarahParasha] == TitleByPrecedence(s))
  {
  }

  /** Whenever `shuva` holds anything but "Parashat Vayeilech", the haftarah
      is Joel 2:15; Micah 7:18 is read only for that one value. */
  lemma ShuvaHaftarah(s: Special)
    requires OrdinalsDefined(s.haftarot) && Truthy(s.haftarot.shuva)
    ensures var r := SpecialHaftarahFields(s);
      && r.Ok?
      && r.value[HaftarahParasha] == Some(ShuvaTitle)
      && (r.value[HaftarahNote] == Some("Mikhah 7:18-20") <==> s.haftarot.shuva == Some("Parashat Vayeilech"))
      && (s.haftarot.shuva != Some("Parashat Vayeilech") ==>
            && r.value[HaftarahBookEnglish] == Some("Joel")
            && r.value[HaftarahChapter] == Some("2")
            && r.value[HaftarahVerse] == Some("15")
            && r.value[HaftarahNote] == Some("Yoel 2:15-27"))
  {
  }

  /** The classifier only ever sets `shuva` to "Shabbat Shuva", so the
      Micah branch is unreachable: every classified Shabbat Shuva reads
      Joel 2:15-27. */
  lemma ClassifiedShuvaIsJoel(r: Reading, input: ClassifierInput, fields: seq<string>)
    ensures var c := ClassifyWith(r, input, fields);
      c.Ok? && c.value.special.haftarot.shuva.Some? ==>
        && c.value.special.haftarot.shuva == Some("Shabbat Shuva")
        && (OrdinalsDefined(c.value.special.haftarot) ==>
              SpecialHaftarahFields(c.value.special).value[HaftarahNote] == Some("Yoel 2:15-27"))
  {
    ClassifyHaftarot(r, input, fields);
    var c := ClassifyWith(r, input, fields);
    if c.Ok? && c.value.special.haftarot.shuva.Some? && OrdinalsDefined(c.value.special.haftarot) {
      ShuvaHaftarah(c.value.special);
    }
  }

  // ---------------------------------------------------------------------------
  // collect_hanukkah_fields, collect_omer_field, collect_notes_field

  /** The ordinal word of the Hanukkah day, when there is one. */
  function HanukkahFields(s: Special): (r: Result<Fields>)
    ensures r.Ok? <==> (TruthyInt(s.haftarot.hanukkah) ==> 1 <= s.haftarot.hanukkah.value <= 8)
    ensures r.Ok? ==> r.value.Keys == if TruthyInt(s.haftarot.hanukkah) then {MaftirHanukkahDay} else {}
    ensures r.Ok? && TruthyInt(s.haftarot.hanukkah) ==>
      r.value[MaftirHanukkahDay] == Some(Ordinals[s.haftarot.hanukkah.value])
  {
    var h := s.haftarot.hanukkah;
    if TruthyInt(h) then
      var w :- Ordinal(h.value);
      Ok(map[MaftirHanukkahDay := Some(w)])
    else Ok(map[])
  }

  /** On the third day of Hanukkah both the Hanukkah collector and the
      haftarah chain name the maftir day "third". */
  lemma HanukkahThirdDay(s: Special)
    requires s.haftarot.hanukkah == Some(3) && OrdinalsDefined(s.haftarot)
    ensures HanukkahFields(s) == Ok(map[MaftirHanukkahDay := Some("third")])
    ensures SpecialHaftarahFields(s).value[MaftirHanukkahDay] == Some("third")
  {
  }

  /** After a classified Shabbat whose last Hanukkah event is day 3, the
      maftir day reads "third". */
  lemma ClassifiedHanukkahThirdDay(r: Reading, input: ClassifierInput, fields: seq<string>)
    requires LastHanukkahDay(input.events) == Some(3)
    ensures var c := ClassifyWith(r, input, fields);
      c.Ok? ==> HanukkahFields(c.value.special) == Ok(map[MaftirHanukkahDay := Some("third")])
  {
    ClassifyHaftarot(r, input, fields);
  }

  /** The omer count, kept only when it is a non-empty string. */
  function OmerField(s: Special): (f: Fields)
    ensures f.Keys <= {Omer}
    ensures Omer in f <==> Truthy(s.omer)
    ensures Omer in f ==> f[Omer] == s.omer
  {
    if Truthy(s.omer) then map[Omer := s.omer] else map[]
  }

  /** The classifier's notes, one per line. */
  function NotesField(s: Special): (f: Fields)
    ensures f.Keys <= {Notes}
    ensures Notes in f <==> s.notes != []
  {
    if s.notes != [] then map[Notes := Some(Join("\n", s.notes))] else map[]
  }

  /** Notes without line breaks are read back one per line. */
  lemma NotesRoundTrip(s: Special)
    requires s.notes != []
    requires forall k :: 0 <= k < |s.notes| ==> '\n' !in s.notes[k]
    ensures NotesField(s)[Notes].Some?
    ensures Split(NotesField(s)[Notes].value, '\n') == s.notes
  {
    JoinSplit(s.notes, '\n');
  }

  // ---------------------------------------------------------------------------
  // collect_birkat_hachodesh_fields

  /** The announcement of the new month's days: "tomorrow" for a Sunday,
      "on <day>" otherwise, the second day joined with " and ", then the
      Hebrew day names. */
  function BirkatDay(days: seq<DayName>): string
    requires days != []
  {
    var first := days[0];
    var sunday := first.english == "Sunday";
    var d := if sunday then "tomorrow" else "on " + first.english;
    var d := if |days| == 2 then d + " and " + (if sunday then "on " else "") + days[1].english else d;
    var d := d + ", B'Yom " + first.hebrew;
    if |days| == 2 then d + " UvYom " + days[1].hebrew else d
  }

  /** The Birkat HaChodesh fields; `days[0]` raises on an empty day list. */
  function BirkatHachodeshFields(s: Special): (r: Result<Fields>)
    ensures var m := s.newMonth.mevarchim;
      r.Err? <==> m.Some? && m.value.days == []
    ensures var m := s.newMonth.mevarchim;
      r.Ok? ==> r.value.Keys == if m.Some? then {BirkatHachodeshMonth, BirkatHachodeshDay} else {}
    ensures var m := s.newMonth.mevarchim;
      r.Ok? && m.Some? ==> r.value[BirkatHachodeshMonth] == Some(m.value.month)
  {
    match s.newMonth.mevarchim
    case None => Ok(map[])
    case Some(Mevarchim(month, days)) =>
      if days == [] then Err(IndexOutOfRange("days[0]"))
      else Ok(map[BirkatHachodeshMonth := Some(month), BirkatHachodeshDay := Some(BirkatDay(days))])
  }

  /** The announcement starts with "tomorrow" exactly when the first day is
      a Sunday. */
  lemma BirkatDayTomorrow(days: seq<DayName>)
    requires days != []
    ensures var d := BirkatDay(days);
      (|d| >= 8 && d[..8] == "tomorrow") <==> days[0].english == "Sunday"
  {
    var first := days[0];
    var sunday := first.english == "Sunday";
    var d0 := if sunday then "tomorrow" else "on " + first.english;
    var rest := BirkatDay(days)[|d0|..];
    assert BirkatDay(days) == d0 + rest;
    if sunday {
      assert (d0 + rest)[..8] == d0;
    } else {
      assert (d0 + rest)[0] == 'o';
    }
  }

  /** The announcement ends with the Hebrew names of the announced days. */
  lemma BirkatDayHebrew(days: seq<DayName>)
    requires days != []
    ensures var d := BirkatDay(days);
      var tail := if |days| == 2 then ", B'Yom " + days[0].hebrew + " UvYom " + days[1].hebrew
                  else ", B'Yom " + days[0].hebrew;
      |tail| <= |d| && d[|d| - |tail|..] == tail
  {
    var first := days[0];
    var sunday := first.english == "Sunday";
    var d0 := if sunday then "tomorrow" else "on " + first.english;
    var d1 := if |days| == 2 then d0 + " and " + (if sunday then "on " else "") + days[1].english else d0;
    var tail := if |days| == 2 then ", B'Yom " + first.hebrew + " UvYom " + days[1].hebrew
                else ", B'Yom " + first.hebrew;
    if |days| == 2 {
      assert BirkatDay(days) == d1 + ", B'Yom " + first.hebrew + " UvYom " + days[1].hebrew;
      assert d1 + ", B'Yom " + first.hebrew + " UvYom " + days[1].hebrew == d1 + tail;
    } else {
      assert BirkatDay(days) == d1 + tail;
    }
    EndsWith(d1, tail);
  }

  lemma EndsWith(a: string, b: string)
    ensures (a + b)[|a + b| - |b|..] == b
  {
  }

  /** A new month whose first day is a Sunday is announced for "tomorrow",
      its second day with "on". */
  lemma BirkatFromSunday(hebrew: string, second: DayName)
    ensures BirkatDay([DayName("Sunday", hebrew), second])
      == "tomorrow and on " + second.english + ", B'Yom " + hebrew + " UvYom " + second.hebrew
  {
  }

  /** The keys the special-Shabbat collectors write. */
  predicate SpecialKey(k: Key) {
    || k.TenCommandmentsLeyner? || k.LastParashaLeyner? || k.ShiratHayamLeyner? || k.HaftarahParasha?
    || k.MaftirHanukkahDay? || k.Omer? || k.BirkatHachodeshMonth? || k.BirkatHachodeshDay? || k.Notes?
    || k.HaftarahBookEnglish? || k.HaftarahBook? || k.HaftarahChapter? || k.HaftarahVerse? || k.HaftarahNote?
  }

  /** No special-Shabbat collector writes another key. */
  lemma SpecialCollectorsLack(s: Special, torah: string, k: Key)
    requires !SpecialKey(k)
    ensures StandingAliyahFields(s, torah).Ok? ==> k !in StandingAliyahFields(s, torah).value
    ensures SpecialHaftarahFields(s).Ok? ==> k !in SpecialHaftarahFields(s).value
    ensures HanukkahFields(s).Ok? ==> k !in HanukkahFields(s).value
    ensures k !in OmerField(s) && k !in NotesField(s)
    ensures BirkatHachodeshFields(s).Ok? ==> k !in BirkatHachodeshFields(s).value
  {
    SpecialKeyOutside(k);
  }

  lemma SpecialKeyOutside(k: Key)
    requires !SpecialKey(k)
    ensures k !in {TenCommandmentsLeyner, LastParashaLeyner, ShiratHayamLeyner}
    ensures k !in {HaftarahParasha, MaftirHanukkahDay} + HaftarahBookKeys
    ensures k != MaftirHanukkahDay && k != Omer && k != Notes && k != BirkatHachodeshMonth && k != BirkatHachodeshDay
  {
  }

  /** The collectors after the special-haftarah one write none of the
      haftarah's book keys. */
  lemma LaterCollectorsLack(s: Special, k: Key)
    requires k in HaftarahBookKeys
    ensures HanukkahFields(s).Ok? ==> k !in HanukkahFields(s).value
    ensures k !in OmerField(s) && k !in NotesField(s)
    ensures BirkatHachodeshFields(s).Ok? ==> k !in BirkatHachodeshFields(s).value
  {
    assert !k.MaftirHanukkahDay? && !k.Omer? && !k.Notes?;
    assert !k.BirkatHachodeshMonth? && !k.BirkatHachodeshDay?;
  }

  /** The collectors after the Hanukkah one do not write its key. */
  lemma HanukkahDayKept(s: Special)
    ensures MaftirHanukkahDay !in OmerField(s) && MaftirHanukkahDay !in NotesField(s)
    ensures BirkatHachodeshFields(s).Ok? ==> MaftirHanukkahDay !in BirkatHachodeshFields(s).value
  {
  }

  /** With a Hanukkah day that has an ordinal, its collector writes it. */
  lemma HanukkahWrites(s: Special)
    requires TruthyInt(s.haftarot.hanukkah)
    ensures var h := HanukkahFields(s);
      h.Ok? ==> && s.haftarot.hanukkah.value in Ordinals
                && MaftirHanukkahDay in h.value && h.value[MaftirHanukkahDay] == Some(Ordinals[s.haftarot.hanukkah.value])
  {
  }
}
