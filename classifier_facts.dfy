/** What the classifier computes, stated against reference definitions that
    say, key by key, which events and which upcoming days decide it. */
module ClassifierFacts {
  import opened Common
  import opened Text
  import opened Classifier

  // ---------------------------------------------------------------------------
  // The look-ahead

  /** Some event of the day names a Rosh Chodesh (the look-ahead's search). */
  predicate HasRoshChodesh(evs: seq<string>) {
    exists k :: 0 <= k < |evs| && RoshChodeshMonth(evs[k]).Some?
  }

  /** The month named by the last Rosh Chodesh event of a day. */
  function LastRoshChodesh(evs: seq<string>): Option<string>
    decreases |evs|
  {
    if evs == [] then None
    else if RoshChodeshMonth(evs[|evs| - 1]).Some? then RoshChodeshMonth(evs[|evs| - 1])
    else LastRoshChodesh(evs[..|evs| - 1])
  }

  /** The month named by the last Rosh Chodesh event over several days. */
  function LastRoshChodeshOver(days: seq<UpcomingDay>): Option<string>
    decreases |days|
  {
    if days == [] then None
    else if LastRoshChodesh(days[|days| - 1].events).Some? then LastRoshChodesh(days[|days| - 1].events)
    else LastRoshChodeshOver(days[..|days| - 1])
  }

  lemma {:induction false} LastRoshChodeshFound(evs: seq<string>)
    ensures LastRoshChodesh(evs).Some? <==> HasRoshChodesh(evs)
    decreases |evs|
  {
    if evs != [] {
      var init := evs[..|evs| - 1];
      LastRoshChodeshFound(init);
      if HasRoshChodesh(init) {
        var k :| 0 <= k < |init| && RoshChodeshMonth(init[k]).Some?;
        assert evs[k] == init[k];
      }
      if HasRoshChodesh(evs) && RoshChodeshMonth(evs[|evs| - 1]).None? {
        var k :| 0 <= k < |evs| && RoshChodeshMonth(evs[k]).Some?;
        assert init[k] == evs[k];
      }
    }
  }

  lemma {:induction false} LastRoshChodeshCons(x: string, rest: seq<string>)
    ensures LastRoshChodesh([x] + rest)
         == if LastRoshChodesh(rest).Some? then LastRoshChodesh(rest) else RoshChodeshMonth(x)
    decreases |rest|
  {
    if rest == [] {
      assert [x] + rest == [x];
      assert [x][..0] == [];
    } else {
      var init := rest[..|rest| - 1];
      assert ([x] + rest)[..|rest|] == [x] + init;
      LastRoshChodeshCons(x, init);
    }
  }

  lemma {:induction false} LastRoshChodeshOverCons(d: UpcomingDay, rest: seq<UpcomingDay>)
    ensures LastRoshChodeshOver([d] + rest)
         == if LastRoshChodeshOver(rest).Some? then LastRoshChodeshOver(rest) else LastRoshChodesh(d.events)
    decreases |rest|
  {
    if rest == [] {
      assert [d] + rest == [d];
      assert [d][..0] == [];
    } else {
      var init := rest[..|rest| - 1];
      assert ([d] + rest)[..|rest|] == [d] + init;
      LastRoshChodeshOverCons(d, init);
    }
  }

  /** The inner look-ahead loop over one day: it fails exactly when the day
      is tomorrow, not a Sunday, and names a Rosh Chodesh; otherwise it adds
      the day's name once per Rosh Chodesh event and takes the last month. */
  lemma {:induction false} ScanEventsEffect(input: ClassifierInput, sc: Scan, d: UpcomingDay, j: nat)
    requires j <= |d.events|
    ensures var found := LastRoshChodesh(d.events[j..]);
      var r := ScanEvents(input, sc, d, j);
      && (r.Err? <==> found.Some? && IsTomorrow(input, d) && d.weekday != 6)
      && (r.Err? ==> r.error == AssertionFailed("weekday == 6"))
      && (r.Ok? ==>
            && sc.days <= r.value.days
            && (|r.value.days| > |sc.days| <==> found.Some?)
            && (forall t :: |sc.days| <= t < |r.value.days| ==> r.value.days[t] == WeekdayNames(d.weekday))
            && r.value.month == (if found.Some? then found.value else sc.month)
            && r.value.machar == (sc.machar || (found.Some? && IsTomorrow(input, d))))
    decreases |d.events| - j
  {
    if j < |d.events| {
      assert d.events[j..] == [d.events[j]] + d.events[j + 1..];
      LastRoshChodeshCons(d.events[j], d.events[j + 1..]);
      match RoshChodeshMonth(d.events[j])
      case None =>
        ScanEventsEffect(input, sc, d, j + 1);
      case Some(m) =>
        if !(IsTomorrow(input, d) && d.weekday != 6) {
          ScanEventsEffect(input, Scan(sc.days + [WeekdayNames(d.weekday)], m, sc.machar || IsTomorrow(input, d)), d, j + 1);
        }
    }
  }

  /** The outer look-ahead loop from day `i`: the only failure is the
      Sunday assertion; the collected days only grow; the month is left
      alone when nothing is collected and is otherwise the month of the last
      Rosh Chodesh event of the window. */
  lemma {:induction false} ScanFromEffect(input: ClassifierInput, sc: Scan, i: nat)
    requires i <= |input.coming|
    ensures var r := ScanFrom(input, sc, i);
      && (r.Err? ==> r.error == AssertionFailed("weekday == 6"))
      && (r.Ok? ==>
            && sc.days <= r.value.days
            && (|r.value.days| == |sc.days| ==> r.value.month == sc.month)
            && (|r.value.days| > |sc.days| ==> LastRoshChodeshOver(input.coming[i..]) == Some(r.value.month))
            && (|r.value.days| == |sc.days| && sc.days != [] ==> LastRoshChodeshOver(input.coming[i..]).None?))
    decreases |input.coming| - i
  {
    if i == |input.coming| {
      assert input.coming[i..] == [];
    } else if !(IsNextSunday(input, input.coming[i]) && sc.days == []) {
      var d := input.coming[i];
      ScanEventsEffect(input, sc, d, 0);
      assert d.events[0..] == d.events;
      assert input.coming[i..] == [d] + input.coming[i + 1..];
      LastRoshChodeshOverCons(d, input.coming[i + 1..]);
      match ScanEvents(input, sc, d, 0)
      case Err(_) =>
      case Ok(sc') => ScanFromEffect(input, sc', i + 1);
    }
  }

  /** The answer of the look-ahead request as the calendar service gives
      it: the eight days after the Shabbat, in order. */
  predicate StandardWindow(input: ClassifierInput) {
    |input.coming| == 8 && forall k :: 0 <= k < 8 ==> input.coming[k].offset == k + 1
  }

  /** Some day with index in [lo, hi) names a Rosh Chodesh. */
  predicate RoshChodeshWithin(coming: seq<UpcomingDay>, lo: int, hi: int)
    requires 0 <= lo && hi <= |coming|
  {
    exists k :: lo <= k < hi && HasRoshChodesh(coming[k].events)
  }

  lemma {:induction false} ScanWindowTail(input: ClassifierInput, sc: Scan, i: nat)
    requires StandardWindow(input) && !input.dateHasTime && 1 <= i <= 8
    ensures ScanFrom(input, sc, i).Ok?
    ensures ScanFrom(input, sc, i).value.machar == sc.machar
    ensures ScanFrom(input, sc, i).value.days == [] <==> sc.days == [] && !RoshChodeshWithin(input.coming, i, 7)
    decreases 8 - i
  {
    if i < 8 {
      var d := input.coming[i];
      assert d.offset == i + 1;
      if !(i == 7 && sc.days == []) {
        ScanEventsEffect(input, sc, d, 0);
        LastRoshChodeshFound(d.events);
        assert d.events[0..] == d.events;
        var sc' := ScanEvents(input, sc, d, 0).value;
        ScanWindowTail(input, sc', i + 1);
        if i < 7 {
          if RoshChodeshWithin(input.coming, i, 7) {
            var k :| i <= k < 7 && HasRoshChodesh(input.coming[k].events);
            if k != i {
              assert RoshChodeshWithin(input.coming, i + 1, 7);
            }
          }
          if HasRoshChodesh(d.events) {
            assert RoshChodeshWithin(input.coming, i, 7);
          }
          if RoshChodeshWithin(input.coming, i + 1, 7) {
            var k :| i + 1 <= k < 7 && HasRoshChodesh(input.coming[k].events);
            assert RoshChodeshWithin(input.coming, i, 7);
          }
        }
      }
    }
  }

  /** The look-ahead over a standard window, when the Shabbat is a `date`:
      it fails exactly when tomorrow is not a Sunday and names a Rosh
      Chodesh; otherwise it collects a day exactly when one of the next
      seven days names a Rosh Chodesh (next Sunday alone does not count),
      and Machar Chodesh holds exactly when tomorrow names one. */
  lemma {:induction false} ScanWindow(input: ClassifierInput)
    requires StandardWindow(input) && !input.dateHasTime
    ensures var r := ScanFrom(input, ScanStart(input), 0);
      && (r.Err? <==> HasRoshChodesh(input.coming[0].events) && input.coming[0].weekday != 6)
      && (r.Ok? ==> (r.value.days != [] <==> RoshChodeshWithin(input.coming, 0, 7)))
      && (r.Ok? ==> (r.value.machar <==> HasRoshChodesh(input.coming[0].events)))
  {
    var d := input.coming[0];
    assert d.offset == 1;
    ScanEventsEffect(input, ScanStart(input), d, 0);
    LastRoshChodeshFound(d.events);
    assert d.events[0..] == d.events;
    match ScanEvents(input, ScanStart(input), d, 0)
    case Err(_) =>
    case Ok(sc') =>
      ScanWindowTail(input, sc', 1);
      if RoshChodeshWithin(input.coming, 0, 7) {
        var k :| 0 <= k < 7 && HasRoshChodesh(input.coming[k].events);
        if k != 0 {
          assert RoshChodeshWithin(input.coming, 1, 7);
        }
      }
      if HasRoshChodesh(d.events) {
        assert RoshChodeshWithin(input.coming, 0, 7);
      }
      if RoshChodeshWithin(input.coming, 1, 7) {
        var k :| 1 <= k < 7 && HasRoshChodesh(input.coming[k].events);
        assert RoshChodeshWithin(input.coming, 0, 7);
      }
  }

  // ---------------------------------------------------------------------------
  // The rule loop, key by key

  /** The events that force "omit av harchamim" on their own. */
  predicate ForcesOmit(e: string) {
    HanukkahDay(e).Some? || Contains(e, "Rosh Chodesh") || e in FourParshiyotNames || e == "Shabbat HaGadol"
  }

  predicate ShuvaApplies(ctx: EventContext, e: string) {
    e == "Shabbat Shuva" && ctx.month == "Tishrei" && 1 <= ctx.day <= 10
  }

  predicate MentionsRoshChodesh(e: string) {
    Contains(e, "Rosh Chodesh")
  }

  /** Some event satisfies `p`. */
  predicate SomeEvent(evs: seq<string>, p: string -> bool) {
    exists k :: 0 <= k < |evs| && p(evs[k])
  }

  // The notes one event contributes, rule by rule.

  function ShiraNotes(e: string): seq<string> {
    if e == "Shabbat Shirah" then [ShiraNote] else []
  }

  function HaGadolNotes(e: string): seq<string> {
    if e == "Shabbat HaGadol" then [HaGadolNote] else []
  }

  function ChazonNotes(e: string): seq<string> {
    if e == "Shabbat Chazon" then [ChazonNote] else []
  }

  function KiTavoNotes(e: string): seq<string> {
    if Contains(e, "Ki Tavo") then [KiTavoNote] else []
  }

  function AseretHaDibrotNotes(e: string): seq<string> {
    (if Contains(e, "Vaetchanan") then VaetchananNotes else []) + (if Contains(e, "Yitro") then [YitroNote] else [])
  }

  function SpecialAliyotNotes(e: string): seq<string> {
    (if Contains(e, "Bereshit") then [BereshitNote] else [])
    + (if Contains(e, "Bechukotai") then [BechukotaiNote(e)] else [])
    + (if Contains(e, "Terumah") then [TerumahNote] else [])
  }

  /** The notes one event contributes, in the order the rules append them. */
  function EventNotes(e: string): seq<string> {
    ShiraNotes(e) + HaGadolNotes(e) + ChazonNotes(e) + KiTavoNotes(e) + AseretHaDibrotNotes(e) + SpecialAliyotNotes(e)
  }

  /** The notes of the events, event by event. */
  function NotesOf(evs: seq<string>): seq<string>
    decreases |evs|
  {
    if evs == [] then [] else NotesOf(evs[..|evs| - 1]) + EventNotes(evs[|evs| - 1])
  }

  /** The day number of the last Hanukkah event. */
  function LastHanukkahDay(evs: seq<string>): Option<int>
    decreases |evs|
  {
    if evs == [] then None
    else if HanukkahDay(evs[|evs| - 1]).Some? then HanukkahDay(evs[|evs| - 1])
    else LastHanukkahDay(evs[..|evs| - 1])
  }

  /** The placeholder names the look-ahead and the rule loop can add to
      FIELDS. */
  const RuleFieldNames: set<string> := {
    "birkat_hachodesh_month", "birkat_hachodesh_day",
    "maftir_hanukkah_day", "maftir_book", "maftir_chapter", "maftir_verse", "maftir_etz_hayim",
    "maftir_hertz", "maftir_hanukkah_note", "omer", "shirat_hayam_leyner", "haftarah_note",
    "ten_commandments_leyner", "last_parasha_leyner"
  }

  /** Every placeholder name the classifier can add to FIELDS: the rules'
      names and the two the pass after the loop adds. */
  const AddedFieldNames: set<string> := RuleFieldNames + {"parasha_sixth_and_seventh", "notes"}

  /** FIELDS grew from `f` to `g` by appending names the rules add. */
  predicate GrewBy(f: seq<string>, g: seq<string>) {
    f <= g && forall t :: |f| <= t < |g| ==> g[t] in RuleFieldNames
  }

  /** FIELDS grew from `f` to `g` by appending names the classifier adds. */
  predicate GrewWithin(f: seq<string>, g: seq<string>) {
    f <= g && forall t :: |f| <= t < |g| ==> g[t] in AddedFieldNames
  }

  lemma {:induction false} GrewByTrans(f: seq<string>, g: seq<string>, h: seq<string>)
    requires GrewBy(f, g) && GrewBy(g, h)
    ensures GrewBy(f, h)
  {
    forall t | |f| <= t < |h|
      ensures h[t] in RuleFieldNames
    {
      if t < |g| {
        assert h[t] == g[t];
      }
    }
  }


  /** The keys of the record the lemmas below follow. */
  datatype View = View(
    psalm27: bool,
    mevarchim: Option<Mevarchim>,
    machar: bool,
    roshChodesh: bool,
    ulchaparat: bool,
    omit: bool,
    hanukkah: Option<int>,
    rebuke: Option<int>,
    shuva: Option<string>,
    notes: seq<string>)

  function ViewOf(a: Acc): View {
    var s := a.special;
    View(s.psalm27, s.newMonth.mevarchim, s.newMonth.macharChodesh, s.newMonth.roshChodesh,
         s.newMonth.ulchaparatPasha, s.omitAvHarachamim, s.haftarot.hanukkah, s.haftarot.rebuke,
         s.haftarot.shuva, s.notes)
  }

  /** The keys the haftarah-title chain, the standing-aliyah leyners, the
      omer field and the template choice read, besides those in `View`. */
  datatype ParashaView = ParashaView(
    omer: Option<string>,
    shabbatShira: bool,
    fourParshiyot: Option<string>,
    shabbatHagadol: bool,
    chazon: bool,
    nachamu: bool,
    consolation: Option<int>,
    consolation3AppendedTo5: bool,
    vaetchanan: bool,
    yitro: bool,
    lastParasha: bool)

  function ParashaViewOf(a: Acc): ParashaView {
    var s := a.special;
    var h, al := s.haftarot, s.aliyot;
    ParashaView(s.omer, al.shabbatShira, h.fourParshiyot, h.shabbatHagadol, h.chazon, h.nachamu,
                h.consolation, h.consolation3AppendedTo5, al.vaetchanan, al.yitro, al.lastParasha)
  }

  // The event tests of the rules, as predicates on one event.

  predicate MentionsOmer(e: string) { Contains(e, "Omer") }
  predicate IsShira(e: string) { e == "Shabbat Shirah" }
  predicate IsFourParshiyot(e: string) { e in FourParshiyotNames }
  predicate IsHaGadol(e: string) { e == "Shabbat HaGadol" }
  predicate IsChazon(e: string) { e == "Shabbat Chazon" }
  predicate IsNachamu(e: string) { e == "Shabbat Nachamu" }
  predicate MentionsKiTeitzei(e: string) { Contains(e, "Ki Teitzei") }
  predicate MentionsVaetchanan(e: string) { Contains(e, "Vaetchanan") }
  predicate MentionsYitro(e: string) { Contains(e, "Yitro") }

  /** The parashiyot whose haftarot are the second to the seventh of
      consolation, by number. */
  function ConsolationParasha(k: int): string
    requires 2 <= k <= 7
  {
    ["Eikev", "Re'eh", "Shoftim", "Ki Teitzei", "Ki Tavo", "Nitzavim"][k - 2]
  }

  predicate NamesConsolation(e: string, k: int) {
    2 <= k <= 7 && Contains(e, ConsolationParasha(k))
  }

  predicate NamesAnyConsolation(e: string) {
    exists k :: 2 <= k <= 7 && NamesConsolation(e, k)
  }

  /** `k` is the highest consolation number whose parasha `e` names. */
  predicate HighestNamed(e: string, k: int) {
    NamesConsolation(e, k) && forall j :: k < j <= 7 ==> !NamesConsolation(e, j)
  }

  /** Within one event the later test wins: the number is that of the
      highest-numbered parasha the event names, and an event naming none
      leaves the number as it was. */
  lemma ConsolationOfHighest(e: string, prev: Option<int>)
    ensures NamesAnyConsolation(e) ==> ConsolationOf(e, prev).Some? && HighestNamed(e, ConsolationOf(e, prev).value)
    ensures !NamesAnyConsolation(e) ==> ConsolationOf(e, prev) == prev
  {
    assert ConsolationParasha(2) == "Eikev" && ConsolationParasha(3) == "Re'eh";
    assert ConsolationParasha(4) == "Shoftim" && ConsolationParasha(5) == "Ki Teitzei";
    assert ConsolationParasha(6) == "Ki Tavo" && ConsolationParasha(7) == "Nitzavim";
    forall k | 2 <= k <= 7
      ensures NamesConsolation(e, k) ==> ConsolationOf(e, prev).Some? && ConsolationOf(e, prev).value >= k
    {
      assert k == 2 || k == 3 || k == 4 || k == 5 || k == 6 || k == 7;
    }
    if NamesAnyConsolation(e) {
      var c := ConsolationOf(e, prev).value;
      assert NamesConsolation(e, c);
    } else {
      assert !NamesConsolation(e, 2) && !NamesConsolation(e, 3) && !NamesConsolation(e, 4);
      assert !NamesConsolation(e, 5) && !NamesConsolation(e, 6) && !NamesConsolation(e, 7);
    }
  }

  // The effect of each rule on its own. These frame `EventStep`: each
  // states, key by key, what one rule writes and what it leaves alone, so
  // that the EventStep*, Fold* and Classify* lemmas below can follow a pass
  // rule by rule. The properties worth reading are in those lemmas.

  lemma HanukkahRuleEffect(a: Acc, e: string)
    ensures var v := ViewOf(a);
      ViewOf(HanukkahRule(a, e))
        == v.(omit := v.omit || HanukkahDay(e).Some?,
              hanukkah := if HanukkahDay(e).Some? then HanukkahDay(e) else v.hanukkah)
    ensures GrewBy(a.fields, HanukkahRule(a, e).fields)
    ensures HanukkahDay(e).Some? ==> forall f :: f in HanukkahFieldNames ==> f in HanukkahRule(a, e).fields
    ensures ParashaViewOf(HanukkahRule(a, e)) == ParashaViewOf(a)
  {
  }

  lemma RoshChodeshRuleEffect(ctx: EventContext, a: Acc, e: string)
    ensures var v, rc := ViewOf(a), Contains(e, "Rosh Chodesh");
      ViewOf(RoshChodeshRule(ctx, a, e))
        == v.(roshChodesh := v.roshChodesh || rc,
              ulchaparat := v.ulchaparat || (rc && LeapYearMonth(ctx.year, ctx.ulchaparatMonth)),
              omit := v.omit || rc)
    ensures RoshChodeshRule(ctx, a, e).fields == a.fields
    ensures ParashaViewOf(RoshChodeshRule(ctx, a, e)) == ParashaViewOf(a)
  {
  }

  lemma OmerRuleEffect(a: Acc, e: string)
    ensures ViewOf(OmerRule(a, e)) == ViewOf(a)
    ensures GrewBy(a.fields, OmerRule(a, e).fields)
    ensures var p := ParashaViewOf(a);
      ParashaViewOf(OmerRule(a, e)) == p.(omer := if MentionsOmer(e) then Some(e) else p.omer)
  {
  }

  lemma ShiraRuleEffect(a: Acc, e: string)
    ensures ViewOf(ShiraRule(a, e)) == ViewOf(a).(notes := a.special.notes + ShiraNotes(e))
    ensures GrewBy(a.fields, ShiraRule(a, e).fields)
    ensures var p := ParashaViewOf(a);
      ParashaViewOf(ShiraRule(a, e)) == p.(shabbatShira := p.shabbatShira || IsShira(e))
  {
    if IsShira(e) {
      assert ShiraRule(a, e).special.aliyot == a.special.aliyot.(shabbatShira := true);
    }
  }

  lemma FourParshiyotRuleEffect(a: Acc, e: string)
    ensures var v := ViewOf(a);
      ViewOf(FourParshiyotRule(a, e))
        == v.(omit := v.omit || e in FourParshiyotNames || e == "Shabbat HaGadol", notes := v.notes + HaGadolNotes(e))
    ensures FourParshiyotRule(a, e).fields == a.fields
    ensures var p := ParashaViewOf(a);
      ParashaViewOf(FourParshiyotRule(a, e))
        == p.(fourParshiyot := if IsFourParshiyot(e) then Some(e) else p.fourParshiyot,
              shabbatHagadol := p.shabbatHagadol || IsHaGadol(e))
  {
  }

  lemma RebukeRuleEffect(ctx: EventContext, a: Acc, e: string)
    ensures var v := ViewOf(a);
      ViewOf(RebukeRule(ctx, a, e))
        == v.(rebuke := RebukeOf(ctx.rebukeMonth, ctx.day, v.rebuke), notes := v.notes + ChazonNotes(e))
    ensures RebukeRule(ctx, a, e).fields == a.fields
    ensures var p := ParashaViewOf(a);
      ParashaViewOf(RebukeRule(ctx, a, e)) == p.(chazon := p.chazon || IsChazon(e))
  {
  }

  lemma ConsolationRuleEffect(ctx: EventContext, a: Acc, e: string)
    ensures ViewOf(ConsolationRule(ctx, a, e)) == ViewOf(a).(notes := a.special.notes + KiTavoNotes(e))
    ensures ConsolationRule(ctx, a, e).fields == a.fields
    ensures var p := ParashaViewOf(a);
      ParashaViewOf(ConsolationRule(ctx, a, e))
        == p.(nachamu := p.nachamu || IsNachamu(e),
              consolation := ConsolationOf(e, p.consolation),
              consolation3AppendedTo5 := p.consolation3AppendedTo5
                || (MentionsKiTeitzei(e) && ctx.month == "Av" && ctx.day == 15))
  {
  }

  lemma ShuvaRuleEffect(ctx: EventContext, a: Acc, e: string)
    ensures var v := ViewOf(a);
      ViewOf(ShuvaRule(ctx, a, e)) == v.(shuva := if ShuvaApplies(ctx, e) then Some(e) else v.shuva)
    ensures GrewBy(a.fields, ShuvaRule(ctx, a, e).fields)
    ensures ParashaViewOf(ShuvaRule(ctx, a, e)) == ParashaViewOf(a)
  {
  }

  lemma AseretHaDibrotRuleEffect(a: Acc, e: string)
    ensures ViewOf(AseretHaDibrotRule(a, e)) == ViewOf(a).(notes := a.special.notes + AseretHaDibrotNotes(e))
    ensures GrewBy(a.fields, AseretHaDibrotRule(a, e).fields)
    ensures var p := ParashaViewOf(a);
      ParashaViewOf(AseretHaDibrotRule(a, e))
        == p.(vaetchanan := p.vaetchanan || MentionsVaetchanan(e), yitro := p.yitro || MentionsYitro(e))
  {
  }

  lemma LastParashaRuleEffect(a: Acc, e: string)
    ensures ViewOf(LastParashaRule(a, e)) == ViewOf(a)
    ensures GrewBy(a.fields, LastParashaRule(a, e).fields)
    ensures var p := ParashaViewOf(a);
      ParashaViewOf(LastParashaRule(a, e)) == p.(lastParasha := p.lastParasha || IsLastParashaEvent(e))
  {
  }

  lemma SpecialAliyotRuleEffect(a: Acc, e: string)
    ensures ViewOf(SpecialAliyotRule(a, e)) == ViewOf(a).(notes := a.special.notes + SpecialAliyotNotes(e))
    ensures SpecialAliyotRule(a, e).fields == a.fields
    ensures ParashaViewOf(SpecialAliyotRule(a, e)) == ParashaViewOf(a)
  {
  }

  lemma {:induction false} PrefixKeeps(f: seq<string>, g: seq<string>, x: string)
    requires f <= g && x in f
    ensures x in g
  {
    var k :| 0 <= k < |f| && f[k] == x;
    assert g[k] == x;
  }

  lemma Reassociate(n: seq<string>, x1: seq<string>, x2: seq<string>, x3: seq<string>,
                    x4: seq<string>, x5: seq<string>, x6: seq<string>)
    ensures n + x1 + x2 + x3 + x4 + x5 + x6 == n + (x1 + x2 + x3 + x4 + x5 + x6)
  {
  }

  lemma LastSplit(evs: seq<string>)
    requires evs != []
    ensures evs == evs[..|evs| - 1] + [evs[|evs| - 1]]
  {
  }

  lemma Concat3(n: seq<string>, x: seq<string>, y: seq<string>)
    ensures n + x + y == n + (x + y)
  {
  }

  // The lemmas below follow one pass of the loop body rule by rule.

  /** How one pass changes the flags. */
  lemma {:induction false} EventStepFlags(ctx: EventContext, a: Acc, e: string)
    ensures var v, w := ViewOf(a), ViewOf(EventStep(ctx, a, e));
      && w.psalm27 == v.psalm27 && w.mevarchim == v.mevarchim && w.machar == v.machar
      && w.roshChodesh == (v.roshChodesh || MentionsRoshChodesh(e))
      && w.ulchaparat == (v.ulchaparat || (MentionsRoshChodesh(e) && LeapYearMonth(ctx.year, ctx.ulchaparatMonth)))
      && w.omit == (v.omit || ForcesOmit(e))
  {
    var a1 := HanukkahRule(a, e);
    HanukkahRuleEffect(a, e);
    var a2 := RoshChodeshRule(ctx, a1, e);
    RoshChodeshRuleEffect(ctx, a1, e);
    var a3 := OmerRule(a2, e);
    OmerRuleEffect(a2, e);
    var a4 := ShiraRule(a3, e);
    ShiraRuleEffect(a3, e);
    var a5 := FourParshiyotRule(a4, e);
    FourParshiyotRuleEffect(a4, e);
    var a6 := RebukeRule(ctx, a5, e);
    RebukeRuleEffect(ctx, a5, e);
    var a7 := ConsolationRule(ctx, a6, e);
    ConsolationRuleEffect(ctx, a6, e);
    var a8 := ShuvaRule(ctx, a7, e);
    ShuvaRuleEffect(ctx, a7, e);
    var a9 := AseretHaDibrotRule(a8, e);
    AseretHaDibrotRuleEffect(a8, e);
    var a10 := LastParashaRule(a9, e);
    LastParashaRuleEffect(a9, e);
    var a11 := SpecialAliyotRule(a10, e);
    SpecialAliyotRuleEffect(a10, e);
    assert EventStep(ctx, a, e) == a11;
  }

  /** How one pass changes the haftarah keys. */
  lemma {:induction false} EventStepHaftarot(ctx: EventContext, a: Acc, e: string)
    ensures var v, w := ViewOf(a), ViewOf(EventStep(ctx, a, e));
      && w.hanukkah == (if HanukkahDay(e).Some? then HanukkahDay(e) else v.hanukkah)
      && w.rebuke == RebukeOf(ctx.rebukeMonth, ctx.day, v.rebuke)
      && w.shuva == (if ShuvaApplies(ctx, e) then Some(e) else v.shuva)
  {
    var a1 := HanukkahRule(a, e);
    HanukkahRuleEffect(a, e);
    var a2 := RoshChodeshRule(ctx, a1, e);
    RoshChodeshRuleEffect(ctx, a1, e);
    var a3 := OmerRule(a2, e);
    OmerRuleEffect(a2, e);
    var a4 := ShiraRule(a3, e);
    ShiraRuleEffect(a3, e);
    var a5 := FourParshiyotRule(a4, e);
    FourParshiyotRuleEffect(a4, e);
    var a6 := RebukeRule(ctx, a5, e);
    RebukeRuleEffect(ctx, a5, e);
    var a7 := ConsolationRule(ctx, a6, e);
    ConsolationRuleEffect(ctx, a6, e);
    var a8 := ShuvaRule(ctx, a7, e);
    ShuvaRuleEffect(ctx, a7, e);
    var a9 := AseretHaDibrotRule(a8, e);
    AseretHaDibrotRuleEffect(a8, e);
    var a10 := LastParashaRule(a9, e);
    LastParashaRuleEffect(a9, e);
    var a11 := SpecialAliyotRule(a10, e);
    SpecialAliyotRuleEffect(a10, e);
    assert EventStep(ctx, a, e) == a11;
  }

  /** How one pass changes the keys about the week's parasha and its
      haftarah: the omer text and the four parshiyot take the event itself,
      the consolation number follows `ConsolationOf`, and each flag becomes
      true exactly when the event sets it. */
  lemma {:induction false} EventStepParasha(ctx: EventContext, a: Acc, e: string)
    ensures var p := ParashaViewOf(a);
      ParashaViewOf(EventStep(ctx, a, e))
        == ParashaView(
             if MentionsOmer(e) then Some(e) else p.omer,
             p.shabbatShira || IsShira(e),
             if IsFourParshiyot(e) then Some(e) else p.fourParshiyot,
             p.shabbatHagadol || IsHaGadol(e),
             p.chazon || IsChazon(e),
             p.nachamu || IsNachamu(e),
             ConsolationOf(e, p.consolation),
             p.consolation3AppendedTo5 || (MentionsKiTeitzei(e) && ctx.month == "Av" && ctx.day == 15),
             p.vaetchanan || MentionsVaetchanan(e),
             p.yitro || MentionsYitro(e),
             p.lastParasha || IsLastParashaEvent(e))
  {
    var a1 := HanukkahRule(a, e);
    HanukkahRuleEffect(a, e);
    var a2 := RoshChodeshRule(ctx, a1, e);
    RoshChodeshRuleEffect(ctx, a1, e);
    var a3 := OmerRule(a2, e);
    OmerRuleEffect(a2, e);
    var a4 := ShiraRule(a3, e);
    ShiraRuleEffect(a3, e);
    var a5 := FourParshiyotRule(a4, e);
    FourParshiyotRuleEffect(a4, e);
    var a6 := RebukeRule(ctx, a5, e);
    RebukeRuleEffect(ctx, a5, e);
    var a7 := ConsolationRule(ctx, a6, e);
    ConsolationRuleEffect(ctx, a6, e);
    var a8 := ShuvaRule(ctx, a7, e);
    ShuvaRuleEffect(ctx, a7, e);
    var a9 := AseretHaDibrotRule(a8, e);
    AseretHaDibrotRuleEffect(a8, e);
    var a10 := LastParashaRule(a9, e);
    LastParashaRuleEffect(a9, e);
    var a11 := SpecialAliyotRule(a10, e);
    SpecialAliyotRuleEffect(a10, e);
    assert EventStep(ctx, a, e) == a11;
  }

  /** One pass appends the event's notes. */
  lemma {:induction false} EventStepNotes(ctx: EventContext, a: Acc, e: string)
    ensures EventStep(ctx, a, e).special.notes == a.special.notes + EventNotes(e)
  {
    var a1 := HanukkahRule(a, e);
    HanukkahRuleEffect(a, e);
    var a2 := RoshChodeshRule(ctx, a1, e);
    RoshChodeshRuleEffect(ctx, a1, e);
    var a3 := OmerRule(a2, e);
    OmerRuleEffect(a2, e);
    var a4 := ShiraRule(a3, e);
    ShiraRuleEffect(a3, e);
    var a5 := FourParshiyotRule(a4, e);
    FourParshiyotRuleEffect(a4, e);
    var a6 := RebukeRule(ctx, a5, e);
    RebukeRuleEffect(ctx, a5, e);
    var a7 := ConsolationRule(ctx, a6, e);
    ConsolationRuleEffect(ctx, a6, e);
    var a8 := ShuvaRule(ctx, a7, e);
    ShuvaRuleEffect(ctx, a7, e);
    var a9 := AseretHaDibrotRule(a8, e);
    AseretHaDibrotRuleEffect(a8, e);
    var a10 := LastParashaRule(a9, e);
    LastParashaRuleEffect(a9, e);
    var a11 := SpecialAliyotRule(a10, e);
    SpecialAliyotRuleEffect(a10, e);
    assert EventStep(ctx, a, e) == a11;
    Reassociate(a.special.notes, ShiraNotes(e), HaGadolNotes(e), ChazonNotes(e), KiTavoNotes(e),
                AseretHaDibrotNotes(e), SpecialAliyotNotes(e));
  }

  /** One pass only appends to FIELDS, and a Hanukkah event appends the
      maftir names. */
  lemma {:induction false} EventStepFields(ctx: EventContext, a: Acc, e: string)
    ensures GrewBy(a.fields, EventStep(ctx, a, e).fields)
    ensures HanukkahDay(e).Some? ==> forall f :: f in HanukkahFieldNames ==> f in EventStep(ctx, a, e).fields
  {
    var a1 := HanukkahRule(a, e);
    HanukkahRuleEffect(a, e);
    var a2 := RoshChodeshRule(ctx, a1, e);
    RoshChodeshRuleEffect(ctx, a1, e);
    var a3 := OmerRule(a2, e);
    OmerRuleEffect(a2, e);
    var a4 := ShiraRule(a3, e);
    ShiraRuleEffect(a3, e);
    var a5 := FourParshiyotRule(a4, e);
    FourParshiyotRuleEffect(a4, e);
    var a6 := RebukeRule(ctx, a5, e);
    RebukeRuleEffect(ctx, a5, e);
    var a7 := ConsolationRule(ctx, a6, e);
    ConsolationRuleEffect(ctx, a6, e);
    var a8 := ShuvaRule(ctx, a7, e);
    ShuvaRuleEffect(ctx, a7, e);
    var a9 := AseretHaDibrotRule(a8, e);
    AseretHaDibrotRuleEffect(a8, e);
    var a10 := LastParashaRule(a9, e);
    LastParashaRuleEffect(a9, e);
    var a11 := SpecialAliyotRule(a10, e);
    SpecialAliyotRuleEffect(a10, e);
    assert EventStep(ctx, a, e) == a11;
    GrewByTrans(a.fields, a1.fields, a3.fields);
    GrewByTrans(a.fields, a3.fields, a4.fields);
    GrewByTrans(a.fields, a4.fields, a8.fields);
    GrewByTrans(a.fields, a8.fields, a9.fields);
    GrewByTrans(a.fields, a9.fields, a10.fields);
    if HanukkahDay(e).Some? {
      forall f | f in HanukkahFieldNames
        ensures f in a11.fields
      {
        PrefixKeeps(a1.fields, a11.fields, f);
      }
    }
  }

  lemma {:induction false} SomeEventSplit(evs: seq<string>, p: string -> bool)
    requires evs != []
    ensures SomeEvent(evs, p) <==> SomeEvent(evs[..|evs| - 1], p) || p(evs[|evs| - 1])
  {
    var init := evs[..|evs| - 1];
    if SomeEvent(evs, p) {
      var k :| 0 <= k < |evs| && p(evs[k]);
      if k < |init| {
        assert init[k] == evs[k];
      }
    }
    if SomeEvent(init, p) {
      var k :| 0 <= k < |init| && p(init[k]);
      assert evs[k] == init[k];
    }
  }

  /** The rule loop over all events: the look-ahead's keys are left alone
      and each flag below is set when some event sets it. */
  lemma {:induction false} FoldFlags(ctx: EventContext, a: Acc, evs: seq<string>)
    ensures var v, w := ViewOf(a), ViewOf(FoldEvents(ctx, a, evs));
      && w.psalm27 == v.psalm27 && w.mevarchim == v.mevarchim && w.machar == v.machar
      && w.roshChodesh == (v.roshChodesh || SomeEvent(evs, MentionsRoshChodesh))
      && w.ulchaparat == (v.ulchaparat || (SomeEvent(evs, MentionsRoshChodesh) && LeapYearMonth(ctx.year, ctx.ulchaparatMonth)))
      && w.omit == (v.omit || SomeEvent(evs, ForcesOmit))
    decreases |evs|
  {
    if evs != [] {
      var init, last := evs[..|evs| - 1], evs[|evs| - 1];
      FoldFlags(ctx, a, init);
      EventStepFlags(ctx, FoldEvents(ctx, a, init), last);
      SomeEventSplit(evs, MentionsRoshChodesh);
      SomeEventSplit(evs, ForcesOmit);
    }
  }

  /** The rule loop over all events: the Hanukkah day is the last one named. */
  lemma {:induction false} FoldHanukkah(ctx: EventContext, a: Acc, evs: seq<string>)
    ensures ViewOf(FoldEvents(ctx, a, evs)).hanukkah
         == if LastHanukkahDay(evs).Some? then LastHanukkahDay(evs) else ViewOf(a).hanukkah
    decreases |evs|
  {
    if evs != [] {
      var init, last := evs[..|evs| - 1], evs[|evs| - 1];
      LastSplit(evs);
      FoldHanukkah(ctx, a, init);
      EventStepHaftarot(ctx, FoldEvents(ctx, a, init), last);
    }
  }

  /** The rule loop over all events: the rebuke is decided by the date alone. */
  lemma {:induction false} FoldRebuke(ctx: EventContext, a: Acc, evs: seq<string>)
    ensures ViewOf(FoldEvents(ctx, a, evs)).rebuke
         == if evs == [] then ViewOf(a).rebuke else RebukeOf(ctx.rebukeMonth, ctx.day, ViewOf(a).rebuke)
    decreases |evs|
  {
    if evs != [] {
      var init, last := evs[..|evs| - 1], evs[|evs| - 1];
      LastSplit(evs);
      FoldRebuke(ctx, a, init);
      EventStepHaftarot(ctx, FoldEvents(ctx, a, init), last);
    }
  }

  /** The rule loop over all events: Shuva needs both the event and the date. */
  lemma {:induction false} FoldShuva(ctx: EventContext, a: Acc, evs: seq<string>)
    ensures ViewOf(FoldEvents(ctx, a, evs)).shuva
         == if "Shabbat Shuva" in evs && ctx.month == "Tishrei" && 1 <= ctx.day <= 10
            then Some("Shabbat Shuva") else ViewOf(a).shuva
    decreases |evs|
  {
    if evs != [] {
      var init, last := evs[..|evs| - 1], evs[|evs| - 1];
      LastSplit(evs);
      FoldShuva(ctx, a, init);
      EventStepHaftarot(ctx, FoldEvents(ctx, a, init), last);
    }
  }

  /** The index of the last event satisfying `p`, or -1 when none does. */
  function LastIndex(evs: seq<string>, p: string -> bool): (k: int)
    ensures -1 <= k < |evs|
    ensures k >= 0 ==> p(evs[k])
    ensures forall j :: k < j < |evs| ==> !p(evs[j])
    decreases |evs|
  {
    if evs == [] then -1
    else if p(evs[|evs| - 1]) then |evs| - 1
    else LastIndex(evs[..|evs| - 1], p)
  }

  /** There is a last event satisfying `p` exactly when some event does. */
  lemma LastIndexFound(evs: seq<string>, p: string -> bool)
    ensures LastIndex(evs, p) >= 0 <==> SomeEvent(evs, p)
  {
    if SomeEvent(evs, p) {
      var i :| 0 <= i < |evs| && p(evs[i]);
      assert LastIndex(evs, p) >= i;
    }
  }

  /** The rule loop over all events: the omer text is the last event that
      mentions the Omer. */
  lemma {:induction false} FoldOmer(ctx: EventContext, a: Acc, evs: seq<string>)
    ensures var k := LastIndex(evs, MentionsOmer);
      ParashaViewOf(FoldEvents(ctx, a, evs)).omer == if k >= 0 then Some(evs[k]) else ParashaViewOf(a).omer
    decreases |evs|
  {
    if evs != [] {
      var init, last := evs[..|evs| - 1], evs[|evs| - 1];
      FoldOmer(ctx, a, init);
      EventStepParasha(ctx, FoldEvents(ctx, a, init), last);
      var k := LastIndex(init, MentionsOmer);
      if k >= 0 {
        assert evs[k] == init[k];
      }
    }
  }

  /** The rule loop over all events: the four-parshiyot name is the last
      event that is one of them. */
  lemma {:induction false} FoldFourParshiyot(ctx: EventContext, a: Acc, evs: seq<string>)
    ensures var k := LastIndex(evs, IsFourParshiyot);
      ParashaViewOf(FoldEvents(ctx, a, evs)).fourParshiyot
        == if k >= 0 then Some(evs[k]) else ParashaViewOf(a).fourParshiyot
    decreases |evs|
  {
    if evs != [] {
      var init, last := evs[..|evs| - 1], evs[|evs| - 1];
      FoldFourParshiyot(ctx, a, init);
      EventStepParasha(ctx, FoldEvents(ctx, a, init), last);
      var k := LastIndex(init, IsFourParshiyot);
      if k >= 0 {
        assert evs[k] == init[k];
      }
    }
  }

  /** The rule loop over all events: the consolation number comes from the
      last event naming one of Eikev to Nitzavim, and within that event
      from the highest-numbered parasha it names. */
  lemma {:induction false} FoldConsolation(ctx: EventContext, a: Acc, evs: seq<string>)
    ensures var k, c := LastIndex(evs, NamesAnyConsolation), ParashaViewOf(FoldEvents(ctx, a, evs)).consolation;
      && (k >= 0 ==> c.Some? && HighestNamed(evs[k], c.value))
      && (k < 0 ==> c == ParashaViewOf(a).consolation)
    decreases |evs|
  {
    if evs != [] {
      var init, last := evs[..|evs| - 1], evs[|evs| - 1];
      var b := FoldEvents(ctx, a, init);
      FoldConsolation(ctx, a, init);
      EventStepParasha(ctx, b, last);
      ConsolationOfHighest(last, ParashaViewOf(b).consolation);
      var k := LastIndex(init, NamesAnyConsolation);
      if k >= 0 {
        assert evs[k] == init[k];
      }
    }
  }

  /** The rule loop over all events: each haftarah flag is set exactly when
      some event sets it; Ki Teitzei appends the third consolation only on
      15 Av of the month the rule reads. */
  lemma {:induction false} FoldHaftarahFlags(ctx: EventContext, a: Acc, evs: seq<string>)
    ensures var v, w := ParashaViewOf(a), ParashaViewOf(FoldEvents(ctx, a, evs));
      && w.shabbatHagadol == (v.shabbatHagadol || SomeEvent(evs, IsHaGadol))
      && w.chazon == (v.chazon || SomeEvent(evs, IsChazon))
      && w.nachamu == (v.nachamu || SomeEvent(evs, IsNachamu))
      && w.consolation3AppendedTo5
         == (v.consolation3AppendedTo5 || (SomeEvent(evs, MentionsKiTeitzei) && ctx.month == "Av" && ctx.day == 15))
    decreases |evs|
  {
    if evs != [] {
      var init, last := evs[..|evs| - 1], evs[|evs| - 1];
      FoldHaftarahFlags(ctx, a, init);
      EventStepParasha(ctx, FoldEvents(ctx, a, init), last);
      SomeEventSplit(evs, IsHaGadol);
      SomeEventSplit(evs, IsChazon);
      SomeEventSplit(evs, IsNachamu);
      SomeEventSplit(evs, MentionsKiTeitzei);
    }
  }

  /** The rule loop over all events: each flag calling for a named leyner
      is set exactly when some event sets it. */
  lemma {:induction false} FoldAliyahFlags(ctx: EventContext, a: Acc, evs: seq<string>)
    ensures var v, w := ParashaViewOf(a), ParashaViewOf(FoldEvents(ctx, a, evs));
      && w.shabbatShira == (v.shabbatShira || SomeEvent(evs, IsShira))
      && w.vaetchanan == (v.vaetchanan || SomeEvent(evs, MentionsVaetchanan))
      && w.yitro == (v.yitro || SomeEvent(evs, MentionsYitro))
      && w.lastParasha == (v.lastParasha || SomeEvent(evs, IsLastParashaEvent))
    decreases |evs|
  {
    if evs != [] {
      var init, last := evs[..|evs| - 1], evs[|evs| - 1];
      FoldAliyahFlags(ctx, a, init);
      EventStepParasha(ctx, FoldEvents(ctx, a, init), last);
      SomeEventSplit(evs, IsShira);
      SomeEventSplit(evs, MentionsVaetchanan);
      SomeEventSplit(evs, MentionsYitro);
      SomeEventSplit(evs, IsLastParashaEvent);
    }
  }

  lemma {:induction false} FoldNotes(ctx: EventContext, a: Acc, evs: seq<string>)
    ensures FoldEvents(ctx, a, evs).special.notes == a.special.notes + NotesOf(evs)
    decreases |evs|
  {
    if evs != [] {
      var init, last := evs[..|evs| - 1], evs[|evs| - 1];
      FoldNotes(ctx, a, init);
      EventStepNotes(ctx, FoldEvents(ctx, a, init), last);
      Concat3(a.special.notes, NotesOf(init), EventNotes(last));
    }
  }

  lemma {:induction false} FoldFields(ctx: EventContext, a: Acc, evs: seq<string>)
    ensures GrewBy(a.fields, FoldEvents(ctx, a, evs).fields)
    ensures LastHanukkahDay(evs).Some? ==> forall f :: f in HanukkahFieldNames ==> f in FoldEvents(ctx, a, evs).fields
    decreases |evs|
  {
    if evs != [] {
      var init, last := evs[..|evs| - 1], evs[|evs| - 1];
      var b := FoldEvents(ctx, a, init);
      FoldFields(ctx, a, init);
      EventStepFields(ctx, b, last);
      GrewByTrans(a.fields, b.fields, EventStep(ctx, b, last).fields);
      if LastHanukkahDay(evs).Some? && HanukkahDay(last).None? {
        forall f | f in HanukkahFieldNames
          ensures f in EventStep(ctx, b, last).fields
        {
          PrefixKeeps(b.fields, EventStep(ctx, b, last).fields, f);
        }
      }
    }
  }

  // ---------------------------------------------------------------------------
  // The whole call

  /** The month the rules read as `month`: the announced month when the
      look-ahead found a Rosh Chodesh, else the Shabbat's own month. */
  function LookaheadMonth(s: Special, today: HebrewDate): string {
    match s.newMonth.mevarchim
    case Some(mv) => mv.month
    case None => today.month
  }

  /** The month the ulchaparat test reads: as written, the announced month
      after "Adar I"/"Adar II" are renamed; as intended, the month as the
      calendar spells it. */
  function UlchaparatMonthRead(r: Reading, input: ClassifierInput, s: Special): string {
    match r
    case AsWritten => LookaheadMonth(s, input.today)
    case Intended =>
      if s.newMonth.mevarchim.Some? && LastRoshChodeshOver(input.coming).Some? then LastRoshChodeshOver(input.coming).value
      else input.today.month
  }

  /** The month the rebuke rules read: as written, the announced month; as
      intended, the Shabbat's own month. */
  function RebukeMonthRead(r: Reading, input: ClassifierInput, s: Special): string {
    match r
    case AsWritten => LookaheadMonth(s, input.today)
    case Intended => input.today.month
  }

  /** The Av HaRachamim decision before the event rules: the announced
      month decides when there is one, else the fixed table of dates. */
  predicate AvHaRachamimOmittedByDate(s: Special, today: HebrewDate) {
    match s.newMonth.mevarchim
    case Some(mv) => mv.month !in {"Iyyar", "Sivan"}
    case None => NoAvHaRachamimDate(today.month, today.day)
  }

  /** What the look-ahead leaves for the rest of the call, per
      `ScanFromEffect`: the month is the Shabbat's own when nothing was
      collected, else the month of the last Rosh Chodesh of the window. */
  predicate ScanAgrees(input: ClassifierInput, sc: Scan) {
    && (sc.days == [] ==> sc.month == input.today.month)
    && (sc.days != [] ==> LastRoshChodeshOver(input.coming) == Some(sc.month))
  }

  lemma ScanAgreesFromStart(input: ClassifierInput)
    ensures ScanFrom(input, ScanStart(input), 0).Ok? ==> ScanAgrees(input, ScanFrom(input, ScanStart(input), 0).value)
  {
    ScanFromEffect(input, ScanStart(input), 0);
    assert input.coming[0..] == input.coming;
  }

  lemma ReadInputKeeps(r: Reading, input: ClassifierInput)
    ensures ReadInput(r, input).today == input.today
    ensures ReadInput(r, input).events == input.events
    ensures ReadInput(r, input).coming == input.coming
  {
  }

  /** The call is the look-ahead followed by `Conclude`. */
  lemma ClassifyIsConclude(r: Reading, input: ClassifierInput, fields: seq<string>)
    ensures var inp := ReadInput(r, input);
      var sc := ScanFrom(inp, ScanStart(inp), 0);
      ClassifyWith(r, input, fields) == if sc.Err? then Err(sc.error) else Ok(Conclude(r, inp, sc.value, fields))
  {
  }

  /** The event loop's context and starting state inside `Conclude`. */
  function ConcludeContext(r: Reading, input: ClassifierInput, sc: Scan, fields: seq<string>): EventContext {
    ContextFor(r, input, sc, AfterLookahead(Windows(input.today), sc, fields).2)
  }

  function ConcludeStart(input: ClassifierInput, sc: Scan, fields: seq<string>): Acc {
    var la := AfterLookahead(Windows(input.today), sc, fields);
    Acc(la.0, la.1)
  }

  lemma ConcludeIsFold(r: Reading, input: ClassifierInput, sc: Scan, fields: seq<string>)
    ensures var b := FoldEvents(ConcludeContext(r, input, sc, fields), ConcludeStart(input, sc, fields), input.events);
      && Conclude(r, input, sc, fields).special == b.special
      && Conclude(r, input, sc, fields).fields == PostPass(b).fields
  {
  }

  /** The record the rule loop starts from. */
  lemma StartView(input: ClassifierInput, sc: Scan, fields: seq<string>)
    ensures var v := ViewOf(ConcludeStart(input, sc, fields));
      && v.psalm27 == Psalm27Season(input.today.month, input.today.day)
      && v.mevarchim == (if sc.days != [] then Some(Mevarchim(RenameAdar(sc.month), sc.days)) else None)
      && v.machar == sc.machar
      && v.omit == (if sc.days != [] then RenameAdar(sc.month) !in {"Iyyar", "Sivan"}
                    else NoAvHaRachamimDate(input.today.month, input.today.day))
      && !v.roshChodesh && !v.ulchaparat
      && v.hanukkah == None && v.rebuke == None && v.shuva == None && v.notes == []
  {
  }

  /** The months the rules read, in terms of the starting record. */
  lemma ContextMonths(r: Reading, input: ClassifierInput, sc: Scan, fields: seq<string>)
    requires ScanAgrees(input, sc)
    ensures var ctx, m := ConcludeContext(r, input, sc, fields), ViewOf(ConcludeStart(input, sc, fields)).mevarchim;
      && ctx.month == (if m.Some? then m.value.month else input.today.month)
      && ctx.rebukeMonth == (if r == AsWritten then ctx.month else input.today.month)
      && ctx.ulchaparatMonth
         == (if r == AsWritten then ctx.month
             else if m.Some? && LastRoshChodeshOver(input.coming).Some? then LastRoshChodeshOver(input.coming).value
             else input.today.month)
      && ctx.day == input.today.day && ctx.year == input.today.year
  {
    StartView(input, sc, fields);
  }

  lemma {:induction false} ConcludeNewMonth(r: Reading, input: ClassifierInput, sc: Scan, fields: seq<string>)
    requires ScanAgrees(input, sc)
    ensures var s := Conclude(r, input, sc, fields).special;
      var rc := SomeEvent(input.events, MentionsRoshChodesh);
      && s.psalm27 == Psalm27Season(input.today.month, input.today.day)
      && s.newMonth.mevarchim == (if sc.days != [] then Some(Mevarchim(RenameAdar(sc.month), sc.days)) else None)
      && s.newMonth.macharChodesh == sc.machar
      && s.newMonth.roshChodesh == rc
      && s.newMonth.ulchaparatPasha == (rc && LeapYearMonth(input.today.year, UlchaparatMonthRead(r, input, s)))
      && s.omitAvHarachamim == (AvHaRachamimOmittedByDate(s, input.today) || SomeEvent(input.events, ForcesOmit))
  {
    var ctx, a0 := ConcludeContext(r, input, sc, fields), ConcludeStart(input, sc, fields);
    var b := FoldEvents(ctx, a0, input.events);
    ConcludeIsFold(r, input, sc, fields);
    StartView(input, sc, fields);
    ContextMonths(r, input, sc, fields);
    FoldFlags(ctx, a0, input.events);
    assert Conclude(r, input, sc, fields).special == b.special;
  }

  lemma {:induction false} ConcludeHaftarot(r: Reading, input: ClassifierInput, sc: Scan, fields: seq<string>)
    requires ScanAgrees(input, sc)
    ensures var s := Conclude(r, input, sc, fields).special;
      && s.haftarot.hanukkah == LastHanukkahDay(input.events)
      && s.haftarot.rebuke
           == (if input.events == [] then None else RebukeOf(RebukeMonthRead(r, input, s), input.today.day, None))
      && s.haftarot.shuva
           == (if "Shabbat Shuva" in input.events && LookaheadMonth(s, input.today) == "Tishrei"
                  && 1 <= input.today.day <= 10 then Some("Shabbat Shuva") else None)
  {
    var ctx, a0 := ConcludeContext(r, input, sc, fields), ConcludeStart(input, sc, fields);
    var b := FoldEvents(ctx, a0, input.events);
    ConcludeIsFold(r, input, sc, fields);
    StartView(input, sc, fields);
    ContextMonths(r, input, sc, fields);
    FoldFlags(ctx, a0, input.events);
    FoldHanukkah(ctx, a0, input.events);
    FoldRebuke(ctx, a0, input.events);
    FoldShuva(ctx, a0, input.events);
    assert Conclude(r, input, sc, fields).special == b.special;
  }

  /** No key about the parasha is set before the rule loop. */
  lemma StartParashaView(input: ClassifierInput, sc: Scan, fields: seq<string>)
    ensures ParashaViewOf(ConcludeStart(input, sc, fields))
         == ParashaView(None, false, None, false, false, false, None, false, false, false, false)
  {
  }

  /** The haftarah keys about the parasha, after the loop: the last
      four-parshiyot event; HaGadol, Chazon and Nachamu when some event is
      one; the consolation number of the last event naming a consolation
      parasha; and the third consolation appended to the fifth when some
      event names Ki Teitzei and the month the rules read is Av on the 15th. */
  lemma {:induction false} ConcludeParashaHaftarot(r: Reading, input: ClassifierInput, sc: Scan, fields: seq<string>)
    requires ScanAgrees(input, sc)
    ensures var s, evs := Conclude(r, input, sc, fields).special, input.events;
      var h, kf, kc := s.haftarot, LastIndex(evs, IsFourParshiyot), LastIndex(evs, NamesAnyConsolation);
      && h.fourParshiyot == (if kf >= 0 then Some(evs[kf]) else None)
      && h.shabbatHagadol == SomeEvent(evs, IsHaGadol)
      && h.chazon == SomeEvent(evs, IsChazon)
      && h.nachamu == SomeEvent(evs, IsNachamu)
      && (kc >= 0 ==> h.consolation.Some? && HighestNamed(evs[kc], h.consolation.value))
      && (kc < 0 ==> h.consolation.None?)
      && h.consolation3AppendedTo5
         == (SomeEvent(evs, MentionsKiTeitzei) && LookaheadMonth(s, input.today) == "Av" && input.today.day == 15)
  {
    var ctx, a0 := ConcludeContext(r, input, sc, fields), ConcludeStart(input, sc, fields);
    var b := FoldEvents(ctx, a0, input.events);
    ConcludeIsFold(r, input, sc, fields);
    StartView(input, sc, fields);
    StartParashaView(input, sc, fields);
    ContextMonths(r, input, sc, fields);
    FoldFlags(ctx, a0, input.events);
    FoldFourParshiyot(ctx, a0, input.events);
    FoldConsolation(ctx, a0, input.events);
    FoldHaftarahFlags(ctx, a0, input.events);
    assert Conclude(r, input, sc, fields).special == b.special;
  }

  /** The keys calling for a named leyner, and the omer text, after the
      loop: each flag holds exactly when some event sets it, and the omer
      text is the last event that mentions the Omer. */
  lemma {:induction false} ConcludeAliyot(r: Reading, input: ClassifierInput, sc: Scan, fields: seq<string>)
    ensures var s, evs := Conclude(r, input, sc, fields).special, input.events;
      var k := LastIndex(evs, MentionsOmer);
      && s.omer == (if k >= 0 then Some(evs[k]) else None)
      && s.aliyot.shabbatShira == SomeEvent(evs, IsShira)
      && s.aliyot.vaetchanan == SomeEvent(evs, MentionsVaetchanan)
      && s.aliyot.yitro == SomeEvent(evs, MentionsYitro)
      && s.aliyot.lastParasha == SomeEvent(evs, IsLastParashaEvent)
  {
    var ctx, a0 := ConcludeContext(r, input, sc, fields), ConcludeStart(input, sc, fields);
    var b := FoldEvents(ctx, a0, input.events);
    ConcludeIsFold(r, input, sc, fields);
    StartParashaView(input, sc, fields);
    FoldOmer(ctx, a0, input.events);
    FoldAliyahFlags(ctx, a0, input.events);
    assert Conclude(r, input, sc, fields).special == b.special;
  }

  /** FIELDS before the rule loop: the birkat names are added with an
      announcement. */
  lemma StartFields(input: ClassifierInput, sc: Scan, fields: seq<string>)
    ensures var a0 := ConcludeStart(input, sc, fields);
      && GrewBy(fields, a0.fields)
      && (a0.special.newMonth.mevarchim.Some? ==> forall f :: f in BirkatFieldNames ==> f in a0.fields)
  {
  }

  /** The pass after the rule loop appends "parasha_sixth_and_seventh" when
      Rosh Chodesh coincides with one of the four parshiyot or Hanukkah, and
      then "notes" when there are notes. */
  lemma PostPassFields(b: Acc)
    ensures PostPass(b).special == b.special
    ensures var s := b.special;
      PostPass(b).fields
        == b.fields
           + (if s.newMonth.roshChodesh && (Truthy(s.haftarot.fourParshiyot) || TruthyInt(s.haftarot.hanukkah))
              then ["parasha_sixth_and_seventh"] else [])
           + (if s.notes != [] then ["notes"] else [])
  {
  }

  /** The condition for "parasha_sixth_and_seventh" after the loop, read
      off the events. A four-parshiyot name is never empty, so it holds
      whenever some event is one of them. */
  lemma {:induction false} ConcludeSixthAndSeventh(r: Reading, input: ClassifierInput, sc: Scan, fields: seq<string>)
    ensures var s, evs := Conclude(r, input, sc, fields).special, input.events;
      (s.newMonth.roshChodesh && (Truthy(s.haftarot.fourParshiyot) || TruthyInt(s.haftarot.hanukkah)))
      <==> SomeEvent(evs, MentionsRoshChodesh) && (SomeEvent(evs, IsFourParshiyot) || TruthyInt(LastHanukkahDay(evs)))
  {
    var ctx, a0 := ConcludeContext(r, input, sc, fields), ConcludeStart(input, sc, fields);
    var b := FoldEvents(ctx, a0, input.events);
    ConcludeIsFold(r, input, sc, fields);
    StartView(input, sc, fields);
    StartParashaView(input, sc, fields);
    FoldFlags(ctx, a0, input.events);
    FoldHanukkah(ctx, a0, input.events);
    FoldFourParshiyot(ctx, a0, input.events);
    assert Conclude(r, input, sc, fields).special == b.special;
    var evs, kf := input.events, LastIndex(input.events, IsFourParshiyot);
    assert b.special.newMonth.roshChodesh == SomeEvent(evs, MentionsRoshChodesh);
    assert b.special.haftarot.hanukkah == LastHanukkahDay(evs);
    assert b.special.haftarot.fourParshiyot == if kf >= 0 then Some(evs[kf]) else None;
    SixthAndSeventhCondition(b.special, evs);
  }

  /** With the three keys as the events set them, the condition reads off
      the events. */
  lemma SixthAndSeventhCondition(s: Special, evs: seq<string>)
    requires s.newMonth.roshChodesh == SomeEvent(evs, MentionsRoshChodesh)
    requires s.haftarot.hanukkah == LastHanukkahDay(evs)
    requires var kf := LastIndex(evs, IsFourParshiyot);
      s.haftarot.fourParshiyot == if kf >= 0 then Some(evs[kf]) else None
    ensures (s.newMonth.roshChodesh && (Truthy(s.haftarot.fourParshiyot) || TruthyInt(s.haftarot.hanukkah)))
      <==> SomeEvent(evs, MentionsRoshChodesh) && (SomeEvent(evs, IsFourParshiyot) || TruthyInt(LastHanukkahDay(evs)))
  {
    LastIndexFound(evs, IsFourParshiyot);
  }

  /** The names appended to FIELDS by the end of the call are all names the
      classifier adds; among them "parasha_sixth_and_seventh" exactly when
      Rosh Chodesh coincides with one of the four parshiyot or a Hanukkah
      day, and "notes" exactly when there are notes. */
  lemma {:induction false} ConcludePostPass(r: Reading, input: ClassifierInput, sc: Scan, fields: seq<string>)
    ensures var c := Conclude(r, input, sc, fields);
      var s, g := c.special, c.fields;
      && GrewWithin(fields, g)
      && ("parasha_sixth_and_seventh" in g[|fields|..]
          <==> s.newMonth.roshChodesh && (Truthy(s.haftarot.fourParshiyot) || TruthyInt(s.haftarot.hanukkah)))
      && ("notes" in g[|fields|..] <==> s.notes != [])
  {
    var ctx, a0 := ConcludeContext(r, input, sc, fields), ConcludeStart(input, sc, fields);
    var b := FoldEvents(ctx, a0, input.events);
    ConcludeIsFold(r, input, sc, fields);
    StartFields(input, sc, fields);
    FoldFields(ctx, a0, input.events);
    GrewByTrans(fields, a0.fields, b.fields);
    PostPassAppended(fields, b);
  }

  /** Once the rules have grown `f` into `b.fields`, the two names only the
      pass after the loop adds are among the names appended to `f` exactly
      when that pass adds them. */
  lemma {:induction false} PostPassAppended(f: seq<string>, b: Acc)
    requires GrewBy(f, b.fields)
    ensures var s, g := b.special, PostPass(b).fields;
      && GrewWithin(f, g)
      && ("parasha_sixth_and_seventh" in g[|f|..]
          <==> s.newMonth.roshChodesh && (Truthy(s.haftarot.fourParshiyot) || TruthyInt(s.haftarot.hanukkah)))
      && ("notes" in g[|f|..] <==> s.notes != [])
  {
    var s, g := b.special, PostPass(b).fields;
    var post := (if s.newMonth.roshChodesh && (Truthy(s.haftarot.fourParshiyot) || TruthyInt(s.haftarot.hanukkah))
                 then ["parasha_sixth_and_seventh"] else [])
                + (if s.notes != [] then ["notes"] else []);
    PostPassFields(b);
    assert g == b.fields + post;
    assert g[|f|..] == b.fields[|f|..] + post;
    forall t | 0 <= t < |b.fields| - |f|
      ensures b.fields[|f|..][t] in RuleFieldNames
    {
      assert b.fields[|f|..][t] == b.fields[|f| + t];
    }
    assert "parasha_sixth_and_seventh" !in b.fields[|f|..];
    assert "notes" !in b.fields[|f|..];
    forall t | |f| <= t < |g|
      ensures g[t] in AddedFieldNames
    {
      if t < |b.fields| {
        assert g[t] == b.fields[t];
      } else {
        assert g[t] == post[t - |b.fields|];
      }
    }
  }

  lemma {:induction false} ConcludeNotesAndFields(r: Reading, input: ClassifierInput, sc: Scan, fields: seq<string>)
    ensures var c := Conclude(r, input, sc, fields);
      var s, g := c.special, c.fields;
      && s.notes == NotesOf(input.events)
      && fields <= g
      && (LastHanukkahDay(input.events).Some? ==> forall f :: f in HanukkahFieldNames ==> f in g)
      && (s.newMonth.mevarchim.Some? ==> forall f :: f in BirkatFieldNames ==> f in g)
      && (s.notes != [] ==> |g| > 0 && g[|g| - 1] == "notes")
  {
    var ctx, a0 := ConcludeContext(r, input, sc, fields), ConcludeStart(input, sc, fields);
    var b := FoldEvents(ctx, a0, input.events);
    var g := PostPass(b).fields;
    ConcludeIsFold(r, input, sc, fields);
    StartView(input, sc, fields);
    StartFields(input, sc, fields);
    PostPassFields(b);
    FoldFlags(ctx, a0, input.events);
    FoldNotes(ctx, a0, input.events);
    FoldFields(ctx, a0, input.events);
    GrewByTrans(fields, a0.fields, b.fields);
    if a0.special.newMonth.mevarchim.Some? {
      forall f | f in BirkatFieldNames
        ensures f in g
      {
        PrefixKeeps(a0.fields, g, f);
      }
    }
    if LastHanukkahDay(input.events).Some? {
      forall f | f in HanukkahFieldNames
        ensures f in g
      {
        PrefixKeeps(b.fields, g, f);
      }
    }
    assert Conclude(r, input, sc, fields).special == b.special;
    assert Conclude(r, input, sc, fields).fields == g;
  }

  /** The look-ahead over a standard window: the call fails exactly when
      tomorrow names a Rosh Chodesh and is not a Sunday; otherwise the
      record announces a month exactly when one of the seven days after the
      Shabbat names a Rosh Chodesh, and says Machar Chodesh exactly when
      tomorrow does. */
  lemma {:induction false} ClassifyLookahead(r: Reading, input: ClassifierInput, fields: seq<string>)
    requires StandardWindow(input) && (r == Intended || !input.dateHasTime)
    ensures var c := ClassifyWith(r, input, fields);
      && (c.Err? <==> HasRoshChodesh(input.coming[0].events) && input.coming[0].weekday != 6)
      && (c.Ok? ==> (c.value.special.newMonth.mevarchim.Some? <==> RoshChodeshWithin(input.coming, 0, 7)))
      && (c.Ok? ==> (c.value.special.newMonth.macharChodesh <==> HasRoshChodesh(input.coming[0].events)))
  {
    var inp := ReadInput(r, input);
    ReadInputKeeps(r, input);
    ClassifyIsConclude(r, input, fields);
    ScanWindow(inp);
    ScanAgreesFromStart(inp);
    var sc := ScanFrom(inp, ScanStart(inp), 0);
    if sc.Ok? {
      ConcludeNewMonth(r, inp, sc.value, fields);
    }
  }

  /** The only failure is the look-ahead's Sunday assertion; the announced
      month is the month of the last Rosh Chodesh of the window, renamed,
      so never "Adar I" or "Adar II", and at least one day is announced. */
  lemma {:induction false} MevarchimMonth(r: Reading, input: ClassifierInput, fields: seq<string>)
    ensures var c := ClassifyWith(r, input, fields);
      && (c.Err? ==> c.error == AssertionFailed("weekday == 6"))
      && (c.Ok? && c.value.special.newMonth.mevarchim.Some? ==>
            var mv := c.value.special.newMonth.mevarchim.value;
            && LastRoshChodeshOver(input.coming).Some?
            && mv.month == RenameAdar(LastRoshChodeshOver(input.coming).value)
            && mv.month != "Adar I" && mv.month != "Adar II"
            && mv.days != [])
  {
    var inp := ReadInput(r, input);
    ReadInputKeeps(r, input);
    ClassifyIsConclude(r, input, fields);
    ScanFromEffect(inp, ScanStart(inp), 0);
    ScanAgreesFromStart(inp);
    var sc := ScanFrom(inp, ScanStart(inp), 0);
    if sc.Ok? {
      ConcludeNewMonth(r, inp, sc.value, fields);
    }
  }

  /** Psalm 27, Rosh Chodesh, ulchaparat pasha and Av HaRachamim after the
      call: each is set by the date or by some event, and nothing else. */
  lemma {:induction false} ClassifyNewMonth(r: Reading, input: ClassifierInput, fields: seq<string>)
    ensures var c := ClassifyWith(r, input, fields);
      c.Ok? ==>
        var s := c.value.special;
        var rc := SomeEvent(input.events, MentionsRoshChodesh);
        && s.psalm27 == Psalm27Season(input.today.month, input.today.day)
        && s.newMonth.roshChodesh == rc
        && s.newMonth.ulchaparatPasha == (rc && LeapYearMonth(input.today.year, UlchaparatMonthRead(r, input, s)))
        && s.omitAvHarachamim == (AvHaRachamimOmittedByDate(s, input.today) || SomeEvent(input.events, ForcesOmit))
  {
    var inp := ReadInput(r, input);
    ReadInputKeeps(r, input);
    ClassifyIsConclude(r, input, fields);
    ScanAgreesFromStart(inp);
    var sc := ScanFrom(inp, ScanStart(inp), 0);
    if sc.Ok? {
      ConcludeNewMonth(r, inp, sc.value, fields);
    }
  }

  /** The haftarah keys after the call:
      - the Hanukkah day of the last Hanukkah event;
      - the rebuke decided by the date once there is any event;
      - Shuva only as the event "Shabbat Shuva" in the first ten days of
        Tishrei, so never any other value;
      - the four-parshiyot name of the last such event;
      - HaGadol, Chazon and Nachamu exactly when some event is one;
      - the consolation number of the highest parasha named by the last
        event that names any of Eikev to Nitzavim;
      - the third consolation appended to the fifth exactly when some
        event names Ki Teitzei and the month the rules read (the announced
        month, when there is one) is Av on the 15th. */
  lemma {:induction false} ClassifyHaftarot(r: Reading, input: ClassifierInput, fields: seq<string>)
    ensures var c := ClassifyWith(r, input, fields);
      c.Ok? ==>
        var s, evs := c.value.special, input.events;
        var h, kf, kc := s.haftarot, LastIndex(evs, IsFourParshiyot), LastIndex(evs, NamesAnyConsolation);
        && h.hanukkah == LastHanukkahDay(evs)
        && h.rebuke == (if evs == [] then None else RebukeOf(RebukeMonthRead(r, input, s), input.today.day, None))
        && h.shuva
             == (if "Shabbat Shuva" in evs && LookaheadMonth(s, input.today) == "Tishrei"
                    && 1 <= input.today.day <= 10 then Some("Shabbat Shuva") else None)
        && h.fourParshiyot == (if kf >= 0 then Some(evs[kf]) else None)
        && h.shabbatHagadol == SomeEvent(evs, IsHaGadol)
        && h.chazon == SomeEvent(evs, IsChazon)
        && h.nachamu == SomeEvent(evs, IsNachamu)
        && (kc >= 0 ==> h.consolation.Some? && HighestNamed(evs[kc], h.consolation.value))
        && (kc < 0 ==> h.consolation.None?)
        && h.consolation3AppendedTo5
           == (SomeEvent(evs, MentionsKiTeitzei) && LookaheadMonth(s, input.today) == "Av" && input.today.day == 15)
  {
    var inp := ReadInput(r, input);
    ReadInputKeeps(r, input);
    ClassifyIsConclude(r, input, fields);
    ScanAgreesFromStart(inp);
    var sc := ScanFrom(inp, ScanStart(inp), 0);
    if sc.Ok? {
      ConcludeHaftarot(r, inp, sc.value, fields);
      ConcludeParashaHaftarot(r, inp, sc.value, fields);
    }
  }

  /** The keys calling for a named leyner, and the omer text, after the
      call: Shabbat Shira, Vaetchanan, Yitro and the last parasha of a book
      each hold exactly when some event sets them, and the omer text is the
      last event that mentions the Omer. */
  lemma {:induction false} ClassifyAliyot(r: Reading, input: ClassifierInput, fields: seq<string>)
    ensures var c := ClassifyWith(r, input, fields);
      c.Ok? ==>
        var s, evs := c.value.special, input.events;
        var k := LastIndex(evs, MentionsOmer);
        && s.omer == (if k >= 0 then Some(evs[k]) else None)
        && s.aliyot.shabbatShira == SomeEvent(evs, IsShira)
        && s.aliyot.vaetchanan == SomeEvent(evs, MentionsVaetchanan)
        && s.aliyot.yitro == SomeEvent(evs, MentionsYitro)
        && s.aliyot.lastParasha == SomeEvent(evs, IsLastParashaEvent)
  {
    var inp := ReadInput(r, input);
    ReadInputKeeps(r, input);
    ClassifyIsConclude(r, input, fields);
    var sc := ScanFrom(inp, ScanStart(inp), 0);
    if sc.Ok? {
      ConcludeAliyot(r, inp, sc.value, fields);
    }
  }

  /** The notes and FIELDS after the call: the notes are each event's notes
      in order; FIELDS only grows, by names the classifier adds; it holds
      the maftir names after a Hanukkah event and the birkat names after
      an announcement, and ends with "notes" when there are notes. */
  lemma {:induction false} ClassifyNotesAndFields(r: Reading, input: ClassifierInput, fields: seq<string>)
    ensures var c := ClassifyWith(r, input, fields);
      c.Ok? ==>
        var s, g := c.value.special, c.value.fields;
        && s.notes == NotesOf(input.events)
        && GrewWithin(fields, g)
        && (LastHanukkahDay(input.events).Some? ==> forall f :: f in HanukkahFieldNames ==> f in g)
        && (s.newMonth.mevarchim.Some? ==> forall f :: f in BirkatFieldNames ==> f in g)
        && (s.notes != [] ==> |g| > 0 && g[|g| - 1] == "notes")
        && ("parasha_sixth_and_seventh" in g[|fields|..]
            <==> SomeEvent(input.events, MentionsRoshChodesh)
                 && (SomeEvent(input.events, IsFourParshiyot) || TruthyInt(LastHanukkahDay(input.events))))
        && ("notes" in g[|fields|..] <==> NotesOf(input.events) != [])
  {
    var inp := ReadInput(r, input);
    ReadInputKeeps(r, input);
    ClassifyIsConclude(r, input, fields);
    var sc := ScanFrom(inp, ScanStart(inp), 0);
    if sc.Ok? {
      ConcludeNotesAndFields(r, inp, sc.value, fields);
      ConcludePostPass(r, inp, sc.value, fields);
      ClassifySixthAndSeventh(r, input, fields);
    }
  }

  /** The condition for "parasha_sixth_and_seventh", read off the events:
      some event mentions Rosh Chodesh, and some event is one of the four
      parshiyot or the last Hanukkah event gives a nonzero day. */
  lemma {:induction false} ClassifySixthAndSeventh(r: Reading, input: ClassifierInput, fields: seq<string>)
    ensures var c := ClassifyWith(r, input, fields);
      c.Ok? ==>
        var s, evs := c.value.special, input.events;
        (s.newMonth.roshChodesh && (Truthy(s.haftarot.fourParshiyot) || TruthyInt(s.haftarot.hanukkah)))
        <==> SomeEvent(evs, MentionsRoshChodesh) && (SomeEvent(evs, IsFourParshiyot) || TruthyInt(LastHanukkahDay(evs)))
  {
    var inp := ReadInput(r, input);
    ReadInputKeeps(r, input);
    ClassifyIsConclude(r, input, fields);
    var sc := ScanFrom(inp, ScanStart(inp), 0);
    if sc.Ok? {
      ConcludeSixthAndSeventh(r, inp, sc.value, fields);
    }
  }
}
