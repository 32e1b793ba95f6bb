/** Three places where `get_special_shabbat` as written departs from what it
    evidently means, each shown on one Shabbat, and the corrected reading
    (`ClassifyIntended`) proved to behave as meant on all inputs. */
module Findings {
  import opened Common
  import opened Text
  import opened Classifier
  import opened ClassifierFacts

  // ---------------------------------------------------------------------------
  // The two searches on the event names the calendar service uses

  lemma LineEndNoNewline(s: string, i: nat)
    requires i <= |s| && '\n' !in s
    ensures LineEnd(s, i) == |s|
  {
  }

  /** The event "Rosh Chodesh <m>" names month `m`. */
  lemma RoshChodeshNamed(e: string, m: string)
    requires e == "Rosh Chodesh " + m && '\n' !in m
    ensures RoshChodeshMonth(e) == Some(m)
    ensures MentionsRoshChodesh(e)
  {
    assert e[0..13] == "Rosh Chodesh ";
    assert LowerAll(e[0..13]) == RoshChodeshPattern;
    assert '\n' !in e by {
      forall k | 0 <= k < |e|
        ensures e[k] != '\n'
      {
        if k >= 13 {
          assert e[k] == m[k - 13];
        }
      }
    }
    LineEndNoNewline(e, 13);
    assert e[13..|e|] == m;
    assert e[0..12] == "Rosh Chodesh";
  }

  /** A window whose only Rosh Chodesh event is the single event of day `k`. */
  predicate OnlyRoshChodesh(days: seq<UpcomingDay>, k: nat, m: string) {
    && k < |days|
    && |days[k].events| == 1 && RoshChodeshMonth(days[k].events[0]) == Some(m)
    && forall j :: 0 <= j < |days| && j != k ==> days[j].events == []
  }

  lemma {:induction false} OnlyRoshChodeshLast(days: seq<UpcomingDay>, k: nat, m: string)
    requires OnlyRoshChodesh(days, k, m)
    ensures LastRoshChodeshOver(days) == Some(m)
    decreases |days|
  {
    var init, last := days[..|days| - 1], days[|days| - 1];
    if k == |days| - 1 {
      assert last.events == [] + [last.events[0]];
      assert last.events[..0] == [];
    } else {
      assert last.events == [];
      assert OnlyRoshChodesh(init, k, m) by {
        forall j | 0 <= j < |init| && j != k
          ensures init[j].events == []
        {
          assert init[j] == days[j];
        }
      }
      OnlyRoshChodeshLast(init, k, m);
    }
  }

  lemma OnlyRoshChodeshWithin(days: seq<UpcomingDay>, k: nat, m: string, lo: nat, hi: nat)
    requires OnlyRoshChodesh(days, k, m) && lo <= hi <= |days|
    ensures RoshChodeshWithin(days, lo, hi) <==> lo <= k < hi
  {
    assert HasRoshChodesh(days[k].events) by {
      assert RoshChodeshMonth(days[k].events[0]).Some?;
    }
    if RoshChodeshWithin(days, lo, hi) {
      var j :| lo <= j < hi && HasRoshChodesh(days[j].events);
    }
  }

  // ---------------------------------------------------------------------------
  // The Shabbat as a `datetime`

  /** With a `datetime` Shabbat neither `upcoming_date == tomorrow` nor
      `upcoming_date == next_sunday` ever holds: the look-ahead cannot fail,
      never sets Machar Chodesh, and collects a day whenever any day of the
      window names a Rosh Chodesh, next Sunday included. */
  lemma {:induction false} ScanTimed(input: ClassifierInput, sc: Scan, i: nat)
    requires input.dateHasTime && i <= |input.coming|
    ensures ScanFrom(input, sc, i).Ok?
    ensures ScanFrom(input, sc, i).value.machar == sc.machar
    ensures ScanFrom(input, sc, i).value.days == [] <==> sc.days == [] && !RoshChodeshWithin(input.coming, i, |input.coming|)
    decreases |input.coming| - i
  {
    if i < |input.coming| {
      var d := input.coming[i];
      ScanEventsEffect(input, sc, d, 0);
      LastRoshChodeshFound(d.events);
      assert d.events[0..] == d.events;
      var sc' := ScanEvents(input, sc, d, 0).value;
      ScanTimed(input, sc', i + 1);
      if RoshChodeshWithin(input.coming, i, |input.coming|) {
        var k :| i <= k < |input.coming| && HasRoshChodesh(input.coming[k].events);
        if k != i {
          assert RoshChodeshWithin(input.coming, i + 1, |input.coming|);
        }
      }
      if HasRoshChodesh(d.events) {
        assert RoshChodeshWithin(input.coming, i, |input.coming|);
      }
      if RoshChodeshWithin(input.coming, i + 1, |input.coming|) {
        var k :| i + 1 <= k < |input.coming| && HasRoshChodesh(input.coming[k].events);
        assert RoshChodeshWithin(input.coming, i, |input.coming|);
      }
    }
  }

  /** As written, for a `datetime` Shabbat (the `--date` path): the call
      never fails, never says Machar Chodesh, and announces a month whenever
      any of the eight days names a Rosh Chodesh. */
  lemma TimedClassify(input: ClassifierInput, fields: seq<string>)
    requires input.dateHasTime
    ensures var c := Classify(input, fields);
      && c.Ok?
      && !c.value.special.newMonth.macharChodesh
      && (c.value.special.newMonth.mevarchim.Some? <==> RoshChodeshWithin(input.coming, 0, |input.coming|))
  {
    var inp := ReadInput(AsWritten, input);
    ClassifyIsConclude(AsWritten, input, fields);
    ScanTimed(inp, ScanStart(inp), 0);
    ScanAgreesFromStart(inp);
    ConcludeNewMonth(AsWritten, inp, ScanFrom(inp, ScanStart(inp), 0).value, fields);
  }

  /** The eight days after a Shabbat, Sunday first, whose only event is `e`
      on day `k`. */
  function Week(k: nat, e: string): seq<UpcomingDay>
    requires k < 8
  {
    seq(8, j requires 0 <= j < 8 => UpcomingDay(j + 1, (j + 6) % 7, if j == k then [e] else []))
  }

  lemma WeekFacts(k: nat, e: string, m: string)
    requires k < 8 && RoshChodeshMonth(e) == Some(m)
    ensures |Week(k, e)| == 8
    ensures forall j :: 0 <= j < 8 ==> Week(k, e)[j].offset == j + 1 && Week(k, e)[j].weekday == (j + 6) % 7
    ensures OnlyRoshChodesh(Week(k, e), k, m)
    ensures Week(k, e)[0].weekday == 6
  {
    assert (0 + 6) % 7 == 6;
  }

  /** 22 Iyyar 5786, as a `datetime`; its next Sunday is Rosh Chodesh Sivan. */
  const TimedInput := ClassifierInput(HebrewDate("Iyyar", 22, 5786), [], Week(7, "Rosh Chodesh Sivan"), true)

  lemma TimedInputWindow()
    ensures StandardWindow(TimedInput)
    ensures RoshChodeshWithin(TimedInput.coming, 0, 8)
    ensures !RoshChodeshWithin(TimedInput.coming, 0, 7)
  {
    RoshChodeshNamed("Rosh Chodesh Sivan", "Sivan");
    WeekFacts(7, "Rosh Chodesh Sivan", "Sivan");
    OnlyRoshChodeshWithin(TimedInput.coming, 7, "Sivan", 0, 8);
    OnlyRoshChodeshWithin(TimedInput.coming, 7, "Sivan", 0, 7);
  }

  /** As written, the `datetime` Shabbat a week before Shabbat Mevarchim
      already announces the month. */
  lemma TimedShabbatAnnouncesEarly()
    ensures Classify(TimedInput, []).Ok?
    ensures Classify(TimedInput, []).value.special.newMonth.mevarchim.Some?
  {
    TimedInputWindow();
    TimedClassify(TimedInput, []);
  }

  /** Compared as a `date`, the same Shabbat announces nothing. */
  lemma TimedShabbatIntended()
    ensures ClassifyIntended(TimedInput, []).Ok?
    ensures ClassifyIntended(TimedInput, []).value.special.newMonth.mevarchim.None?
  {
    TimedInputWindow();
    ClassifyLookahead(Intended, TimedInput, []);
  }

  // ---------------------------------------------------------------------------
  // The rebuke haftarot read the announced month

  /** As written, a Shabbat from 19 Tamuz on whose window announces Rosh
      Chodesh Av gets no rebuke haftarah: the rule reads "Av" with the
      Shabbat's day. */
  lemma {:induction false} RebukeLostBeforeAv(input: ClassifierInput, fields: seq<string>)
    requires StandardWindow(input) && !input.dateHasTime && input.events != []
    requires !HasRoshChodesh(input.coming[0].events) && RoshChodeshWithin(input.coming, 0, 7)
    requires LastRoshChodeshOver(input.coming) == Some("Av")
    requires input.today.month == "Tamuz" && input.today.day >= 19
    ensures Classify(input, fields).Ok?
    ensures Classify(input, fields).value.special.haftarot.rebuke == None
  {
    ClassifyLookahead(AsWritten, input, fields);
    MevarchimMonth(AsWritten, input, fields);
    ClassifyHaftarot(AsWritten, input, fields);
  }

  /** The corrected reading decides the rebuke by the Shabbat's own date on
      every input. */
  lemma IntendedRebukeByDate(input: ClassifierInput, fields: seq<string>)
    requires input.events != []
    ensures var c := ClassifyIntended(input, fields);
      c.Ok? ==> c.value.special.haftarot.rebuke == RebukeOf(input.today.month, input.today.day, None)
  {
    ClassifyHaftarot(Intended, input, fields);
  }

  /** 28 Tamuz 5784 (Matot-Masei); Rosh Chodesh Av is the Monday after. */
  const MatotMasei := ClassifierInput(HebrewDate("Tamuz", 28, 5784), ["Parashat Matot-Masei"], Week(1, "Rosh Chodesh Av"), false)

  lemma MatotMaseiWindow()
    ensures StandardWindow(MatotMasei)
    ensures !HasRoshChodesh(MatotMasei.coming[0].events)
    ensures RoshChodeshWithin(MatotMasei.coming, 0, 7)
    ensures LastRoshChodeshOver(MatotMasei.coming) == Some("Av")
  {
    RoshChodeshNamed("Rosh Chodesh Av", "Av");
    WeekFacts(1, "Rosh Chodesh Av", "Av");
    OnlyRoshChodeshWithin(MatotMasei.coming, 1, "Av", 0, 7);
    OnlyRoshChodeshWithin(MatotMasei.coming, 1, "Av", 0, 1);
    OnlyRoshChodeshLast(MatotMasei.coming, 1, "Av");
  }

  /** As written, Matot-Masei before Rosh Chodesh Av gets no rebuke haftarah. */
  lemma MatotMaseiAsWritten()
    ensures Classify(MatotMasei, []).Ok?
    ensures Classify(MatotMasei, []).value.special.haftarot.rebuke == None
  {
    MatotMaseiWindow();
    RebukeLostBeforeAv(MatotMasei, []);
  }

  /** Read with the Shabbat's own month, it gets the second one. */
  lemma MatotMaseiIntended()
    ensures ClassifyIntended(MatotMasei, []).Ok?
    ensures ClassifyIntended(MatotMasei, []).value.special.haftarot.rebuke == Some(2)
  {
    MatotMaseiWindow();
    ClassifyLookahead(Intended, MatotMasei, []);
    IntendedRebukeByDate(MatotMasei, []);
  }

  // ---------------------------------------------------------------------------
  // Ulchaparat pasha reads the renamed month
  //
  // The rename reaches the ulchaparat test only when the Shabbat is itself
  // Rosh Chodesh and the look-ahead also finds one, that is on 30 Sh'vat or
  // 30 Adar I of a leap year. The fixed Hebrew calendar never puts either
  // date on a Saturday, so this path is latent: it shows only on calendar
  // answers the service does not give for a real date.

  /** The names the look-ahead gives the two Adars are not in the list the
      ulchaparat test reads. */
  lemma RenamedAdarNotListed()
    ensures RenameAdar("Adar I") == "Adar Rishon" && RenameAdar("Adar II") == "Adar Sheni"
    ensures "Adar Rishon" !in UlchaparatMonths && "Adar Sheni" !in UlchaparatMonths
  {
  }

  /** As written, a Shabbat on the first day of Rosh Chodesh Adar I (the
      second day being the Sunday after) never gets ulchaparat pasha: the
      test reads "Adar Rishon", which is not in its list. */
  lemma {:induction false} UlchaparatLostOnAdarI(input: ClassifierInput, fields: seq<string>)
    requires StandardWindow(input) && !input.dateHasTime
    requires HasRoshChodesh(input.coming[0].events) && input.coming[0].weekday == 6
    requires LastRoshChodeshOver(input.coming) == Some("Adar I")
    requires SomeEvent(input.events, MentionsRoshChodesh)
    ensures Classify(input, fields).Ok?
    ensures Classify(input, fields).value.special.newMonth.roshChodesh
    ensures !Classify(input, fields).value.special.newMonth.ulchaparatPasha
  {
    assert RoshChodeshWithin(input.coming, 0, 7);
    ClassifyLookahead(AsWritten, input, fields);
    MevarchimMonth(AsWritten, input, fields);
    ClassifyNewMonth(AsWritten, input, fields);
    RenamedAdarNotListed();
    var s := Classify(input, fields).value.special;
    assert UlchaparatMonthRead(AsWritten, input, s) == "Adar Rishon";
  }

  /** The corrected reading on the same Shabbatot, in a leap year: it says
      ulchaparat pasha. */
  lemma {:induction false} UlchaparatKeptOnAdarI(input: ClassifierInput, fields: seq<string>)
    requires StandardWindow(input)
    requires HasRoshChodesh(input.coming[0].events) && input.coming[0].weekday == 6
    requires LastRoshChodeshOver(input.coming) == Some("Adar I")
    requires SomeEvent(input.events, MentionsRoshChodesh)
    requires input.today.year % 19 in LeapResidues && "Adar I" in UlchaparatMonths
    ensures ClassifyIntended(input, fields).Ok?
    ensures ClassifyIntended(input, fields).value.special.newMonth.ulchaparatPasha
  {
    assert RoshChodeshWithin(input.coming, 0, 7);
    ClassifyLookahead(Intended, input, fields);
    ClassifyNewMonth(Intended, input, fields);
    IntendedUlchaparat(input, fields);
  }

  /** A Shabbat given as 30 Sh'vat 5784, the first day of Rosh Chodesh Adar I,
      with the second day on the Sunday after (in 5784 that date was a
      Friday, so the answer is hypothetical). */
  const Mishpatim := ClassifierInput(HebrewDate("Sh'vat", 30, 5784),
    ["Rosh Chodesh Adar I", "Parashat Mishpatim"], Week(0, "Rosh Chodesh Adar I"), false)

  lemma MishpatimWindow()
    ensures StandardWindow(Mishpatim)
    ensures HasRoshChodesh(Mishpatim.coming[0].events) && Mishpatim.coming[0].weekday == 6
    ensures LastRoshChodeshOver(Mishpatim.coming) == Some("Adar I")
    ensures SomeEvent(Mishpatim.events, MentionsRoshChodesh)
  {
    RoshChodeshNamed("Rosh Chodesh Adar I", "Adar I");
    WeekFacts(0, "Rosh Chodesh Adar I", "Adar I");
    OnlyRoshChodeshWithin(Mishpatim.coming, 0, "Adar I", 0, 1);
    OnlyRoshChodeshLast(Mishpatim.coming, 0, "Adar I");
    assert MentionsRoshChodesh(Mishpatim.events[0]);
  }

  /** As written, that Shabbat gets no ulchaparat pasha. */
  lemma MishpatimAsWritten()
    ensures Classify(Mishpatim, []).Ok?
    ensures Classify(Mishpatim, []).value.special.newMonth.roshChodesh
    ensures !Classify(Mishpatim, []).value.special.newMonth.ulchaparatPasha
  {
    MishpatimWindow();
    UlchaparatLostOnAdarI(Mishpatim, []);
  }

  lemma AdarListed()
    ensures "Adar I" in UlchaparatMonths && 5784 % 19 in LeapResidues
  {
  }

  /** Read with the month as the calendar spells it, it does. */
  lemma MishpatimIntended()
    ensures ClassifyIntended(Mishpatim, []).Ok?
    ensures ClassifyIntended(Mishpatim, []).value.special.newMonth.ulchaparatPasha
  {
    MishpatimWindow();
    AdarListed();
    UlchaparatKeptOnAdarI(Mishpatim, []);
  }

  /** The corrected reading says ulchaparat pasha on Rosh Chodesh of a leap
      year exactly when the month as the calendar spells it, that of the
      window's last Rosh Chodesh when a month is announced, is one of
      Cheshvan through Adar II. */
  lemma IntendedUlchaparat(input: ClassifierInput, fields: seq<string>)
    ensures var c := ClassifyIntended(input, fields);
      c.Ok? ==>
        var nm := c.value.special.newMonth;
        var spelled := if nm.mevarchim.Some? then LastRoshChodeshOver(input.coming) else Some(input.today.month);
        && spelled.Some?
        && nm.ulchaparatPasha == (nm.roshChodesh && input.today.year % 19 in LeapResidues && spelled.value in UlchaparatMonths)
  {
    ClassifyNewMonth(Intended, input, fields);
    MevarchimMonth(Intended, input, fields);
  }
}
