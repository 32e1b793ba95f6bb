# CheatSheetBuilder core, modelled in Dafny

CheatSheetBuilder writes the weekly Shabbat "cheat sheet" for a synagogue.
It does four things:

- It asks a Jewish-calendar service what is special about the coming Shabbat.
- It gathers the week's roles, readings and page numbers from several
  spreadsheets, plus the Torah-reading (leyning) data.
- It picks a document template.
- It fills `<FIELD>` placeholders in a copy of that template, and keeps or
  deletes the marked sections.

This project models the deterministic core of `cheat_sheet.py` and proves
properties of it. Every answer from the calendar service, the spreadsheets
and the document service is an input value. Each Python exception becomes
an `Err` of `Common.Result`: `AssertionFailed`, `KeyMissing`,
`IndexOutOfRange`, `UnpackMismatch` and `TypeMismatch`.

The modules follow the program's parts:

- `Common`: `Option`, `Result` and the exception kinds, plus Python truthiness.
- `Text`: the Python string operations the code uses, as functions with
  contracts. They cover `find`, `in`, `split("\n")`, `split()`,
  `rsplit(None, 1)`, `join` and row padding.
- `Tables`: the class-level `FIELDS` list, `ORDINALS` and `BOOKS`.
- `Classifier`: `get_special_shabbat`.
  - The look-ahead over the coming eight days is a specification function
    (`ScanFrom`).
  - Each event rule is a function on an accumulator of the `special` record
    and `FIELDS`. The rules run in source order, and later rules overwrite
    earlier ones.
  - `Classify` is the code as written. `ClassifyIntended` is the corrected
    reading that the findings below use.
- `ClassifierFacts`: what the classifier decides, proved per rule and per
  event, then over the whole event list, then over the whole call.
- `Builder`: the class `CheatSheetBuilder`.
  - It keeps `FIELDS` as a mutable field.
  - `get_special_shabbat` is an imperative method, with one loop for the
    look-ahead, one loop for the events and one method per rule.
  - `find_fields_in_content` and `find_fields` are also methods of the class.
  - Each method is proved equal to its specification function.
- `Document`: template selection (`copy_template`), placeholder discovery
  over a paragraph/table tree, and the `delete_section` range plan.
- `Sheets`: the collectors for the davening-calendar, kiddush, scotch and Mi
  Shebeyrach spreadsheets, including the shamash thank-you filter.
- `Scheduling`: `is_dst_shabbat` gives the next meeting time, and `get_date`
  counts the days to the next Shabbat.
- `Leyner`: `extract_aliyah_leyner` is a line scanner with early returns,
  and `extract_torah_readers` is a hand-written matcher for the reader pattern.
- `Leyning`: `collect_leyning_fields`, which parses `Book C:V-...` and looks
  the book up in `BOOKS`.
- `SpecialFields`: the collectors that read `special`:
  - the standing-aliyah leyners;
  - the haftarah precedence chain;
  - Hanukkah, omer and notes;
  - the birkat hachodesh text.
- `Pages`: `collect_page_numbers`, a loop over rows with a sticky `maftir`
  flag.
- `FieldKeys`: the dictionary keys are an enumeration, `Key`, and `Name(k)`
  gives each key's Python spelling. A field map is `map<Key, Option<string>>`,
  where `None` is a leyner lookup that found no reader.
- `Collect`: `collect_fields`, which runs every `dict.update` in source order.
- `Findings`: the concrete Shabbatot that show the departures listed under
  "## Findings".

`Reading` (`AsWritten` or `Intended`) is a parameter wherever a finding
changes the behaviour. Everything else is modelled once.

`BOOKS` has 21 entries; the model follows it.

The consolation rule at lines 638-641 appends the third haftarah of
consolation to the fifth only when a Ki Teitzei event falls on 15 Av of the
month the rules read. Ki Teitzei is read in Elul, so this looks unreachable;
the model keeps the test as written, since showing that would need a
calendar model.

## Model

| member | source | states |
|---|---|---|
| Builder.CheatSheetBuilder.constructor | cheat_sheet.py:17-58 | A new builder's `FIELDS` is the class's initial field list. |
| Builder.CheatSheetBuilder.GetSpecialShabbat | cheat_sheet.py:503-678 | The method returns the record `Classify` computes and leaves `FIELDS` as `Classify` extends it. If the look-ahead's assertion fails, it returns that `AssertionError` and leaves `FIELDS` untouched. |
| Builder.CheatSheetBuilder.LookAhead | cheat_sheet.py:557-575 | The imperative look-ahead loop, with its break on the next Sunday and its weekday assertion, computes exactly the specification scan `ScanFrom`. |
| Builder.CheatSheetBuilder.RecordMevarchim | cheat_sheet.py:576-583 | After the look-ahead, the record, `FIELDS` and the month the later rules read are those of `AfterLookahead`. That covers the Adar rename, the appended birkat fields and the overwritten Av HaRachamim flag. |
| Builder.CheatSheetBuilder.RunRules | cheat_sheet.py:585-672 | The event loop leaves the record and `FIELDS` equal to folding the event rules, in source order, over the events. |
| Builder.CheatSheetBuilder.ApplyRules | cheat_sheet.py:586-672 | One pass of the loop body applies the eleven rule groups in source order. |
| Builder.CheatSheetBuilder.HandleHanukkah | cheat_sheet.py:587-591 | The method matches the Hanukkah rule: the day number, the omit flag and the seven maftir field names. |
| Builder.CheatSheetBuilder.HandleRoshChodesh | cheat_sheet.py:594-598 | The method matches the Rosh Chodesh rule, which includes the ulchaparat test on the year and the month. |
| Builder.CheatSheetBuilder.HandleOmerAndShira | cheat_sheet.py:600-609 | The method matches the omer rule followed by the Shabbat Shira rule. `OmerRuleEffect` and `ShiraRuleEffect` state that the omer text becomes the event when it mentions the Omer, and that Shabbat Shira is set exactly for "Shabbat Shirah". |
| Builder.CheatSheetBuilder.HandleFourParshiyot | cheat_sheet.py:612-618 | The method matches the four-parshiyot and HaGadol rules. `FourParshiyotRuleEffect` states that one of the four names is recorded as the event, and that HaGadol is set by its event. |
| Builder.CheatSheetBuilder.HandleRebuke | cheat_sheet.py:621-627 | The method matches the rebuke-by-date and Chazon rules. `RebukeRuleEffect` states the rebuke by date and the Chazon flag with its note. |
| Builder.CheatSheetBuilder.HandleConsolation | cheat_sheet.py:630-646 | The method matches the consolation rules. `ConsolationOfHighest` proves that, within one event, the highest-numbered parasha named wins, and `ConsolationRuleEffect` states Nachamu and the Ki Teitzei/15 Av test. |
| Builder.CheatSheetBuilder.HandleShuva | cheat_sheet.py:647-649 | The method matches the Shuva rule, 1-10 Tishrei only. |
| Builder.CheatSheetBuilder.HandleAseretHaDibrot | cheat_sheet.py:652-659 | The method matches the Vaetchanan and Yitro rules. `AseretHaDibrotRuleEffect` states that each flag is set by its parasha, with its notes and field names. |
| Builder.CheatSheetBuilder.HandleLastParasha | cheat_sheet.py:662-664 | The method matches the last-parasha-of-a-book rule. `LastParashaRuleEffect` states that the flag is set exactly by Vayechi, Pekudei, Bechukotai or Masei. |
| Builder.CheatSheetBuilder.HandleSpecialAliyot | cheat_sheet.py:667-672 | The method matches the special-aliyot notes rule. |
| Builder.CheatSheetBuilder.FindFieldsInContent | cheat_sheet.py:154-171 | The recursive walk of one content item returns `FieldsInContent`. |
| Builder.CheatSheetBuilder.FindFieldsInCells | cheat_sheet.py:156-160 | The loop over a table's cells merges the cells' fields in order, with later cells winning. |
| Builder.CheatSheetBuilder.FindFieldsInParagraph | cheat_sheet.py:161-170 | The loop over a paragraph's elements merges each element's placeholders into the map so far. |
| Builder.CheatSheetBuilder.FindFieldsInElement | cheat_sheet.py:163-170 | One element contributes exactly its placeholders, and elements without a text run contribute nothing. |
| Builder.CheatSheetBuilder.FindFields | cheat_sheet.py:173-178 | The loop over the body returns `FieldsInBody`. |
| Tables.OrdinalsDomain | cheat_sheet.py:60 | `ORDINALS` is defined exactly on 1 to 8. |
| Tables.BooksDomain | cheat_sheet.py:62-84 | `BOOKS` holds the five books of the Torah. It does not hold "Joel", whose Shuva haftarah is written out instead. |
| Classifier.WeekdayNames | cheat_sheet.py:504-512 | The English name is "Sunday" exactly for weekday 6. |
| Classifier.RoshChodeshMonthFrom | cheat_sheet.py:568 | The case-insensitive search for "Rosh Chodesh " finds a month exactly when the pattern occurs. The month it captures stops at the line end. |
| Classifier.HanukkahDayFrom | cheat_sheet.py:587-589 | A Hanukkah day is found exactly when "Chanukah Day " followed by a digit occurs, ignoring case, and the day found is not negative. |
| Classifier.RenameAdar | cheat_sheet.py:577-580 | The renamed month is never "Adar I" or "Adar II". |
| ClassifierFacts.LastRoshChodeshFound | cheat_sheet.py:567-571 | The last Rosh Chodesh month among a day's events exists exactly when some event names a Rosh Chodesh. |
| ClassifierFacts.ScanEventsEffect | cheat_sheet.py:567-575 | Scanning one day's events fails exactly when that day is tomorrow, has a Rosh Chodesh and is not a Sunday. Otherwise the scan appends that day's name once for each Rosh Chodesh event, keeps the last month seen, and sets `machar chodesh` only for tomorrow. |
| ClassifierFacts.ScanFromEffect | cheat_sheet.py:562-575 | The scan only extends the days found. When it finds any, the month it keeps is the last Rosh Chodesh month of the window. |
| ClassifierFacts.ScanWindow | cheat_sheet.py:557-575 | On a standard eight-day window the scan has three outcomes: it fails exactly when tomorrow is a non-Sunday Rosh Chodesh; it finds days exactly when days 1-7 hold a Rosh Chodesh; and it sets machar exactly when tomorrow is Rosh Chodesh. |
| ClassifierFacts.HanukkahRuleEffect | cheat_sheet.py:587-591 | A Hanukkah event records its day and forces the Av HaRachamim omission. It also appends the maftir field names, and leaves every parasha key alone. |
| ClassifierFacts.RoshChodeshRuleEffect | cheat_sheet.py:594-598 | A "Rosh Chodesh" event sets `rosh chodesh` and the omission. It sets ulchaparat only in a leap year of the 19-year cycle and a listed month. No parasha key changes. |
| ClassifierFacts.OmerRuleEffect | cheat_sheet.py:601-603 | An event mentioning the Omer becomes the omer text; no other key changes, and only a field name is appended. |
| ClassifierFacts.ShiraRuleEffect | cheat_sheet.py:606-609 | "Shabbat Shirah" sets Shabbat Shira and adds its note; it may append a field name, and nothing else changes. |
| ClassifierFacts.FourParshiyotRuleEffect | cheat_sheet.py:612-618 | One of the four parshiyot is recorded as the event itself, and "Shabbat HaGadol" sets HaGadol. Both force the omission, and HaGadol adds its note. |
| ClassifierFacts.RebukeRuleEffect | cheat_sheet.py:621-627 | The rebuke haftarah is decided by the month and day the rule reads. "Shabbat Chazon" sets Chazon and adds its note. |
| ClassifierFacts.ConsolationRuleEffect | cheat_sheet.py:630-646 | "Shabbat Nachamu" sets Nachamu. The consolation number follows the chain of parasha tests. The third consolation is appended to the fifth when the event names Ki Teitzei on 15 Av of the month the rules read. Only Ki Tavo adds a note, and no field name is added. |
| ClassifierFacts.ShuvaRuleEffect | cheat_sheet.py:647-649 | Shuva is recorded exactly for "Shabbat Shuva" on 1-10 Tishrei, and no parasha key changes. |
| ClassifierFacts.AseretHaDibrotRuleEffect | cheat_sheet.py:652-659 | Vaetchanan and Yitro each set their flag when the event names them, and add their notes and field names. |
| ClassifierFacts.LastParashaRuleEffect | cheat_sheet.py:662-664 | The last-parasha flag is set when the event names Vayechi, Pekudei, Bechukotai or Masei, and a field name is appended. |
| ClassifierFacts.SpecialAliyotRuleEffect | cheat_sheet.py:667-672 | The special-aliyot rules only add notes; no flag or parasha key changes. |
| ClassifierFacts.ConsolationOfHighest | cheat_sheet.py:630-646 | Within one event the later test wins: an event naming any of Eikev to Nitzavim gets the number of the highest-numbered parasha it names, and any other event leaves the number unchanged. |
| ClassifierFacts.EventStepFlags | cheat_sheet.py:585-672 | After one event, `rosh chodesh`, ulchaparat and the omission become true exactly when that event sets them. Psalm 27, mevarchim and machar are untouched. |
| ClassifierFacts.EventStepHaftarot | cheat_sheet.py:585-672 | After one event, the Hanukkah day is that event's day if it has one and is otherwise unchanged. Rebuke is decided by date, and Shuva by the Shuva rule. |
| ClassifierFacts.EventStepNotes | cheat_sheet.py:585-672 | One event appends exactly its own notes, in rule order. |
| ClassifierFacts.EventStepFields | cheat_sheet.py:585-672 | One event only appends known field names to `FIELDS`, and a Hanukkah event appends all the maftir names. |
| ClassifierFacts.EventStepParasha | cheat_sheet.py:600-664 | After one event, the omer text and the four-parshiyot name take the event when it qualifies. The consolation number follows the parasha tests. Each other parasha flag becomes true exactly when the event sets it. |
| ClassifierFacts.FoldFlags | cheat_sheet.py:585-672 | Over all events, `rosh chodesh`, ulchaparat and the omission become true exactly when some event sets them. |
| ClassifierFacts.FoldHanukkah | cheat_sheet.py:587-589 | Over all events, the Hanukkah day is that of the last Hanukkah event. |
| ClassifierFacts.FoldRebuke | cheat_sheet.py:621-624 | The rebuke haftarah is set by date once there is any event at all. |
| ClassifierFacts.FoldShuva | cheat_sheet.py:647-648 | Shuva is "Shabbat Shuva" exactly when that event occurs and the month read is Tishrei on days 1-10. |
| ClassifierFacts.FoldNotes | cheat_sheet.py:585-672 | The notes are the concatenation of every event's notes, in order. |
| ClassifierFacts.FoldFields | cheat_sheet.py:585-672 | In the rule loop, `FIELDS` only grows by names the rules add. It never gains "parasha_sixth_and_seventh" or "notes" there. Every maftir name is present after a Hanukkah event. |
| ClassifierFacts.FoldOmer | cheat_sheet.py:601-603 | Over all events, the omer text is the last event that mentions the Omer. |
| ClassifierFacts.FoldFourParshiyot | cheat_sheet.py:612-614 | Over all events, the four-parshiyot name is the last event that is one of the four. |
| ClassifierFacts.FoldConsolation | cheat_sheet.py:632-646 | Over all events, the consolation number comes from the last event naming a consolation parasha. Within that event it is the highest-numbered parasha named. With no such event it is unchanged. |
| ClassifierFacts.FoldHaftarahFlags | cheat_sheet.py:615-642 | Over all events, HaGadol, Chazon and Nachamu become true exactly when some event is one of them. The third consolation is appended to the fifth exactly when some event names Ki Teitzei on 15 Av of the month read. |
| ClassifierFacts.FoldAliyahFlags | cheat_sheet.py:606-664 | Over all events, Shabbat Shira, Vaetchanan, Yitro and the last-parasha flag each become true exactly when some event sets them. |
| ClassifierFacts.ClassifyIsConclude | cheat_sheet.py:503-678 | A call is the look-ahead scan followed by the event pass, and it fails exactly when the scan's assertion fails. |
| ClassifierFacts.ClassifyLookahead | cheat_sheet.py:557-583 | On a standard window the call has three outcomes:<br>- it raises `AssertionError` exactly when tomorrow is a non-Sunday Rosh Chodesh;<br>- mevarchim is set exactly when days 1-7 hold a Rosh Chodesh, so one on the next Sunday alone does not count;<br>- machar chodesh is set exactly when tomorrow is Rosh Chodesh. |
| ClassifierFacts.MevarchimMonth | cheat_sheet.py:570-581 | The only error is the weekday assertion. An announced month is the renamed last Rosh Chodesh month of the window, is never "Adar I" or "Adar II", and comes with at least one day. |
| ClassifierFacts.ClassifyNewMonth | cheat_sheet.py:541-598 | The call's new-month and Av HaRachamim outcomes:<br>- Psalm 27 holds exactly from Elul to 21 Tishrei;<br>- `rosh chodesh` holds exactly when some event mentions it;<br>- ulchaparat needs that, plus a leap year and a listed month;<br>- the omission is the look-ahead's Iyyar/Sivan test when a month is announced, or else the date windows, in either case or-ed with the events that force it. |
| ClassifierFacts.ClassifyHaftarot | cheat_sheet.py:587-648 | The call's haftarah keys:<br>- the Hanukkah day is the last one named;<br>- rebuke is decided by the month the rule reads and the day;<br>- Shuva is set only for "Shabbat Shuva" on 1-10 Tishrei of the month read;<br>- the four-parshiyot name is the last such event;<br>- HaGadol, Chazon and Nachamu hold exactly when some event is one of them;<br>- the consolation number is that of the highest parasha named by the last event naming one;<br>- the third consolation is appended to the fifth exactly when some event names Ki Teitzei and the month read, which is the announced month when there is one, is Av on the 15th. |
| ClassifierFacts.ClassifyAliyot | cheat_sheet.py:600-664 | The call's omer text is the last event that mentions the Omer. Shabbat Shira, Vaetchanan, Yitro and the last-parasha flag each hold exactly when some event sets them. |
| ClassifierFacts.ClassifyNotesAndFields | cheat_sheet.py:582-677 | The call's notes and field-list outcomes:<br>- the notes are every event's notes in order;<br>- `FIELDS` only grows by known names;<br>- the maftir names are present after a Hanukkah event;<br>- the birkat names are present when a month is announced;<br>- "notes" is appended last whenever there are notes;<br>- "parasha_sixth_and_seventh" is among the appended names iff some event mentions Rosh Chodesh and either some event is one of the four parshiyot or the last Hanukkah event gives a nonzero day;<br>- "notes" is among the appended names iff the events yield any note. |
| ClassifierFacts.ClassifySixthAndSeventh | cheat_sheet.py:674 | After the call, the post-pass test on `rosh chodesh`, `four parshiyot` and `hanukkah` holds iff some event mentions Rosh Chodesh and either some event is one of the four parshiyot or the last Hanukkah event gives a nonzero day. |
| ClassifierFacts.PostPassFields | cheat_sheet.py:674-677 | After the loop, `FIELDS` gains exactly "parasha_sixth_and_seventh" when Rosh Chodesh coincides with a truthy four-parshiyot name or Hanukkah day, then exactly "notes" when there are notes. Nothing else changes. |
| ClassifierFacts.PostPassAppended | cheat_sheet.py:674-677 | Once the rules have grown `FIELDS`, "parasha_sixth_and_seventh" and "notes" are among the appended names exactly when the post-pass adds them, because no rule adds either. |
| Document.TemplateFor | cheat_sheet.py:135-149 | The template follows the override chain: four parshiyot over Shuva, Shuva over Hanukkah, Hanukkah over Rosh Chodesh, and Rosh Chodesh over the default. A Rosh Chodesh variant is chosen only on Rosh Chodesh. |
| Document.PlaceholderSpan | cheat_sheet.py:169-170 | A found range is exactly as long as the placeholder `<FIELD>`. |
| Document.ElementFields | cheat_sheet.py:162-170 | One element yields exactly the listed fields whose placeholder its text holds. Each one's range starts at the element's start index, or 0, plus the first occurrence. |
| Document.ParagraphFields | cheat_sheet.py:161-170 | A paragraph yields exactly the listed fields whose placeholder occurs in one of its elements. |
| Document.FieldsInContent | cheat_sheet.py:154-171 | Every field found is a listed field, with a range the length of its placeholder. |
| Document.TableFields | cheat_sheet.py:156-160 | The same holds for the fields found in a table's cells. |
| Document.FieldsInBody | cheat_sheet.py:173-178 | The same holds for the fields found in a whole document body. |
| Document.FoundIffPresent | cheat_sheet.py:154-171 | A field is found in a content tree exactly when it is listed and its placeholder occurs somewhere in the tree. |
| Document.TableFoundIff | cheat_sheet.py:156-160 | A field is found among a table's first cells exactly when it is listed and its placeholder occurs in one of those cells. |
| Document.LastTagged | cheat_sheet.py:759-765 | The marker scan keeps the last element carrying the tag, and no later element carries it. |
| Document.LastMarkerWins | cheat_sheet.py:756-765 | The begin and end positions used are those of the last elements holding each tag. |
| Document.MarkerWithoutIndex | cheat_sheet.py:763 | A marker element without a `startIndex` raises `KeyError`. |
| Document.DeletionPlan | cheat_sheet.py:766-773 | A request is made exactly when both markers were found and none of the four indices is 0, the `all()` test. Deleting takes one request and keeping takes two. |
| Document.DeletedPositions | cheat_sheet.py:768-773 | Deleting the section removes exactly the positions from the start of the begin marker to the end of the end marker. Keeping it removes exactly the two markers' own positions. |
| Document.KeepDeletesBackToFront | cheat_sheet.py:773 | When the markers are kept, the second range deleted lies before the first, so the first deletion does not move it. |
| Document.MarkerAtZeroDeletesNothing | cheat_sheet.py:766-767 | A begin marker at index 0 counts as missing, so nothing is deleted. |
| Document.DeleteSection | cheat_sheet.py:753-773 | The loop over the body computes the specified plan, including the `KeyError` for a marker without indices. |
| Document.ScanFailsOnward | cheat_sheet.py:756-765 | Once the scan has raised, the rest of the body does not change the outcome. |
| Scheduling.NextMeetingTime | cheat_sheet.py:259-264 | The time is "9:30" exactly when the Shabbat a week later falls from 14 March to 6 November, and is "9:00" otherwise. |
| Scheduling.SummerAndWinter | cheat_sheet.py:226-231 | A July date gives "9:30" and a January date gives "9:00". |
| Scheduling.DaysUntilNextShabbat | cheat_sheet.py:680-684 | The count is between 1 and 7 and lands on a Saturday, with no Saturday before it. So a Saturday waits a full week. |
| Scheduling.SaturdayAndFriday | cheat_sheet.py:682 | Run on a Saturday it gives 7, and on a Friday it gives 1. |
| Sheets.FullName | cheat_sheet.py:233-234 | A shamash listed in the file gets the listed full name, and anyone else keeps the name given. |
| Sheets.RowsDated | cheat_sheet.py:239 | An empty row raises `IndexError`. Otherwise the rows kept are the rows whose first cell is the date. |
| Sheets.OnlyRowDated | cheat_sheet.py:239 | When exactly one row carries the date, that row alone is selected. |
| Sheets.NoRowDated | cheat_sheet.py:239 | When no row carries the date, nothing is selected. |
| Sheets.TwoRowsDated | cheat_sheet.py:239 | When two rows carry the date, at least two are selected. |
| Sheets.CalendarFields | cheat_sheet.py:236-278 | A calendar sheet with an empty row raises `IndexError`. |
| Sheets.CalendarFieldsKeys | cheat_sheet.py:243-277 | A successful calendar collection writes exactly the calendar keys. |
| Sheets.CalendarRowSelected | cheat_sheet.py:239-242 | With exactly one dated row, the fields are built from that row padded to 12 cells. |
| Sheets.CalendarRowMissingOrRepeated | cheat_sheet.py:239-240 | No dated row, or two of them, fails the `len(rows) == 1` assertion. |
| Sheets.EntryFieldsRestate | cheat_sheet.py:251-255 | The parasha name, the sixth-and-seventh title, the Mi Shebeyrach shamash and the maftir aliyah repeat their source cells. |
| Sheets.EntryFieldsThank | cheat_sheet.py:272-277 | Each thank-you field repeats the role it thanks. |
| Sheets.RowTorahOneLine | cheat_sheet.py:249-250 | `torah` has no line break, and it equals the multiline cell when that cell is a single line. |
| Sheets.RowMeetingTime | cheat_sheet.py:259-264 | The row's next meeting time is "9:30" exactly in the daylight-saving window of the next Shabbat. |
| Sheets.ShamashThanksCases | cheat_sheet.py:265-271 | Exactly the shamashim whose name does not contain the host's are thanked, in order and joined by ", ". |
| Sheets.HostIsNotThankedTwice | cheat_sheet.py:267-270 | A non-empty host is never also thanked as shamash, and both readings agree whenever the host is not empty. |
| Sheets.NoHostThanksNobodyAsWritten | cheat_sheet.py:267-271 | As written, a row without a host thanks nobody. |
| Sheets.NoHostThanksBothIntended | cheat_sheet.py:267-271 | Corrected, a row without a host thanks both shamashim. |
| Sheets.RowWithoutHost | cheat_sheet.py:265-271 | A row too short to hold a host gives an empty shamash thank-you as written, and both full names when corrected. |
| Sheets.HaftarahFor | cheat_sheet.py:254 | The haftarah line is the fixed 26-character lead followed by the title. |
| Sheets.FirstKiddushRow | cheat_sheet.py:283-287 | The kiddush row used is the first non-empty row whose date cell matches. |
| Sheets.FirstScotchRow | cheat_sheet.py:292-296 | The scotch row used is the first non-empty row whose date cell equals the full date. |
| Sheets.KiddushFields | cheat_sheet.py:280-300 | The kiddush collector writes only kiddush keys. |
| Sheets.KiddushFieldsShape | cheat_sheet.py:283-300 | The kiddush collector's three possible results:<br>- nothing, exactly when no kiddush row matches;<br>- volunteer and sponsor only;<br>- those two plus scotch sponsor and thank-you, exactly when a scotch row is also dated.<br>The thank-you repeats the volunteer. |
| Sheets.KiddushRowsSelected | cheat_sheet.py:283-298 | The volunteer and sponsor come from the first matching kiddush row padded to 5 cells. The scotch sponsor comes from the first dated scotch row. |
| Sheets.KiddushSubstringMatch | cheat_sheet.py:283-290 | As written, a Shabbat on 2/1 takes its kiddush from a row dated 12/14/2024, and the corrected match takes nothing from it. |
| Sheets.TwoOneInDecember | cheat_sheet.py:283 | "2/1" matches "12/14/2024" as a substring, but not as a whole date. |
| Sheets.IntendedMatchesFullDate | cheat_sheet.py:283 | Corrected, a cell holding the month/day, alone or followed by the year, matches. |
| Sheets.IntendedIsStricter | cheat_sheet.py:283 | Every cell the corrected match accepts is also accepted as written. |
| Sheets.FirstCells | cheat_sheet.py:442 | The names are the first cells of the non-empty rows, and there are none exactly when every row is empty. |
| Sheets.MiShebeyrachFields | cheat_sheet.py:440-442 | The Mi Shebeyrach collector always writes exactly one field, the list. |
| Sheets.MiShebeyrachNames | cheat_sheet.py:442 | Splitting the list at line breaks gives back the names of the non-empty rows. |
| Leyner.RangeTokensFrom | cheat_sheet.py:213 | Every `N-M` token found is a real digit range in the line, so a line without digits has none. That these are exactly the findall matches is stated by the four lemmas below. |
| Leyner.GreedyRange | cheat_sheet.py:213 | The match of `(\d+)-(\d+)` at a digit run followed by a dash and a digit is a range token at that position, each group taken as long as it goes. |
| Leyner.NextScan | cheat_sheet.py:213 | The search moves strictly forward and never resumes inside a run of digits. |
| Leyner.RangeTokensAtStarts | cheat_sheet.py:213 | Each token found is the whole greedy match at a digit-run start that begins a match. |
| Leyner.RangeTokensInOrder | cheat_sheet.py:213 | The tokens found come left to right and do not overlap: each ends at or before the start of the next. |
| Leyner.RangeTokensComplete | cheat_sheet.py:213 | No match is missed: every match start that no token found covers is the position of a token found. |
| Leyner.DigitRunsFrom | cheat_sheet.py:217 | The numbers found are non-empty digit runs, and there are none exactly when the line has no digit. That they are every maximal run, in order, is `Leyner.DigitRunsComplete`. |
| Leyner.RunStarts | cheat_sheet.py:217 | The positions where a maximal run of digits starts, each once and in increasing order, and no others. |
| Leyner.DigitRunsComplete | cheat_sheet.py:217 | The findall result for `\d+` is one number per maximal digit run, in the order of the runs, each the whole run and none missed. |
| Leyner.FirstCovering | cheat_sheet.py:214-215 | The range used is the first one that covers the aliyah, and there is none only when no range covers it. |
| Leyner.FirstWord | cheat_sheet.py:224 | `split()[0]` raises `IndexError` exactly on blank text. On success it gives a non-empty word without whitespace. |
| Leyner.ExtractAliyahLeyner | cheat_sheet.py:211-224 | The line loop with its early returns computes `AliyahLeyner`. |
| Leyner.ScanLine | cheat_sheet.py:212-224 | One line's treatment computes `LineReader`: ranges first, then single numbers, then a line with no digits. |
| Leyner.ReaderIsWord | cheat_sheet.py:216-224 | Any reader found is a non-empty word without whitespace. |
| Leyner.RangeBeforeSingle | cheat_sheet.py:213-220 | A line whose range covers the aliyah decides it, and the single-number branch is never reached. |
| Leyner.SingleNumberRaises | cheat_sheet.py:217-220 | A line that names the aliyah only as a single number raises the `TypeError` of `str.find` given an int. |
| Leyner.NoDigitsFirstWord | cheat_sheet.py:222-224 | A line without digits returns its first word, and a blank line raises. |
| Leyner.RosterLineDecides | cheat_sheet.py:212-220 | A roster line `a-b: Name` gives Name for aliyot a to b and nothing for the others. |
| Leyner.TwoLines | cheat_sheet.py:212-224 | Two lines are tried in order, and the first that decides wins. |
| Leyner.RosterSixIsCohen | cheat_sheet.py:211-224 | For "5-7: Cohen\n1-4: Levi", aliyah 6 gives "Cohen". |
| Leyner.RosterTwoIsLevi | cheat_sheet.py:211-224 | For the same text, aliyah 2 gives "Levi". |
| Leyner.RosterEightUnnamed | cheat_sheet.py:211-224 | For the same text, aliyah 8 gives no reader. |
| Leyner.ReaderNamesFrom | cheat_sheet.py:208 | Every match is a run of letters, a space and a run of letters or hyphens. Text without letters has no match. That these are exactly the findall matches is `Leyner.ReaderNamesComplete`. |
| Leyner.ReaderEnd | cheat_sheet.py:208 | A reader match ends past its start, after the last letter or hyphen following the space. |
| Leyner.NextReaderScan | cheat_sheet.py:208 | The search moves strictly forward and never resumes inside a run of letters. |
| Leyner.ReaderStartsAtStarts | cheat_sheet.py:208 | Every match position is a letter-run start followed, after the run, by a space. |
| Leyner.ReaderStartsInOrder | cheat_sheet.py:208 | The matches come left to right and do not overlap. |
| Leyner.ReaderStartsComplete | cheat_sheet.py:208 | Every match start that no earlier match covers is a match position. |
| Leyner.ReaderNamesComplete | cheat_sheet.py:208 | The names found are exactly the findall matches: each is the text from a letter-run start to the end of the letters and hyphens after its space, in order, without overlap, and none is missed. |
| Leyner.NoLettersNoReaders | cheat_sheet.py:207-209 | Text without letters names no readers. |
| Leyner.OneReader | cheat_sheet.py:207-209 | A first and last name after non-letters is found, as written. |
| Leyning.ParseSource | cheat_sheet.py:313-314 | Parsing either raises the unpacking `ValueError`, or gives a non-empty book with a chapter and a verse that contain no colon. |
| Leyning.ParseSourceRoundTrip | cheat_sheet.py:313-314 | `Book C:V` followed by any `-...` suffix parses back to Book, C and V. |
| Leyning.BookName | cheat_sheet.py:317 | The lookup succeeds exactly for books in `BOOKS`. Any other book raises `KeyError` naming it. |
| Leyning.AliyahFields | cheat_sheet.py:310-311 | Aliyot other than 1, 4, 7, maftir and haftarah contribute nothing. |
| Leyning.MissingBook | cheat_sheet.py:315-337 | An unknown book raises for aliyah 1, maftir and haftarah, but not for aliyot 4 and 7. |
| Leyning.CollectLeyningFields | cheat_sheet.py:302-338 | The nested loops over items and entries compute `LeyningFields`, stopping at the first error. |
| Leyning.ApplyEntries | cheat_sheet.py:309-337 | The inner loop over one item's entries computes `EntriesFields`. |
| Leyning.LeyningBooksConsistent | cheat_sheet.py:315-337 | Each collected printed book name is the `BOOKS` entry of the English name collected beside it. |
| Leyning.LeyningKeysWithin | cheat_sheet.py:302-338 | The leyning collector writes only leyning keys. |
| SpecialFields.Ordinal | cheat_sheet.py:60 | `ORDINALS[n]` succeeds exactly for 1 to 8 and raises `KeyError` otherwise. |
| SpecialFields.StandingAliyahFields | cheat_sheet.py:340-350 | Each leyner field is written exactly when its flag is set, and an error comes only from a requested aliyah. Vaetchanan's fourth-aliyah reader overrides Yitro's sixth. |
| SpecialFields.StandingLeynersAreWords | cheat_sheet.py:340-350 | Every standing-aliyah leyner written is a single non-empty word. |
| SpecialFields.TitleChain | cheat_sheet.py:356-402 | The chain fails exactly when an ordinal it needs is out of range, and Shuva always wins. |
| SpecialFields.SpecialHaftarahFields | cheat_sheet.py:353-404 | The special-haftarah collector:<br>- fails exactly on an undefined ordinal;<br>- writes the Hanukkah day exactly on Hanukkah, as its ordinal;<br>- writes the haftarah book fields exactly when Shuva is set. |
| SpecialFields.HaftarahTitlePrecedence | cheat_sheet.py:353-404 | The title written is the last applicable one in the order rosh chodesh, machar chodesh, hanukkah, four parshiyot, hagadol, rebuke, chazon, nachamu, consolation and shuva. |
| SpecialFields.ShuvaHaftarah | cheat_sheet.py:389-402 | On Shuva the title is Shuva's. The note is Micah's exactly for "Parashat Vayeilech", and otherwise the haftarah is Yoel 2:15. |
| SpecialFields.ClassifiedShuvaIsJoel | cheat_sheet.py:647-648 | The classifier only ever records "Shabbat Shuva", so a classified Shabbat Shuva always reads Yoel 2:15-27 and the Micah branch is unreachable. |
| SpecialFields.HanukkahFields | cheat_sheet.py:406-410 | The Hanukkah collector writes the day's ordinal exactly on Hanukkah, and fails when that ordinal is undefined. |
| SpecialFields.HanukkahThirdDay | cheat_sheet.py:406-410 | Day 3 gives "third", both here and in the special-haftarah collector. |
| SpecialFields.ClassifiedHanukkahThirdDay | cheat_sheet.py:587-591 | When the last Hanukkah event is "Chanukah Day 3", the sheet's `maftir_hanukkah_day` is "third". |
| SpecialFields.OmerField | cheat_sheet.py:412-416 | The omer field is written exactly when the omer text is non-empty, and it is that text. |
| SpecialFields.NotesField | cheat_sheet.py:461-465 | The notes field is written exactly when there are notes. |
| SpecialFields.NotesRoundTrip | cheat_sheet.py:464 | Splitting the notes field at line breaks gives back the notes. |
| SpecialFields.BirkatHachodeshFields | cheat_sheet.py:444-459 | The birkat collector writes month and day exactly when a month is announced. It fails only on an announcement with no days, where `days[0]` raises. |
| SpecialFields.BirkatDayTomorrow | cheat_sheet.py:450-455 | The day text starts with "tomorrow" exactly when the first day is Sunday. |
| SpecialFields.BirkatDayHebrew | cheat_sheet.py:456-458 | The day text ends with the Hebrew day names: one or two, as many as there are days. |
| SpecialFields.BirkatFromSunday | cheat_sheet.py:450-458 | A Sunday-and-Monday Rosh Chodesh reads "tomorrow and on Monday, B'Yom ... UvYom ...". |
| Pages.FirstBlank | cheat_sheet.py:423-425 | The sticky `maftir` flag turns on at the first empty row. |
| Pages.LastTorahMatch | cheat_sheet.py:428-434 | The Torah row used is the last row in the range whose book, chapter and verse match. |
| Pages.LastHaftarahMatch | cheat_sheet.py:435-437 | The haftarah row used is the last row that matches and passes the parasha filter. |
| Pages.CollectPageNumbers | cheat_sheet.py:418-438 | The row loop with its sticky flag computes `PageNumbers`. |
| Pages.PageNumbersFound | cheat_sheet.py:418-438 | The page fields come from three rows: the parasha pages from the last match before the first blank row, the maftir pages from the last match after it, and the haftarah pages from the last filtered match. No other key is written. |
| Pages.NoBlankNoMaftir | cheat_sheet.py:423-431 | Without an empty row, no maftir page is written. |
| Pages.ParashaPagesFound | cheat_sheet.py:428-434 | A Torah match before the blank row writes that row's Etz Hayim and Hertz pages. |
| Pages.NoParashaPages | cheat_sheet.py:428-434 | Without a Torah match before the blank row, no parasha page is written. |
| Pages.PagesKeepCoordinates | cheat_sheet.py:418-438 | A page lookup never changes the book, chapter and verse fields that the later lookups read. |
| Collect.Opening | cheat_sheet.py:468-474 | The collection starts with exactly the date and the family-programming note. |
| Collect.ValueAt | cheat_sheet.py:486-491 | `fields[k]` succeeds exactly when k is present, and raises `KeyError` naming k otherwise. |
| Collect.TextAt | cheat_sheet.py:478 | A string read succeeds exactly when the value is present and not None. |
| Collect.CoordinatesAt | cheat_sheet.py:486-491 | A coordinate read succeeds exactly when book, chapter and verse are all present. A missing book raises first. |
| Collect.SpecificParasha | cheat_sheet.py:492-496 | The filter is "Beha'alotcha" for Beha'alotcha, which wins over the rest. It is "Noach" for Noach or for the appended consolation, and there is none otherwise. |
| Collect.CollectFields | cheat_sheet.py:467-501 | The imperative chain of updates computes `Collected`, which is the four sheet collectors followed by `Merge`. |
| Collect.MergeUpdates | cheat_sheet.py:478-500 | The `special` updates, the three page lookups and the Mi Shebeyrach update compute `Merge`. |
| Collect.SpecialUpdates | cheat_sheet.py:478-483 | The six collectors that read `special` compute `SpecialStage`, stopping at the first error. |
| Collect.PageUpdates | cheat_sheet.py:484-499 | The maftir, parasha and haftarah page lookups, in that order, compute `PageStage`. |
| Collect.SpecialStageKeeps | cheat_sheet.py:478-483 | The special collectors leave every other key unchanged. |
| Collect.PageStageKeeps | cheat_sheet.py:484-499 | The page lookups leave every key other than pages unchanged. |
| Collect.MergeKeepsSheets | cheat_sheet.py:475-500 | A key that no later collector writes keeps its value from the sheets. |
| Collect.MergeKeepsSpecial | cheat_sheet.py:478-500 | A key that neither the page lookups nor the Mi Shebeyrach list write keeps the value the special collectors gave it. |
| Collect.MergeKeepsOpening | cheat_sheet.py:469-500 | The finished fields still hold the Shabbat's date and the family-programming note. |
| Collect.CollectedKeepsOpening | cheat_sheet.py:467-501 | The date and the note survive the whole collection. |
| Collect.HanukkahStage | cheat_sheet.py:479-483 | After the special stage, the Hanukkah day is the ordinal of the day. |
| Collect.MergeHanukkahDay | cheat_sheet.py:479-500 | The Hanukkah day is still that ordinal after the page lookups. |
| Collect.CollectedHanukkahDay | cheat_sheet.py:467-501 | On Hanukkah, the finished sheet's `maftir_hanukkah_day` is the ordinal of the day. |
| Collect.ShuvaStage | cheat_sheet.py:479-483 | After the special stage, Shuva outside Vayeilech gives Joel 2:15 with the Yoel note. |
| Collect.MergeShuvaHaftarah | cheat_sheet.py:479-500 | The Shuva haftarah survives the page lookups. |
| Collect.CollectedShuvaHaftarah | cheat_sheet.py:467-501 | The finished sheet of a Shuva Shabbat outside Vayeilech holds Joel 2:15 and "Yoel 2:15-27". |
| Collect.ClassifiedShuvaSheet | cheat_sheet.py:467-501 | A Shabbat the classifier marks as Shuva always gets the Yoel note on its sheet. |
| Collect.MergeMissingMaftir | cheat_sheet.py:486-488 | Without a maftir book from the leyning, the merge raises `KeyError`. |
| Collect.MissingMaftirRaises | cheat_sheet.py:486-488 | The whole collection raises `KeyError("maftir_book_english")` when the leyning lacks a maftir. |
| Collect.ParashaPagesWin | cheat_sheet.py:484-491 | When the parasha coordinates match a Torah row, the sheet's parasha pages come from that row, even if the maftir lookup ran first. |
| Findings.TimedClassify | cheat_sheet.py:557-575 | With a `datetime` Shabbat, the call never fails and never sets machar chodesh. It announces a month exactly when any of the eight days, the next Sunday included, has a Rosh Chodesh. |
| Findings.TimedShabbatAnnouncesEarly | cheat_sheet.py:564 | As written, the `datetime` Shabbat 22 Iyyar 5786 announces Sivan, whose Rosh Chodesh is on the next Sunday. |
| Findings.TimedShabbatIntended | cheat_sheet.py:564 | Compared as dates, the same Shabbat announces nothing. |
| Findings.RebukeLostBeforeAv | cheat_sheet.py:621-624 | As written, a Shabbat from 19 Tamuz on whose week announces Av gets no rebuke haftarah. |
| Findings.IntendedRebukeByDate | cheat_sheet.py:621-624 | Corrected, the rebuke haftarah is decided by the Shabbat's own month and day. |
| Findings.MatotMaseiAsWritten | cheat_sheet.py:621-624 | As written, 28 Tamuz 5784 (Matot-Masei) gets no rebuke haftarah. |
| Findings.MatotMaseiIntended | cheat_sheet.py:623-624 | Corrected, the same Shabbat gets the second haftarah of rebuke. |
| Findings.RenamedAdarNotListed | cheat_sheet.py:577-580 | The renamed Adars are not in the ulchaparat month list. |
| Findings.UlchaparatLostOnAdarI | cheat_sheet.py:594-597 | As written, a Shabbat on Rosh Chodesh whose week announces Adar I never says ulchaparat pasha. |
| Findings.UlchaparatKeptOnAdarI | cheat_sheet.py:594-597 | Reading the month as the calendar spells it, the same Shabbat in a leap year says it. |
| Findings.MishpatimAsWritten | cheat_sheet.py:594-597 | As written, the hypothetical 30 Sh'vat 5784 Shabbat gets no ulchaparat pasha. |
| Findings.MishpatimIntended | cheat_sheet.py:594-597 | With the spelled month, that Shabbat gets ulchaparat pasha. |
| Findings.IntendedUlchaparat | cheat_sheet.py:594-597 | Corrected, ulchaparat holds exactly when it is Rosh Chodesh in a leap year and the spelled month is listed. |

## Left out

- OAuth, credential files and the Google service clients (`__init__`, lines 103-128) are foreign calls. The shamashim file is an input map from short name to full name.
- The HTTP calls and every Sheets, Docs and Drive request are left out. Their responses are inputs: the Hebrew date with its events, the eight look-ahead days, the leyning items, the spreadsheet rows and the document tree. The model does not cover a response that lacks its `"values"` key.
- `create_named_ranges`, `fill_in_fields` and `update_av_harachamim` are left out. They issue styling and named-range requests, which include floating-point colours.
- `print_document`, `main`, argument parsing and logging are left out as command-line plumbing. The chain of `delete_section` calls in `main` is not modelled beyond `DeleteSection` itself.
- `copy_template` is modelled as its selection only. The copy request and the document title formatted with `strftime` are left out.
- Gregorian calendar arithmetic and `strftime` are not modelled. The Shabbat's formatted dates, the month and day a week later, and the weekdays of the coming days are inputs.
- Scheduling.DaysUntilNextShabbat: the weekday of "today" is an input, because reading the clock is left out.
- Regular expressions are hand-written matchers. Case folding and digits are ASCII only, so Unicode case equivalents and non-ASCII digits are not modelled.
- Builder.CheatSheetBuilder.constructor: `FIELDS` is modelled per builder, starting from the initial list. In the source it is a class attribute (line 16) that `+=` and `append` grow in place, so a second builder in the same process would start from the grown list. The model does not capture that sharing; `main` creates one builder.
- Line 221 follows a `return` and is unreachable, so it has no counterpart.
- Collect.TextAt: a None value read where a string is needed is reported as a `TypeMismatch` naming the key. Python's own message is not modelled.
- SpecialFields.Ordinal: the `KeyError` names the table ("ORDINALS") rather than the integer key, since `Common.Error` holds strings.
- Only `hy % 19`, the leap-year test used at line 596, is modelled for the Hebrew year.

## Findings

| source | as written | input that shows it | evidently intended | confidence | as-written member | corrected member |
|---|---|---|---|---|---|---|
| cheat_sheet.py:621-624 | The rebuke rules read `month` after the look-ahead has replaced it with the month being announced. A Shabbat in late Tamuz before Rosh Chodesh Av therefore reads "Av" and gets no rebuke haftarah. | 28 Tamuz 5784 (Matot-Masei), with Rosh Chodesh Av on the Monday after | The second haftarah of rebuke, decided by the Shabbat's own date | not executed; high | Findings.MatotMaseiAsWritten | Findings.MatotMaseiIntended |
| cheat_sheet.py:564 | With `--date`, the Shabbat is a `datetime`, and comparing it with a `date` is always false. So the next-Sunday break and the tomorrow check never fire, and a Rosh Chodesh on the next Sunday alone causes an announcement. | 22 Iyyar 5786 given with `--date`, with Rosh Chodesh Sivan on the next Sunday | No announcement this week: Sivan is announced the Shabbat after | not executed; high | Findings.TimedShabbatAnnouncesEarly | Findings.TimedShabbatIntended |
| cheat_sheet.py:283 | The kiddush row is found by substring match of the month/day on the date cell. | Shabbat 2/1 with an earlier row dated 12/14/2024 | Match the month/day as a whole date | not executed; medium | Sheets.KiddushSubstringMatch | Sheets.IntendedMatchesFullDate |
| cheat_sheet.py:267-270 | A shamash is thanked only if the host's name is not contained in the shamash's name. An empty host is contained in every name, so nobody is thanked. | A calendar row with no host cell | Both shamashim thanked | not executed; medium | Sheets.NoHostThanksNobodyAsWritten | Sheets.NoHostThanksBothIntended |
| cheat_sheet.py:577-597 | The Adar I/II rename happens before the ulchaparat test, whose list has only the unrenamed names. This is latent: it needs a Shabbat on 30 Sh'vat or 30 Adar I of a leap year, and the Hebrew calendar never puts either date on a Saturday. | The answer for 30 Sh'vat 5784 as if it were a Shabbat, with Rosh Chodesh Adar I continuing on the Sunday | Ulchaparat pasha on Rosh Chodesh Adar I of a leap year | not executed; low | Findings.MishpatimAsWritten | Findings.MishpatimIntended |
