/** The document side of the builder on an abstract document: which
    template is copied (`copy_template`), where the placeholders are
    (`find_fields_in_content`, `find_fields`) and which ranges
    `delete_section` deletes. The Docs and Drive requests themselves are not
    modelled; the plans are what they would be sent. */
module Document {
  import opened Common
  import opened Text
  import opened Classifier

  // ---------------------------------------------------------------------------
  // copy_template: the template chosen for a special Shabbat

  /** The template documents, one per `*_TEMPLATE_DOCUMENT_ID`. */
  datatype Template =
    | Standard | RoshChodesh | Hanukkah | HanukkahRoshChodesh | Shuva
    | Shekalim | ShekalimRoshChodesh | Zachor | Parah | HaChodesh | HaChodeshRoshChodesh

  /** The template each rule would pick, highest precedence first: one of
      the four parshiyot, then Shuva, then Hanukkah, then Rosh Chodesh. */
  function TemplateByPrecedence(special: Special): Template {
    var rc := special.newMonth.roshChodesh;
    var four := special.haftarot.fourParshiyot;
    if four == Some("Shabbat HaChodesh") then (if rc then HaChodeshRoshChodesh else HaChodesh)
    else if four == Some("Shabbat Parah") then Parah
    else if four == Some("Shabbat Zachor") then Zachor
    else if four == Some("Shabbat Shekalim") then (if rc then ShekalimRoshChodesh else Shekalim)
    else if Truthy(special.haftarot.shuva) then Shuva
    else if TruthyInt(special.haftarot.hanukkah) then (if rc then HanukkahRoshChodesh else Hanukkah)
    else if rc then RoshChodesh
    else Standard
  }

  /** `copy_template`'s chain of overriding assignments. */
  function TemplateFor(special: Special): (t: Template)
    ensures t == TemplateByPrecedence(special)
    ensures t in {RoshChodesh, HanukkahRoshChodesh, ShekalimRoshChodesh, HaChodeshRoshChodesh} ==>
      special.newMonth.roshChodesh
  {
    var rc := special.newMonth.roshChodesh;
    var four := special.haftarot.fourParshiyot;
    var id := Standard;
    var id := if rc then RoshChodesh else id;
    var id := if TruthyInt(special.haftarot.hanukkah) then (if rc then HanukkahRoshChodesh else Hanukkah) else id;
    var id := if Truthy(special.haftarot.shuva) then Shuva else id;
    var id := if four == Some("Shabbat Shekalim") then (if rc then ShekalimRoshChodesh else Shekalim) else id;
    var id := if four == Some("Shabbat Zachor") then Zachor else id;
    var id := if four == Some("Shabbat Parah") then Parah else id;
    var id := if four == Some("Shabbat HaChodesh") then (if rc then HaChodeshRoshChodesh else HaChodesh) else id;
    id
  }

  // ---------------------------------------------------------------------------
  // The document tree

  /** A paragraph element: its text run's content, when it has a text run,
      and its `startIndex`/`endIndex` keys when present. */
  datatype Element = Element(textRun: Option<string>, startIndex: Option<int>, endIndex: Option<int>)

  /** A structural element: the contents of its table's cells, in row and
      cell order (the rows and cells carry nothing the scans read), and its
      paragraph's elements. A content without a "table" key has no cells and
      one without a "paragraph" key no elements: every scan treats the
      missing key and the empty list alike. */
  datatype Content = Content(cells: seq<Content>, elements: seq<Element>)

  /** `f"<{field.upper()}>"`. */
  function Placeholder(field: string): string {
    "<" + UpperAll(field) + ">"
  }

  predicate HasText(e: Element, p: string) {
    e.textRun.Some? && Contains(e.textRun.value, p)
  }

  // ---------------------------------------------------------------------------
  // find_fields_in_content and find_fields

  /** Where the placeholder of `field` lies: the element's start (0 when the
      key is absent) plus its first occurrence in the text run. */
  function PlaceholderSpan(e: Element, field: string): (span: (int, int))
    requires e.textRun.Some?
    ensures span.1 - span.0 == |Placeholder(field)|
  {
    var start := (if e.startIndex.Some? then e.startIndex.value else 0) + Find(e.textRun.value, Placeholder(field));
    (start, start + |Placeholder(field)|)
  }

  /** The fields one element holds the placeholder of; every field gets the
      same span whichever order FIELDS is read in. */
  function ElementFields(e: Element, fields: seq<string>): (found: map<string, (int, int)>)
    ensures forall f :: f in found <==> f in fields && HasText(e, Placeholder(f))
    ensures forall f :: f in found ==> e.textRun.Some? && found[f] == PlaceholderSpan(e, f)
  {
    if e.textRun.None? then map[]
    else map f | f in fields && Contains(e.textRun.value, Placeholder(f)) :: PlaceholderSpan(e, f)
  }

  /** The paragraph loop: later elements overwrite earlier ones. */
  function ParagraphFields(els: seq<Element>, fields: seq<string>): (found: map<string, (int, int)>)
    ensures forall f :: f in found <==> f in fields && exists j :: 0 <= j < |els| && HasText(els[j], Placeholder(f))
    decreases |els|
  {
    if els == [] then map[]
    else
      var found := ParagraphFields(els[..|els| - 1], fields) + ElementFields(els[|els| - 1], fields);
      assert forall j :: 0 <= j < |els| - 1 ==> els[..|els| - 1][j] == els[j];
      found
  }

  lemma ParagraphFieldsSnoc(els: seq<Element>, j: nat, fields: seq<string>)
    requires j < |els|
    ensures ParagraphFields(els[..j + 1], fields) == ParagraphFields(els[..j], fields) + ElementFields(els[j], fields)
  {
    assert els[..j + 1][..j] == els[..j];
  }

  /** `dict.update` applied twice is one update with the merged dict. */
  lemma UpdateTwice<K, V>(a: map<K, V>, b: map<K, V>, c: map<K, V>)
    ensures a + b + c == a + (b + c)
  {
  }

  /** A span of the right width for every field found. */
  predicate WellSpanned(found: map<string, (int, int)>, fields: seq<string>) {
    forall f :: f in found ==> f in fields && found[f].1 - found[f].0 == |Placeholder(f)|
  }

  /** The placeholder of `field` occurs somewhere in `c`. */
  predicate PlaceholderIn(c: Content, field: string)
    decreases c
  {
    || (exists k :: 0 <= k < |c.cells| && PlaceholderIn(c.cells[k], field))
    || (exists j :: 0 <= j < |c.elements| && HasText(c.elements[j], Placeholder(field)))
  }

  /** `find_fields_in_content(content)`: the table's cells first, in order,
      then the paragraph's elements. */
  function FieldsInContent(c: Content, fields: seq<string>): (found: map<string, (int, int)>)
    ensures WellSpanned(found, fields)
    decreases c, 1
  {
    ElementsSpanned(c.elements, fields);
    TableFields(c, |c.cells|, fields) + ParagraphFields(c.elements, fields)
  }

  /** The first `k` cell contents of a table. */
  function TableFields(c: Content, k: nat, fields: seq<string>): (found: map<string, (int, int)>)
    requires k <= |c.cells|
    ensures WellSpanned(found, fields)
    decreases c, 0, k
  {
    if k == 0 then map[]
    else TableFields(c, k - 1, fields) + FieldsInContent(c.cells[k - 1], fields)
  }

  lemma TableFieldsSnoc(c: Content, k: nat, fields: seq<string>)
    requires k < |c.cells|
    ensures TableFields(c, k + 1, fields) == TableFields(c, k, fields) + FieldsInContent(c.cells[k], fields)
  {
  }

  lemma {:induction false} ElementsSpanned(els: seq<Element>, fields: seq<string>)
    ensures WellSpanned(ParagraphFields(els, fields), fields)
    decreases |els|
  {
    if els != [] {
      ElementsSpanned(els[..|els| - 1], fields);
    }
  }

  /** `find_fields(document_id)` on the document's body. */
  function FieldsInBody(body: seq<Content>, fields: seq<string>): (found: map<string, (int, int)>)
    ensures WellSpanned(found, fields)
    decreases |body|
  {
    if body == [] then map[]
    else FieldsInBody(body[..|body| - 1], fields) + FieldsInContent(body[|body| - 1], fields)
  }

  /** A field is found exactly when it is in FIELDS and its placeholder
      occurs somewhere in the content. */
  lemma {:induction false} FoundIffPresent(c: Content, fields: seq<string>, f: string)
    ensures f in FieldsInContent(c, fields) <==> f in fields && PlaceholderIn(c, f)
    decreases c, 1
  {
    TableFoundIff(c, |c.cells|, fields, f);
  }

  lemma {:induction false} TableFoundIff(c: Content, k: nat, fields: seq<string>, f: string)
    requires k <= |c.cells|
    ensures f in TableFields(c, k, fields) <==> f in fields && InSomeCell(c, k, f)
    decreases c, 0, k
  {
    if k > 0 {
      TableFoundIff(c, k - 1, fields, f);
      FoundIffPresent(c.cells[k - 1], fields, f);
      InSomeCellSnoc(c, k, f);
      assert TableFields(c, k, fields) == TableFields(c, k - 1, fields) + FieldsInContent(c.cells[k - 1], fields);
    }
  }

  /** The placeholder of `field` occurs in one of the first `k` cells. */
  predicate InSomeCell(c: Content, k: nat, field: string)
    requires k <= |c.cells|
  {
    exists i :: 0 <= i < k && PlaceholderIn(c.cells[i], field)
  }

  lemma InSomeCellSnoc(c: Content, k: nat, field: string)
    requires 0 < k <= |c.cells|
    ensures InSomeCell(c, k, field) <==> InSomeCell(c, k - 1, field) || PlaceholderIn(c.cells[k - 1], field)
  {
    if InSomeCell(c, k, field) && !PlaceholderIn(c.cells[k - 1], field) {
      var i :| 0 <= i < k && PlaceholderIn(c.cells[i], field);
      assert i < k - 1;
    }
  }

  // ---------------------------------------------------------------------------
  // delete_section: which ranges are deleted

  function BeginTag(marker: string): string {
    "<BEGIN_" + marker + ">"
  }

  function EndTag(marker: string): string {
    "<END_" + marker + ">"
  }

  /** The paragraph elements of the body's contents, in order (tables are
      not searched). */
  function BodyElements(body: seq<Content>): seq<Element>
    decreases |body|
  {
    if body == [] then [] else BodyElements(body[..|body| - 1]) + body[|body| - 1].elements
  }

  /** The start and end of the last element holding each marker seen so far. */
  datatype Markers = Markers(begin: Option<(int, int)>, end: Option<(int, int)>)

  /** `element["startIndex"], element["endIndex"]`. */
  function IndexPair(e: Element): Result<(int, int)> {
    if e.startIndex.None? then Err(KeyMissing("startIndex"))
    else if e.endIndex.None? then Err(KeyMissing("endIndex"))
    else Ok((e.startIndex.value, e.endIndex.value))
  }

  /** One element of the loop: the begin marker is checked before the end
      marker, and a later element overwrites an earlier one. */
  function MarkerStep(m: Markers, e: Element, marker: string): Result<Markers> {
    if e.textRun.None? then Ok(m)
    else
      var m1 :- if HasText(e, BeginTag(marker)) then
        var p :- IndexPair(e); Ok(m.(begin := Some(p)))
      else Ok(m);
      if HasText(e, EndTag(marker)) then
        var p :- IndexPair(e); Ok(m1.(end := Some(p)))
      else Ok(m1)
  }

  function MarkerScan(els: seq<Element>, marker: string): Result<Markers>
    decreases |els|
  {
    if els == [] then Ok(Markers(None, None))
    else
      var m :- MarkerScan(els[..|els| - 1], marker);
      MarkerStep(m, els[|els| - 1], marker)
  }

  /** `all([...])` on the four indices: None and 0 both count as missing. */
  predicate AllPresent(m: Markers) {
    && m.begin.Some? && m.end.Some?
    && m.begin.value.0 != 0 && m.begin.value.1 != 0 && m.end.value.0 != 0 && m.end.value.1 != 0
  }

  /** Position `p` lies in one of the ranges. */
  predicate Deletes(ranges: seq<(int, int)>, p: int) {
    exists k :: 0 <= k < |ranges| && ranges[k].0 <= p < ranges[k].1
  }

  /** The ranges handed to `deleteContentRange`, in order. A request is
      made only when both markers were found and none of the four indices
      is 0; deleting the section takes one request and keeping it two. */
  function DeletionPlan(m: Markers, delete: bool): (ranges: seq<(int, int)>)
    ensures ranges != [] <==>
      && m.begin.Some? && m.end.Some?
      && 0 !in {m.begin.value.0, m.begin.value.1, m.end.value.0, m.end.value.1}
    ensures ranges != [] ==> |ranges| == (if delete then 1 else 2)
  {
    if !AllPresent(m) then []
    else if delete then [(m.begin.value.0, m.end.value.1)]
    else [m.end.value, m.begin.value]
  }

  /** The positions a plan deletes: deleting the section removes every
      position from the start of the begin marker to the end of the end
      marker; keeping it removes exactly the two markers' own positions. */
  lemma DeletedPositions(m: Markers, delete: bool, p: int)
    requires DeletionPlan(m, delete) != []
    ensures delete ==> (Deletes(DeletionPlan(m, delete), p) <==> m.begin.value.0 <= p < m.end.value.1)
    ensures !delete ==> (Deletes(DeletionPlan(m, delete), p)
                         <==> m.begin.value.0 <= p < m.begin.value.1 || m.end.value.0 <= p < m.end.value.1)
  {
    var ranges := DeletionPlan(m, delete);
    if delete {
      assert ranges[0] == (m.begin.value.0, m.end.value.1);
    } else {
      assert ranges[0] == m.end.value && ranges[1] == m.begin.value;
    }
  }

  /** `delete_section(document_id, marker, delete)` up to the request. */
  function SectionDeletion(body: seq<Content>, marker: string, delete: bool): Result<seq<(int, int)>> {
    var m :- MarkerScan(BodyElements(body), marker);
    Ok(DeletionPlan(m, delete))
  }

  /** The index of the last element whose text holds `tag`. */
  function LastTagged(els: seq<Element>, tag: string): (r: Option<nat>)
    ensures r.Some? ==> r.value < |els| && HasText(els[r.value], tag)
    ensures r.Some? ==> forall k :: r.value < k < |els| ==> !HasText(els[k], tag)
    ensures r.None? ==> forall k :: 0 <= k < |els| ==> !HasText(els[k], tag)
    decreases |els|
  {
    if els == [] then None
    else if HasText(els[|els| - 1], tag) then Some(|els| - 1)
    else LastTagged(els[..|els| - 1], tag)
  }

  /** The marker element the scan keeps: the last one holding the tag. */
  function TaggedSpan(els: seq<Element>, tag: string): Option<(int, int)> {
    match LastTagged(els, tag)
    case None => None
    case Some(j) => if IndexPair(els[j]).Ok? then Some(IndexPair(els[j]).value) else None
  }

  /** When the scan succeeds, each marker's indices are those of the last
      element that holds it. */
  lemma {:induction false} LastMarkerWins(els: seq<Element>, marker: string)
    ensures MarkerScan(els, marker).Ok? ==>
      && MarkerScan(els, marker).value.begin == TaggedSpan(els, BeginTag(marker))
      && MarkerScan(els, marker).value.end == TaggedSpan(els, EndTag(marker))
    decreases |els|
  {
    if els != [] {
      var init := els[..|els| - 1];
      LastMarkerWins(init, marker);
      LastTaggedSnoc(init, els[|els| - 1], BeginTag(marker));
      LastTaggedSnoc(init, els[|els| - 1], EndTag(marker));
    }
  }

  lemma LastTaggedSnoc(init: seq<Element>, e: Element, tag: string)
    ensures TaggedSpan(init + [e], tag) ==
      if HasText(e, tag) then (if IndexPair(e).Ok? then Some(IndexPair(e).value) else None)
      else TaggedSpan(init, tag)
  {
    assert (init + [e])[..|init|] == init;
  }

  /** A marker element without its indices stops the scan with KeyError. */
  lemma MarkerWithoutIndex(els: seq<Element>, marker: string, e: Element)
    requires MarkerScan(els, marker).Ok?
    requires HasText(e, BeginTag(marker)) && e.startIndex.None?
    ensures MarkerScan(els + [e], marker) == Err(KeyMissing("startIndex"))
  {
    assert (els + [e])[..|els|] == els;
  }

  /** Keeping the section deletes the end marker first: with the markers in
      document order, that range lies after the begin marker's, so the
      begin marker's indices are still right when it is deleted. */
  lemma KeepDeletesBackToFront(m: Markers)
    requires AllPresent(m)
    requires m.begin.value.0 <= m.begin.value.1 <= m.end.value.0 <= m.end.value.1
    ensures |DeletionPlan(m, false)| == 2
    ensures DeletionPlan(m, false)[1].1 <= DeletionPlan(m, false)[0].0
  {
  }

  /** A marker at index 0 reads as missing and nothing is deleted. */
  lemma MarkerAtZeroDeletesNothing(m: Markers, delete: bool)
    requires m.begin.Some? && m.begin.value.0 == 0
    ensures DeletionPlan(m, delete) == []
  {
  }

  /** `delete_section`'s loops: the contents, then each paragraph's elements. */
  method DeleteSection(body: seq<Content>, marker: string, delete: bool) returns (r: Result<seq<(int, int)>>)
    ensures r == SectionDeletion(body, marker, delete)
  {
    var m := Markers(None, None);
    var i := 0;
    while i < |body|
      invariant i <= |body|
      invariant MarkerScan(BodyElements(body[..i]), marker) == Ok(m)
    {
      var done := BodyElements(body[..i]);
      var els := body[i].elements;
      assert body[..i + 1][..i] == body[..i];
      assert BodyElements(body[..i + 1]) == done + els;
      var j := 0;
      assert done + els[..0] == done;
      while j < |els|
        invariant j <= |els|
        invariant MarkerScan(done + els[..j], marker) == Ok(m)
      {
        var before := done + els[..j];
        assert (before + [els[j]])[..|before|] == before;
        assert done + els[..j + 1] == before + [els[j]];
        var step := MarkerStep(m, els[j], marker);
        if step.Err? {
          ScanFailsOnward(body, i, j, marker);
          return Err(step.error);
        }
        m := step.value;
        j := j + 1;
      }
      assert els[..j] == els;
      i := i + 1;
    }
    assert body[..i] == body;
    return Ok(DeletionPlan(m, delete));
  }

  /** The scan of the whole body fails as soon as element `j` of content
      `i` fails. */
  lemma ScanFailsOnward(body: seq<Content>, i: nat, j: nat, marker: string)
    requires i < |body| && j < |body[i].elements|
    requires MarkerScan(BodyElements(body[..i]) + body[i].elements[..j + 1], marker).Err?
    ensures MarkerScan(BodyElements(body), marker) == MarkerScan(BodyElements(body[..i]) + body[i].elements[..j + 1], marker)
  {
    var els := body[i].elements;
    var head := BodyElements(body[..i]) + els[..j + 1];
    ScanStaysFailed(head, els[j + 1..], marker);
    assert els == els[..j + 1] + els[j + 1..];
    assert head + els[j + 1..] == BodyElements(body[..i]) + els;
    assert body[..i + 1][..i] == body[..i];
    ScanStaysFailed(BodyElements(body[..i + 1]), BodyElements(body[i + 1..]), marker);
    BodyElementsSplit(body, i + 1);
  }

  /** Once the scan has failed, more elements do not change the error. */
  lemma {:induction false} ScanStaysFailed(els: seq<Element>, more: seq<Element>, marker: string)
    requires MarkerScan(els, marker).Err?
    ensures MarkerScan(els + more, marker) == MarkerScan(els, marker)
    decreases |more|
  {
    if more == [] {
      assert els + more == els;
    } else {
      var init := more[..|more| - 1];
      ScanStaysFailed(els, init, marker);
      assert (els + more)[..|els + more| - 1] == els + init;
    }
  }

  lemma {:induction false} BodyElementsSplit(body: seq<Content>, i: nat)
    requires i <= |body|
    ensures BodyElements(body) == BodyElements(body[..i]) + BodyElements(body[i..])
    decreases |body| - i
  {
    if i < |body| {
      BodyElementsSplit(body, i + 1);
      assert body[..i + 1][..i] == body[..i];
      BodyElementsCons(body[i], body[i + 1..]);
      assert body[i..] == [body[i]] + body[i + 1..];
    } else {
      assert body[..i] == body;
    }
  }

  lemma {:induction false} BodyElementsCons(c: Content, rest: seq<Content>)
    ensures BodyElements([c] + rest) == c.elements + BodyElements(rest)
    decreases |rest|
  {
    if rest != [] {
      var init := rest[..|rest| - 1];
      BodyElementsCons(c, init);
      assert ([c] + rest)[..|rest|] == [c] + init;
    } else {
      assert BodyElements([c]) == BodyElements([]) + c.elements;
    }
  }
}
