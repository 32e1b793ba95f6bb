/** `collect_leyning_fields`: the calendar service's leyning for the Shabbat
    turned into the book, chapter and verse where the first, fourth and
    seventh aliyot, the maftir and the haftarah start. The service's answer
    is an input: its items in order, each with its leyning dict (aliyah to
    source text, in the order the service lists them) when it has one. */
module Leyning {
  import opened Common
  import opened FieldKeys
  import opened Text
  import opened Tables

  datatype LeyningItem = LeyningItem(leyning: Option<seq<(string, string)>>)

  /** Where a reading starts: the book as the service spells it, then
      chapter and verse. */
  datatype Start = Start(book: string, chapter: string, verse: string)

  /** `book, start = source.split("-")[0].rsplit(None, 1)` then
      `start_chapter, start_verse = start.split(":")`; either unpacking
      raises when the part count is not two. */
  function ParseSource(source: string): (r: Result<Start>)
    ensures r.Err? ==> r.error.UnpackMismatch?
    ensures r.Ok? ==> r.value.book != "" && ':' !in r.value.chapter && ':' !in r.value.verse
  {
    var parts := RSplitOnce(Split(source, '-')[0]);
    if |parts| != 2 then Err(UnpackMismatch("book, start"))
    else
      var cv := Split(parts[1], ':');
      if |cv| != 2 then Err(UnpackMismatch("start_chapter, start_verse"))
      else Ok(Start(parts[0], cv[0], cv[1]))
  }

  /** A source written "Book C:V", optionally followed by "-" and the end of
      the reading, is read back as that book, chapter and verse. */
  lemma ParseSourceRoundTrip(book: string, chapter: string, verse: string, rest: string)
    requires book != [] && !IsSpace(book[|book| - 1]) && '-' !in book
    requires forall c :: c in chapter + verse ==> !IsSpace(c) && c != ':' && c != '-'
    requires rest == [] || rest[0] == '-'
    ensures ParseSource(book + " " + chapter + ":" + verse + rest) == Ok(Start(book, chapter, verse))
  {
    var start := chapter + ":" + verse;
    var head := book + " " + start;
    assert forall c :: c in chapter ==> c in chapter + verse;
    assert forall c :: c in verse ==> c in chapter + verse;
    assert forall c :: c in start ==> c in chapter || c == ':' || c in verse;
    assert '-' !in head by {
      assert forall c :: c in head ==> c in book || c == ' ' || c in start;
    }
    if rest == [] {
      assert book + " " + chapter + ":" + verse + rest == head;
      SplitNoSeparator(head, '-');
    } else {
      assert book + " " + chapter + ":" + verse + rest == head + ['-'] + rest[1..];
      SplitHead(head, '-', rest[1..]);
    }
    assert book + " " + chapter + ":" + verse == book + " " + start;
    RSplitOnceJoin(book, start);
    assert start == chapter + [':'] + verse;
    SplitTwo(chapter, ':', verse);
  }

  /** The aliyot the collector reads; every other entry is skipped unparsed. */
  const ReadAliyot := {"1", "4", "7", "maftir", "haftarah"}

  /** `BOOKS[book]`, a KeyError for a book missing from the table. */
  function BookName(book: string): (r: Result<string>)
    ensures r.Ok? <==> book in Books
    ensures r.Err? ==> r.error == KeyMissing(book)
    ensures r.Ok? ==> r.value == Books[book]
  {
    if book in Books then Ok(Books[book]) else Err(KeyMissing(book))
  }

  /** The fields one (aliyah, source) entry writes. */
  function AliyahFields(aliyah: string, source: string): (r: Result<Fields>)
    ensures aliyah !in ReadAliyot ==> r == Ok(map[])
  {
    if aliyah !in ReadAliyot then Ok(map[])
    else
      var st :- ParseSource(source);
      StartFields(aliyah, st)
  }

  /** The start of the reading stored under the keys of `aliyah`. */
  function StartFields(aliyah: string, st: Start): Result<Fields> {
    if aliyah == "1" then
      var name :- BookName(st.book);
      Ok(map[ParashaBookEnglish := Some(st.book), ParashaBook := Some(name),
             ParashaChapter := Some(st.chapter), ParashaVerse := Some(st.verse)])
    else if aliyah == "4" then
      Ok(map[FourthAliyahChapter := Some(st.chapter), FourthAliyahVerse := Some(st.verse)])
    else if aliyah == "7" then
      Ok(map[SeventhAliyahChapter := Some(st.chapter), SeventhAliyahVerse := Some(st.verse)])
    else if aliyah == "maftir" then
      var name :- BookName(st.book);
      Ok(map[MaftirBookEnglish := Some(st.book), MaftirBook := Some(name),
             MaftirChapter := Some(st.chapter), MaftirVerse := Some(st.verse),
             MaftirHanukkahNote := Some(st.verse)])
    else
      var name :- BookName(st.book);
      Ok(map[HaftarahBookEnglish := Some(st.book), HaftarahBook := Some(name),
             HaftarahChapter := Some(st.chapter), HaftarahVerse := Some(st.verse)])
  }

  /** A book the table lacks makes the first aliyah, the maftir and the
      haftarah raise KeyError; the fourth and seventh aliyot never look the
      book up. */
  lemma MissingBook(aliyah: string, source: string)
    requires ParseSource(source).Ok? && ParseSource(source).value.book !in Books
    ensures aliyah in {"1", "maftir", "haftarah"} ==>
      AliyahFields(aliyah, source) == Err(KeyMissing(ParseSource(source).value.book))
    ensures aliyah in {"4", "7"} ==> AliyahFields(aliyah, source).Ok?
  {
  }

  // ---------------------------------------------------------------------------
  // The loops over items and entries

  /** The entries of one leyning dict applied in order to `f`; the first
      entry that raises stops the loop. */
  function EntriesFields(f: Fields, entries: seq<(string, string)>): Result<Fields>
    decreases |entries|
  {
    if entries == [] then Ok(f)
    else
      var g :- EntriesFields(f, entries[..|entries| - 1]);
      var last := entries[|entries| - 1];
      var h :- AliyahFields(last.0, last.1);
      Ok(g + h)
  }

  /** The fields of all items, later entries overwriting earlier ones. */
  function LeyningFields(items: seq<LeyningItem>): Result<Fields>
    decreases |items|
  {
    if items == [] then Ok(map[])
    else
      var f :- LeyningFields(items[..|items| - 1]);
      match items[|items| - 1].leyning
      case None => Ok(f)
      case Some(entries) => EntriesFields(f, entries)
  }

  /** An entry that raises ends the scan of its dict with that exception. */
  lemma {:induction false} EntriesFailOnward(f: Fields, entries: seq<(string, string)>, j: nat)
    requires j <= |entries| && EntriesFields(f, entries[..j]).Err?
    ensures EntriesFields(f, entries) == EntriesFields(f, entries[..j])
    decreases |entries| - j
  {
    if j < |entries| {
      assert entries[..j + 1][..j] == entries[..j];
      EntriesFailOnward(f, entries, j + 1);
    } else {
      assert entries[..j] == entries;
    }
  }

  /** An item that raises ends the whole collector with that exception. */
  lemma {:induction false} ItemsFailOnward(items: seq<LeyningItem>, i: nat)
    requires i <= |items| && LeyningFields(items[..i]).Err?
    ensures LeyningFields(items) == LeyningFields(items[..i])
    decreases |items| - i
  {
    if i < |items| {
      assert items[..i + 1][..i] == items[..i];
      ItemsFailOnward(items, i + 1);
    } else {
      assert items[..i] == items;
    }
  }

  /** `collect_leyning_fields`' outer loop: items without a leyning dict
      are skipped. */
  method CollectLeyningFields(items: seq<LeyningItem>) returns (r: Result<Fields>)
    ensures r == LeyningFields(items)
  {
    var fields: Fields := map[];
    var i := 0;
    while i < |items|
      invariant 0 <= i <= |items|
      invariant LeyningFields(items[..i]) == Ok(fields)
    {
      assert items[..i + 1][..i] == items[..i];
      if items[i].leyning.Some? {
        var step := ApplyEntries(fields, items[i].leyning.value);
        if step.Err? {
          ItemsFailOnward(items, i + 1);
          return Err(step.error);
        }
        fields := step.value;
      }
      i := i + 1;
    }
    assert items[..|items|] == items;
    return Ok(fields);
  }

  /** The inner loop over one leyning dict: aliyot it does not read are
      skipped. */
  method ApplyEntries(f: Fields, entries: seq<(string, string)>) returns (r: Result<Fields>)
    ensures r == EntriesFields(f, entries)
  {
    var fields := f;
    var j := 0;
    while j < |entries|
      invariant 0 <= j <= |entries|
      invariant EntriesFields(f, entries[..j]) == Ok(fields)
    {
      var (aliyah, source) := entries[j];
      assert entries[..j + 1][..j] == entries[..j];
      if aliyah in ReadAliyot {
        var step := AliyahFields(aliyah, source);
        if step.Err? {
          EntriesFailOnward(f, entries, j + 1);
          return Err(step.error);
        }
        fields := fields + step.value;
      } else {
        assert fields + map[] == fields;
      }
      j := j + 1;
    }
    assert entries[..|entries|] == entries;
    return Ok(fields);
  }

  // ---------------------------------------------------------------------------
  // The book names agree with the table

  /** The English name under `english` and the printed name under `printed`
      are both present or both absent, and the printed one is the table's
      transliteration of the English one. */
  predicate BookPair(f: Fields, english: Key, printed: Key) {
    && (english in f <==> printed in f)
    && (english in f ==> f[english].Some? && f[printed].Some? && BookName(f[english].value) == Ok(f[printed].value))
  }

  predicate BooksConsistent(f: Fields) {
    && BookPair(f, ParashaBookEnglish, ParashaBook)
    && BookPair(f, MaftirBookEnglish, MaftirBook)
    && BookPair(f, HaftarahBookEnglish, HaftarahBook)
  }

  lemma BookPairUnion(f: Fields, g: Fields, english: Key, printed: Key)
    requires BookPair(f, english, printed) && BookPair(g, english, printed)
    ensures BookPair(f + g, english, printed)
  {
  }

  lemma AliyahBooksConsistent(aliyah: string, source: string)
    ensures AliyahFields(aliyah, source).Ok? ==> BooksConsistent(AliyahFields(aliyah, source).value)
  {
    if aliyah in ReadAliyot && ParseSource(source).Ok? {
      StartBooksConsistent(aliyah, ParseSource(source).value);
    }
  }

  lemma StartBooksConsistent(aliyah: string, st: Start)
    ensures StartFields(aliyah, st).Ok? ==> BooksConsistent(StartFields(aliyah, st).value)
  {
    if StartFields(aliyah, st).Ok? {
      var f := StartFields(aliyah, st).value;
      if aliyah == "1" {
        assert f.Keys == {ParashaBookEnglish, ParashaBook, ParashaChapter, ParashaVerse};
      } else if aliyah == "4" || aliyah == "7" {
        assert ParashaBookEnglish !in f && MaftirBookEnglish !in f && HaftarahBookEnglish !in f;
      } else if aliyah == "maftir" {
        assert f.Keys == {MaftirBookEnglish, MaftirBook, MaftirChapter, MaftirVerse, MaftirHanukkahNote};
      } else {
        assert f.Keys == {HaftarahBookEnglish, HaftarahBook, HaftarahChapter, HaftarahVerse};
      }
    }
  }


  lemma {:induction false} EntriesBooksConsistent(f: Fields, entries: seq<(string, string)>)
    requires BooksConsistent(f)
    ensures EntriesFields(f, entries).Ok? ==> BooksConsistent(EntriesFields(f, entries).value)
    decreases |entries|
  {
    if entries != [] {
      var init := entries[..|entries| - 1];
      var last := entries[|entries| - 1];
      EntriesBooksConsistent(f, init);
      AliyahBooksConsistent(last.0, last.1);
      var g, h := EntriesFields(f, init), AliyahFields(last.0, last.1);
      if g.Ok? && h.Ok? {
        BookPairUnion(g.value, h.value, ParashaBookEnglish, ParashaBook);
        BookPairUnion(g.value, h.value, MaftirBookEnglish, MaftirBook);
        BookPairUnion(g.value, h.value, HaftarahBookEnglish, HaftarahBook);
      }
    }
  }

  /** Whatever the items, every printed book name the collector stores is
      the table's transliteration of the English name stored beside it. */
  lemma {:induction false} LeyningBooksConsistent(items: seq<LeyningItem>)
    ensures LeyningFields(items).Ok? ==> BooksConsistent(LeyningFields(items).value)
    decreases |items|
  {
    if items != [] {
      var init := items[..|items| - 1];
      LeyningBooksConsistent(init);
      var f := LeyningFields(init);
      if f.Ok? && items[|items| - 1].leyning.Some? {
        EntriesBooksConsistent(f.value, items[|items| - 1].leyning.value);
      }
    }
  }

  // ---------------------------------------------------------------------------
  // The keys the collector writes

  const LeyningKeys := {
    ParashaBookEnglish, ParashaBook, ParashaChapter, ParashaVerse,
    FourthAliyahChapter, FourthAliyahVerse, SeventhAliyahChapter, SeventhAliyahVerse,
    MaftirBookEnglish, MaftirBook, MaftirChapter, MaftirVerse, MaftirHanukkahNote,
    HaftarahBookEnglish, HaftarahBook, HaftarahChapter, HaftarahVerse}

  lemma StartKeys(aliyah: string, st: Start)
    ensures StartFields(aliyah, st).Ok? ==> StartFields(aliyah, st).value.Keys <= LeyningKeys
  {
  }

  lemma {:induction false} EntriesKeys(f: Fields, entries: seq<(string, string)>)
    requires f.Keys <= LeyningKeys
    ensures EntriesFields(f, entries).Ok? ==> EntriesFields(f, entries).value.Keys <= LeyningKeys
    decreases |entries|
  {
    if entries != [] {
      var last := entries[|entries| - 1];
      EntriesKeys(f, entries[..|entries| - 1]);
      AliyahKeys(last.0, last.1);
    }
  }

  lemma AliyahKeys(aliyah: string, source: string)
    ensures AliyahFields(aliyah, source).Ok? ==> AliyahFields(aliyah, source).value.Keys <= LeyningKeys
  {
    if aliyah in ReadAliyot && ParseSource(source).Ok? {
      StartKeys(aliyah, ParseSource(source).value);
    }
  }

  /** The collector writes only the book, chapter and verse keys of the
      readings it reads. */
  lemma {:induction false} LeyningKeysWithin(items: seq<LeyningItem>)
    ensures LeyningFields(items).Ok? ==> LeyningFields(items).value.Keys <= LeyningKeys
    decreases |items|
  {
    if items != [] {
      var init := items[..|items| - 1];
      LeyningKeysWithin(init);
      var f := LeyningFields(init);
      if f.Ok? && items[|items| - 1].leyning.Some? {
        EntriesKeys(f.value, items[|items| - 1].leyning.value);
      }
    }
  }

  /** Membership in `LeyningKeys`, by the key's constructor. */
  predicate LeyningKey(k: Key) {
    k.ParashaBookEnglish? || k.ParashaBook? || k.ParashaChapter? || k.ParashaVerse? || k.FourthAliyahChapter?
    || k.FourthAliyahVerse? || k.SeventhAliyahChapter? || k.SeventhAliyahVerse? || k.MaftirBookEnglish?
    || k.MaftirBook? || k.MaftirChapter? || k.MaftirVerse? || k.MaftirHanukkahNote? || k.HaftarahBookEnglish?
    || k.HaftarahBook? || k.HaftarahChapter? || k.HaftarahVerse?
  }

  /** A key outside the leyning keys is never written by the collector. */
  lemma LeyningLacks(items: seq<LeyningItem>, k: Key)
    requires !LeyningKey(k)
    ensures LeyningFields(items).Ok? ==> k !in LeyningFields(items).value
  {
    LeyningKeysWithin(items);
    LeyningKeyIff(k);
  }

  lemma LeyningKeyIff(k: Key)
    ensures LeyningKey(k) <==> k in LeyningKeys
  {
  }
}
