/** The builder's fixed tables: the initial placeholder vocabulary, the
    ordinal words and the transliteration of book names. */
module Tables {

  /** The placeholder names every template carries, before the classifier
      adds the ones a special Shabbat needs. */
  const InitialFields: seq<string> := [
    "date", "parasha_title", "s1", "s2", "host", "shacharit", "maftir", "torah",
    "parasha_name", "parasha_book", "parasha_chapter", "parasha_verse",
    "parasha_etz_hayim", "parasha_hertz", "fourth_aliyah_chapter", "fourth_aliyah_verse",
    "mi_shebeyrach_s1", "seventh_aliyah_chapter", "seventh_aliyah_verse", "maftir_aliyah",
    "haftarah_parasha", "haftarah_book", "haftarah_chapter", "haftarah_verse",
    "haftarah_etz_hayim", "haftarah_hertz", "musaf", "dvar_torah",
    "next_meeting_date", "next_meeting_time", "thank_you_shamash", "thank_you_shacharit",
    "thank_you_torah", "thank_you_haftarah", "thank_you_musaf", "thank_you_teaching",
    "thank_you_greeter", "thank_you_kiddush_volunteer", "kiddush_sponsor", "scotch_sponsor"
  ]

  const Ordinals: map<int, string> := map[
    1 := "first", 2 := "second", 3 := "third", 4 := "fourth",
    5 := "fifth", 6 := "sixth", 7 := "seventh", 8 := "eighth"
  ]

  /** English book name (as the calendar service spells it) to the name
      printed on the sheet. */
  const Books: map<string, string> := map[
    "Genesis" := "B’reshit",
    "Exodus" := "Sh’mot",
    "Leviticus" := "Vayikra",
    "Numbers" := "B’midbar",
    "Deuteronomy" := "D’varim",
    "Joshua" := "Yehoshua (Joshua)",
    "Judges" := "Shof’tim (Judges)",
    "I Samuel" := "Sh’muel Aleph (I Samuel)",
    "II Samuel" := "Sh’muel Bet (II Samuel)",
    "I Kings" := "M’lachim Aleph (I Kings)",
    "II Kings" := "M’lachim Bet (II Kings)",
    "Isaiah" := "Yeshayahu (Isaiah)",
    "Jeremiah" := "Yirm’yahu (Jeremiah)",
    "Ezekiel" := "Yechezkel (Ezekiel)",
    "Hosea" := "Hoshea (Hosea)",
    "Amos" := "Amos",
    "Micah" := "Mikhah (Micah)",
    "Obadiah" := "Ovadiah",
    "Habakkuk" := "Chavakkuk",
    "Zechariah" := "Zechariah",
    "Malachi" := "Malachi"
  ]

  /** The ordinal table covers exactly the days of Hanukkah. */
  lemma OrdinalsDomain()
    ensures forall n :: n in Ordinals <==> 1 <= n <= 8
  {
  }

  /** The transliteration table covers the five books of the Torah; "Joel",
      whose haftarah the Shuva rule writes out by hand, is not in it. */
  lemma BooksDomain()
    ensures "Genesis" in Books && "Exodus" in Books && "Leviticus" in Books
    ensures "Numbers" in Books && "Deuteronomy" in Books
    ensures "Joel" !in Books
  {
  }
}
