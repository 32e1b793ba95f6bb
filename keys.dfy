/** The keys of the dict `collect_fields` builds. Each key is one
    constructor; `Name` gives the string the source uses for it, which is
    also the placeholder name in the template. */
module FieldKeys {
  import opened Common

  datatype Key =
    // set by `collect_fields` itself
    | Date | FamilyProgramming
    // from the davening calendar
    | ParashaTitle | S1 | S2 | Host | Shacharit | Maftir | TorahMultiline | Torah | ParashaName
    | ParashaSixthAndSeventh | MaftirAliyah | HaftarahParasha | MiShebeyrachS1 | Musaf | DvarTorah
    | Greeter | NextMeetingDate | NextMeetingTime | ThankYouHost | ThankYouShamash
    | ThankYouShacharit | ThankYouTorah | ThankYouHaftarah | ThankYouMusaf | ThankYouTeaching
    | ThankYouGreeter
    // from the kiddush and scotch sheets
    | KiddushVolunteer | KiddushSponsor | ScotchSponsor | ThankYouKiddushVolunteer
    // from the leyning
    | ParashaBookEnglish | ParashaBook | ParashaChapter | ParashaVerse | FourthAliyahChapter
    | FourthAliyahVerse | SeventhAliyahChapter | SeventhAliyahVerse | MaftirBookEnglish
    | MaftirBook | MaftirChapter | MaftirVerse | MaftirHanukkahNote | HaftarahBookEnglish
    | HaftarahBook | HaftarahChapter | HaftarahVerse
    // the standing-aliyah leyners
    | TenCommandmentsLeyner | LastParashaLeyner | ShiratHayamLeyner
    // from the special-Shabbat record
    | MaftirHanukkahDay | HaftarahNote | Omer | BirkatHachodeshMonth | BirkatHachodeshDay | Notes
    // from the page-number sheet
    | MaftirEtzHayim | MaftirHertz | ParashaEtzHayim | ParashaHertz | HaftarahEtzHayim
    | HaftarahHertz | MiShebeyrachList

  /** The values of the dict; a value is None where the source stores
      Python's None. */
  type Fields = map<Key, Option<string>>

  /** Key `k` holds the same in `f` and `g`. */
  predicate SameAt(f: Fields, g: Fields, k: Key) {
    (k in f <==> k in g) && (k in f ==> f[k] == g[k])
  }

  /** `dict.update` leaves a key the update does not hold as it was. */
  lemma UpdateKeeps(f: Fields, g: Fields, k: Key)
    requires k !in g
    ensures SameAt(f + g, f, k)
  {
  }

  /** `dict.update` writes every key the update holds. */
  lemma UpdateWins(f: Fields, g: Fields, k: Key)
    requires k in g
    ensures k in f + g && (f + g)[k] == g[k]
  {
  }

  /** The key as the source spells it. */
  function Name(k: Key): string {
    match k
    case Date => "date"
    case FamilyProgramming => "family_programming"
    case ParashaTitle => "parasha_title"
    case S1 => "s1"
    case S2 => "s2"
    case Host => "host"
    case Shacharit => "shacharit"
    case Maftir => "maftir"
    case TorahMultiline => "torah_multiline"
    case Torah => "torah"
    case ParashaName => "parasha_name"
    case ParashaSixthAndSeventh => "parasha_sixth_and_seventh"
    case MaftirAliyah => "maftir_aliyah"
    case HaftarahParasha => "haftarah_parasha"
    case MiShebeyrachS1 => "mi_shebeyrach_s1"
    case Musaf => "musaf"
    case DvarTorah => "dvar_torah"
    case Greeter => "greeter"
    case NextMeetingDate => "next_meeting_date"
    case NextMeetingTime => "next_meeting_time"
    case ThankYouHost => "thank_you_host"
    case ThankYouShamash => "thank_you_shamash"
    case ThankYouShacharit => "thank_you_shacharit"
    case ThankYouTorah => "thank_you_torah"
    case ThankYouHaftarah => "thank_you_haftarah"
    case ThankYouMusaf => "thank_you_musaf"
    case ThankYouTeaching => "thank_you_teaching"
    case ThankYouGreeter => "thank_you_greeter"
    case KiddushVolunteer => "kiddush_volunteer"
    case KiddushSponsor => "kiddush_sponsor"
    case ScotchSponsor => "scotch_sponsor"
    case ThankYouKiddushVolunteer => "thank_you_kiddush_volunteer"
    case ParashaBookEnglish => "parasha_book_english"
    case ParashaBook => "parasha_book"
    case ParashaChapter => "parasha_chapter"
    case ParashaVerse => "parasha_verse"
    case FourthAliyahChapter => "fourth_aliyah_chapter"
    case FourthAliyahVerse => "fourth_aliyah_verse"
    case SeventhAliyahChapter => "seventh_aliyah_chapter"
    case SeventhAliyahVerse => "seventh_aliyah_verse"
    case MaftirBookEnglish => "maftir_book_english"
    case MaftirBook => "maftir_book"
    case MaftirChapter => "maftir_chapter"
    case MaftirVerse => "maftir_verse"
    case MaftirHanukkahNote => "maftir_hanukkah_note"
    case HaftarahBookEnglish => "haftarah_book_english"
    case HaftarahBook => "haftarah_book"
    case HaftarahChapter => "haftarah_chapter"
    case HaftarahVerse => "haftarah_verse"
    case TenCommandmentsLeyner => "ten_commandments_leyner"
    case LastParashaLeyner => "last_parasha_leyner"
    case ShiratHayamLeyner => "shirat_hayam_leyner"
    case MaftirHanukkahDay => "maftir_hanukkah_day"
    case HaftarahNote => "haftarah_note"
    case Omer => "omer"
    case BirkatHachodeshMonth => "birkat_hachodesh_month"
    case BirkatHachodeshDay => "birkat_hachodesh_day"
    case Notes => "notes"
    case MaftirEtzHayim => "maftir_etz_hayim"
    case MaftirHertz => "maftir_hertz"
    case ParashaEtzHayim => "parasha_etz_hayim"
    case ParashaHertz => "parasha_hertz"
    case HaftarahEtzHayim => "haftarah_etz_hayim"
    case HaftarahHertz => "haftarah_hertz"
    case MiShebeyrachList => "mi_shebeyrach_list"
  }

  lemma MaftirBookName()
    ensures Name(MaftirBookEnglish) == "maftir_book_english"
  {
  }
}
