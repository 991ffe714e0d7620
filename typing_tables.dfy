/** The typing game's spelling tables, the single-kana table and the
    two-kana table, and the facts about them that the matcher relies on.
    Kana are matched by code point; each case names its kana. */
module TypingTables {
  import opened Romaji

  /** The single-kana table, with `[]` for a kana it lacks (the source's
      `KANA_TABLE[kana] || []`), in the source's order. */
  function StandardRomaji(kana: char): seq<Spelling>
  {
    match kana as int
    case 0x3042 => ["A"]  // あ
    case 0x3044 => ["I", "YI"]  // い
    case 0x3046 => ["U", "WU", "WHU"]  // う
    case 0x3048 => ["E"]  // え
    case 0x304A => ["O"]  // お
    case 0x304B => ["KA", "CA"]  // か
    case 0x304D => ["KI"]  // き
    case 0x304F => ["KU", "CU", "QU"]  // く
    case 0x3051 => ["KE"]  // け
    case 0x3053 => ["KO", "CO"]  // こ
    case 0x3055 => ["SA"]  // さ
    case 0x3057 => ["SHI", "SI", "CI"]  // し
    case 0x3059 => ["SU"]  // す
    case 0x305B => ["SE", "CE"]  // せ
    case 0x305D => ["SO"]  // そ
    case 0x305F => ["TA"]  // た
    case 0x3061 => ["CHI", "TI"]  // ち
    case 0x3064 => ["TSU", "TU"]  // つ
    case 0x3066 => ["TE"]  // て
    case 0x3068 => ["TO"]  // と
    case 0x306A => ["NA"]  // な
    case 0x306B => ["NI"]  // に
    case 0x306C => ["NU"]  // ぬ
    case 0x306D => ["NE"]  // ね
    case 0x306E => ["NO"]  // の
    case 0x306F => ["HA"]  // は
    case 0x3072 => ["HI"]  // ひ
    case 0x3075 => ["FU", "HU"]  // ふ
    case 0x3078 => ["HE"]  // へ
    case 0x307B => ["HO"]  // ほ
    case 0x307E => ["MA"]  // ま
    case 0x307F => ["MI"]  // み
    case 0x3080 => ["MU"]  // む
    case 0x3081 => ["ME"]  // め
    case 0x3082 => ["MO"]  // も
    case 0x3084 => ["YA"]  // や
    case 0x3086 => ["YU"]  // ゆ
    case 0x3088 => ["YO"]  // よ
    case 0x3089 => ["RA"]  // ら
    case 0x308A => ["RI"]  // り
    case 0x308B => ["RU"]  // る
    case 0x308C => ["RE"]  // れ
    case 0x308D => ["RO"]  // ろ
    case 0x308F => ["WA"]  // わ
    case 0x3092 => ["WO"]  // を
    case 0x3093 => ["N", "NN", "N'"]  // ん
    case 0x304C => ["GA"]  // が
    case 0x304E => ["GI"]  // ぎ
    case 0x3050 => ["GU"]  // ぐ
    case 0x3052 => ["GE"]  // げ
    case 0x3054 => ["GO"]  // ご
    case 0x3056 => ["ZA"]  // ざ
    case 0x3058 => ["JI", "ZI"]  // じ
    case 0x305A => ["ZU"]  // ず
    case 0x305C => ["ZE"]  // ぜ
    case 0x305E => ["ZO"]  // ぞ
    case 0x3060 => ["DA"]  // だ
    case 0x3062 => ["JI", "DI"]  // ぢ
    case 0x3065 => ["ZU", "DU"]  // づ
    case 0x3067 => ["DE"]  // で
    case 0x3069 => ["DO"]  // ど
    case 0x3070 => ["BA"]  // ば
    case 0x3073 => ["BI"]  // び
    case 0x3076 => ["BU"]  // ぶ
    case 0x3079 => ["BE"]  // べ
    case 0x307C => ["BO"]  // ぼ
    case 0x3071 => ["PA"]  // ぱ
    case 0x3074 => ["PI"]  // ぴ
    case 0x3077 => ["PU"]  // ぷ
    case 0x307A => ["PE"]  // ぺ
    case 0x307D => ["PO"]  // ぽ
    case 0x3041 => ["XA", "LA"]  // ぁ
    case 0x3043 => ["XI", "LI"]  // ぃ
    case 0x3045 => ["XU", "LU"]  // ぅ
    case 0x3047 => ["XE", "LE"]  // ぇ
    case 0x3049 => ["XO", "LO"]  // ぉ
    case 0x3083 => ["XYA", "LYA"]  // ゃ
    case 0x3085 => ["XYU", "LYU"]  // ゅ
    case 0x3087 => ["XYO", "LYO"]  // ょ
    case 0x3063 => ["XTU", "LTU", "TSU", "TU"]  // っ
    case 0x30FC => ["-"]  // ー
    case _ => []
  }

  /** The two-kana table, keyed by a kana and the kana after it, with `[]`
      for a pair it lacks. */
  function ComboRomaji(kana: char, next: char): seq<Spelling>
  {
    match (kana as int, next as int)
    case (0x304D, 0x3083) => ["KYA"]  // きゃ
    case (0x304D, 0x3085) => ["KYU"]  // きゅ
    case (0x304D, 0x3087) => ["KYO"]  // きょ
    case (0x3057, 0x3083) => ["SYA", "SHA"]  // しゃ
    case (0x3057, 0x3085) => ["SYU", "SHU"]  // しゅ
    case (0x3057, 0x3087) => ["SYO", "SHO"]  // しょ
    case (0x3061, 0x3083) => ["TYA", "CHA"]  // ちゃ
    case (0x3061, 0x3085) => ["TYU", "CHU"]  // ちゅ
    case (0x3061, 0x3087) => ["TYO", "CHO"]  // ちょ
    case (0x306B, 0x3083) => ["NYA"]  // にゃ
    case (0x306B, 0x3085) => ["NYU"]  // にゅ
    case (0x306B, 0x3087) => ["NYO"]  // にょ
    case (0x3072, 0x3083) => ["HYA"]  // ひゃ
    case (0x3072, 0x3085) => ["HYU"]  // ひゅ
    case (0x3072, 0x3087) => ["HYO"]  // ひょ
    case (0x307F, 0x3083) => ["MYA"]  // みゃ
    case (0x307F, 0x3085) => ["MYU"]  // みゅ
    case (0x307F, 0x3087) => ["MYO"]  // みょ
    case (0x308A, 0x3083) => ["RYA"]  // りゃ
    case (0x308A, 0x3085) => ["RYU"]  // りゅ
    case (0x308A, 0x3087) => ["RYO"]  // りょ
    case (0x304E, 0x3083) => ["GYA"]  // ぎゃ
    case (0x304E, 0x3085) => ["GYU"]  // ぎゅ
    case (0x304E, 0x3087) => ["GYO"]  // ぎょ
    case (0x3058, 0x3083) => ["JYA", "JA", "ZYA"]  // じゃ
    case (0x3058, 0x3085) => ["JYU", "JU", "ZYU"]  // じゅ
    case (0x3058, 0x3087) => ["JYO", "JO", "ZYO"]  // じょ
    case (0x3073, 0x3083) => ["BYA"]  // びゃ
    case (0x3073, 0x3085) => ["BYU"]  // びゅ
    case (0x3073, 0x3087) => ["BYO"]  // びょ
    case (0x3074, 0x3083) => ["PYA"]  // ぴゃ
    case (0x3074, 0x3085) => ["PYU"]  // ぴゅ
    case (0x3074, 0x3087) => ["PYO"]  // ぴょ
    case (0x3075, 0x3041) => ["FA"]  // ふぁ
    case (0x3075, 0x3043) => ["FI"]  // ふぃ
    case (0x3075, 0x3047) => ["FE"]  // ふぇ
    case (0x3075, 0x3049) => ["FO"]  // ふぉ
    case (0x3046, 0x3043) => ["WI"]  // うぃ
    case (0x3046, 0x3047) => ["WE"]  // うぇ
    case _ => []
  }

  /** The tables the game plays with. */
  const SourceTables: Tables := Tables(StandardRomaji, ComboRomaji)

  /** What the matcher needs of one kana's spellings. */
  predicate KanaEntryOk(rs: seq<Spelling>)
  {
    EntriesWellFormed(rs) && (rs != [] ==> NoProperPrefixAmong(rs[0], rs))
  }

  /** What the matcher needs of one pair's spellings, given the spellings
      of the pair's first kana `k` alone. */
  predicate ComboEntryOk(k: char, rs: seq<Spelling>, singles: seq<Spelling>)
  {
    EntriesWellFormed(rs) &&
    (rs != [] ==> k != SmallTsu && NoProperPrefixAmong(rs[0], rs) && NoProperPrefixAmong(rs[0], singles))
  }

  /** The single-kana entries, a block of code points at a time. */
  lemma KanaBlockOk3000(k: char)
    requires k as int < 0x3048
    ensures KanaEntryOk(StandardRomaji(k))
  {
  }

  lemma KanaBlockOk3048(k: char)
    requires 0x3048 <= k as int < 0x3050
    ensures KanaEntryOk(StandardRomaji(k))
  {
  }

  lemma KanaBlockOk3050(k: char)
    requires 0x3050 <= k as int < 0x3060
    ensures KanaEntryOk(StandardRomaji(k))
  {
  }

  lemma KanaBlockOk3060(k: char)
    requires 0x3060 <= k as int < 0x3070
    ensures KanaEntryOk(StandardRomaji(k))
  {
  }

  lemma KanaBlockOk3070(k: char)
    requires 0x3070 <= k as int < 0x3080
    ensures KanaEntryOk(StandardRomaji(k))
  {
  }

  lemma KanaBlockOk3080(k: char)
    requires 0x3080 <= k as int < 0x3090
    ensures KanaEntryOk(StandardRomaji(k))
  {
  }

  lemma KanaBlockOk3090(k: char)
    requires 0x3090 <= k as int
    ensures KanaEntryOk(StandardRomaji(k))
  {
  }

  /** Every single-kana entry is well formed and its first spelling is
      never completed early by another. */
  lemma StandardRomajiOk(k: char)
    ensures KanaEntryOk(StandardRomaji(k))
  {
    if k as int < 0x3048 {
      KanaBlockOk3000(k);
    } else if k as int < 0x3050 {
      KanaBlockOk3048(k);
    } else if k as int < 0x3060 {
      KanaBlockOk3050(k);
    } else if k as int < 0x3070 {
      KanaBlockOk3060(k);
    } else if k as int < 0x3080 {
      KanaBlockOk3070(k);
    } else if k as int < 0x3090 {
      KanaBlockOk3080(k);
    } else {
      KanaBlockOk3090(k);
    }
  }

  /** The pair entries, a block of first-kana code points at a time. */
  lemma ComboBlockOk3000(k: char, n: char)
    requires k as int < 0x3058
    ensures ComboEntryOk(k, ComboRomaji(k, n), StandardRomaji(k))
  {
  }

  lemma ComboBlockOk3058(k: char, n: char)
    requires 0x3058 <= k as int < 0x3072
    ensures ComboEntryOk(k, ComboRomaji(k, n), StandardRomaji(k))
  {
  }

  lemma ComboBlockOk3072(k: char, n: char)
    requires 0x3072 <= k as int
    ensures ComboEntryOk(k, ComboRomaji(k, n), StandardRomaji(k))
  {
  }

  /** Every pair entry is well formed, no pair starts with a small tsu, and
      a pair's first spelling is completed early neither by another
      spelling of the pair nor by a spelling of its first kana alone. */
  lemma ComboRomajiOk(k: char, n: char)
    ensures ComboEntryOk(k, ComboRomaji(k, n), StandardRomaji(k))
  {
    if k as int < 0x3058 {
      ComboBlockOk3000(k, n);
    } else if k as int < 0x3072 {
      ComboBlockOk3058(k, n);
    } else {
      ComboBlockOk3072(k, n);
    }
  }

  /** The game's tables meet what the matcher relies on. */
  lemma SourceTablesOk()
    ensures TablesOk(SourceTables)
  {
    forall k ensures KanaEntryOk(SourceTables.kana(k)) {
      StandardRomajiOk(k);
    }
    forall k, n ensures ComboEntryOk(k, SourceTables.combo(k, n), SourceTables.kana(k)) {
      ComboRomajiOk(k, n);
    }
  }

  /** Worked examples on the game's tables. */
  lemma PairSpellingsComeFirst()
    ensures Candidates(SourceTables, "しゃ", 0) == ["SYA", "SHA", "SHI", "SI", "CI"]
  {
  }

  lemma SmallTsuDoublesTheNextConsonant()
    ensures Candidates(SourceTables, "っち", 0) == ["C", "T", "XTU", "LTU", "TSU", "TU"]
  {
    assert ComboPart(SourceTables, "っち", 0) == [];
    DoublesOfChi();
    SpellingsOfSmallTsu();
  }

  /** The doubled consonants offered before ち. */
  lemma DoublesOfChi()
    ensures SokuonPart(SourceTables, "っち", 0) == ["C", "T"]
  {
    var s := "っち";
    assert s[0] == SmallTsu && s[1] == 'ち';
    SpellingsOfChi();
    DoublingOfChi();
    assert Singletons("CT") == ["C", "T"];
  }

  lemma SpellingsOfChi()
    ensures SourceTables.kana('ち') == ["CHI", "TI"]
  {
  }

  lemma DoublingOfChi()
    ensures DoublingLetters(["CHI", "TI"]) == "CT"
  {
    assert IsDoublingConsonant('C') by { assert DoublingConsonants[1] == 'C'; }
    assert IsDoublingConsonant('T') by { assert DoublingConsonants[15] == 'T'; }
    assert ["CHI", "TI"][..1] == ["CHI"];
  }

  lemma SpellingsOfSmallTsu()
    ensures SourceTables.kana('っ') == ["XTU", "LTU", "TSU", "TU"]
  {
  }

  lemma DefaultSpellingOfSmallTsu()
    ensures DefaultString(SourceTables, "っち", 0) == "CCHI"
  {
  }

  lemma SingleNCommitsAtOnce()
    ensures Step(SourceTables, "ほん", Cursor(1, "", "HO"), 'N') == StepResult(Done, Cursor(2, "", "HON"))
  {
    var cands := Candidates(SourceTables, "ほん", 1);
    assert cands == ["N", "NN", "N'"];
    WithPrefixMembers(cands, "N");
    assert "" + ['N'] == "N" && "HO" + "N" == "HON";
    assert "N" in WithPrefix(cands, "N");
    assert ConsumedCount(SourceTables, "ほん", "N", 1) == 1;
  }

  lemma DefaultSpellingOfGakkou()
    ensures DefaultString(SourceTables, "がっこう", 0) == "GAKKOU"
  {
    var s := "がっこう";
    GakkouChunks();
    assert DefaultString(SourceTables, s, 4) == "";
    assert DefaultString(SourceTables, s, 3) == "U";
    assert DefaultString(SourceTables, s, 2) == "KOU";
    assert DefaultString(SourceTables, s, 1) == "KKOU";
  }

  /** The chunks of がっこう: が, the doubled K of the small tsu, こ and う. */
  lemma GakkouChunks()
    ensures DefaultChunk(SourceTables, "がっこう", 0) == ("GA", 1)
    ensures DefaultChunk(SourceTables, "がっこう", 1) == ("K", 1)
    ensures DefaultChunk(SourceTables, "がっこう", 2) == ("KO", 1)
    ensures DefaultChunk(SourceTables, "がっこう", 3) == ("U", 1)
  {
    var s := "がっこう";
    assert s[0] == 'が' && s[1] == SmallTsu && s[2] == 'こ' && s[3] == 'う';
  }
}
