/** The bilingual label tables of src/utils/i18n.ts: display translation of
    German labels, and a canonical key for feature-class keywords. */
module I18n {
  import opened Text

  /** The German-to-English display dictionary. */
  const Dictionary: map<string, string> := map[
    "Applizieren" := "Applying",
    "Drucken" := "Printing",
    "Bereitstellen" := "Preparing",
    "Manipulieren" := "Manipulating",
    "Versetzen" := "Positioning",
    "Hauptprozess" := "Main Process",
    "Teilprozess" := "Sub-Process",
    "Etikett applizieren" := "Apply label",
    "Etikett drucken und bereitstellen" := "Print and prepare label",
    "Etikett aufnehmen und manipulieren" := "Pick up and manipulate label",
    "Versatz ermitteln" := "Determine offset",
    "Roboter" := "Robot",
    "Kamera" := "Camera",
    "Etikettendrucker" := "Label Printer",
    "Roboterfunktion" := "Robot Function",
    "Vision" := "Vision",
    "Vision-Job" := "Vision Job",
    "Software" := "Software",
    "SPS" := "PLC",
    "Baukasten" := "Modular System",
    "Baukasten (Modular System)" := "Modular System"
  ]

  /** The table folding German and English keywords to one lower-case key. */
  const Canonical: map<string, string> := map[
    "applizieren" := "applying",
    "applying" := "applying",
    "drucken" := "printing",
    "printing" := "printing",
    "bereitstellen" := "preparing",
    "preparing" := "preparing",
    "manipulieren" := "manipulating",
    "manipulating" := "manipulating",
    "versetzen" := "positioning",
    "positioning" := "positioning",
    "roboter" := "robot",
    "robot" := "robot",
    "kamera" := "camera",
    "camera" := "camera"
  ]

  /** `translateLabel`: the empty label stays empty; an exact, case-sensitive
      dictionary key gives its entry; anything else comes back unchanged. */
  function TranslateLabel(text: string): (r: string)
    ensures text == "" ==> r == ""
    ensures text in Dictionary ==> r == Dictionary[text]
    ensures text !in Dictionary ==> r == text
  {
    if text == "" then "" else if text in Dictionary then Dictionary[text] else text
  }

  /** The only translations that are themselves keys are "Vision" and "Software",
      and both map to themselves. */
  lemma TranslationsThatAreKeys()
    ensures forall k :: k in Dictionary && Dictionary[k] in Dictionary ==>
      Dictionary[k] in {"Vision", "Software"} && Dictionary[Dictionary[k]] == Dictionary[k]
  {
    DictionaryEntriesListed();
    EntriesNotKeys1();
    EntriesNotKeys2();
    EntriesNotKeys3();
    assert Dictionary["Vision"] == "Vision" && Dictionary["Software"] == "Software";
  }

  /** The entries of the dictionary. */
  const DictionaryEntries: set<string> :=
    {"Applying", "Printing", "Preparing", "Manipulating", "Positioning", "Main Process",
     "Sub-Process", "Apply label", "Print and prepare label", "Pick up and manipulate label",
     "Determine offset", "Robot", "Camera", "Label Printer", "Robot Function", "Vision",
     "Vision Job", "Software", "PLC", "Modular System"}

  lemma DictionaryEntriesListed()
    ensures forall k :: k in Dictionary ==> Dictionary[k] in DictionaryEntries
  {
  }

  // The entries other than "Vision" and "Software" are not keys, six at a time.

  lemma EntriesNotKeys1()
    ensures "Applying" !in Dictionary
    ensures "Printing" !in Dictionary
    ensures "Preparing" !in Dictionary
    ensures "Manipulating" !in Dictionary
    ensures "Positioning" !in Dictionary
    ensures "Main Process" !in Dictionary
  {
  }

  lemma EntriesNotKeys2()
    ensures "Sub-Process" !in Dictionary
    ensures "Apply label" !in Dictionary
    ensures "Print and prepare label" !in Dictionary
    ensures "Pick up and manipulate label" !in Dictionary
    ensures "Determine offset" !in Dictionary
    ensures "Robot" !in Dictionary
  {
  }

  lemma EntriesNotKeys3()
    ensures "Camera" !in Dictionary
    ensures "Label Printer" !in Dictionary
    ensures "Robot Function" !in Dictionary
    ensures "Vision Job" !in Dictionary
    ensures "PLC" !in Dictionary
    ensures "Modular System" !in Dictionary
  {
  }

  /** Translating twice is translating once. */
  lemma TranslateIdempotent(text: string)
    ensures TranslateLabel(TranslateLabel(text)) == TranslateLabel(text)
  {
    if text != "" && text in Dictionary {
      var v := Dictionary[text];
      if v in Dictionary {
        TranslationsThatAreKeys();
        assert Dictionary[v] == v;
      }
    }
  }

  /** `toCanonicalKeyword`: trims and lower-cases, then folds known German and
      English spellings to one key; the result is always trimmed and lower case,
      and an unknown word comes back trimmed and lower-cased. */
  function ToCanonicalKeyword(keyword: string): (r: string)
    ensures IsTrimmed(r) && Lower(r) == r
    ensures Lower(Trim(keyword)) in Canonical ==> r == Canonical[Lower(Trim(keyword))]
    ensures Lower(Trim(keyword)) !in Canonical ==> r == Lower(Trim(keyword))
  {
    var k := Lower(Trim(keyword));
    LowerIdempotent(Trim(keyword));
    CanonicalValuesInKeys();
    CanonicalKeysAreLowerWords();
    if k in Canonical then Canonical[k] else k
  }

  /** The seven canonical keys. */
  const CanonicalKeys: set<string> :=
    {"applying", "printing", "preparing", "manipulating", "positioning", "robot", "camera"}

  /** Every canonical key is itself a table key that maps to itself. */
  lemma CanonicalValuesAreKeys()
    ensures forall k :: k in Canonical ==> Canonical[k] in Canonical && Canonical[Canonical[k]] == Canonical[k]
  {
    CanonicalValuesInKeys();
    CanonicalKeysFixed();
  }

  /** Each canonical key maps to itself. */
  lemma CanonicalKeysFixed()
    ensures forall v :: v in CanonicalKeys ==> v in Canonical && Canonical[v] == v
  {
    assert Canonical["applying"] == "applying" && Canonical["printing"] == "printing";
    assert Canonical["preparing"] == "preparing" && Canonical["manipulating"] == "manipulating";
    assert Canonical["positioning"] == "positioning" && Canonical["robot"] == "robot";
    assert Canonical["camera"] == "camera";
  }

  lemma CanonicalValuesInKeys()
    ensures forall k :: k in Canonical ==> Canonical[k] in CanonicalKeys
  {
  }

  lemma CanonicalKeysAreLowerWords()
    ensures forall v :: v in CanonicalKeys ==> IsTrimmed(v) && Lower(v) == v
  {
    forall v | v in CanonicalKeys
      ensures IsTrimmed(v) && Lower(v) == v
    {
      assert forall i :: 0 <= i < |v| ==> 'a' <= v[i] <= 'z';
      LowerWord(v);
    }
  }

  /** A word of lower-case Basic Latin letters is trimmed and its own lower case. */
  lemma LowerWord(s: string)
    requires forall i :: 0 <= i < |s| ==> 'a' <= s[i] <= 'z'
    ensures IsTrimmed(s) && Lower(s) == s
  {
  }

  /** Canonicalising twice is canonicalising once. */
  lemma CanonicalIdempotent(keyword: string)
    ensures ToCanonicalKeyword(ToCanonicalKeyword(keyword)) == ToCanonicalKeyword(keyword)
  {
    var r := ToCanonicalKeyword(keyword);
    TrimOfTrimmed(r);
    CanonicalValuesAreKeys();
  }

  /** A capitalised word of Basic Latin letters is trimmed, and lower-casing
      changes only its first letter. */
  lemma CapitalWord(s: string)
    requires |s| > 0 && 'A' <= s[0] <= 'Z'
    requires forall i :: 1 <= i < |s| ==> 'a' <= s[i] <= 'z'
    ensures IsTrimmed(s) && Lower(s) == [(s[0] as int + 32) as char] + s[1..]
  {
  }

  /** The German and the English spelling of a class give the same key. */
  lemma BilingualSpellingsAgree(german: string, english: string)
    requires german == "Drucken" && english == "printing"
    ensures ToCanonicalKeyword(german) == ToCanonicalKeyword(english) == "printing"
  {
    CapitalWord(german);
    assert Lower(german) == [('D' as int + 32) as char] + german[1..] == "drucken";
    CanonicalOfTrimmed(german);
    LowerWord(english);
    CanonicalOfTrimmed(english);
    assert Canonical["drucken"] == "printing" && Canonical["printing"] == "printing";
  }

  /** A trimmed word is looked up by its lower case. */
  lemma CanonicalOfTrimmed(w: string)
    requires IsTrimmed(w)
    ensures Lower(w) in Canonical ==> ToCanonicalKeyword(w) == Canonical[Lower(w)]
  {
    TrimOfTrimmed(w);
  }
}
