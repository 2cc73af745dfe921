/** The state of `LanguageProvider`: the active language, the browser-storage
    slot `"language"` it is mirrored to, `toggleLanguage`, and a sample of the
    `translations` data the resolver reads. */
module LanguageContext {
  import opened Wrappers
  import opened Translator
  import Text

  /** The provider's state. `stored` is the storage slot, kept as a plain
      field; `None` is an absent slot. */
  datatype Provider = Provider(language: string, stored: Option<string>)

  /** The mirroring effect has run: the slot holds the active language. */
  predicate Persisted(p: Provider)
  {
    p.stored == Some(p.language)
  }

  predicate IsSupported(language: string)
  {
    language == English || language == Nepali
  }

  /** The update `prev === 'en' ? 'np' : 'en'`. */
  function Toggle(language: string): (r: string)
    ensures IsSupported(r)
    ensures r != language
  {
    if language == English then Nepali else English
  }

  /** Mounting the provider: the stored value when it is a non-empty string
      (cast to a language tag without any check), English otherwise; the
      effect that follows writes the language back to the slot. */
  function Mount(stored: Option<string>): (p: Provider)
    ensures Persisted(p)
    ensures stored.Some? && stored.value != "" ==> p.language == stored.value
    ensures stored.None? || stored.value == "" ==> p.language == English
  {
    var language := if stored.Some? && stored.value != "" then stored.value else English;
    Provider(language, Some(language))
  }

  /** `toggleLanguage` followed by the effect that persists the new value. */
  function ToggleLanguage(p: Provider): (q: Provider)
    ensures Persisted(q)
    ensures IsSupported(q.language) && q.language != p.language
  {
    var language := Toggle(p.language);
    Provider(language, Some(language))
  }

  /** On the two supported languages the toggle is an involution. */
  lemma ToggleTwice(p: Provider)
    requires IsSupported(p.language)
    ensures ToggleLanguage(ToggleLanguage(p)).language == p.language
    ensures Persisted(p) ==> ToggleLanguage(ToggleLanguage(p)) == p
  {
  }

  /** An unsupported stored tag is not restored by two toggles: the first
      toggle leaves it for English, the second goes on to Nepali. */
  lemma ToggleTwiceUnsupported(p: Provider)
    requires !IsSupported(p.language)
    ensures ToggleLanguage(ToggleLanguage(p)).language == Nepali
  {
  }

  /** The provider after `k` presses of the language button. */
  function Toggled(p: Provider, k: nat): Provider
  {
    if k == 0 then p else ToggleLanguage(Toggled(p, k - 1))
  }

  /** Whatever was stored and however often the language was toggled, the
      slot mirrors the active language; an even number of presses from a
      supported language comes back to it. */
  lemma {:induction false} SessionPersisted(stored: Option<string>, k: nat)
    ensures Persisted(Toggled(Mount(stored), k))
    ensures IsSupported(Mount(stored).language) && k % 2 == 0
        ==> Toggled(Mount(stored), k) == Mount(stored)
  {
    if k >= 2 {
      SessionPersisted(stored, k - 2);
      var p := Toggled(Mount(stored), k - 2);
      if IsSupported(Mount(stored).language) && k % 2 == 0 {
        ToggleTwice(p);
      }
    }
  }

  /** `t` of the provider. */
  function ActiveText(dict: Dictionary, p: Provider, key: string): string
  {
    Translate(dict, p.language, key)
  }

  /** A sample of `translations`: a few entries of the `nav`, `about` and
      `common` sections, in both languages. */
  function SampleTranslations(): Dictionary
  {
    map[English := EnglishSample(), Nepali := NepaliSample()]
  }

  function EnglishSample(): Node
  {
    Section(map[
      "nav" := Section(map["home" := Leaf("Home"), "buy" := Leaf("Buy")]),
      "about" := Section(map[
        "title" := Leaf("About Us"),
        "stats" := Section(map["title" := Leaf("Our Achievements")])]),
      "common" := Section(map["beds" := Leaf("Beds"), "baths" := Leaf("Baths")])])
  }

  function NepaliSample(): Node
  {
    Section(map[
      "nav" := Section(map["home" := Leaf("गृह"), "buy" := Leaf("किन्नुहोस्")]),
      "about" := Section(map[
        "title" := Leaf("हाम्रो बारेमा"),
        "stats" := Section(map["title" := Leaf("हाम्रा उपलब्धिहरू")])]),
      "common" := Section(map["beds" := Leaf("शैया"), "baths" := Leaf("बाथरूम")])])
  }

  lemma SplitTwo(a: string, b: string)
    requires KeySeparator !in a && KeySeparator !in b
    ensures Text.Split(a + [KeySeparator] + b, KeySeparator) == [a, b]
  {
    assert [a, b][1..] == [b];
    Text.SplitJoin([a, b], KeySeparator);
  }

  lemma SampleTrees()
    ensures English in SampleTranslations() && SampleTranslations()[English] == EnglishSample()
    ensures Nepali in SampleTranslations() && SampleTranslations()[Nepali] == NepaliSample()
  {
    assert English != Nepali;
  }

  /** The tree for a supported language in the sample dictionary. */
  function SampleTree(language: string): (n: Node)
    requires IsSupported(language)
    ensures language in SampleTranslations() && SampleTranslations()[language] == n
  {
    SampleTrees();
    if language == English then EnglishSample() else NepaliSample()
  }

  lemma KeyNavHome()
    ensures Text.Split("nav.home", KeySeparator) == ["nav", "home"]
  {
    SplitTwo("nav", "home");
    assert "nav" + [KeySeparator] + "home" == "nav.home";
  }

  lemma KeyNavMissing()
    ensures Text.Split("nav.missing", KeySeparator) == ["nav", "missing"]
  {
    SplitTwo("nav", "missing");
    assert "nav" + [KeySeparator] + "missing" == "nav.missing";
  }

  lemma KeyAboutStats()
    ensures Text.Split("about.stats", KeySeparator) == ["about", "stats"]
  {
    SplitTwo("about", "stats");
    assert "about" + [KeySeparator] + "stats" == "about.stats";
  }

  /** Following two segments: the child of the child. */
  lemma AtTwo(n: Node, a: string, b: string)
    requires n.Section? && a in n.entries
    ensures At(n, [a, b]) == At(n.entries[a], [b])
  {
    assert [a, b][1..] == [b];
  }

  lemma AtOne(n: Node, a: string)
    ensures At(n, [a]) == if n.Section? && a in n.entries then Some(n.entries[a]) else None
  {
    assert [a][1..] == [];
  }

  lemma EnglishPaths()
    ensures At(EnglishSample(), ["nav", "home"]) == Some(Leaf("Home"))
    ensures At(EnglishSample(), ["nav", "missing"]) == None
    ensures At(EnglishSample(), ["nav"]).Some? && At(EnglishSample(), ["nav"]).value.Section?
    ensures At(EnglishSample(), ["about", "stats"]).Some? && At(EnglishSample(), ["about", "stats"]).value.Section?
    ensures At(EnglishSample(), ["common", "sqft"]) == None
  {
    var root := EnglishSample();
    var nav := root.entries["nav"];
    AtOne(root, "nav");
    AtTwo(root, "nav", "home");
    AtOne(nav, "home");
    AtTwo(root, "nav", "missing");
    AtOne(nav, "missing");
    AtTwo(root, "about", "stats");
    AtOne(root.entries["about"], "stats");
    AtTwo(root, "common", "sqft");
    AtOne(root.entries["common"], "sqft");
  }

  lemma NepaliPaths()
    ensures At(NepaliSample(), ["nav", "home"]) == Some(Leaf("गृह"))
    ensures At(NepaliSample(), ["nav", "missing"]) == None
    ensures At(NepaliSample(), ["nav"]).Some? && At(NepaliSample(), ["nav"]).value.Section?
    ensures At(NepaliSample(), ["about", "stats"]).Some? && At(NepaliSample(), ["about", "stats"]).value.Section?
    ensures At(NepaliSample(), ["common", "sqft"]) == None
  {
    var root := NepaliSample();
    var nav := root.entries["nav"];
    AtOne(root, "nav");
    AtTwo(root, "nav", "home");
    AtOne(nav, "home");
    AtTwo(root, "nav", "missing");
    AtOne(nav, "missing");
    AtTwo(root, "about", "stats");
    AtOne(root.entries["about"], "stats");
    AtTwo(root, "common", "sqft");
    AtOne(root.entries["common"], "sqft");
  }

  /** The paths the examples below follow, in the tree of either language. */
  lemma SamplePaths(language: string)
    requires IsSupported(language)
    ensures At(SampleTree(language), ["nav", "missing"]) == None
    ensures At(SampleTree(language), ["nav"]).Some? && At(SampleTree(language), ["nav"]).value.Section?
    ensures At(SampleTree(language), ["about", "stats"]).Some? && At(SampleTree(language), ["about", "stats"]).value.Section?
    ensures At(SampleTree(language), ["common", "sqft"]) == None
  {
    if language == English {
      EnglishPaths();
    } else {
      NepaliPaths();
    }
  }

  /** `nav.home` is "Home" in English and "गृह" in Nepali. */
  lemma SampleHome()
    ensures Translate(SampleTranslations(), English, "nav.home") == "Home"
    ensures Translate(SampleTranslations(), Nepali, "nav.home") == "गृह"
  {
    SampleTrees();
    KeyNavHome();
    EnglishPaths();
    NepaliPaths();
  }

  /** `nav.missing` shows as itself in both languages. */
  lemma SampleMissing(language: string)
    requires IsSupported(language)
    ensures Translate(SampleTranslations(), language, "nav.missing") == "nav.missing"
  {
    var n := SampleTree(language);
    KeyNavMissing();
    SamplePaths(language);
  }

  /** `nav` names a section, so it shows as itself. */
  lemma SampleNavSection(language: string)
    requires IsSupported(language)
    ensures Translate(SampleTranslations(), language, "nav") == "nav"
  {
    var n := SampleTree(language);
    Text.SplitNoSeparator("nav", KeySeparator);
    SamplePaths(language);
    var top := At(n, ["nav"]);
    assert top.Some? && top.value.Section?;
  }

  /** `about.stats` names a section too. */
  lemma SampleStatsSection(language: string)
    requires IsSupported(language)
    ensures Translate(SampleTranslations(), language, "about.stats") == "about.stats"
  {
    var n := SampleTree(language);
    KeyAboutStats();
    SamplePaths(language);
    var stats := At(n, ["about", "stats"]);
    assert stats.Some? && stats.value.Section?;
  }

  /** There is no `common.sqft` entry, so `getSqftLabel` shows the key and
      never its Nepali fallback. */
  lemma SampleSqft(language: string)
    requires IsSupported(language)
    ensures SqftLabel(SampleTranslations(), language) == "common.sqft"
  {
    var n := SampleTree(language);
    SamplePaths(language);
    SqftFallbackIff(SampleTranslations(), language);
  }

  /** A first visit stores English and shows "Home"; one press of the
      language button shows "गृह" and stores `np`. */
  lemma FirstVisitScenario()
    ensures Mount(None).language == English
    ensures ActiveText(SampleTranslations(), Mount(None), "nav.home") == "Home"
    ensures ToggleLanguage(Mount(None)).stored == Some(Nepali)
    ensures ActiveText(SampleTranslations(), ToggleLanguage(Mount(None)), "nav.home") == "गृह"
  {
    SampleHome();
  }

  /** A stored tag other than `en` and `np` is adopted as it is, and every key
      then shows as itself, since there is no tree for it. */
  lemma UnsupportedStoredTag(tag: string, key: string)
    requires tag != "" && !IsSupported(tag)
    ensures Mount(Some(tag)).language == tag
    ensures ActiveText(SampleTranslations(), Mount(Some(tag)), key) == key
  {
  }
}
