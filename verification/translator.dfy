/** The bilingual text lookup of `LanguageContext.tsx`: a dictionary from a
    language tag to a tree of named sections whose leaves are display strings,
    and the key-path resolver `t`. */
module Translator {
  import opened Wrappers
  import Text

  /** A value of the translation tree: a display string, or a section of
      named children. */
  datatype Node = Leaf(text: string) | Section(entries: map<string, Node>)

  /** `translations`: one tree per language tag. */
  type Dictionary = map<string, Node>

  const English: string := "en"
  const Nepali: string := "np"
  const KeySeparator: char := '.'

  /** The node addressed by the path `keys` below `n`, if every segment names
      a child of a section on the way down. */
  function At(n: Node, keys: seq<string>): Option<Node>
    decreases |keys|
  {
    if keys == [] then Some(n)
    else match n
      case Leaf(_) => None
      case Section(entries) =>
        if keys[0] in entries then At(entries[keys[0]], keys[1..]) else None
  }

  /** Every display string stored in the tree below `n`. */
  function Leaves(n: Node): set<string>
  {
    match n
    case Leaf(s) => {s}
    case Section(entries) => set k, s | k in entries && s in Leaves(entries[k]) :: s
  }

  /** What `t(key)` means: the display string at the dot-separated path in the
      active language's tree, and the key itself when there is none (a segment
      is missing, the walk passes through a string, the path ends on a
      section, or the language has no tree). */
  function Translate(dict: Dictionary, language: string, key: string): string
  {
    if language !in dict then key
    else match At(dict[language], Text.Split(key, KeySeparator))
      case Some(Leaf(s)) => s
      case _ => key
  }

  /** Following a path in two pieces is following the first piece and then
      the second from where it ends. */
  lemma {:induction false} AtConcat(n: Node, a: seq<string>, b: seq<string>)
    ensures At(n, a + b) == (match At(n, a) case None => None case Some(m) => At(m, b))
    decreases |a|
  {
    if a != [] {
      assert (a + b)[1..] == a[1..] + b;
      if n.Section? && a[0] in n.entries {
        AtConcat(n.entries[a[0]], a[1..], b);
      }
    } else {
      assert a + b == b;
    }
  }

  /** The loop of `t`: split the key on dots, start at
      `translations[language]` and descend one segment at a time while the
      current value is a section holding that segment; return the string
      reached, or the key. */
  method T(dict: Dictionary, language: string, key: string) returns (r: string)
    ensures r == Translate(dict, language, key)
  {
    var keys := Text.Split(key, KeySeparator);
    var value: Option<Node> := if language in dict then Some(dict[language]) else None;
    var i := 0;
    while i < |keys|
      invariant 0 <= i <= |keys|
      invariant language in dict ==> At(dict[language], keys[..i]) == value
      invariant language !in dict ==> value == None && i == 0
    {
      if value.Some? && value.value.Section? && keys[i] in value.value.entries {
        value := Some(value.value.entries[keys[i]]);
        AtConcat(dict[language], keys[..i], [keys[i]]);
        assert keys[..i + 1] == keys[..i] + [keys[i]];
        i := i + 1;
      } else {
        if language in dict {
          AtConcat(dict[language], keys[..i], keys[i..]);
          assert keys == keys[..i] + keys[i..];
        }
        return key;
      }
    }
    assert keys[..i] == keys;
    if value.Some? && value.value.Leaf? {
      r := value.value.text;
    } else {
      r := key;
    }
  }

  /** A display string found along a path is one of the tree's leaves. */
  lemma {:induction false} AtLeafInLeaves(n: Node, keys: seq<string>, s: string)
    requires At(n, keys) == Some(Leaf(s))
    ensures s in Leaves(n)
    decreases |keys|
  {
    if keys != [] {
      var child := n.entries[keys[0]];
      AtLeafInLeaves(child, keys[1..], s);
      assert keys[0] in n.entries && s in Leaves(child);
    }
  }

  /** `t` never invents text: it answers the key or a string of the active
      language's tree. */
  lemma TranslateResult(dict: Dictionary, language: string, key: string)
    ensures var r := Translate(dict, language, key);
      r == key || (language in dict && r in Leaves(dict[language]))
  {
    if language in dict {
      var a := At(dict[language], Text.Split(key, KeySeparator));
      if a.Some? && a.value.Leaf? {
        AtLeafInLeaves(dict[language], Text.Split(key, KeySeparator), a.value.text);
      }
    }
  }

  /** When every segment of a dotless path exists and the last one holds a
      string, `t` of the dotted key is that string. */
  lemma TranslateFound(dict: Dictionary, language: string, path: seq<string>, s: string)
    requires |path| >= 1
    requires forall i :: 0 <= i < |path| ==> KeySeparator !in path[i]
    requires language in dict && At(dict[language], path) == Some(Leaf(s))
    ensures Translate(dict, language, Text.Join(path, KeySeparator)) == s
  {
    Text.SplitJoin(path, KeySeparator);
  }

  /** A path that ends on a section gives back the key, not the section. */
  lemma TranslateSection(dict: Dictionary, language: string, path: seq<string>, entries: map<string, Node>)
    requires |path| >= 1
    requires forall i :: 0 <= i < |path| ==> KeySeparator !in path[i]
    requires language in dict && At(dict[language], path) == Some(Section(entries))
    ensures Translate(dict, language, Text.Join(path, KeySeparator)) == Text.Join(path, KeySeparator)
  {
    Text.SplitJoin(path, KeySeparator);
  }

  /** A segment that is absent from the section reached so far, or that asks
      for a child of a string, makes `t` give back the key, whatever follows. */
  lemma TranslateMissing(dict: Dictionary, language: string, path: seq<string>, j: nat)
    requires j < |path|
    requires forall i :: 0 <= i < |path| ==> KeySeparator !in path[i]
    requires language in dict
    requires match At(dict[language], path[..j])
      case Some(Section(entries)) => path[j] !in entries
      case Some(Leaf(_)) => true
      case None => false
    ensures Translate(dict, language, Text.Join(path, KeySeparator)) == Text.Join(path, KeySeparator)
  {
    Text.SplitJoin(path, KeySeparator);
    AtConcat(dict[language], path[..j], path[j..]);
    assert path == path[..j] + path[j..];
  }

  /** `t` reads only the active language's tree: replacing any other
      language's tree changes nothing. */
  lemma TranslateIgnoresOtherLanguages(dict: Dictionary, language: string, other: string, tree: Node, key: string)
    requires other != language
    ensures Translate(dict[other := tree], language, key) == Translate(dict, language, key)
  {
  }

  /** `getSqftLabel` in `Rent.tsx`: `t("common.sqft") || "वर्ग फिट"`. */
  function SqftLabel(dict: Dictionary, language: string): string
  {
    var r := Translate(dict, language, "common.sqft");
    if r == "" then "वर्ग फिट" else r
  }

  lemma SqftPath()
    ensures Text.Split("common.sqft", KeySeparator) == ["common", "sqft"]
  {
    var path := ["common", "sqft"];
    assert Text.Join(path, KeySeparator) == "common.sqft" by {
      assert path[1..] == ["sqft"];
    }
    Text.SplitJoin(path, KeySeparator);
  }

  /** The Nepali fallback of `getSqftLabel` is taken exactly when the active
      tree stores an empty string under `common.sqft`; when the entry is
      missing, `t` answers the non-empty key and the label is the key. */
  lemma SqftFallbackIff(dict: Dictionary, language: string)
    ensures Translate(dict, language, "common.sqft") == ""
        <==> language in dict && At(dict[language], ["common", "sqft"]) == Some(Leaf(""))
    ensures (language !in dict || !At(dict[language], ["common", "sqft"]).Some? || !At(dict[language], ["common", "sqft"]).value.Leaf?)
        ==> SqftLabel(dict, language) == "common.sqft"
  {
    SqftPath();
  }
}
