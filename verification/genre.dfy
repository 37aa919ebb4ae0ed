/**
 * Genre normalisation (analysis.py:24-61): the primary genre is the first
 * segment of the raw genre string, and the genre category is chosen from it
 * by an ordered list of case-insensitive keyword rules, first match wins.
 */
module Genre {
  import opened Wrappers
  import opened Text

  // ---------------------------------------------------------------------------
  // extract_primary_genre: re.split(r'[/,]|\swith\s', s)[0].strip()

  /** A whitespace character, "with", and a whitespace character start at i. */
  predicate WithAt(s: string, i: int)
  {
    0 <= i && i + 6 <= |s| && IsSpace(s[i]) && s[i + 1..i + 5] == "with" && IsSpace(s[i + 5])
  }

  /** The split pattern `[/,]|\swith\s` matches at position i. */
  predicate SeparatorAt(s: string, i: int)
  {
    0 <= i < |s| && (s[i] == '/' || s[i] == ',' || WithAt(s, i))
  }

  predicate NoSeparator(s: string)
  {
    forall i :: 0 <= i < |s| ==> !SeparatorAt(s, i)
  }

  /** The leftmost match of the split pattern at or after `from`, or |s|. */
  function FirstSeparator(s: string, from: nat): (k: nat)
    requires from <= |s|
    ensures from <= k <= |s|
    ensures forall j :: from <= j < k ==> !SeparatorAt(s, j)
    ensures k < |s| ==> SeparatorAt(s, k)
    decreases |s| - from
  {
    if from == |s| || SeparatorAt(s, from) then from else FirstSeparator(s, from + 1)
  }

  /** A match inside a slice of s is a match in s. */
  lemma SeparatorInSlice(s: string, lo: int, hi: int, i: int)
    requires 0 <= lo <= hi <= |s|
    requires SeparatorAt(s[lo..hi], i)
    ensures SeparatorAt(s, lo + i)
  {
    var t := s[lo..hi];
    assert forall m :: 0 <= m < |t| ==> t[m] == s[lo + m];
    if WithAt(t, i) {
      assert t[i + 1..i + 5] == s[lo + i + 1..lo + i + 5];
      assert t[i + 5] == s[lo + i + 5];
    }
  }

  /**
   * extract_primary_genre (analysis.py:24-29). A missing genre gives
   * "Unknown"; otherwise the result holds no separator and no surrounding
   * whitespace.
   */
  function ExtractPrimaryGenre(genre: Option<string>): (r: string)
    ensures genre.None? ==> r == "Unknown"
    ensures genre.Some? ==> '/' !in r && ',' !in r && NoSeparator(r) && IsStripped(r)
  {
    match genre
    case None => "Unknown"
    case Some(s) =>
      var k := FirstSeparator(s, 0);
      var r := Strip(s[..k]);
      var a := LeadingSpaces(s[..k]);
      assert r == s[a..a + |r|];
      forall i | 0 <= i < |r| ensures !SeparatorAt(r, i) && r[i] != '/' && r[i] != ',' {
        if SeparatorAt(r, i) {
          SeparatorInSlice(s, a, a + |r|, i);
        }
      }
      r
  }

  /** The result is the stripped text before the leftmost separator. */
  lemma PrimaryGenreIsFirstSegment(s: string, k: nat)
    requires k <= |s|
    requires forall j :: 0 <= j < k ==> !SeparatorAt(s, j)
    requires k < |s| ==> SeparatorAt(s, k)
    ensures ExtractPrimaryGenre(Some(s)) == Strip(s[..k])
  {
    var f := FirstSeparator(s, 0);
    assert !(f < k) && !(k < f);
  }

  /** Extracting the primary genre of a primary genre changes nothing. */
  lemma ExtractIdempotent(genre: Option<string>)
    ensures ExtractPrimaryGenre(Some(ExtractPrimaryGenre(genre))) == ExtractPrimaryGenre(genre)
  {
    var r := ExtractPrimaryGenre(genre);
    if genre.None? {
      UnknownIsPrimary();
    }
    PrimaryIsFixed(r);
  }

  lemma UnknownIsPrimary()
    ensures NoSeparator("Unknown") && IsStripped("Unknown")
  {
    var r := "Unknown";
    assert forall i :: 0 <= i < |r| ==> r[i] != '/' && r[i] != ',' && !IsSpace(r[i]);
  }

  /** A string without separators or surrounding whitespace is its own primary genre. */
  lemma PrimaryIsFixed(r: string)
    requires NoSeparator(r) && IsStripped(r)
    ensures ExtractPrimaryGenre(Some(r)) == r
  {
    PrimaryGenreIsFirstSegment(r, |r|);
    assert r[..|r|] == r;
    StripStripped(r);
  }

  // ---------------------------------------------------------------------------
  // map_to_genre_category

  /** The 14 labels map_to_genre_category can return. */
  datatype Category =
    | BlackMetal | DeathMetal | ThrashMetal | DoomStoner | PowerSymphonic
    | Progressive | HeavyMetal | Grindcore | Core | FolkViking | Industrial
    | GrooveMetal | SpeedMetal | Other

  function Label(c: Category): string
  {
    match c
    case BlackMetal => "Black Metal"
    case DeathMetal => "Death Metal"
    case ThrashMetal => "Thrash Metal"
    case DoomStoner => "Doom/Stoner"
    case PowerSymphonic => "Power/Symphonic"
    case Progressive => "Progressive"
    case HeavyMetal => "Heavy Metal"
    case Grindcore => "Grindcore"
    case Core => "Core"
    case FolkViking => "Folk/Viking"
    case Industrial => "Industrial"
    case GrooveMetal => "Groove Metal"
    case SpeedMetal => "Speed Metal"
    case Other => "Other"
  }

  /** The keyword rules of analysis.py:34-59, in the order they are tried. */
  const Rules: seq<(seq<string>, Category)> := [
    (["black", "atmospheric black"], BlackMetal),
    (["death", "brutal", "technical death"], DeathMetal),
    (["thrash", "crossover"], ThrashMetal),
    (["doom", "stoner", "sludge"], DoomStoner),
    (["power", "symphonic"], PowerSymphonic),
    (["progressive", "prog"], Progressive),
    (["heavy metal", "traditional", "nwobhm"], HeavyMetal),
    (["grind", "gore"], Grindcore),
    (["metalcore", "deathcore", "hardcore"], Core),
    (["folk", "viking", "pagan"], FolkViking),
    (["industrial", "electronic"], Industrial),
    (["groove"], GrooveMetal),
    (["speed"], SpeedMetal)
  ]

  /** Python's any(x in s for x in keywords). */
  predicate AnyIn(s: string, keywords: seq<string>)
  {
    exists k :: k in keywords && Contains(s, k)
  }

  predicate RuleMatches(s: string, i: int)
    requires 0 <= i < |Rules|
  {
    AnyIn(s, Rules[i].0)
  }

  /** The if/elif chain from rule i on: the first rule that matches decides. */
  function ClassifyFrom(s: string, i: nat): (c: Category)
    requires i <= |Rules|
    ensures c != Other ==> i <= RuleOf(c) < |Rules| && RuleMatches(s, RuleOf(c))
    decreases |Rules| - i
  {
    if i == |Rules| then Other
    else if RuleMatches(s, i) then
      RulesAreIndexed(i);
      Rules[i].1
    else ClassifyFrom(s, i + 1)
  }

  /** map_to_genre_category (analysis.py:32-61). */
  function MapToGenreCategory(genre: string): (c: Category)
    ensures c != Other ==> RuleOf(c) < |Rules| && RuleMatches(Lower(genre), RuleOf(c))
  {
    ClassifyFrom(Lower(genre), 0)
  }

  // ---------------------------------------------------------------------------
  // What the ordered rule list guarantees

  /** The position of a category's rule in Rules; Other comes after them all. */
  function RuleOf(c: Category): nat
  {
    match c
    case BlackMetal => 0
    case DeathMetal => 1
    case ThrashMetal => 2
    case DoomStoner => 3
    case PowerSymphonic => 4
    case Progressive => 5
    case HeavyMetal => 6
    case Grindcore => 7
    case Core => 8
    case FolkViking => 9
    case Industrial => 10
    case GrooveMetal => 11
    case SpeedMetal => 12
    case Other => 13
  }

  /** Each rule names its own category, so no two rules share one. */
  lemma RulesAreIndexed(i: int)
    requires 0 <= i < |Rules|
    ensures RuleOf(Rules[i].1) == i
  {
    assert i == 0 || i == 1 || i == 2 || i == 3 || i == 4 || i == 5 || i == 6
        || i == 7 || i == 8 || i == 9 || i == 10 || i == 11 || i == 12;
  }

  lemma {:induction false} ClassifyFromLater(s: string, i: nat)
    requires i <= |Rules|
    ensures RuleOf(ClassifyFrom(s, i)) >= i
    decreases |Rules| - i
  {
    if i < |Rules| {
      RulesAreIndexed(i);
      ClassifyFromLater(s, i + 1);
    }
  }

  lemma {:induction false} ClassifyFromChoice(s: string, i: nat, j: nat)
    requires i <= j < |Rules|
    ensures ClassifyFrom(s, i) == Rules[j].1
        <==> RuleMatches(s, j) && forall l :: i <= l < j ==> !RuleMatches(s, l)
    decreases j - i
  {
    RulesAreIndexed(i);
    RulesAreIndexed(j);
    if i == j {
      ClassifyFromLater(s, i + 1);
    } else if !RuleMatches(s, i) {
      ClassifyFromChoice(s, i + 1, j);
    }
  }

  lemma {:induction false} ClassifyFromOther(s: string, i: nat)
    requires i <= |Rules|
    ensures ClassifyFrom(s, i) == Other <==> forall l :: i <= l < |Rules| ==> !RuleMatches(s, l)
    decreases |Rules| - i
  {
    if i < |Rules| {
      RulesAreIndexed(i);
      ClassifyFromOther(s, i + 1);
    }
  }

  /**
   * First match wins: the category of rule j is returned exactly when one of
   * its keywords occurs in the lower-cased genre and no keyword of an earlier
   * rule does.
   */
  lemma FirstMatchWins(genre: string, j: nat)
    requires j < |Rules|
    ensures MapToGenreCategory(genre) == Rules[j].1
        <==> RuleMatches(Lower(genre), j) && forall l :: 0 <= l < j ==> !RuleMatches(Lower(genre), l)
  {
    ClassifyFromChoice(Lower(genre), 0, j);
  }

  /** The final else: Other exactly when no keyword of any rule occurs. */
  lemma OtherWhenNothingMatches(genre: string)
    ensures MapToGenreCategory(genre) == Other
        <==> forall l :: 0 <= l < |Rules| ==> !RuleMatches(Lower(genre), l)
  {
    ClassifyFromOther(Lower(genre), 0);
  }

  /** The classifier only looks at the lower-cased genre. */
  lemma CaseInsensitive(genre: string)
    ensures MapToGenreCategory(Lower(genre)) == MapToGenreCategory(genre)
  {
    LowerIdempotent(genre);
  }

  /** Any genre mentioning "black" is Black Metal, whatever else it says. */
  lemma BlackWins(genre: string)
    requires Contains(Lower(genre), "black")
    ensures MapToGenreCategory(genre) == BlackMetal
  {
    assert "black" in Rules[0].0;
  }

  /** "death" without "black" is Death Metal, whatever else it says. */
  lemma DeathUnlessBlack(genre: string)
    requires Contains(Lower(genre), "death") && !Contains(Lower(genre), "black")
    ensures MapToGenreCategory(genre) == DeathMetal
  {
    var s := Lower(genre);
    if Contains(s, "atmospheric black") {
      var b := "atmospheric black";
      assert b[12..17] == "black";
      OccursContains(b, "black", 12);
      ContainsTransitive(s, b, "black");
    }
    assert !RuleMatches(s, 0);
    assert "death" in Rules[1].0;
  }

  /** The Core rule's "deathcore" keyword is shadowed by the Death Metal rule. */
  lemma DeathcoreIsNeverCore(genre: string)
    requires Contains(Lower(genre), "deathcore")
    ensures MapToGenreCategory(genre) in {BlackMetal, DeathMetal}
  {
    var s := Lower(genre);
    assert "deathcore"[..5] == "death";
    ContainsTransitive(s, "deathcore", "death");
    if !Contains(s, "black") {
      DeathUnlessBlack(genre);
    } else {
      BlackWins(genre);
    }
  }

  /** So Core comes only from "metalcore" or "hardcore". */
  lemma CoreNeedsMetalcoreOrHardcore(genre: string)
    requires MapToGenreCategory(genre) == Core
    ensures Contains(Lower(genre), "metalcore") || Contains(Lower(genre), "hardcore")
  {
    FirstMatchWins(genre, 8);
    if Contains(Lower(genre), "deathcore") {
      DeathcoreIsNeverCore(genre);
    }
  }

  /** Rule i cannot match a string lacking both c1 and c2 if each keyword has one. */
  lemma RuleFails(s: string, i: int, c1: char, c2: char)
    requires 0 <= i < |Rules|
    requires c1 !in s && c2 !in s
    requires forall k :: k in Rules[i].0 ==> c1 in k || c2 in k
    ensures !RuleMatches(s, i)
  {
    forall k | k in Rules[i].0 ensures !Contains(s, k) {
      if c1 in k {
        MissingCharNotContained(s, k, c1);
      } else {
        MissingCharNotContained(s, k, c2);
      }
    }
  }

  /** No keyword of any rule occurs in "unknown". */
  lemma NoRuleMatchesUnknown()
    ensures forall l :: 0 <= l < |Rules| ==> !RuleMatches("unknown", l)
  {
    forall l | 0 <= l < |Rules| ensures !RuleMatches("unknown", l) {
      if l < 2 {
        UnknownMissesFirst(l);
      } else if l < 4 {
        UnknownMissesSecond(l);
      } else if l < 8 {
        UnknownMissesMiddle(l);
      } else {
        UnknownMissesLast(l);
      }
    }
  }

  lemma UnknownMissesFirst(l: int)
    requires 0 <= l < 2
    ensures !RuleMatches("unknown", l)
  {
    var s := "unknown";
    if l == 0 { RuleFails(s, 0, 'b', 'b'); }
    else { RuleFails(s, 1, 'a', 'a'); }
  }

  lemma UnknownMissesSecond(l: int)
    requires 2 <= l < 4
    ensures !RuleMatches("unknown", l)
  {
    var s := "unknown";
    if l == 2 { RuleFails(s, 2, 'r', 'r'); }
    else { RuleFails(s, 3, 'd', 's'); }
  }

  lemma UnknownMissesMiddle(l: int)
    requires 4 <= l < 8
    ensures !RuleMatches("unknown", l)
  {
    var s := "unknown";
    if l == 4 { RuleFails(s, 4, 'p', 'p'); }
    else if l == 5 { RuleFails(s, 5, 'p', 'p'); }
    else if l == 6 { RuleFails(s, 6, 'a', 'b'); }
    else { RuleFails(s, 7, 'g', 'g'); }
  }

  lemma UnknownMissesLast(l: int)
    requires 8 <= l < |Rules|
    ensures !RuleMatches("unknown", l)
  {
    var s := "unknown";
    if l == 8 { RuleFails(s, 8, 'c', 'c'); }
    else if l == 9 { RuleFails(s, 9, 'g', 'f'); }
    else if l == 10 { RuleFails(s, 10, 'i', 'i'); }
    else if l == 11 { RuleFails(s, 11, 'g', 'g'); }
    else { RuleFails(s, 12, 's', 's'); }
  }

  /** A missing genre, extracted as "Unknown", is classified Other. */
  lemma UnknownIsOther()
    ensures MapToGenreCategory(ExtractPrimaryGenre(None)) == Other
  {
    assert Lower("Unknown") == "unknown";
    NoRuleMatchesUnknown();
    ClassifyFromOther("unknown", 0);
  }

  // ---------------------------------------------------------------------------
  // The order pandas sorts labels in

  /** Every category, ordered by its label's code points (Python's sorted()). */
  const Alphabetical: seq<Category> := [
    BlackMetal, Core, DeathMetal, DoomStoner, FolkViking, Grindcore, GrooveMetal,
    HeavyMetal, Industrial, Other, PowerSymphonic, Progressive, SpeedMetal, ThrashMetal
  ]

  /** Where a category stands in Alphabetical; so every category is listed. */
  function AlphabeticalPos(c: Category): (k: nat)
    ensures k < |Alphabetical| && Alphabetical[k] == c
  {
    match c
    case BlackMetal => 0
    case Core => 1
    case DeathMetal => 2
    case DoomStoner => 3
    case FolkViking => 4
    case Grindcore => 5
    case GrooveMetal => 6
    case HeavyMetal => 7
    case Industrial => 8
    case Other => 9
    case PowerSymphonic => 10
    case Progressive => 11
    case SpeedMetal => 12
    case ThrashMetal => 13
  }

  /** Neighbours in Alphabetical are in label order. */
  lemma AlphabeticalStep(i: int)
    requires 0 <= i < |Alphabetical| - 1
    ensures StrLt(Label(Alphabetical[i]), Label(Alphabetical[i + 1]))
  {
    if i == 2 || i == 5 || i == 10 {
      SharedPrefixStep(i);
    } else if i < 7 {
      FirstCharStepLow(i);
    } else {
      FirstCharStepHigh(i);
    }
  }

  /** Neighbours in Alphabetical whose labels share a first character. */
  lemma SharedPrefixStep(i: int)
    requires i == 2 || i == 5 || i == 10
    ensures StrLt(Label(Alphabetical[i]), Label(Alphabetical[i + 1]))
  {
    var a, b := Label(Alphabetical[i]), Label(Alphabetical[i + 1]);
    var k := if i == 5 then 2 else 1;
    assert k < |a| && k < |b| && a[..k] == b[..k] && a[k] < b[k];
    StrLtAt(a, b, k);
  }

  /** Neighbours in Alphabetical whose labels already differ in the first character. */
  lemma FirstCharStepLow(i: int)
    requires 0 <= i < 7 && i != 2 && i != 5
    ensures StrLt(Label(Alphabetical[i]), Label(Alphabetical[i + 1]))
  {
    var a, b := Label(Alphabetical[i]), Label(Alphabetical[i + 1]);
    assert 0 < |a| && 0 < |b| && a[0] < b[0];
    StrLtAt(a, b, 0);
  }

  lemma FirstCharStepHigh(i: int)
    requires 7 <= i < |Alphabetical| - 1 && i != 10
    ensures StrLt(Label(Alphabetical[i]), Label(Alphabetical[i + 1]))
  {
    var a, b := Label(Alphabetical[i]), Label(Alphabetical[i + 1]);
    assert 0 < |a| && 0 < |b| && a[0] < b[0];
    StrLtAt(a, b, 0);
  }

  /** Alphabetical lists the labels in strictly increasing order. */
  lemma {:induction false} AlphabeticalSorted(i: int, j: int)
    requires 0 <= i < j < |Alphabetical|
    ensures StrLt(Label(Alphabetical[i]), Label(Alphabetical[j]))
    decreases j - i
  {
    AlphabeticalStep(i);
    if i + 1 < j {
      AlphabeticalSorted(i + 1, j);
      StrLtTransitive(Label(Alphabetical[i]), Label(Alphabetical[i + 1]), Label(Alphabetical[j]));
    }
  }

  /**
   * The categories that occur in cats, in label order: the columns pandas
   * produces when it groups by Genre_Category and unstacks.
   */
  function LabelOrdered(cats: seq<Category>): (r: seq<Category>)
    ensures forall c :: c in r <==> c in cats
    ensures forall i, j :: 0 <= i < j < |r| ==> StrLt(Label(r[i]), Label(r[j]))
  {
    var r := LabelOrderedFrom(cats, 0);
    forall c | c in cats ensures c in r {
      var k := AlphabeticalPos(c);
    }
    forall i, j | 0 <= i < j < |r| ensures StrLt(Label(r[i]), Label(r[j])) {
      AlphabeticalSorted(AlphabeticalPos(r[i]), AlphabeticalPos(r[j]));
    }
    r
  }

  function LabelOrderedFrom(cats: seq<Category>, k: nat): (r: seq<Category>)
    requires k <= |Alphabetical|
    ensures forall c :: c in r <==> c in cats && k <= AlphabeticalPos(c)
    ensures forall i, j :: 0 <= i < j < |r| ==> AlphabeticalPos(r[i]) < AlphabeticalPos(r[j])
    decreases |Alphabetical| - k
  {
    if k == |Alphabetical| then []
    else
      var rest := LabelOrderedFrom(cats, k + 1);
      var c := Alphabetical[k];
      assert AlphabeticalPos(c) == k;
      if c in cats then [c] + rest else rest
  }

  lemma LabelOrderedDistinct(cats: seq<Category>, i: int, j: int)
    requires 0 <= i < j < |LabelOrdered(cats)|
    ensures LabelOrdered(cats)[i] != LabelOrdered(cats)[j]
  {
    var r := LabelOrdered(cats);
    StrLtIrreflexive(Label(r[i]));
  }
}
