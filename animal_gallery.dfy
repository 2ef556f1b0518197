/** The filterable animal gallery: a fixed catalogue of animals, three
    filter controls (category, size, free-text search), the cards shown
    for the animals that pass all three, and a label counting them. */
module AnimalGallery {
  import opened Text

  datatype Option<T> = None | Some(value: T)

  /** One catalogue record. A card is drawn from exactly these fields, so
      the model takes the record itself as the card. */
  datatype Animal = Animal(
    name: string,
    emoji: string,
    description: string,
    color: string,
    category: string,
    size: string)

  /** The dropdown value that stands for "no restriction". */
  const All: string := "Todos"

  /** The catalogue, in display order. Colours are the toolkit's colour names. */
  const Catalog: seq<Animal> := [
    Animal("Gato", "\U{1F431}", "Felino carinhoso", "GREY_700", "Doméstico", "Médio"),
    Animal("Cachorro", "\U{1F436}", "Melhor amigo", "GREY_800", "Doméstico", "Grande"),
    Animal("Peixe", "\U{1F41F}", "Animal aquático", "GREY_600", "Aquático", "Pequeno"),
    Animal("Pássaro", "\U{1F426}", "Voa livremente", "GREY_500", "Selvagem", "Pequeno"),
    Animal("Coelho", "\U{1F430}", "Saltita pelos campos", "GREY_700", "Doméstico", "Pequeno"),
    Animal("Leão", "\U{1F981}", "Rei da selva", "GREY_800", "Selvagem", "Grande"),
    Animal("Elefante", "\U{1F418}", "Gigante gentil", "GREY_600", "Selvagem", "Grande"),
    Animal("Golfinho", "\U{1F42C}", "Mamífero marinho", "GREY_700", "Aquático", "Grande")
  ]

  /** The search text as the filter uses it: the text field's value, with a
      missing value read as empty, lower-cased. */
  function Search(query: Option<string>): (busca: string)
    ensures IsLower(busca)
    ensures busca == [] <==> query == None || query == Some([])
    ensures query.Some? ==> |busca| == |query.value|
  {
    var text := match query case None => "" case Some(t) => t;
    LowerIsLower(text);
    Lower(text)
  }

  /** Typing the search in a different letter case changes nothing. */
  lemma SearchIgnoresCase(q: string, q': string)
    requires Lower(q) == Lower(q')
    ensures Search(Some(q)) == Search(Some(q'))
  {
  }

  /** Typing the search already lower-cased changes nothing. */
  lemma SearchOfLowered(q: string)
    ensures Search(Some(Lower(q))) == Search(Some(q))
  {
    LowerIsLower(q);
  }

  /** The test each record must pass to be shown: its category is the
      selected one (or the selection is `Todos`), its size likewise, and the
      search text is empty or occurs in its lower-cased name. */
  predicate Matches(a: Animal, category: string, size: string, busca: string) {
    && (category == All || a.category == category)
    && (size == All || a.size == size)
    && (busca == [] || Contains(Lower(a.name), busca))
  }

  /** The records that pass the test, in catalogue order. */
  function Filter(animals: seq<Animal>, category: string, size: string, busca: string): (r: seq<Animal>)
    ensures |r| <= |animals|
    ensures forall x :: x in r <==> x in animals && Matches(x, category, size, busca)
    decreases |animals|
  {
    if animals == [] then []
    else
      var rest := Filter(animals[1..], category, size, busca);
      if Matches(animals[0], category, size, busca) then [animals[0]] + rest else rest
  }

  /** Positions `idx` strictly increase and stay inside a list of length `n`. */
  ghost predicate Ascending(idx: seq<nat>, n: nat) {
    forall k :: 0 <= k < |idx| ==> idx[k] < n && (k > 0 ==> idx[k - 1] < idx[k])
  }

  /** Every position moved one place on. */
  function Shift(idx: seq<nat>): seq<nat>
  {
    seq(|idx|, k requires 0 <= k < |idx| => idx[k] + 1)
  }

  /** Position `j` is among the shifted positions exactly when `j - 1` was
      among the original ones. */
  lemma ShiftHas(idx: seq<nat>, j: nat)
    ensures j in Shift(idx) <==> j > 0 && j - 1 in idx
  {
    var shifted := Shift(idx);
    if j in shifted {
      var k :| 0 <= k < |shifted| && shifted[k] == j;
      assert idx[k] == j - 1;
    }
    if j > 0 && j - 1 in idx {
      var k :| 0 <= k < |idx| && idx[k] == j - 1;
      assert shifted[k] == j;
    }
  }

  /** The positions, in increasing order, of the records that pass the test. */
  ghost function Kept(animals: seq<Animal>, category: string, size: string, busca: string): (idx: seq<nat>)
    ensures Ascending(idx, |animals|)
    ensures forall j :: 0 <= j < |animals| ==> (j in idx <==> Matches(animals[j], category, size, busca))
    decreases |animals|
  {
    if animals == [] then []
    else
      var rest := Kept(animals[1..], category, size, busca);
      var head := Matches(animals[0], category, size, busca);
      KeptStep(animals, rest, head, category, size, busca);
      if head then [0] + Shift(rest) else Shift(rest)
  }

  /** One step of `Kept`: shifting the tail's positions and prepending 0 when
      the head passes keeps them ascending and exactly the passing ones. */
  lemma KeptStep(animals: seq<Animal>, rest: seq<nat>, head: bool, category: string, size: string, busca: string)
    requires animals != []
    requires Ascending(rest, |animals| - 1)
    requires forall j :: 0 <= j < |animals| - 1 ==> (j in rest <==> Matches(animals[1..][j], category, size, busca))
    requires head == Matches(animals[0], category, size, busca)
    ensures var idx := if head then [0] + Shift(rest) else Shift(rest);
      && Ascending(idx, |animals|)
      && forall j :: 0 <= j < |animals| ==> (j in idx <==> Matches(animals[j], category, size, busca))
  {
    var shifted := Shift(rest);
    var idx := if head then [0] + shifted else shifted;
    forall j | 0 <= j < |animals|
      ensures j in idx <==> Matches(animals[j], category, size, busca)
    {
      ShiftHas(rest, j);
      if j > 0 {
        assert animals[1..][j - 1] == animals[j];
      }
    }
  }

  /** The filtered list is the catalogue read at the passing positions, in
      order: a subsequence, with nothing reordered, duplicated or invented. */
  lemma {:induction false} FilterIsSubsequence(animals: seq<Animal>, category: string, size: string, busca: string)
    ensures var r, idx := Filter(animals, category, size, busca), Kept(animals, category, size, busca);
      |r| == |idx| && forall k :: 0 <= k < |r| ==> r[k] == animals[idx[k]]
    decreases |animals|
  {
    if animals != [] {
      var tail := animals[1..];
      FilterIsSubsequence(tail, category, size, busca);
      var rest, restIdx := Filter(tail, category, size, busca), Kept(tail, category, size, busca);
      var head := Matches(animals[0], category, size, busca);
      ReadAtStep(animals, rest, restIdx, head);
      assert Filter(animals, category, size, busca) == if head then [animals[0]] + rest else rest;
      assert Kept(animals, category, size, busca) == if head then [0] + Shift(restIdx) else Shift(restIdx);
    }
  }

  /** One step of `FilterIsSubsequence`: if `rest` is the tail of `animals`
      read at `restIdx`, then prepending the head (or not) gives `animals`
      read at the shifted positions (with 0 prepended, or not). */
  lemma ReadAtStep(animals: seq<Animal>, rest: seq<Animal>, restIdx: seq<nat>, head: bool)
    requires animals != []
    requires |rest| == |restIdx|
    requires forall k :: 0 <= k < |rest| ==> restIdx[k] < |animals| - 1 && rest[k] == animals[1..][restIdx[k]]
    ensures var r, idx := (if head then [animals[0]] + rest else rest), (if head then [0] + Shift(restIdx) else Shift(restIdx));
      |r| == |idx| && forall k :: 0 <= k < |r| ==> r[k] == animals[idx[k]]
  {
    var shifted := Shift(restIdx);
    var r := if head then [animals[0]] + rest else rest;
    var idx := if head then [0] + shifted else shifted;
    var skip := if head then 1 else 0;
    forall k | 0 <= k < |r|
      ensures r[k] == animals[idx[k]]
    {
      if k >= skip {
        var j := k - skip;
        assert r[k] == rest[j] && idx[k] == shifted[j] == restIdx[j] + 1;
        assert animals[1..][restIdx[j]] == animals[restIdx[j] + 1];
      }
    }
  }

  /** Each record appears in the result exactly as often as in the input when
      it passes the test, and not at all otherwise. */
  lemma {:induction false} FilterCounts(animals: seq<Animal>, category: string, size: string, busca: string, x: Animal)
    ensures multiset(Filter(animals, category, size, busca))[x]
         == if Matches(x, category, size, busca) then multiset(animals)[x] else 0
    decreases |animals|
  {
    if animals != [] {
      FilterCounts(animals[1..], category, size, busca, x);
      assert animals == [animals[0]] + animals[1..];
    }
  }

  /** Nothing is dropped exactly when every record passes. */
  lemma {:induction false} FilterKeepsAll(animals: seq<Animal>, category: string, size: string, busca: string)
    ensures Filter(animals, category, size, busca) == animals
        <==> forall x :: x in animals ==> Matches(x, category, size, busca)
    ensures |Filter(animals, category, size, busca)| == |animals|
        <==> Filter(animals, category, size, busca) == animals
    decreases |animals|
  {
    if animals != [] {
      FilterKeepsAll(animals[1..], category, size, busca);
      var rest := Filter(animals[1..], category, size, busca);
      assert |rest| <= |animals[1..]|;
      if !Matches(animals[0], category, size, busca) {
        assert Filter(animals, category, size, busca) == rest;
        assert |rest| < |animals|;
      }
    }
  }

  /** With both dropdowns on `Todos` and an empty search every record is shown. */
  lemma NoFilterKeepsAll(animals: seq<Animal>)
    ensures Filter(animals, All, All, []) == animals
  {
    FilterKeepsAll(animals, All, All, []);
  }

  /** Filtering twice is filtering once by the conjunction of the two tests. */
  lemma {:induction false} FilterThenFilter(animals: seq<Animal>,
      c: string, z: string, q: string,
      c1: string, z1: string, q1: string,
      c2: string, z2: string, q2: string)
    requires forall x :: x in animals ==> (Matches(x, c, z, q) <==> Matches(x, c1, z1, q1) && Matches(x, c2, z2, q2))
    ensures Filter(animals, c, z, q) == Filter(Filter(animals, c1, z1, q1), c2, z2, q2)
    decreases |animals|
  {
    if animals != [] {
      FilterThenFilter(animals[1..], c, z, q, c1, z1, q1, c2, z2, q2);
      var rest1 := Filter(animals[1..], c1, z1, q1);
      if Matches(animals[0], c1, z1, q1) {
        assert Filter(animals, c1, z1, q1) == [animals[0]] + rest1;
        assert ([animals[0]] + rest1)[1..] == rest1;
      }
    }
  }

  /** `Todos` puts no constraint on the category: choosing a category only
      removes records from what `Todos` shows, and only by their category. */
  lemma CategoryNarrowsAll(animals: seq<Animal>, category: string, size: string, busca: string)
    ensures Filter(animals, category, size, busca) == Filter(Filter(animals, All, size, busca), category, All, [])
  {
    FilterThenFilter(animals, category, size, busca, All, size, busca, category, All, []);
  }

  /** `Todos` puts no constraint on the size, likewise. */
  lemma SizeNarrowsAll(animals: seq<Animal>, category: string, size: string, busca: string)
    ensures Filter(animals, category, size, busca) == Filter(Filter(animals, category, All, busca), All, size, [])
  {
    FilterThenFilter(animals, category, size, busca, category, All, busca, All, size, []);
  }

  /** An empty search puts no constraint on the name; a non-empty one only
      removes records whose lower-cased name does not contain it. */
  lemma SearchNarrowsEmpty(animals: seq<Animal>, category: string, size: string, busca: string)
    ensures Filter(animals, category, size, busca) == Filter(Filter(animals, category, size, []), All, All, busca)
  {
    FilterThenFilter(animals, category, size, busca, category, size, [], All, All, busca);
  }

  /** The search looks at the name only: two records that agree on name,
      category and size pass or fail together, whatever their emoji,
      description or colour. */
  lemma SearchLooksAtNameOnly(a: Animal, b: Animal, category: string, size: string, busca: string)
    requires a.name == b.name && a.category == b.category && a.size == b.size
    ensures Matches(a, category, size, busca) <==> Matches(b, category, size, busca)
  {
  }

  /** Searching for a record's own name, in any letter case, finds it. */
  lemma SearchFindsOwnName(a: Animal, q: string)
    requires Lower(q) == Lower(a.name)
    ensures Matches(a, All, All, Search(Some(q)))
  {
    ContainsTrivial(Lower(a.name));
  }

  /** Length of the prefix `"Mostrando todos os "`. */
  const ShowAllPrefixLength: nat := 19
  /** Length of the prefix `"Encontrados "`. */
  const FoundPrefixLength: nat := 12

  /** The counter text: the "showing all" wording when every catalogue record
      is shown, the "found k of n" wording otherwise. */
  function Label(shown: nat, total: nat): (r: string)
    ensures |r| > ShowAllPrefixLength
    ensures shown != total ==> r[..FoundPrefixLength] == "Encontrados "
    ensures (shown == total) <==> r[..ShowAllPrefixLength] == "Mostrando todos os "
  {
    if shown == total then
      "Mostrando todos os " + NatToString(shown) + " animais"
    else
      var r := "Encontrados " + NatToString(shown) + " de " + NatToString(total) + " animais";
      assert r[0] == 'E';
      r
  }

  /** Names the character at position `i` of `s`, so that the solver looks at it. */
  lemma CharAt(s: string, i: nat)
    ensures i < |s| ==> s[i] in s
  {
  }

  /** A digit string followed by a text that starts with a non-digit is
      determined by the whole. */
  lemma DigitsPrefix(d: string, rest: string, d': string, rest': string)
    requires IsDigits(d) && IsDigits(d')
    requires rest != [] && !('0' <= rest[0] <= '9')
    requires rest' != [] && !('0' <= rest'[0] <= '9')
    requires d + rest == d' + rest'
    ensures d == d' && rest == rest'
  {
    if |d| < |d'| {
      CharAt(d + rest, |d|);
      assert false;
    } else if |d'| < |d| {
      CharAt(d' + rest', |d'|);
      assert false;
    }
    assert d == (d + rest)[..|d|];
    assert d' == (d' + rest')[..|d'|];
  }

  /** What follows the "showing all" prefix: the count, then the word for animals. */
  lemma ShowAllTail(shown: nat)
    ensures Label(shown, shown)[ShowAllPrefixLength..] == NatToString(shown) + " animais"
  {
    var p := "Mostrando todos os ";
    var t := NatToString(shown) + " animais";
    assert Label(shown, shown) == p + t;
    assert (p + t)[|p|..] == t;
  }

  /** What follows the "found" prefix: the count shown, then the catalogue size. */
  lemma FoundTail(shown: nat, total: nat)
    requires shown != total
    ensures Label(shown, total)[FoundPrefixLength..] == NatToString(shown) + (" de " + NatToString(total) + " animais")
  {
    var p := "Encontrados ";
    var t := NatToString(shown) + (" de " + NatToString(total) + " animais");
    Regroup(p, NatToString(shown), " de ", NatToString(total), " animais");
    assert (p + t)[|p|..] == t;
  }

  /** Regrouping a five-part concatenation. */
  lemma Regroup(a: string, b: string, c: string, d: string, e: string)
    ensures a + b + c + d + e == a + (b + (c + d + e))
  {
  }

  /** The "showing all" text tells the count. */
  lemma ShowAllDeterminesCount(shown: nat, shown': nat)
    requires Label(shown, shown) == Label(shown', shown')
    ensures shown == shown'
  {
    ShowAllTail(shown);
    ShowAllTail(shown');
    DigitsPrefix(NatToString(shown), " animais", NatToString(shown'), " animais");
    NatToStringInjective(shown, shown');
  }

  /** The "found" text tells both the count shown and the catalogue size. */
  lemma FoundDeterminesCounts(shown: nat, total: nat, shown': nat, total': nat)
    requires shown != total && shown' != total'
    requires Label(shown, total) == Label(shown', total')
    ensures shown == shown' && total == total'
  {
    FoundTail(shown, total);
    FoundTail(shown', total');
    var tail, tail' := " de " + NatToString(total) + " animais", " de " + NatToString(total') + " animais";
    DigitsPrefix(NatToString(shown), tail, NatToString(shown'), tail');
    NatToStringInjective(shown, shown');
    OfTotalDeterminesTotal(total, total');
  }

  /** The part ` de {n} animais` tells `n`. */
  lemma OfTotalDeterminesTotal(total: nat, total': nat)
    requires " de " + NatToString(total) + " animais" == " de " + NatToString(total') + " animais"
    ensures total == total'
  {
    var m, m' := NatToString(total), NatToString(total');
    assert (" de " + m + " animais")[4..] == m + " animais";
    assert (" de " + m' + " animais")[4..] == m' + " animais";
    DigitsPrefix(m, " animais", m', " animais");
    NatToStringInjective(total, total');
  }

  /** The label tells which wording applies and the number of cards shown;
      in the "found" wording it also tells the catalogue size. */
  lemma LabelDeterminesCounts(shown: nat, total: nat, shown': nat, total': nat)
    requires Label(shown, total) == Label(shown', total')
    ensures shown == shown'
    ensures (shown == total) <==> (shown' == total')
    ensures shown != total ==> total == total'
  {
    if shown == total && shown' == total' {
      ShowAllDeterminesCount(shown, shown');
    } else if shown != total && shown' != total' {
      FoundDeterminesCounts(shown, total, shown', total');
    }
  }

  /** The text shown when every record of the catalogue is on screen. */
  lemma ShowAllCatalogLabel()
    ensures Label(|Catalog|, |Catalog|) == "Mostrando todos os 8 animais"
  {
  }

  /** Neither dropdown restricts and the search field is unset or empty. */
  predicate Unfiltered(category: string, size: string, query: Option<string>) {
    category == All && size == All && (query == None || query == Some([]))
  }

  /** For this catalogue, every record is shown exactly when both dropdowns
      are on `Todos` and the search is empty: the categories and the sizes
      differ between records, and no letter occurs in both "gato" and "peixe". */
  lemma CatalogShowsAllIff(category: string, size: string, query: Option<string>)
    ensures var r := Filter(Catalog, category, size, Search(query));
      && (r == Catalog <==> Unfiltered(category, size, query))
      && (r == Catalog <==> |r| == |Catalog|)
      && (Label(|r|, |Catalog|) == Label(|Catalog|, |Catalog|) <==> Unfiltered(category, size, query))
  {
    FilterKeepsAll(Catalog, category, size, Search(query));
    CatalogAllMatchIff(category, size, Search(query));
  }

  /** The categories of this catalogue, record by record. */
  lemma CatalogCategories()
    ensures |Catalog| == 8
    ensures Catalog[0].category == Catalog[1].category == Catalog[4].category == "Doméstico"
    ensures Catalog[2].category == Catalog[7].category == "Aquático"
    ensures Catalog[3].category == Catalog[5].category == Catalog[6].category == "Selvagem"
  {
  }

  /** Selecting a category alone keeps, of eight records, those of that
      category; here the first, second and fifth. */
  lemma CategoryRun(c: seq<Animal>, d: string)
    requires |c| == 8 && d != All
    requires c[0].category == c[1].category == c[4].category == d
    requires c[2].category != d && c[3].category != d && c[5].category != d
    requires c[6].category != d && c[7].category != d
    ensures Filter(c, d, All, []) == [c[0], c[1], c[4]]
  {
    assert Filter(c[7..], d, All, []) == [];
    assert Filter(c[6..], d, All, []) == [];
    assert Filter(c[5..], d, All, []) == [];
    assert Filter(c[4..], d, All, []) == [c[4]];
    assert Filter(c[3..], d, All, []) == [c[4]];
    assert Filter(c[2..], d, All, []) == [c[4]];
    assert Filter(c[1..], d, All, []) == [c[1], c[4]];
  }

  /** Choosing the category `Doméstico`, with no size and no search, shows
      Gato, Cachorro and Coelho, in that order. */
  lemma DomesticRun()
    ensures Filter(Catalog, "Doméstico", All, []) == [Catalog[0], Catalog[1], Catalog[4]]
  {
    CatalogCategories();
    CategoryRun(Catalog, "Doméstico");
  }

  /** Every record of this catalogue passes the test exactly when neither
      dropdown restricts and the search is empty. */
  lemma CatalogAllMatchIff(category: string, size: string, busca: string)
    ensures (forall x :: x in Catalog ==> Matches(x, category, size, busca))
        <==> category == All && size == All && busca == []
  {
    var gato, peixe := Catalog[0], Catalog[2];
    assert gato in Catalog && peixe in Catalog;
    if Matches(gato, category, size, busca) && Matches(peixe, category, size, busca) {
      GatoAndPeixeMatchNoFilter(category, size, busca);
    }
  }

  /** Gato and Peixe differ in category and in size and share no letter, so
      only the unrestricted test lets both through. */
  lemma GatoAndPeixeMatchNoFilter(category: string, size: string, busca: string)
    requires Matches(Catalog[0], category, size, busca) && Matches(Catalog[2], category, size, busca)
    ensures category == All && size == All && busca == []
  {
    var gato, peixe := Catalog[0], Catalog[2];
    assert gato.category == "Doméstico" && peixe.category == "Aquático";
    assert gato.size == "Médio" && peixe.size == "Pequeno";
    GatoAndPeixeLowered();
    if busca != [] {
      NoSearchFindsGatoAndPeixe(busca);
    }
  }

  /** The lower-cased names the search is matched against for Gato and Peixe. */
  lemma GatoAndPeixeLowered()
    ensures Lower(Catalog[0].name) == "gato" && Lower(Catalog[2].name) == "peixe"
  {
    assert Catalog[0].name == "Gato" && Catalog[2].name == "Peixe";
  }

  /** No letter occurs in both "gato" and "peixe", so no non-empty search
      text is found in both. */
  lemma NoSearchFindsGatoAndPeixe(busca: string)
    requires Contains("gato", busca) && Contains("peixe", busca)
    ensures busca == []
  {
    ContainsFirstChar("gato", busca);
    ContainsFirstChar("peixe", busca);
  }

  /** The page: the catalogue it was built with, the three filter controls,
      the cards on screen and the counter text. */
  class Gallery {
    const animals: seq<Animal>
    var category: string
    var size: string
    var query: Option<string>
    var cards: seq<Animal>
    var counter: string

    /** The cards and the counter agree with the current filter values. */
    ghost predicate Shows()
      reads this
    {
      && cards == Filter(animals, category, size, Search(query))
      && counter == Label(|cards|, |animals|)
    }

    /** The page as it first appears: the catalogue, both dropdowns on
        `Todos`, the search field unset, then one load. */
    constructor ()
      ensures animals == Catalog
      ensures category == All && size == All && query == None
      ensures Shows()
      ensures cards == Catalog && counter == Label(|Catalog|, |Catalog|)
    {
      animals := Catalog;
      category, size, query := All, All, None;
      cards, counter := [], "";
      new;
      Load();
      ShowsEverythingIff(this);
    }

    /** Rebuilds the cards from scratch for the current filter values and
        updates the counter. */
    method Load()
      modifies this`cards, this`counter
      ensures Shows()
      ensures |cards| <= |animals|
    {
      cards := [];
      var busca := Search(query);
      var filtered := Filter(animals, category, size, busca);
      for i := 0 to |filtered|
        invariant cards == filtered[..i]
      {
        cards := cards + [filtered[i]];
      }
      assert cards == filtered;
      counter := Label(|filtered|, |animals|);
    }

    /** Puts both dropdowns back on `Todos`, empties the search and reloads. */
    method Clear()
      modifies this
      ensures category == All && size == All && query == Some([])
      ensures Shows()
      ensures cards == animals && counter == Label(|animals|, |animals|)
    {
      category := All;
      size := All;
      query := Some([]);
      Load();
      NoFilterKeepsAll(animals);
    }
  }

  /** On this catalogue, a page that agrees with its controls shows every card,
      and the "showing all" counter, exactly when no control restricts. */
  lemma ShowsEverythingIff(g: Gallery)
    requires g.animals == Catalog && g.Shows()
    ensures g.cards == Catalog <==> Unfiltered(g.category, g.size, g.query)
    ensures g.counter == Label(|Catalog|, |Catalog|) <==> Unfiltered(g.category, g.size, g.query)
  {
    CatalogShowsAllIff(g.category, g.size, g.query);
  }

  /** Loading twice with unchanged filters shows the same cards and counter. */
  method LoadTwice(g: Gallery) returns (cards: seq<Animal>, counter: string)
    modifies g`cards, g`counter
    ensures g.cards == cards && g.counter == counter
    ensures g.Shows()
  {
    g.Load();
    cards, counter := g.cards, g.counter;
    g.Load();
  }

  /** Reloading a page that already agrees with its controls changes nothing:
      `Load` is idempotent. */
  method ReloadInSync(g: Gallery)
    requires g.Shows()
    modifies g`cards, g`counter
    ensures g.cards == old(g.cards) && g.counter == old(g.counter)
  {
    g.Load();
  }
}
