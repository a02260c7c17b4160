/** The mentee suggestions page: the category chips offered (every category
    of every suggestion, sorted, each once), the search box and the chip
    selection that narrow the list, and the capped tag rows on each card. */
module FindMentees {
  import opened Seqs
  import opened Text

  /** A suggested mentee. Missing text fields are "". */
  datatype MenteeCard = MenteeCard(
    id: string,
    fullName: string,
    headline: string,
    bio: string,
    helpAreas: string,
    interests: string,
    categories: string)

  /** The categories of one suggestion, as the chips list them. */
  function CategoriesOf(m: MenteeCard): seq<string>
  {
    CsvPieces(m.categories)
  }

  /** Every category of the first suggestions, gathered as the loop gathers
      them. */
  function AllCategories(raw: seq<MenteeCard>): set<string>
    decreases |raw|
  {
    if raw == [] then {}
    else AllCategories(raw[..|raw| - 1]) + Elems(CategoriesOf(raw[|raw| - 1]))
  }

  /** A category is offered exactly when some suggestion lists it. */
  lemma {:induction false} AllCategoriesMeaning(raw: seq<MenteeCard>, c: string)
    ensures c in AllCategories(raw) <==> exists i :: 0 <= i < |raw| && c in CategoriesOf(raw[i])
    decreases |raw|
  {
    if raw != [] {
      var init := raw[..|raw| - 1];
      AllCategoriesMeaning(init, c);
      if c in AllCategories(init) {
        var i :| 0 <= i < |init| && c in CategoriesOf(init[i]);
        assert raw[i] == init[i];
      }
      if i :| 0 <= i < |raw| && c in CategoriesOf(raw[i]) {
        if i < |raw| - 1 {
          assert init[i] == raw[i];
        }
      }
    }
  }

  /** Every offered category is a non-empty, trimmed, comma-free string. */
  lemma AllCategoriesClean(raw: seq<MenteeCard>, c: string)
    requires c in AllCategories(raw)
    ensures CleanTag(c)
  {
    AllCategoriesMeaning(raw, c);
  }

  predicate StrictlySorted(xs: seq<string>)
  {
    forall i, j :: 0 <= i < j < |xs| ==> Before(xs[i], xs[j])
  }

  /** The first string of a non-empty set in the sort order. */
  method Least(s: set<string>) returns (m: string)
    requires s != {}
    ensures m in s
    ensures forall x :: x in s && x != m ==> Before(m, x)
  {
    m :| m in s;
    var rest := s - {m};
    while rest != {}
      invariant rest <= s && m in s && m !in rest
      invariant forall x :: x in s && x !in rest && x != m ==> Before(m, x)
      decreases |rest|
    {
      var x :| x in rest;
      if Before(x, m) {
        forall y | y in s && y !in rest && y != x
          ensures Before(x, y)
        {
          if y != m {
            BeforeTransitive(x, m, y);
          }
        }
        m := x;
      } else {
        BeforeTotal(x, m);
      }
      rest := rest - {x};
    }
  }

  /** `Array.from(bag).sort()`: the members of the set in increasing order,
      each once. */
  method SortedList(bag: set<string>) returns (r: seq<string>)
    ensures StrictlySorted(r)
    ensures forall x :: x in r <==> x in bag
    ensures |r| == |bag|
  {
    r := [];
    var left := bag;
    while left != {}
      invariant left <= bag
      invariant forall x :: x in bag <==> x in r || x in left
      invariant forall x :: x in r ==> x !in left
      invariant StrictlySorted(r)
      invariant forall i, y :: 0 <= i < |r| && y in left ==> Before(r[i], y)
      invariant |r| + |left| == |bag|
      decreases |left|
    {
      var m := Least(left);
      r := r + [m];
      left := left - {m};
    }
  }

  /** `categoriesUniverse`: the categories of all suggestions, sorted and
      without repetition. */
  method CategoriesUniverse(raw: seq<MenteeCard>) returns (r: seq<string>)
    ensures StrictlySorted(r)
    ensures forall c :: c in r <==> exists i :: 0 <= i < |raw| && c in CategoriesOf(raw[i])
    ensures forall c :: c in r ==> CleanTag(c)
  {
    var bag: set<string> := {};
    for i := 0 to |raw|
      invariant bag == AllCategories(raw[..i])
    {
      bag := bag + Elems(CategoriesOf(raw[i]));
      assert raw[..i + 1][..i] == raw[..i];
    }
    assert raw[..|raw|] == raw;
    r := SortedList(bag);
    forall c
      ensures c in r <==> exists i :: 0 <= i < |raw| && c in CategoriesOf(raw[i])
    {
      AllCategoriesMeaning(raw, c);
    }
    forall c | c in r
      ensures CleanTag(c)
    {
      AllCategoriesClean(raw, c);
    }
  }

  /** The text test: the lowered needle occurs in one of the lowered fields. */
  predicate HitsText(m: MenteeCard, needle: string)
  {
    || Includes(ToLower(m.fullName), needle)
    || Includes(ToLower(m.headline), needle)
    || Includes(ToLower(m.bio), needle)
    || Includes(ToLower(m.helpAreas), needle)
    || Includes(ToLower(m.interests), needle)
  }

  /** The chip test: no chip selected, or one of the suggestion's trimmed
      categories is selected. Empty pieces are not dropped here. */
  predicate CategoryOk(m: MenteeCard, active: set<string>)
  {
    active == {} || exists c :: c in TrimAll(Split(m.categories, ',')) && c in active
  }

  function Keeps(needle: string, active: set<string>): MenteeCard -> bool
  {
    m => HitsText(m, needle) && CategoryOk(m, active)
  }

  /** The filter effect: the suggestions that pass both tests, in order. */
  function Matching(raw: seq<MenteeCard>, q: string, active: set<string>): seq<MenteeCard>
  {
    Filter(raw, Keeps(ToLower(Trim(q)), active))
  }

  /** Nothing to search, nothing shown. */
  lemma MatchingNone(q: string, active: set<string>)
    ensures Matching([], q, active) == []
  {
    assert Filter([], Keeps(ToLower(Trim(q)), active)) == [];
  }

  /** The shown list is an order-preserving subsequence of the suggestions,
      and a suggestion is shown exactly when it passes both tests. */
  lemma MatchingSpec(raw: seq<MenteeCard>, q: string, active: set<string>)
    ensures IsSubseq(Matching(raw, q, active), raw)
    ensures forall m :: m in Matching(raw, q, active) <==>
      m in raw && HitsText(m, ToLower(Trim(q))) && CategoryOk(m, active)
  {
    FilterSpec(raw, Keeps(ToLower(Trim(q)), active));
  }

  /** A blank query with no chip selected shows every suggestion. */
  lemma MatchingIdle(raw: seq<MenteeCard>, q: string)
    requires forall k :: 0 <= k < |q| ==> IsSpace(q[k])
    ensures Matching(raw, q, {}) == raw
  {
    TrimBlank(q);
    FilterAll(raw, Keeps(ToLower(Trim(q)), {}));
  }

  /** With chips selected, every shown suggestion has a selected category. */
  lemma MatchingHasActiveCategory(raw: seq<MenteeCard>, q: string, active: set<string>, m: MenteeCard)
    requires active != {} && m in Matching(raw, q, active)
    ensures exists c :: c in TrimAll(Split(m.categories, ',')) && c in active
  {
    MatchingSpec(raw, q, active);
  }

  /** The text test is a substring test over the five lowered fields. */
  lemma HitsTextMeaning(m: MenteeCard, needle: string)
    ensures HitsText(m, needle) <==>
      || (exists i :: OccursAt(ToLower(m.fullName), needle, i))
      || (exists i :: OccursAt(ToLower(m.headline), needle, i))
      || (exists i :: OccursAt(ToLower(m.bio), needle, i))
      || (exists i :: OccursAt(ToLower(m.helpAreas), needle, i))
      || (exists i :: OccursAt(ToLower(m.interests), needle, i))
  {
    IncludesIffOccurs(ToLower(m.fullName), needle);
    IncludesIffOccurs(ToLower(m.headline), needle);
    IncludesIffOccurs(ToLower(m.bio), needle);
    IncludesIffOccurs(ToLower(m.helpAreas), needle);
    IncludesIffOccurs(ToLower(m.interests), needle);
  }

  /** The case of the query does not matter. */
  lemma MatchingIgnoresQueryCase(raw: seq<MenteeCard>, q: string, active: set<string>)
    ensures Matching(raw, ToLower(q), active) == Matching(raw, q, active)
  {
    TrimLower(q);
    ToLowerIdempotent(Trim(q));
  }

  /** `toggleCat`: flip the membership of `c`. */
  function Toggle(s: set<string>, c: string): (r: set<string>)
    ensures c in r <==> c !in s
    ensures forall x :: x != c ==> (x in r <==> x in s)
  {
    if c in s then s - {c} else s + {c}
  }

  /** Toggling the same chip twice restores the selection. */
  lemma ToggleTwice(s: set<string>, c: string)
    ensures Toggle(Toggle(s, c), c) == s
  {
  }

  /** The tags shown on a card: the first `cap` pieces of a comma-separated
      field. */
  function ShownTags(field: string, cap: nat): (r: seq<string>)
    ensures |r| <= cap
    ensures r <= CsvPieces(field)
    ensures |CsvPieces(field)| <= cap ==> r == CsvPieces(field)
  {
    Take(CsvPieces(field), cap)
  }

  /** At most six help areas and six interests per card. */
  function HelpAreaTags(m: MenteeCard): (r: seq<string>)
    ensures |r| <= 6 && r <= CsvPieces(m.helpAreas)
  {
    ShownTags(m.helpAreas, 6)
  }

  function InterestTags(m: MenteeCard): (r: seq<string>)
    ensures |r| <= 6 && r <= CsvPieces(m.interests)
  {
    ShownTags(m.interests, 6)
  }

  /** The page state: the suggestions, the query, the selected chips and the
      shown list, which always equals the filter of the other three. */
  class MenteeSearch {
    var raw: seq<MenteeCard>
    var q: string
    var activeCats: set<string>
    var items: seq<MenteeCard>

    predicate Valid()
      reads this
    {
      items == Matching(raw, q, activeCats)
    }

    constructor()
      ensures Valid() && raw == [] && q == "" && activeCats == {} && items == []
    {
      raw := [];
      q := "";
      activeCats := {};
      items := [];
      new;
      MatchingNone(q, activeCats);
    }

    /** The suggestions arrive. */
    method Load(data: seq<MenteeCard>)
      modifies this
      ensures Valid() && raw == data
      ensures q == old(q) && activeCats == old(activeCats)
    {
      raw := data;
      items := Matching(raw, q, activeCats);
    }

    /** The search box changes. */
    method SetQuery(t: string)
      modifies this
      ensures Valid() && q == t
      ensures raw == old(raw) && activeCats == old(activeCats)
    {
      q := t;
      items := Matching(raw, q, activeCats);
    }

    /** `toggleCat(c)`: copy the selection, add or delete `c`, store it. */
    method ToggleCat(c: string)
      modifies this
      ensures Valid() && activeCats == Toggle(old(activeCats), c)
      ensures raw == old(raw) && q == old(q)
    {
      activeCats := Toggle(activeCats, c);
      items := Matching(raw, q, activeCats);
    }

    /** The Clear chip. */
    method ClearCats()
      modifies this
      ensures Valid() && activeCats == {}
      ensures raw == old(raw) && q == old(q)
    {
      activeCats := {};
      items := Matching(raw, q, activeCats);
    }
  }
}
