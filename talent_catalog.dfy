/**
 * app/admin/talents/TalentCatalog.tsx: the admin grid of talents with a
 * gender filter ("Todos", "Dama", "Caballero"), a count line with Spanish
 * plural endings, and a "show all" link when a gender filter matches nothing.
 */
module TalentCatalog {
  import Lists
  import Text
  import opened TalentCard

  datatype GenderFilter = Todos | Dama | Caballero

  /** The `genero` value a gender filter selects. */
  function GenderName(f: GenderFilter): string
    requires f != Todos
  {
    if f == Dama then "Dama" else "Caballero"
  }

  /** The predicate `filteredTalents` applies to each talent. */
  predicate Matches(f: GenderFilter, t: Talent) {
    f == Todos || t.genero == GenderName(f)
  }

  /** `filteredTalents`. */
  function FilteredTalents(talents: seq<Talent>, f: GenderFilter): seq<Talent>
  {
    Lists.Filter((t: Talent) => Matches(f, t), talents)
  }

  /** "Todos" shows every talent, in the order given. */
  lemma AllShowsEverything(talents: seq<Talent>)
    ensures FilteredTalents(talents, Todos) == talents
  {
    Lists.FilterAllPass((t: Talent) => Matches(Todos, t), talents);
  }

  /** A gender filter keeps exactly the talents of that gender, each as many
      times as it occurs, in their original order. */
  lemma GenderFilterExact(talents: seq<Talent>, f: GenderFilter)
    requires f != Todos
    ensures forall i | 0 <= i < |FilteredTalents(talents, f)| ::
      FilteredTalents(talents, f)[i].genero == GenderName(f)
    ensures forall t: Talent :: (multiset(FilteredTalents(talents, f))[t]
      == if t.genero == GenderName(f) then multiset(talents)[t] else 0)
    ensures Lists.IsSubsequence(FilteredTalents(talents, f), talents)
  {
    forall t: Talent
      ensures multiset(FilteredTalents(talents, f))[t]
        == if t.genero == GenderName(f) then multiset(talents)[t] else 0
    {
      Lists.FilterCount((t: Talent) => Matches(f, t), talents, t);
    }
    Lists.FilterIsSubsequence((t: Talent) => Matches(f, t), talents);
  }

  /** Applying the same filter to its own result changes nothing. */
  lemma FilterIsIdempotent(talents: seq<Talent>, f: GenderFilter)
    ensures FilteredTalents(FilteredTalents(talents, f), f) == FilteredTalents(talents, f)
  {
    Lists.FilterIdempotent((t: Talent) => Matches(f, t), talents);
  }

  /** `${n} talento${n !== 1 ? "s" : ""} registrado${n !== 1 ? "s" : ""}`. */
  function CountLabel(n: nat): (line: string)
    ensures |line| > |Text.NatToString(n)|
    ensures line[..|Text.NatToString(n)|] == Text.NatToString(n)
    ensures line[|line| - 1] == 's' <==> n != 1
    ensures line[|Text.NatToString(n)|..]
         == if n == 1 then " talento registrado" else " talentos registrados"
  {
    var plural := if n != 1 then "s" else "";
    Text.NatToString(n) + " talento" + plural + " registrado" + plural
  }

  /** The count line states the number of talents shown, and reads back as it. */
  lemma CountLabelReadsBack(talents: seq<Talent>, f: GenderFilter)
    ensures var n := |FilteredTalents(talents, f)|;
      var digits := CountLabel(n)[..|Text.NatToString(n)|];
      Text.AllDigits(digits) && Text.ParseNat(digits) == n
  {
    Text.ParseNatToString(|FilteredTalents(talents, f)|);
  }

  /** The grid of cards is shown when the filter keeps some talent; the
      "no talents in this category" panel is shown otherwise. */
  predicate ShowsGrid(talents: seq<Talent>, f: GenderFilter) {
    |FilteredTalents(talents, f)| > 0
  }

  /** The "Ver todos los talentos" link, inside the empty-state panel:
      offered when a gender filter is on. */
  predicate OffersShowAll(talents: seq<Talent>, f: GenderFilter) {
    !ShowsGrid(talents, f) && f != Todos
  }

  /** The grid appears exactly when some talent matches the filter; under
      "Todos" that is exactly when there are talents, and under a gender
      filter exactly when some talent has that gender. */
  lemma GridIffSomeMatch(talents: seq<Talent>, f: GenderFilter)
    ensures ShowsGrid(talents, f) <==> exists t :: t in talents && Matches(f, t)
    ensures ShowsGrid(talents, Todos) <==> talents != []
    ensures f != Todos ==>
      (ShowsGrid(talents, f) <==> exists i :: 0 <= i < |talents| && talents[i].genero == GenderName(f))
  {
    AllShowsEverything(talents);
    var shown := FilteredTalents(talents, f);
    var m := multiset(shown);
    forall t: Talent ensures m[t] == if Matches(f, t) then multiset(talents)[t] else 0 {
      Lists.FilterCount((t: Talent) => Matches(f, t), talents, t);
    }
    if shown != [] {
      assert m[shown[0]] > 0;
    }
    if t :| t in talents && Matches(f, t) {
      assert m[t] > 0;
    }
    if f != Todos {
      if i :| 0 <= i < |talents| && talents[i].genero == GenderName(f) {
        assert talents[i] in talents && Matches(f, talents[i]);
      }
    }
  }

  /** The link appears only when some filter would show more, and "Todos"
      never needs it. */
  lemma ShowAllOnlyWhenFiltered(talents: seq<Talent>, f: GenderFilter)
    ensures OffersShowAll(talents, f) ==> f != Todos && FilteredTalents(talents, f) == []
    ensures OffersShowAll(talents, f) && talents != [] ==> |FilteredTalents(talents, Todos)| > 0
    ensures !OffersShowAll(talents, Todos)
    ensures OffersShowAll(talents, f) ==> !ShowsGrid(talents, f)
  {
    AllShowsEverything(talents);
  }
}
