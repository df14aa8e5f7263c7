/**
 * The species picker and the input check that runs before a calculation.
 *
 * The page keeps the chosen species in a list (`selectedSpecies`) and shows
 * each species as an item with a checkbox. Two handlers change the list: a
 * click on the item and a change of the checkbox itself. The checkbox states
 * are part of the state here (the set of species whose box is ticked), since
 * the click handler decides by reading its box. At most three species may be
 * chosen.
 */
module Selection {
  import opened Wrappers

  const MaxSpecies: nat := 3

  /** `xs.filter(x => x !== s)`: xs without any occurrence of s, the rest in order. */
  function Without(xs: seq<string>, s: string): (r: seq<string>)
    ensures forall x :: x in r <==> x in xs && x != s
    ensures |r| <= |xs|
  {
    if xs == [] then []
    else (if xs[0] == s then [] else [xs[0]]) + Without(xs[1..], s)
  }

  /** Removing distributes over concatenation: what is kept stays in its order. */
  lemma {:induction false} WithoutConcat(xs: seq<string>, ys: seq<string>, s: string)
    ensures Without(xs + ys, s) == Without(xs, s) + Without(ys, s)
  {
    if xs == [] {
      assert xs + ys == ys;
    } else {
      var kept := if xs[0] == s then [] else [xs[0]];
      assert (xs + ys)[0] == xs[0] && (xs + ys)[1..] == xs[1..] + ys;
      assert Without(xs + ys, s) == kept + Without(xs[1..] + ys, s);
      assert Without(xs, s) == kept + Without(xs[1..], s);
      WithoutConcat(xs[1..], ys, s);
      assert kept + (Without(xs[1..], s) + Without(ys, s)) == (kept + Without(xs[1..], s)) + Without(ys, s);
    }
  }

  /** Removing a species that is not there changes nothing. */
  lemma {:induction false} WithoutAbsent(xs: seq<string>, s: string)
    requires s !in xs
    ensures Without(xs, s) == xs
  {
    if xs != [] {
      WithoutAbsent(xs[1..], s);
    }
  }

  /** Each species occurs at most once. */
  predicate NoDuplicates(xs: seq<string>) {
    forall i, j | 0 <= i < j < |xs| :: xs[i] != xs[j]
  }

  lemma {:induction false} WithoutKeepsNoDuplicates(xs: seq<string>, s: string)
    requires NoDuplicates(xs)
    ensures NoDuplicates(Without(xs, s))
  {
    if xs != [] {
      WithoutKeepsNoDuplicates(xs[1..], s);
      var head := if xs[0] == s then [] else [xs[0]];
      var rest := Without(xs[1..], s);
      assert xs[0] !in xs[1..];
      forall i, j | 0 <= i < j < |head + rest|
        ensures (head + rest)[i] != (head + rest)[j]
      {
        if i < |head| {
          assert (head + rest)[j] == rest[j - |head|] && rest[j - |head|] in rest;
        } else {
          assert (head + rest)[i] == rest[i - |head|] && (head + rest)[j] == rest[j - |head|];
        }
      }
    }
  }

  /** The picker's state: the chosen species in order, and the species whose checkbox is ticked. */
  datatype Picker = Picker(selected: seq<string>, checked: set<string>)

  /** The state the handlers keep: ticked boxes are exactly the chosen species, each chosen once, at most three. */
  predicate Consistent(p: Picker) {
    && p.checked == (set s | s in p.selected)
    && NoDuplicates(p.selected)
    && |p.selected| <= MaxSpecies
  }

  /**
   * A click on a species item: a ticked species is unticked and removed
   * everywhere from the list; an unticked one is ticked and appended while
   * fewer than three are chosen; otherwise (the warning path) nothing changes.
   */
  function OnItemClick(p: Picker, species: string): (q: Picker)
    ensures |p.selected| <= MaxSpecies ==> |q.selected| <= MaxSpecies
    ensures species in p.checked ==> species !in q.selected && species !in q.checked
    ensures species !in p.checked && |p.selected| < MaxSpecies ==>
      q.selected == p.selected + [species] && species in q.checked
    ensures species !in p.checked && |p.selected| >= MaxSpecies ==> q == p
  {
    if species in p.checked then
      Picker(Without(p.selected, species), p.checked - {species})
    else if |p.selected| < MaxSpecies then
      Picker(p.selected + [species], p.checked + {species})
    else
      p
  }

  /**
   * A change of a species' own checkbox. The browser has already flipped the
   * box, so it is now ticked exactly when it was not before. Ticking a fourth
   * species unticks it again (the warning path); ticking otherwise appends
   * the species unless it is already listed; unticking removes it everywhere.
   */
  function OnCheckboxChange(p: Picker, species: string): (q: Picker)
    ensures |p.selected| <= MaxSpecies ==> |q.selected| <= MaxSpecies
    ensures NoDuplicates(p.selected) ==> NoDuplicates(q.selected)
    ensures species in p.checked ==> species !in q.selected && species !in q.checked
    ensures species in p.checked ==> q.selected == Without(p.selected, species) && q.checked == p.checked - {species}
    ensures species !in p.checked && |p.selected| >= MaxSpecies && species !in p.selected ==> q == p
    ensures species !in p.checked && (|p.selected| < MaxSpecies || species in p.selected) ==>
      && q.checked == p.checked + {species}
      && q.selected == (if species in p.selected then p.selected else p.selected + [species])
  {
    var nowChecked := species !in p.checked;
    if nowChecked && |p.selected| >= MaxSpecies && species !in p.selected then
      p
    else if nowChecked then
      Picker(if species in p.selected then p.selected else p.selected + [species], p.checked + {species})
    else
      WithoutKeepsNoDuplicatesIf(p.selected, species);
      Picker(Without(p.selected, species), p.checked - {species})
  }

  lemma WithoutKeepsNoDuplicatesIf(xs: seq<string>, s: string)
    ensures NoDuplicates(xs) ==> NoDuplicates(Without(xs, s))
  {
    if NoDuplicates(xs) {
      WithoutKeepsNoDuplicates(xs, s);
    }
  }

  /** A click keeps the picker consistent. */
  lemma ItemClickKeepsConsistent(p: Picker, species: string)
    requires Consistent(p)
    ensures Consistent(OnItemClick(p, species))
  {
    var q := OnItemClick(p, species);
    if species in p.checked {
      WithoutKeepsNoDuplicates(p.selected, species);
    } else if |p.selected| < MaxSpecies {
      assert species !in p.selected;
      assert forall i | 0 <= i < |p.selected| :: p.selected[i] in p.selected;
    }
  }

  /** A checkbox change keeps the picker consistent. */
  lemma CheckboxChangeKeepsConsistent(p: Picker, species: string)
    requires Consistent(p)
    ensures Consistent(OnCheckboxChange(p, species))
  {
    var q := OnCheckboxChange(p, species);
    if species in p.checked {
      assert q.selected == Without(p.selected, species);
    } else {
      assert species !in p.selected;
    }
  }

  /** Clicking a chosen species removes only it: the list is the old one with it filtered out, in order. */
  lemma ItemClickRemovesOnlyIt(p: Picker, species: string, xs: seq<string>, ys: seq<string>)
    requires species in p.checked && p.selected == xs + [species] + ys
    ensures OnItemClick(p, species).selected == Without(xs, species) + Without(ys, species)
  {
    WithoutConcat(xs + [species], ys, species);
    WithoutConcat(xs, [species], species);
  }

  /**
   * In a consistent picker a chosen species occurs once, so unticking it by
   * either handler leaves exactly the other species, in their order.
   */
  lemma UntickKeepsOthersInOrder(p: Picker, species: string, xs: seq<string>, ys: seq<string>)
    requires Consistent(p) && species in p.checked && p.selected == xs + [species] + ys
    ensures OnItemClick(p, species).selected == xs + ys
    ensures OnCheckboxChange(p, species).selected == xs + ys
  {
    forall k | 0 <= k < |xs|
      ensures xs[k] != species
    {
      assert p.selected[k] == xs[k] && p.selected[|xs|] == species;
    }
    forall k | 0 <= k < |ys|
      ensures ys[k] != species
    {
      assert p.selected[|xs| + 1 + k] == ys[k] && p.selected[|xs|] == species;
    }
    WithoutAbsent(xs, species);
    WithoutAbsent(ys, species);
    ItemClickRemovesOnlyIt(p, species, xs, ys);
  }

  /** The picker as the page keeps it, with the two handlers as methods. */
  class SpeciesPicker {
    var selected: seq<string>
    var checked: set<string>

    function State(): Picker
      reads this
    {
      Picker(selected, checked)
    }

    ghost predicate Valid()
      reads this
    {
      Consistent(State())
    }

    /** The page starts with nothing chosen and no box ticked. */
    constructor ()
      ensures Valid() && selected == [] && checked == {}
    {
      selected := [];
      checked := {};
    }

    /** The click handler on a species item. */
    method ItemClick(species: string)
      requires Valid()
      modifies this
      ensures Valid()
      ensures State() == OnItemClick(old(State()), species)
    {
      ItemClickKeepsConsistent(State(), species);
      if species in checked {
        checked := checked - {species};
        selected := Without(selected, species);
      } else if |selected| < MaxSpecies {
        checked := checked + {species};
        selected := selected + [species];
      }
    }

    /** The change handler on a species checkbox, after the browser flipped it. */
    method CheckboxChange(species: string)
      requires Valid()
      modifies this
      ensures Valid()
      ensures State() == OnCheckboxChange(old(State()), species)
    {
      CheckboxChangeKeepsConsistent(State(), species);
      var nowChecked := species !in checked;
      if nowChecked {
        checked := checked + {species};
      } else {
        checked := checked - {species};
      }
      if nowChecked && |selected| >= MaxSpecies && species !in selected {
        checked := checked - {species};
        return;
      }
      if nowChecked {
        if species !in selected {
          selected := selected + [species];
        }
      } else {
        selected := Without(selected, species);
      }
    }
  }

  // ---------------------------------------------------------------------------
  // The input check

  /** Why a calculation may not start, in the order the checks are made. */
  datatype Problem = NoBiome | WrongSpeciesCount | MissingBlueprint | RepeatedBlueprint

  /** The first failing check, or `None` when the inputs may be used. An empty value is an unset select. */
  function InputProblem(biome: string, selected: seq<string>, b1: string, b2: string, b3: string): (r: Option<Problem>)
    ensures r == Some(NoBiome) <==> biome == ""
    ensures r == Some(WrongSpeciesCount) <==> biome != "" && |selected| != MaxSpecies
    ensures r == Some(MissingBlueprint) <==>
      biome != "" && |selected| == MaxSpecies && (b1 == "" || b2 == "" || b3 == "")
    ensures r == Some(RepeatedBlueprint) <==>
      biome != "" && |selected| == MaxSpecies && b1 != "" && b2 != "" && b3 != ""
      && (b1 == b2 || b1 == b3 || b2 == b3)
  {
    if biome == "" then Some(NoBiome)
    else if |selected| != MaxSpecies then Some(WrongSpeciesCount)
    else if b1 == "" || b2 == "" || b3 == "" then Some(MissingBlueprint)
    else if |{b1, b2, b3}| != 3 then Some(RepeatedBlueprint)
    else None
  }

  /** `validateInputs`: a biome, exactly three species, and three different blueprints, all set. */
  function ValidateInputs(biome: string, selected: seq<string>, b1: string, b2: string, b3: string): (ok: bool)
    ensures ok <==>
      && biome != ""
      && |selected| == MaxSpecies
      && b1 != "" && b2 != "" && b3 != ""
      && b1 != b2 && b1 != b3 && b2 != b3
  {
    InputProblem(biome, selected, b1, b2, b3).None?
  }
}
