/** The reagent console (components/ChemicalLibrary.tsx): one drop-down per inventory
    category, shown when the category has stock or is 'Synthesized'; picking an entry
    hands that molecule to the workspace's addReactant and resets the drop-down. */
module ChemicalLibrary {
  import opened Types
  import opened Text
  import Workspace

  const PlaceholderValue: string := ""

  /** `inventory[category][molIdx]`, undefined (None) outside the list. */
  function Picked(inv: Workspace.Inventory, category: string, molIdx: int): (r: Option<Molecule>)
    requires category in inv
    ensures r.Some? <==> 0 <= molIdx < |inv[category]|
    ensures r.Some? ==> r.value == inv[category][molIdx]
  {
    if 0 <= molIdx < |inv[category]| then Some(inv[category][molIdx]) else None
  }

  /** handleSelect: a molecule found at the index goes to addReactant; an index outside
      the list calls nothing. */
  method HandleSelect(inv: Workspace.Inventory, category: string, molIdx: int, ws: Workspace.Workspace)
    requires category in inv
    modifies ws`reactants
    ensures Picked(inv, category, molIdx).Some? ==>
      ws.reactants == Workspace.WithReactant(old(ws.reactants), inv[category][molIdx])
    ensures Picked(inv, category, molIdx).None? ==> ws.reactants == old(ws.reactants)
  {
    var list := inv[category];
    if 0 <= molIdx < |list| {
      var selectedMol := list[molIdx];
      ws.AddReactant(selectedMol);
    }
  }

  /** Whether a category gets a drop-down: it has stock, or it is 'Synthesized'. */
  predicate Visible(category: string, chemicals: seq<Molecule>) {
    |chemicals| != 0 || category == Workspace.SynthesizedKey
  }

  /** The categories drawn, in the order Object.entries visits the keys. */
  function VisibleCategories(inv: Workspace.Inventory, order: seq<string>): (shown: seq<string>)
    ensures |shown| <= |order|
    ensures forall c :: c in shown <==> c in order && c in inv && Visible(c, inv[c])
    decreases |order|
  {
    if order == [] then []
    else
      var rest := VisibleCategories(inv, order[1..]);
      var c := order[0];
      if c in inv && Visible(c, inv[c]) then [c] + rest else rest
  }

  /** The drawn categories keep the key order: they are order with some keys dropped. */
  lemma {:induction false} VisibleKeepsOrder(inv: Workspace.Inventory, order: seq<string>)
    ensures IsSubsequence(VisibleCategories(inv, order), order)
    decreases |order|
  {
    if order != [] {
      VisibleKeepsOrder(inv, order[1..]);
      var rest := VisibleCategories(inv, order[1..]);
      if order[0] in inv && Visible(order[0], inv[order[0]]) {
        assert ([order[0]] + rest)[1..] == rest;
      }
    }
  }

  /** sub is full with some elements left out, the rest in their order. */
  predicate IsSubsequence(sub: seq<string>, full: seq<string>)
    decreases |full|
  {
    if full == [] then sub == []
    else
      || (sub != [] && sub[0] == full[0] && IsSubsequence(sub[1..], full[1..]))
      || IsSubsequence(sub, full[1..])
  }

  /** The store's categories: every non-empty one and 'Synthesized' are drawn, each once. */
  lemma StoreCategoriesShown(inv: Workspace.Inventory)
    requires inv.Keys == Workspace.CategoryKeys
    ensures Workspace.SynthesizedKey in VisibleCategories(inv, Workspace.CategoryOrder)
    ensures forall c | c in inv && inv[c] != [] :: c in VisibleCategories(inv, Workspace.CategoryOrder)
    ensures forall c | c in inv && inv[c] == [] && c != Workspace.SynthesizedKey ::
      c !in VisibleCategories(inv, Workspace.CategoryOrder)
  {
  }

  /** The value of the option for entry idx: the index in decimal. */
  function OptionValue(idx: nat): string {
    NatToString(idx)
  }

  /** The text of the option for a molecule: its name, a space, and the formula in
      brackets when there is a non-empty one. */
  function OptionText(m: Molecule): (text: string)
    ensures |text| >= 1
  {
    var name := m.name.GetOr("");
    var formula := if m.properties.formula.Some? && m.properties.formula.value != [] then "[" + m.properties.formula.value + "]" else "";
    name + " " + formula
  }

  /** The option list of a category, one per entry, in order. */
  function Options(chemicals: seq<Molecule>): (opts: seq<(string, string)>)
    ensures |opts| == |chemicals|
  {
    seq(|chemicals|, i requires 0 <= i < |chemicals| => (OptionValue(i), OptionText(chemicals[i])))
  }

  /** Option values are distinct and each reads back, through parseInt, as its index. */
  lemma OptionValuesReadBack(chemicals: seq<Molecule>)
    ensures forall i | 0 <= i < |Options(chemicals)| ::
      AllDigits(Options(chemicals)[i].0) && ParseDecimal(Options(chemicals)[i].0) == i
    ensures forall i, j | 0 <= i < j < |Options(chemicals)| :: Options(chemicals)[i].0 != Options(chemicals)[j].0
  {
    forall i | 0 <= i < |chemicals| ensures ParseDecimal(OptionValue(i)) == i {
      ParseRendered(i);
    }
  }

  /** The drop-down of one category; `value` is what the control shows. */
  class Dispenser {
    const category: string
    var value: string

    constructor (category: string)
      ensures this.category == category && value == PlaceholderValue
    {
      this.category := category;
      value := PlaceholderValue;
    }

    /** The change handler: a non-placeholder choice is parsed and passed to handleSelect,
        then the control is reset so the same entry can be picked again. The values a
        drop-down can produce are its options' values, strings of digits. */
    method OnChange(inv: Workspace.Inventory, chosen: string, ws: Workspace.Workspace)
      requires category in inv
      requires AllDigits(chosen)
      modifies this`value, ws`reactants
      ensures value == PlaceholderValue
      ensures chosen == PlaceholderValue ==> ws.reactants == old(ws.reactants)
      ensures chosen != PlaceholderValue ==>
        var picked := Picked(inv, category, ParseDecimal(chosen));
        ws.reactants == (if picked.Some? then Workspace.WithReactant(old(ws.reactants), picked.value) else old(ws.reactants))
    {
      value := chosen;
      if value != PlaceholderValue {
        HandleSelect(inv, category, ParseDecimal(value), ws);
        value := PlaceholderValue;
      }
    }
  }

  /** Picking the option for entry idx of a category adds exactly that molecule (unless
      addReactant finds it already present). */
  lemma PickingAnOption(inv: Workspace.Inventory, category: string, idx: nat)
    requires category in inv && idx < |inv[category]|
    ensures OptionValue(idx) != PlaceholderValue && AllDigits(OptionValue(idx))
    ensures Picked(inv, category, ParseDecimal(OptionValue(idx))) == Some(inv[category][idx])
  {
    ParseRendered(idx);
  }
}
