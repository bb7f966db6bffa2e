/** The workspace store of App.tsx: the reactant list, the category inventory, the
    history log, the form fields and the simulate / restore transitions. The persisted
    copies in local storage are ghost mirrors; JSON (de)serialisation is not modelled. */
module Workspace {
  import opened Types
  import ChemicalDb

  /** The history log keeps this many entries. */
  const MaxHistory: nat := 20

  const SolventsKey: string := "Solvents"
  const InorganicKey: string := "Inorganic/Ionic"
  const PrecursorsKey: string := "Precursors"
  const CatalystsKey: string := "Catalysts/Additives"
  const SynthesizedKey: string := "Synthesized"

  /** The inventory's categories in the order the object literal declares them, which is
      the order Object.entries and Object.values visit them. */
  const CategoryOrder: seq<string> := [SolventsKey, InorganicKey, PrecursorsKey, CatalystsKey, SynthesizedKey]

  const CategoryKeys: set<string> := {SolventsKey, InorganicKey, PrecursorsKey, CatalystsKey, SynthesizedKey}

  const SimulationAlert: string := "Terminal Error: Simulation could not be instantiated."

  type Inventory = map<string, seq<Molecule>>

  /** The inventory the store starts from: the four seed lists and an empty 'Synthesized'. */
  function SeedInventory(): (inv: Inventory)
    ensures inv.Keys == CategoryKeys && inv[SynthesizedKey] == []
  {
    map[SolventsKey := ChemicalDb.CommonSolvents,
        InorganicKey := ChemicalDb.AcidsAndBases,
        PrecursorsKey := ChemicalDb.OrganicBuildingBlocks,
        CatalystsKey := ChemicalDb.CatalystsAndAdditives,
        SynthesizedKey := []]
  }

  function Min(a: int, b: int): int { if a <= b then a else b }

  // ---------------------------------------------------------------- history

  /** Front-inserts an entry and keeps the newest MaxHistory entries. */
  function PushHistory(h: seq<HistoryItem>, item: HistoryItem): (r: seq<HistoryItem>)
    ensures |r| == Min(|h| + 1, MaxHistory) && |r| <= MaxHistory
    ensures r[0] == item
    ensures r[1..] == h[..|r| - 1]
  {
    ([item] + h)[..Min(|h| + 1, MaxHistory)]
  }

  /** Pushes the items one after the other, the first one first. */
  function PushAll(h: seq<HistoryItem>, items: seq<HistoryItem>): seq<HistoryItem>
    decreases |items|
  {
    if items == [] then h else PushHistory(PushAll(h, items[..|items| - 1]), items[|items| - 1])
  }

  function Reverse<T>(s: seq<T>): (r: seq<T>)
    ensures |r| == |s|
    decreases |s|
  {
    if s == [] then [] else [s[|s| - 1]] + Reverse(s[..|s| - 1])
  }

  /** After any run of saves the log holds the newest entries, newest first, followed by
      the older log, cut to MaxHistory: the oldest entries are the ones evicted. */
  lemma {:induction false} PushAllKeepsNewest(h: seq<HistoryItem>, items: seq<HistoryItem>)
    requires |h| <= MaxHistory
    ensures PushAll(h, items) == (Reverse(items) + h)[..Min(|items| + |h|, MaxHistory)]
    decreases |items|
  {
    if items == [] {
      assert Reverse(items) + h == h;
      assert h[..|h|] == h;
    } else {
      var init := items[..|items| - 1];
      var x := items[|items| - 1];
      PushAllKeepsNewest(h, init);
      var p := PushAll(h, init);
      var m := Min(|init| + |h|, MaxHistory);
      assert p == (Reverse(init) + h)[..m];
      assert Reverse(items) == [x] + Reverse(init);
      var r := PushHistory(p, x);
      var n := Min(|items| + |h|, MaxHistory);
      assert |r| == n;
      forall k | 0 <= k < n
        ensures r[k] == (Reverse(items) + h)[k]
      {
        if k > 0 {
          assert r[k] == r[1..][k - 1] == p[k - 1];
        }
      }
    }
  }

  // ---------------------------------------------------------------- reactants

  /** Whether `existing` makes adding `m` a no-op: by cid when m has a truthy cid, and by
      SMILES only when it has none. */
  predicate ReactantBlocks(existing: Molecule, m: Molecule) {
    if Truthy(m.cid) then existing.cid == m.cid else existing.smiles == m.smiles
  }

  predicate AlreadyReactant(rs: seq<Molecule>, m: Molecule) {
    exists i | 0 <= i < |rs| :: ReactantBlocks(rs[i], m)
  }

  /** The reactant list after addReactant(m). */
  function WithReactant(rs: seq<Molecule>, m: Molecule): (r: seq<Molecule>)
    ensures Truthy(m.cid) ==> (r == rs <==> exists i | 0 <= i < |rs| :: rs[i].cid == m.cid)
    ensures !Truthy(m.cid) ==> (r == rs <==> exists i | 0 <= i < |rs| :: rs[i].smiles == m.smiles)
    ensures r != rs ==> r == rs + [m]
  {
    if AlreadyReactant(rs, m) then rs else rs + [m]
  }

  /** Adding the same molecule twice is the same as adding it once. */
  lemma WithReactantIdempotent(rs: seq<Molecule>, m: Molecule)
    ensures WithReactant(WithReactant(rs, m), m) == WithReactant(rs, m)
  {
    if !AlreadyReactant(rs, m) {
      var r := rs + [m];
      assert ReactantBlocks(r[|rs|], m);
    }
  }

  /** No reactant would have been refused by an earlier one. */
  predicate ReactantsDistinct(rs: seq<Molecule>) {
    forall i, j | 0 <= i < j < |rs| :: !ReactantBlocks(rs[i], rs[j])
  }

  /** In a distinct list no two reactants share a truthy cid, and no two cid-less
      reactants share a SMILES string. */
  lemma DistinctReactantsIdentity(rs: seq<Molecule>, i: nat, j: nat)
    requires ReactantsDistinct(rs) && i < |rs| && j < |rs| && i != j
    ensures Truthy(rs[i].cid) ==> rs[i].cid != rs[j].cid
    ensures !Truthy(rs[i].cid) && !Truthy(rs[j].cid) ==> rs[i].smiles != rs[j].smiles
  {
    if i > j {
      assert !ReactantBlocks(rs[j], rs[i]);
    } else {
      assert !ReactantBlocks(rs[i], rs[j]);
    }
  }

  lemma WithReactantKeepsDistinct(rs: seq<Molecule>, m: Molecule)
    ensures ReactantsDistinct(rs) ==> ReactantsDistinct(WithReactant(rs, m))
  {
  }

  /** The list after removeReactant(index): the filter that keeps every position but `index`. */
  function WithoutIndex(rs: seq<Molecule>, index: int): (r: seq<Molecule>)
    ensures 0 <= index < |rs| ==> r == rs[..index] + rs[index + 1..]
    ensures !(0 <= index < |rs|) ==> r == rs
    decreases |rs|
  {
    if rs == [] then []
    else (if index == 0 then [] else [rs[0]]) + WithoutIndex(rs[1..], index - 1)
  }

  lemma WithoutIndexKeepsDistinct(rs: seq<Molecule>, index: int)
    requires ReactantsDistinct(rs)
    ensures ReactantsDistinct(WithoutIndex(rs, index))
  {
    if 0 <= index < |rs| {
      var r := WithoutIndex(rs, index);
      forall i, j | 0 <= i < j < |r|
        ensures !ReactantBlocks(r[i], r[j])
      {
        var i' := if i < index then i else i + 1;
        var j' := if j < index then j else j + 1;
        assert r[i] == rs[i'] && r[j] == rs[j'];
      }
    }
  }

  /** The list after addReactant is called for each molecule of ms in order. */
  function ReactantsAfter(rs: seq<Molecule>, ms: seq<Molecule>): (r: seq<Molecule>)
    ensures |rs| <= |r| <= |rs| + |ms| && r[..|rs|] == rs
    ensures forall k | |rs| <= k < |r| :: r[k] in ms
    ensures ReactantsDistinct(rs) ==> ReactantsDistinct(r)
    decreases |ms|
  {
    if ms == [] then rs
    else
      var prev := ReactantsAfter(rs, ms[..|ms| - 1]);
      WithReactantKeepsDistinct(prev, ms[|ms| - 1]);
      WithReactant(prev, ms[|ms| - 1])
  }

  /** Pyridine and Aniline share cid 1049: once either is a reactant the other cannot be added. */
  lemma SharedSeedCidExcludes(rs: seq<Molecule>)
    ensures ChemicalDb.Pyridine in rs ==> WithReactant(rs, ChemicalDb.Aniline) == rs
    ensures ChemicalDb.Aniline in rs ==> WithReactant(rs, ChemicalDb.Pyridine) == rs
  {
    ChemicalDb.SeedCidShared();
  }

  // ---------------------------------------------------------------- inventory

  /** Whether addToInventory(m) is a no-op: some molecule of some category has m's SMILES,
      or m's cid when that cid is truthy. */
  predicate InventoryBlocks(inv: Inventory, m: Molecule) {
    exists k, i | k in inv && 0 <= i < |inv[k]| ::
      inv[k][i].smiles == m.smiles || (Truthy(m.cid) && inv[k][i].cid == m.cid)
  }

  /** The inventory after addToInventory(m). */
  function InventoryAdd(inv: Inventory, m: Molecule): (r: Inventory)
    requires SynthesizedKey in inv
    ensures r.Keys == inv.Keys
    ensures InventoryBlocks(inv, m) ==> r == inv
    ensures !InventoryBlocks(inv, m) ==> r[SynthesizedKey] == inv[SynthesizedKey] + [m]
    ensures forall k | k in inv && k != SynthesizedKey :: r[k] == inv[k]
  {
    if InventoryBlocks(inv, m) then inv else inv[SynthesizedKey := inv[SynthesizedKey] + [m]]
  }

  lemma InventoryAddIdempotent(inv: Inventory, m: Molecule)
    requires SynthesizedKey in inv
    ensures InventoryAdd(InventoryAdd(inv, m), m) == InventoryAdd(inv, m)
  {
    if !InventoryBlocks(inv, m) {
      var r := InventoryAdd(inv, m);
      var s := r[SynthesizedKey];
      assert s[|s| - 1] == m;
      assert InventoryBlocks(r, m);
    }
  }

  /** No two inventory positions, in the same category or in two, hold the same SMILES. */
  predicate InventorySmilesDistinct(inv: Inventory) {
    forall k1, i, k2, j | k1 in inv && k2 in inv && 0 <= i < |inv[k1]| && 0 <= j < |inv[k2]|
      && (k1 != k2 || i != j) :: inv[k1][i].smiles != inv[k2][j].smiles
  }

  lemma InventoryAddKeepsSmilesDistinct(inv: Inventory, m: Molecule)
    requires SynthesizedKey in inv
    ensures InventorySmilesDistinct(inv) ==> InventorySmilesDistinct(InventoryAdd(inv, m))
  {
    if InventorySmilesDistinct(inv) && !InventoryBlocks(inv, m) {
      var r: Inventory := InventoryAdd(inv, m);
      var n := |inv[SynthesizedKey]|;
      forall k1: string, i: int, k2: string, j: int | k1 in r && k2 in r && 0 <= i < |r[k1]| && 0 <= j < |r[k2]| && (k1 != k2 || i != j)
        ensures r[k1][i].smiles != r[k2][j].smiles
      {
        var new1 := k1 == SynthesizedKey && i == n;
        var new2 := k2 == SynthesizedKey && j == n;
        if !new1 {
          assert r[k1][i] == inv[k1][i];
        }
        if !new2 {
          assert r[k2][j] == inv[k2][j];
        }
      }
    }
  }

  /** The starting inventory holds no SMILES string twice. */
  lemma SeedInventorySmilesDistinct()
    ensures InventorySmilesDistinct(SeedInventory())
  {
    var inv: Inventory := SeedInventory();
    var all := ChemicalDb.AllSeeds();
    ChemicalDb.SeedSmilesDistinct();
    forall k1: string, i: int, k2: string, j: int | k1 in inv && k2 in inv && 0 <= i < |inv[k1]| && 0 <= j < |inv[k2]| && (k1 != k2 || i != j)
      ensures inv[k1][i].smiles != inv[k2][j].smiles
    {
      var a := SeedPosition(k1, i);
      var b := SeedPosition(k2, j);
      assert all[a] == inv[k1][i] && all[b] == inv[k2][j];
      assert a != b;
    }
  }

  /** Where entry i of a seed category sits in the concatenated seed list. */
  function SeedPosition(k: string, i: nat): (p: nat)
    requires k in SeedInventory() && k != SynthesizedKey && i < |SeedInventory()[k]|
    ensures p < |ChemicalDb.AllSeeds()| && ChemicalDb.AllSeeds()[p] == SeedInventory()[k][i]
  {
    if k == SolventsKey then i
    else if k == InorganicKey then 10 + i
    else if k == PrecursorsKey then 18 + i
    else 26 + i
  }

  /** A seed cid already in stock makes the add a no-op even for a new SMILES string. */
  lemma SeedCidBlocksInventoryAdd(m: Molecule)
    requires m.cid == Some(1049)
    ensures InventoryAdd(SeedInventory(), m) == SeedInventory()
  {
    var inv: Inventory := SeedInventory();
    assert inv[InorganicKey][5].cid == Some(1049);
  }

  /** The inventory after addToInventory is called for each molecule of ms in order: only
      'Synthesized' changes, it only grows at its end, and only by molecules of ms. */
  function InventoryAfter(inv: Inventory, ms: seq<Molecule>): (r: Inventory)
    requires SynthesizedKey in inv
    ensures r.Keys == inv.Keys
    ensures forall k | k in inv && k != SynthesizedKey :: r[k] == inv[k]
    ensures |inv[SynthesizedKey]| <= |r[SynthesizedKey]| <= |inv[SynthesizedKey]| + |ms|
    ensures r[SynthesizedKey][..|inv[SynthesizedKey]|] == inv[SynthesizedKey]
    ensures forall k | |inv[SynthesizedKey]| <= k < |r[SynthesizedKey]| :: r[SynthesizedKey][k] in ms
    ensures InventorySmilesDistinct(inv) ==> InventorySmilesDistinct(r)
    decreases |ms|
  {
    if ms == [] then inv
    else
      var prev := InventoryAfter(inv, ms[..|ms| - 1]);
      InventoryAddKeepsSmilesDistinct(prev, ms[|ms| - 1]);
      InventoryAdd(prev, ms[|ms| - 1])
  }

  /** One more addReactant call extends the run by one step. */
  lemma ReactantsAfterStep(rs: seq<Molecule>, ms: seq<Molecule>, m: Molecule)
    ensures ReactantsAfter(rs, ms + [m]) == WithReactant(ReactantsAfter(rs, ms), m)
  {
    assert (ms + [m])[..|ms|] == ms;
  }

  /** One more addToInventory call extends the run by one step. */
  lemma InventoryAfterStep(inv: Inventory, ms: seq<Molecule>, m: Molecule)
    requires SynthesizedKey in inv
    ensures InventoryAfter(inv, ms + [m]) == InventoryAdd(InventoryAfter(inv, ms), m)
  {
    assert (ms + [m])[..|ms|] == ms;
  }

  // ---------------------------------------------------------------- the store

  datatype Tab = WorkspaceTab | HistoryTab

  class Workspace {
    var activeTab: Tab
    var reactants: seq<Molecule>
    var catalysts: string
    var temp: real
    var pressure: real
    var objective: string
    var simulating: bool
    var result: Option<ReactionSimulationResult>
    var history: seq<HistoryItem>
    var inventory: Inventory
    /** What local storage holds under the history key and the synthesized key. */
    ghost var storedHistory: Option<seq<HistoryItem>>
    ghost var storedSynthesized: Option<seq<Molecule>>

    /** Between handlers the categories are the five fixed ones, no simulation runs, and
        local storage mirrors the history log and the 'Synthesized' list (a missing key
        reads as empty). The distinctness of the reactants (ReactantsDistinct) and of the
        SMILES strings in stock (InventorySmilesDistinct) is not part of it: a restored
        history entry and a restored 'Synthesized' list come from storage unchecked, and
        the add rules only preserve distinctness (WithReactantKeepsDistinct,
        InventoryAddKeepsSmilesDistinct), they do not establish it. */
    ghost predicate Valid()
      reads this
    {
      && inventory.Keys == CategoryKeys && !simulating
      && storedSynthesized.GetOr([]) == inventory[SynthesizedKey]
      && storedHistory.GetOr([]) == history
    }

    /** The request a simulation would send now. */
    function CurrentInput(): ReactionInput
      reads this
    {
      ReactionInput(reactants, catalysts, temp, pressure, objective)
    }

    /** The initial state followed by the mount effect that restores what storage holds. */
    constructor (savedHistory: Option<seq<HistoryItem>>, savedSynthesized: Option<seq<Molecule>>)
      ensures Valid()
      ensures activeTab == WorkspaceTab && reactants == [] && catalysts == "" && objective == ""
      ensures temp == 25.0 && pressure == 1.0 && result == None
      ensures history == savedHistory.GetOr([]) && storedHistory == savedHistory
      ensures inventory == SeedInventory()[SynthesizedKey := savedSynthesized.GetOr([])]
      ensures storedSynthesized == savedSynthesized
    {
      activeTab := WorkspaceTab;
      reactants := [];
      catalysts := "";
      temp := 25.0;
      pressure := 1.0;
      objective := "";
      simulating := false;
      result := None;
      history := [];
      inventory := SeedInventory();
      storedHistory := savedHistory;
      storedSynthesized := savedSynthesized;
      new;
      if savedHistory.Some? {
        history := savedHistory.value;
      }
      if savedSynthesized.Some? {
        inventory := inventory[SynthesizedKey := savedSynthesized.value];
      }
    }

    /** Front-inserts a new entry, keeps the newest 20 and persists the new log. */
    method SaveToHistory(input: ReactionInput, res: ReactionSimulationResult, id: string, timestamp: string)
      modifies this`history, this`storedHistory
      ensures |history| == Min(|old(history)| + 1, MaxHistory)
      ensures history[0] == HistoryItem(id, timestamp, input, res)
      ensures history[1..] == old(history)[..|history| - 1]
      ensures storedHistory == Some(history)
    {
      var newItem := HistoryItem(id, timestamp, input, res);
      var newHistory := ([newItem] + history)[..Min(|history| + 1, MaxHistory)];
      history := newHistory;
      storedHistory := Some(newHistory);
    }

    /** Adds m to 'Synthesized' unless some category already holds its SMILES or its cid;
        a real addition is persisted. */
    method AddToInventory(m: Molecule)
      requires Valid()
      modifies this`inventory, this`storedSynthesized
      ensures Valid()
      ensures inventory == InventoryAdd(old(inventory), m)
      ensures InventoryBlocks(old(inventory), m) ==> storedSynthesized == old(storedSynthesized)
      ensures !InventoryBlocks(old(inventory), m) ==> storedSynthesized == Some(inventory[SynthesizedKey])
    {
      if InventoryBlocks(inventory, m) {
        return;
      }
      var newSynthesized := inventory[SynthesizedKey] + [m];
      storedSynthesized := Some(newSynthesized);
      inventory := inventory[SynthesizedKey := newSynthesized];
    }

    /** Appends m unless a reactant already has its truthy cid or, without one, its SMILES. */
    method AddReactant(m: Molecule)
      modifies this`reactants
      ensures reactants == WithReactant(old(reactants), m)
    {
      if Truthy(m.cid) && exists i | 0 <= i < |reactants| :: reactants[i].cid == m.cid {
        return;
      }
      if !Truthy(m.cid) && exists i | 0 <= i < |reactants| :: reactants[i].smiles == m.smiles {
        return;
      }
      reactants := reactants + [m];
    }

    /** Drops the reactant at `index`; any other index leaves the list as it is. */
    method RemoveReactant(index: int)
      modifies this`reactants
      ensures reactants == WithoutIndex(old(reactants), index)
    {
      reactants := WithoutIndex(reactants, index);
    }

    /** The purge button: empties the setup. */
    method PurgeSetup()
      modifies this`reactants
      ensures reactants == []
    {
      reactants := [];
    }

    /** Runs one simulation. `ai` is the remote model: None stands for a request that
        threw (network, parse or schema failure). `id` and `timestamp` are the random id
        and the clock reading the history entry would get. */
    method Simulate(ai: ReactionInput -> Option<ReactionSimulationResult>, id: string, timestamp: string)
      returns (alert: Option<string>)
      requires Valid()
      modifies this`simulating, this`result, this`history, this`storedHistory
      ensures Valid()
      ensures old(reactants) == [] ==>
        && result == old(result) && history == old(history)
        && storedHistory == old(storedHistory) && alert == None
      ensures old(reactants) != [] && ai(CurrentInput()).Some? ==>
        && result == ai(CurrentInput())
        && history == PushHistory(old(history), HistoryItem(id, timestamp, CurrentInput(), result.value))
        && storedHistory == Some(history) && alert == None
      ensures old(reactants) != [] && ai(CurrentInput()).None? ==>
        && result == None && history == old(history)
        && storedHistory == old(storedHistory) && alert == Some(SimulationAlert)
    {
      alert := None;
      if |reactants| == 0 {
        return;
      }
      simulating := true;
      result := None;
      var input := ReactionInput(reactants, catalysts, temp, pressure, objective);
      var res := ai(input);
      if res.Some? {
        result := res;
        SaveToHistory(input, res.value, id, timestamp);
      } else {
        alert := Some(SimulationAlert);
      }
      simulating := false;
    }

    /** Restores a past run into the form and the result view and shows the workspace. */
    method LoadFromHistory(item: HistoryItem)
      modifies this`reactants, this`catalysts, this`temp, this`pressure, this`objective,
               this`result, this`activeTab
      ensures CurrentInput() == item.input
      ensures result == Some(item.result) && activeTab == WorkspaceTab
    {
      reactants := item.input.reactants;
      catalysts := item.input.catalysts;
      temp := item.input.temperature;
      pressure := item.input.pressure;
      objective := item.input.description;
      result := Some(item.result);
      activeTab := WorkspaceTab;
    }
  }
}
