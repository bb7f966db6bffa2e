# RasayanReaction workspace core, modelled in Dafny

RasayanReaction is a browser reaction lab. The user collects reactant molecules by typing identifiers that are resolved against the PubChem database, or by dispensing them from a stocked inventory. They then ask a language model to predict the outcome of the reaction. They read the prediction as a report and as a reaction map, and they can save predicted products back into the inventory. Past runs go into a history log.

This project models the deterministic logic around those calls:

- **Workspace store** (`workspace.dfy`, class `Workspace.Workspace`). This covers:
  - the reactant list, with its add rule that compares by cid or else by SMILES, and its removal by position;
  - the five-category inventory, whose add rule checks SMILES or cid against every category and grows only `Synthesized`;
  - the history log, which is front-inserted and capped at 20 entries;
  - the simulate and restore transitions.

  The copies persisted in local storage are ghost fields.
- **Identifier resolver** (`pubchem.dfy`). This covers `detectType` and the decision procedure of `fetchMoleculeByIdentifier`. Each remote lookup is an oracle answer: `Ok` with the part of the body the code reads, `NotOk` for a non-success status, or `Rejected` when the request or its parsing throws. The resolver is written twice: as the function `Resolve`, which gives the molecule and the trace of requests issued, and as the imperative `FetchMoleculeByIdentifier`, which is proved equal to it.
- **Search box** (`molecule_search.dfy`). This covers comma splitting and trimming, the in-order resolution loop, and the accounting of failed and added identifiers. It also covers the error message and the rule for clearing the query.
- **Reaction map** (`reaction_flow.dfy`). This covers the node and edge lists: a reactants node, a chain of intermediates, and products fanned out from the end of the chain, with exact ids, positions and labels.
- **Report** (`result_panel.dfy`). This covers:
  - the colour of a safety warning;
  - the conversion of a predicted product into an inventory molecule, including the formula scraped from its reasoning text by the pattern `[A-Z][a-z]?\d*`;
  - the "add all products" loop;
  - the fallbacks shown in the report header and on the cards.
- **Reagent console** (`chemical_library.dfy`). This covers the bounds-checked selection, the category visibility rule and the option values, together with the reset of the drop-down.
- **Data model and seed stock** (`types.dfy`, `chemical_db.dfy`), and the JavaScript string built-ins the code relies on (`text.dfy`): `trim`, `split`, `join`, decimal rendering and `parseInt`.

Some behaviours of the source that the model keeps as written:

- `addReactant` compares only cids when the new molecule has a truthy cid, and only SMILES otherwise.
- A cid of 0 counts as absent.
- The seed stock lists Pyridine and Aniline both under cid 1049. So once one of them is a reactant, the other cannot be added (`Workspace.SharedSeedCidExcludes`), and any molecule resolved with cid 1049 is refused by the inventory (`Workspace.SeedCidBlocksInventoryAdd`).
- The search box's `addedCount` counts identifiers that resolved, not molecules that `addReactant` actually appended. The query is therefore cleared after a batch of duplicates too.
- A resolver call that throws is folded into `null`, exactly as the resolver's own `catch` does. So the search loop's own `catch` branch is never reached.
- The formula text `'N/A'` is not a run of formula tokens: scanning it again yields `NA` (`ResultPanel.NotAJoin`).

## Model

| member | source | states |
|---|---|---|
| Types.ParseSeverity | types.ts:19-24 | a string reads back as a severity only when it is that severity's spelling |
| Types.SeverityRoundTrip | types.ts:19-24 | each of the four severities reads back from its spelling as itself |
| ChemicalDb.SeedListSizes | data/chemicalDb.ts:4-194 | the seed lists hold 10 solvents, 8 acids and bases, 8 building blocks and 4 catalysts, 30 entries in all |
| ChemicalDb.SeedsWellFormed | data/chemicalDb.ts:4-194 | every seed entry has a non-zero cid, a non-empty SMILES string and a formula |
| ChemicalDb.SeedSmilesDistinct | data/chemicalDb.ts:4-194 | no two seed entries, within a list or across lists, share a SMILES string |
| ChemicalDb.SeedCidShared | data/chemicalDb.ts:97-131 | Pyridine and Aniline both carry cid 1049 while their SMILES strings differ, so seed cids are not distinct |
| Text.Trim | components/MoleculeSearch.tsx:17 | the result is the input with its leading and trailing blanks removed; it is empty exactly when the input is all blank, and otherwise has no blank at either end |
| Text.TrimIdempotent | components/MoleculeSearch.tsx:25 | trimming an already trimmed string changes nothing |
| Text.Split | components/MoleculeSearch.tsx:24 | splitting gives one more piece than there are separators, and no piece holds the separator |
| Text.JoinSplit | components/MoleculeSearch.tsx:24 | joining the pieces of a split with the separator gives the original string back |
| Text.SplitJoin | components/MoleculeSearch.tsx:47 | splitting a join of separator-free parts gives those parts back |
| Text.UpperChar | components/ReactionFlowDiagram.tsx:146 | `toUpperCase` on one ASCII character: lower-case letters move up by 32 to the capital, every other character is kept |
| Text.ParseRendered | components/ChemicalLibrary.tsx:49 | `parseInt` of the decimal rendering of a number gives that number back |
| Text.NatToStringInjective | components/ReactionFlowDiagram.tsx:69 | two different numbers never render as the same decimal string |
| Text.IntToStringInjective | services/pubchemService.ts:110 | two different integers, negative ones included, never render as the same string |
| PubChem.MatchesDigitsOnly | services/pubchemService.ts:10 | the test `/^\d+$/` holds exactly for a non-empty string of ASCII digits |
| PubChem.ContainsStructureChar | services/pubchemService.ts:12 | the test `/[=#()\[\]]/` holds exactly when some character is one of `= # ( ) [ ]` |
| PubChem.DetectType | services/pubchemService.ts:9-14 | a digit string of any length is a cid; otherwise a structure character or a length above 20 makes a SMILES string; everything else is a name; each of the three as an if-and-only-if |
| PubChem.TruthyCid | services/pubchemService.ts:33 | `x \|\| null` on a cid: absent and 0 become null, any other cid is kept |
| PubChem.LookupCid | services/pubchemService.ts:26-44 | a cid input issues no search and is parsed directly; a SMILES input issues exactly one SMILES search; a name input issues a name search, then one SMILES search exactly when the first answered without a cid and without throwing; the cid found is the parsed number, or the first cid answered by the last search issued when that search succeeded; it is never 0 |
| PubChem.LookupProperties | services/pubchemService.ts:51-66 | the full property list is requested first; the minimal list is requested once, and only after a non-success status; the row is the full answer's row when that succeeds, the minimal answer's row when the full one had a non-success status and the minimal one succeeds, and none otherwise |
| PubChem.DisplayName | services/pubchemService.ts:73-83 | the name is the first synonym when one comes back non-empty, else `CID <n>`; a failed or thrown synonym lookup gives `CID <n>` |
| PubChem.Resolve | services/pubchemService.ts:16-18 | an identifier blank after trimming resolves to null with no request; a resolved molecule always comes after at least two requests, the last one the synonym lookup |
| PubChem.ResolveTrimmed | services/pubchemService.ts:20-102 | a molecule is returned only when the cid step found a cid, after the full property list of that cid was requested, and with the synonym lookup of that cid as the last request |
| PubChem.ResolveCidInput | services/pubchemService.ts:27-49 | a cid-typed identifier issues no search; the cid 0 resolves to null before any request; any other cid starts with the full property fetch for that cid |
| PubChem.ResolveSearchCount | services/pubchemService.ts:30-43 | at most two searches are issued: exactly one for a SMILES string, and for a name two exactly when the name search answered without a cid and without throwing |
| PubChem.SearchesAreTheLookup | services/pubchemService.ts:26-83 | the property and synonym steps issue no search: every search of a resolution belongs to its cid step |
| PubChem.MoleculeFromRow | services/pubchemService.ts:85-101 | the molecule takes the row's cid, formula and InChI, the SMILES string or `''`, XLogP in preference to LogP, each count or 0, and the weight and polar surface area unless absent or 0 |
| PubChem.ResolveOutcome | services/pubchemService.ts:20-102 | a non-blank identifier resolves to a molecule exactly when the cid step finds a cid and the property step returns a row for it; the molecule is then the one built from that row and that cid's display name |
| PubChem.ResolvedMolecule | services/pubchemService.ts:74-101 | a resolved molecule belongs to the non-zero cid found by the cid step, whose full property list was requested; its name is that cid's first synonym when it comes back non-empty, else `CID <n>`; all its fields come from the property row read for that cid |
| PubChem.FindCid | services/pubchemService.ts:21-49 | the imperative cid step issues the same requests and finds the same cid as `LookupCid` |
| PubChem.FetchProperties | services/pubchemService.ts:55-71 | the imperative property step, with its retry, issues the same requests and yields the same row as `LookupProperties` |
| PubChem.FetchMoleculeByIdentifier | services/pubchemService.ts:16-107 | the whole imperative resolver returns the same molecule, with the same request trace, as `Resolve` |
| PubChem.MoleculeImageInjective | services/pubchemService.ts:109-111 | different cids never share an image URL |
| MoleculeSearch.Identifiers | components/MoleculeSearch.tsx:17-26 | the identifiers of a query are trimmed, non-empty and comma-free; a blank query has none |
| MoleculeSearch.IdentifiersOfJoin | components/MoleculeSearch.tsx:24-26 | typing well-formed identifiers separated by `", "` gives back exactly those identifiers, in order |
| MoleculeSearch.Failed | components/MoleculeSearch.tsx:28-44 | every failed identifier resolves to null, and found plus failed count every identifier |
| MoleculeSearch.ResolveStep | components/MoleculeSearch.tsx:32-43 | resolving one more identifier extends exactly one list: the molecules found when it resolves, the failures when it does not |
| MoleculeSearch.FailureMessage | components/MoleculeSearch.tsx:46-48 | the message is empty exactly when nothing failed |
| MoleculeSearch.FailureMessageLists | components/MoleculeSearch.tsx:46-48 | the part of the message after `Failed to resolve: ` reads back as exactly the failed identifiers |
| MoleculeSearch.FailedWellFormed | components/MoleculeSearch.tsx:24-40 | the failed identifiers are drawn from the query's identifiers, so they are trimmed and comma-free |
| MoleculeSearch.QueryFailuresWellFormed | components/MoleculeSearch.tsx:24-48 | the failures of any query meet the condition under which the failure message reads back |
| MoleculeSearch.AddEach | components/MoleculeSearch.tsx:28-44 | the loop resolves the identifiers in order; the failures are collected in order; the count is the number resolved; `addReactant` is applied to each molecule found, in order |
| MoleculeSearch.SearchBox.constructor | components/MoleculeSearch.tsx:11-13 | the box starts with an empty query, no error and not loading |
| MoleculeSearch.SearchBox.Edit | components/MoleculeSearch.tsx:69 | typing replaces the query |
| MoleculeSearch.SearchBox.HandleSearch | components/MoleculeSearch.tsx:15-56 | a blank query changes nothing; otherwise the reactants become those after adding every molecule found, the error lists exactly the failures, the query is cleared only when something resolved and nothing failed, and loading is off at the end |
| Workspace.SeedInventory | App.tsx:27-33 | the inventory starts with the five categories, the four seed lists and an empty `Synthesized` |
| Workspace.PushHistory | App.tsx:56 | the new entry is first, the log keeps at most 20 entries, and the rest is the previous log in order with the oldest dropped |
| Workspace.PushAllKeepsNewest | App.tsx:56 | after any run of saves the log is the new entries newest first, then the old log, cut to 20 |
| Workspace.WithReactant | App.tsx:78-84 | with a truthy cid, adding is a no-op exactly when a reactant has that cid; without one, exactly when a reactant has that SMILES; otherwise the molecule is appended and nothing else changes |
| Workspace.WithReactantIdempotent | App.tsx:78-84 | adding the same molecule twice equals adding it once |
| Workspace.DistinctReactantsIdentity | App.tsx:80-81 | in a list built by `addReactant` no two reactants share a truthy cid and no two cid-less reactants share a SMILES string |
| Workspace.WithReactantKeepsDistinct | App.tsx:78-84 | adding keeps the list free of entries an earlier one would have refused |
| Workspace.WithoutIndex | App.tsx:86-88 | removal deletes exactly the element at the index and keeps the rest in order; an out-of-range index changes nothing |
| Workspace.WithoutIndexKeepsDistinct | App.tsx:86-88 | removal keeps the list duplicate-free |
| Workspace.ReactantsAfter | App.tsx:78-84 | a run of adds keeps the old list as a prefix, appends only molecules of the run, at most one per add, and keeps the list duplicate-free |
| Workspace.SharedSeedCidExcludes | App.tsx:80 | with Pyridine among the reactants, adding Aniline is a no-op, and the other way round |
| Workspace.InventoryAdd | App.tsx:61-76 | the add is a no-op exactly when some molecule in some category has the same SMILES, or the same truthy cid; otherwise only `Synthesized` grows, by the molecule at its end, and every other category is unchanged |
| Workspace.InventoryAddIdempotent | App.tsx:61-76 | adding the same molecule twice equals adding it once |
| Workspace.InventoryAddKeepsSmilesDistinct | App.tsx:63-74 | when no SMILES string is stocked twice before an add, none is stocked twice after it |
| Workspace.SeedInventorySmilesDistinct | App.tsx:27-33 | the starting inventory stocks no SMILES string twice |
| Workspace.SeedCidBlocksInventoryAdd | App.tsx:64 | any molecule with cid 1049 is refused by the starting inventory, whatever its SMILES |
| Workspace.InventoryAfter | App.tsx:61-76 | a run of adds changes only `Synthesized`, which grows only at its end and only by molecules of the run, and keeps the stock free of repeated SMILES |
| Workspace.Workspace.constructor | App.tsx:15-47 | the initial state, followed by the mount effect: the stored history and the stored synthesized list are restored when present |
| Workspace.Workspace.SaveToHistory | App.tsx:49-59 | the new entry goes first, the log is cut to 20, and the persisted log equals the new log |
| Workspace.Workspace.AddToInventory | App.tsx:61-76 | the inventory becomes `InventoryAdd` of the old one; the persisted list is written exactly when the add is real |
| Workspace.Workspace.AddReactant | App.tsx:78-84 | the reactants become `WithReactant` of the old list |
| Workspace.Workspace.RemoveReactant | App.tsx:86-88 | the reactants become the old list without the indexed entry |
| Workspace.Workspace.PurgeSetup | App.tsx:232 | the purge button empties the reactant list |
| Workspace.Workspace.Simulate | App.tsx:90-111 | with no reactants nothing changes; on success the result is the answer and exactly one history entry holding the current input is pushed; on failure the history is unchanged, the result is null and the alert is raised; the store is idle afterwards in every case |
| Workspace.Workspace.LoadFromHistory | App.tsx:113-121 | the reactants, catalysts, temperature, pressure, objective and result come from the item, and the workspace tab is shown |
| ReactionFlow.NameOr | components/ReactionFlowDiagram.tsx:37 | `name \|\| fallback`: the fallback appears exactly when the name is missing, empty or the fallback itself |
| ReactionFlow.ChipSeparators | components/ReactionFlowDiagram.tsx:35-50 | one chip per reactant, in order, carrying its SMILES and cid; n chips carry n - 1 `+` separators, one after every chip but the last; a missing or empty name shows as `Unknown` |
| ReactionFlow.TrendLabelIsUpperCase | components/ReactionFlowDiagram.tsx:146 | the product-edge label is the energy trend's name, upper-cased character by character |
| ReactionFlow.ChainNodes | components/ReactionFlowDiagram.tsx:66-95 | the intermediate nodes are one per step, in order, with the id, position and data of that step |
| ReactionFlow.ChainEdges | components/ReactionFlowDiagram.tsx:97-104 | the chain edges are one per step, each from the chain's end so far into that step, unlabelled |
| ReactionFlow.FanNodes | components/ReactionFlowDiagram.tsx:112-139 | the product nodes are one per product, in order, with the id, position and data of that product |
| ReactionFlow.FanEdges | components/ReactionFlowDiagram.tsx:141-150 | the product edges are one per product, each from the chain's end, labelled with the trend |
| ReactionFlow.DiagramNodes | components/ReactionFlowDiagram.tsx:55-151 | there are 1 + intermediates + products nodes |
| ReactionFlow.DiagramEdges | components/ReactionFlowDiagram.tsx:66-151 | there are intermediates + products edges |
| ReactionFlow.BuildDiagram | components/ReactionFlowDiagram.tsx:22-154 | the imperative builder returns exactly the node and edge lists described by `DiagramNodes` and `DiagramEdges` |
| ReactionFlow.LayChain | components/ReactionFlowDiagram.tsx:63-109 | the intermediates loop appends the chain nodes and edges, and leaves the chain's end and the x coordinate one column past the last step |
| ReactionFlow.FanOut | components/ReactionFlowDiagram.tsx:111-151 | the products loop appends the product nodes and edges, all hung off the chain's end |
| ReactionFlow.NodePositions | components/ReactionFlowDiagram.tsx:26-116 | the reactants node sits at (50, 100); intermediate i at x = 300 + 250 i on y = 100; all products at x = 50 + 250 (k + 1), product i at y = 100 + 100 i - 50 (n - 1) |
| ReactionFlow.ChainRunsRight | components/ReactionFlowDiagram.tsx:64-116 | along the chain x strictly increases, and the product column is right of every chain node |
| ReactionFlow.ProductsSymmetric | components/ReactionFlowDiagram.tsx:116 | the products are 100 apart, and product i and product n - 1 - i are equally far above and below y = 100 |
| ReactionFlow.IntermediateIdInjective | components/ReactionFlowDiagram.tsx:69 | different intermediates get different ids |
| ReactionFlow.ProductIdInjective | components/ReactionFlowDiagram.tsx:113 | different products get different ids |
| ReactionFlow.NodeIdsDistinct | components/ReactionFlowDiagram.tsx:55-113 | no two nodes of the map share an id |
| ReactionFlow.EdgesFollowChain | components/ReactionFlowDiagram.tsx:97-150 | edge i enters node i + 1; it leaves node i along the chain and the chain's last node for every product; its id is `e-<source>-<target>`; exactly the product edges are labelled, with the upper-cased trend |
| ResultPanel.SafetyTone | components/SimulationResultPanel.tsx:13-25 | Critical and High are red, Medium yellow and Low green, each as an if-and-only-if; every other string gets the neutral look |
| ResultPanel.SeverityStyles | components/SimulationResultPanel.tsx:13-25 | no severity gets the neutral look; a more severe warning is never drawn milder; Critical and High share one style; a string that is no severity's spelling is neutral |
| ResultPanel.DigitRun | components/SimulationResultPanel.tsx:35 | `\d*` matches the longest run of leading digits |
| ResultPanel.MatchLength | components/SimulationResultPanel.tsx:35 | the pattern matches at a position exactly when a capital letter stands there |
| ResultPanel.MatchIsToken | components/SimulationResultPanel.tsx:35 | a match is a capital, perhaps one small letter, then digits only |
| ResultPanel.Tokens | components/SimulationResultPanel.tsx:35 | every match of the global scan is such a token |
| ResultPanel.TokenCount | components/SimulationResultPanel.tsx:35 | the scan finds exactly one match per capital letter of the text |
| ResultPanel.TokensOfJoin | components/SimulationResultPanel.tsx:35 | scanning a run of tokens written together gives those tokens back |
| ResultPanel.FormulaProperties | components/SimulationResultPanel.tsx:35 | the saved formula is `N/A` exactly when the reasoning has no capital letter; otherwise scanning the formula again gives the same matches as scanning the reasoning |
| ResultPanel.NotAJoin | components/SimulationResultPanel.tsx:35 | the fallback `N/A` cannot be confused with a scraped formula |
| ResultPanel.SavedMolecule | components/SimulationResultPanel.tsx:27-37 | a saved product copies name, SMILES, weight and polar surface area, takes as formula the tokens scraped from its reasoning (`FormulaText`), and has no cid, logP, counts, InChI or safety data |
| ResultPanel.SavedBlockedBySmilesOnly | components/SimulationResultPanel.tsx:27-38 | since a saved product has no cid, the inventory refuses it exactly when its SMILES string is already stocked |
| ResultPanel.SavedMolecules | components/SimulationResultPanel.tsx:41-42 | the products become saved molecules one for one, in order |
| ResultPanel.HandleSaveToInventory | components/SimulationResultPanel.tsx:27-39 | saving one product applies `addToInventory` to its saved molecule; the stored Synthesized list is rewritten to the new list exactly when the add was not refused |
| ResultPanel.HandleAddAllToInventory | components/SimulationResultPanel.tsx:41-43 | "add all" applies `addToInventory` to every product once, in order, and to no byproduct; the stored Synthesized list ends equal to the new list when anything was added, and is untouched otherwise |
| ResultPanel.DurationText | components/SimulationResultPanel.tsx:195 | an empty duration shows as `TBD`; any other duration shows as itself |
| ResultPanel.TpsaText | components/SimulationResultPanel.tsx:65 | the polar surface area shows as `N/A` exactly when it is missing or 0, and otherwise shows as its value |
| ChemicalLibrary.Picked | components/ChemicalLibrary.tsx:12-13 | an entry is found exactly for an index inside the category's list, and it is the entry at that index |
| ChemicalLibrary.HandleSelect | components/ChemicalLibrary.tsx:11-16 | an in-range index hands exactly `inventory[category][idx]` to `addReactant`; any other index changes nothing |
| ChemicalLibrary.VisibleCategories | components/ChemicalLibrary.tsx:29-32 | a category is drawn exactly when it has stock or is `Synthesized` |
| ChemicalLibrary.VisibleKeepsOrder | components/ChemicalLibrary.tsx:29 | the drawn categories keep the inventory's key order |
| ChemicalLibrary.StoreCategoriesShown | components/ChemicalLibrary.tsx:29-32 | in the store's inventory, `Synthesized` and every stocked category are drawn, and every other empty category is hidden |
| ChemicalLibrary.Options | components/ChemicalLibrary.tsx:56-60 | a category has one option per entry |
| ChemicalLibrary.OptionValuesReadBack | components/ChemicalLibrary.tsx:49-60 | option values are distinct digit strings, and `parseInt` reads each back as its entry's index |
| ChemicalLibrary.Dispenser.constructor | components/ChemicalLibrary.tsx:53 | the drop-down starts on the placeholder |
| ChemicalLibrary.Dispenser.OnChange | components/ChemicalLibrary.tsx:46-51 | the placeholder value is ignored; any other value is parsed and passed to `handleSelect`; the drop-down is back on the placeholder afterwards |
| ChemicalLibrary.PickingAnOption | components/ChemicalLibrary.tsx:46-60 | picking the option of entry idx selects exactly that entry |

## Left out

- services/geminiService.ts is not part of this model. The remote language model is a parameter of `Workspace.Workspace.Simulate`, where `None` stands for a call that threw.
- The HTTP requests, response statuses and JSON bodies of the resolver are oracle answers (`PubChem.Database`). Float parsing of descriptors (`parseFloat`, NaN) is not modelled: descriptor values are `real`s that are copied.
- `Math.random` history ids and `Date` timestamps are method parameters.
- Local storage is a ghost mirror of the persisted lists. JSON serialisation, and a stored value that does not parse, are not modelled.
- Asynchrony, React's batching of state updates and re-entry while a handler runs are not modelled. Each handler is its sequential effect.
- The 3D viewer, the selected-molecule state for the modal, the dispenser's `NO ITEMS IN LOG` placeholder and its upper-cased category caption, Tailwind class names beyond the four safety styles, the red colour of a feasibility score below 50, and the `toFixed` number formatting are rendering only.
- MoleculeDisplay.tsx, HistoryPanel.tsx, Header.tsx, Molecule3DModal.tsx and GoalAssistant.tsx are not part of this model. They render, or repeat the search loop around a language-model call.
- Text.UpperChar: upper-casing covers ASCII letters only. The trend names it is applied to are ASCII.
- ChemicalLibrary.HandleSelect: it requires the category to be a key of the inventory, because the console only calls it for keys it enumerated. A missing key would throw in the source.
- ChemicalLibrary.Dispenser.OnChange: it requires the chosen value to be a digit string (or the empty placeholder), which is all a drop-down of index-valued options can produce. `parseInt` of other text is not modelled.
- ChemicalLibrary.VisibleCategories: the visiting order of `Object.entries` is passed in as the list of keys. For the store it is the declaration order `Workspace.CategoryOrder`.
- MoleculeSearch.SearchBox.HandleSearch: the search loop's own `catch` is not modelled separately, because the resolver never throws (its body is wrapped in a `catch` that returns null).
- Characters are Unicode scalar values, while JavaScript measures strings in UTF-16 code units. `PubChem.DetectType` therefore counts a character outside the Basic Multilingual Plane (an emoji, say) once where `id.length` counts it twice, so such an identifier can be taken for a name where the source takes it for a SMILES string.
- Text.ParseDecimal: `parseInt` is exact here, while JavaScript returns a double. A cid of 2^53 or more is rounded by the source (and one with more than 21 digits renders in exponent form in the request URL and in `CID <n>`); the model keeps the exact number.
