/** The simulation report (components/SimulationResultPanel.tsx): the colour a safety
    warning is drawn in, the molecule a predicted product becomes when it is saved to the
    inventory (with the formula scraped from the reasoning text by /[A-Z][a-z]?\d*\/g),
    the "add all products" loop, and the few fallbacks of the report header and cards. */
module ResultPanel {
  import opened Types
  import opened Text
  import Workspace

  // ---------------------------------------------------------------- safety styles

  /** The four looks of a warning card: the red, yellow and green families and the neutral
      default. */
  datatype Tone = Red | Yellow | Green | NeutralTone

  /** The class strings of a card, its badge and its heading. */
  datatype Style = Style(card: string, badge: string, heading: string)

  function ToneStyle(t: Tone): Style {
    match t
    case Red => Style("bg-red-50 border-red-600 text-red-950", "bg-red-600 text-white", "text-red-700")
    case Yellow => Style("bg-yellow-50 border-yellow-600 text-yellow-950", "bg-yellow-500 text-black", "text-yellow-700")
    case Green => Style("bg-green-50 border-green-600 text-green-950", "bg-green-600 text-white", "text-green-700")
    case NeutralTone => Style("bg-white border-slate-200 text-slate-950", "bg-black text-white", "text-slate-400")
  }

  /** getSafetyStyles: the switch on the severity string. */
  function SafetyTone(severity: string): (t: Tone)
    ensures t == Red <==> severity == "Critical" || severity == "High"
    ensures t == Yellow <==> severity == "Medium"
    ensures t == Green <==> severity == "Low"
  {
    if severity == "Critical" || severity == "High" then Red
    else if severity == "Medium" then Yellow
    else if severity == "Low" then Green
    else NeutralTone
  }

  function SafetyStyles(severity: string): Style {
    ToneStyle(SafetyTone(severity))
  }

  /** How alarming a look is: neutral, green, yellow, red. */
  function ToneRank(t: Tone): nat {
    match t
    case NeutralTone => 0
    case Green => 1
    case Yellow => 2
    case Red => 3
  }

  function SeverityRank(s: Severity): nat {
    match s
    case Low => 1
    case Medium => 2
    case High => 3
    case Critical => 4
  }

  /** Every severity gets a coloured look, never the neutral one; a more severe warning is
      never drawn milder; Critical and High share the red look; any string that is not a
      severity's spelling gets the neutral look. */
  lemma SeverityStyles(s: Severity, u: Severity, other: string)
    ensures SafetyTone(SeverityName(s)) != NeutralTone
    ensures SeverityRank(s) <= SeverityRank(u) ==>
      ToneRank(SafetyTone(SeverityName(s))) <= ToneRank(SafetyTone(SeverityName(u)))
    ensures SafetyStyles(SeverityName(Critical)) == SafetyStyles(SeverityName(High))
    ensures ParseSeverity(other).None? ==> SafetyTone(other) == NeutralTone
  {
  }

  // ---------------------------------------------------------------- formula tokens

  /** The number of ASCII digits at the start of s (\d*, greedy). */
  function DigitRun(s: string): (n: nat)
    ensures n <= |s|
    ensures forall i | 0 <= i < n :: IsDigit(s[i])
    ensures n < |s| ==> !IsDigit(s[n])
    decreases |s|
  {
    if s != [] && IsDigit(s[0]) then 1 + DigitRun(s[1..]) else 0
  }

  /** The length of the match of [A-Z][a-z]?\d* at the start of s, 0 for no match. */
  function MatchLength(s: string): (n: nat)
    ensures n <= |s|
    ensures n == 0 <==> s == [] || !IsUpper(s[0])
  {
    if s == [] || !IsUpper(s[0]) then 0
    else
      var l := if |s| > 1 && IsLower(s[1]) then 1 else 0;
      1 + l + DigitRun(s[1 + l..])
  }

  /** A string the pattern matches entirely: a capital, perhaps a small letter, digits. */
  predicate IsToken(t: string) {
    && |t| >= 1 && IsUpper(t[0])
    && (AllDigits(t[1..]) || (|t| >= 2 && IsLower(t[1]) && AllDigits(t[2..])))
  }

  lemma MatchIsToken(s: string)
    requires MatchLength(s) > 0
    ensures IsToken(s[..MatchLength(s)])
  {
    var n := MatchLength(s);
    var t := s[..n];
    if |s| > 1 && IsLower(s[1]) {
      assert forall i | 2 <= i < n :: t[i] == s[1 + 1..][i - 2];
    } else {
      assert forall i | 1 <= i < n :: t[i] == s[1..][i - 1];
    }
  }

  /** The matches of the global regular expression, left to right: where the pattern
      matches it consumes the match, elsewhere the scan moves on one character. */
  function Tokens(s: string): (ts: seq<string>)
    ensures forall i | 0 <= i < |ts| :: IsToken(ts[i])
    decreases |s|
  {
    if s == [] then []
    else
      var n := MatchLength(s);
      if n == 0 then Tokens(s[1..])
      else
        MatchIsToken(s);
        [s[..n]] + Tokens(s[n..])
  }

  /** The number of capital letters in s. */
  function CountUpper(s: string): (c: nat)
    ensures c == 0 <==> forall i | 0 <= i < |s| :: !IsUpper(s[i])
    decreases |s|
  {
    if s == [] then 0 else (if IsUpper(s[0]) then 1 else 0) + CountUpper(s[1..])
  }

  lemma {:induction false} CountUpperSkip(s: string, j: nat, n: nat)
    requires j <= n <= |s|
    requires forall i | j <= i < n :: !IsUpper(s[i])
    ensures CountUpper(s[j..]) == CountUpper(s[n..])
    decreases n - j
  {
    if j < n {
      CountUpperSkip(s, j + 1, n);
      assert s[j..][1..] == s[j + 1..];
    }
  }

  /** Every capital letter starts exactly one match: there are as many tokens as capitals. */
  lemma {:induction false} TokenCount(s: string)
    ensures |Tokens(s)| == CountUpper(s)
    decreases |s|
  {
    if s != [] {
      var n := MatchLength(s);
      if n == 0 {
        TokenCount(s[1..]);
      } else {
        TokenCount(s[n..]);
        MatchIsToken(s);
        var t := s[..n];
        assert forall i | 1 <= i < n :: s[i] == t[i];
        CountUpperSkip(s, 1, n);
      }
    }
  }

  lemma {:induction false} DigitRunOf(d: string, r: string)
    requires AllDigits(d) && (r == [] || !IsDigit(r[0]))
    ensures DigitRun(d + r) == |d|
    decreases |d|
  {
    if d != [] {
      DigitRunOf(d[1..], r);
      assert (d + r)[1..] == d[1..] + r;
    } else {
      assert d + r == r;
    }
  }

  /** A token followed by nothing or by a capital is matched exactly. */
  lemma MatchOfToken(t: string, r: string)
    requires IsToken(t) && (r == [] || IsUpper(r[0]))
    ensures MatchLength(t + r) == |t|
  {
    var s := t + r;
    if |t| >= 2 && IsLower(t[1]) {
      DigitRunOf(t[2..], r);
      assert s[2..] == t[2..] + r;
    } else {
      DigitRunOf(t[1..], r);
      assert s[1..] == t[1..] + r;
    }
  }

  /** Scanning the concatenation of tokens gives the tokens back. */
  lemma {:induction false} TokensOfJoin(ts: seq<string>)
    requires forall i | 0 <= i < |ts| :: IsToken(ts[i])
    ensures Tokens(Join(ts, "")) == ts
    decreases |ts|
  {
    if |ts| == 1 {
      MatchOfToken(ts[0], []);
      assert ts[0] + [] == ts[0];
      assert ts[0][|ts[0]|..] == [];
    } else if |ts| > 1 {
      var rest := Join(ts[1..], "");
      TokensOfJoin(ts[1..]);
      JoinStartsWithCapital(ts[1..]);
      MatchOfToken(ts[0], rest);
      var s := ts[0] + rest;
      assert Join(ts, "") == s;
      assert s[..|ts[0]|] == ts[0];
      assert s[|ts[0]|..] == rest;
      assert [ts[0]] + ts[1..] == ts;
    }
  }

  lemma JoinStartsWithCapital(ts: seq<string>)
    requires |ts| >= 1 && forall i | 0 <= i < |ts| :: IsToken(ts[i])
    ensures |Join(ts, "")| >= 1 && IsUpper(Join(ts, "")[0])
  {
    if |ts| > 1 {
      assert Join(ts, "") == ts[0] + Join(ts[1..], "");
    }
  }

  /** `reasoning.match(/[A-Z][a-z]?\d*\/g)?.join('') || 'N/A'`: the matches run together,
      or 'N/A' when there is none (match then returns null). */
  function FormulaText(reasoning: string): string {
    var ts := Tokens(reasoning);
    if ts == [] then "N/A" else Join(ts, "")
  }

  /** The saved formula is 'N/A' exactly when the reasoning has no capital letter;
      otherwise scanning it again gives the same matches. */
  lemma FormulaProperties(reasoning: string)
    ensures FormulaText(reasoning) == "N/A" <==> forall i | 0 <= i < |reasoning| :: !IsUpper(reasoning[i])
    ensures FormulaText(reasoning) != "N/A" ==> Tokens(FormulaText(reasoning)) == Tokens(reasoning)
  {
    var ts := Tokens(reasoning);
    TokenCount(reasoning);
    if ts != [] {
      TokensOfJoin(ts);
      if Join(ts, "") == "N/A" {
        NotAJoin();
      }
    }
  }

  /** "N/A" is not a run of tokens: the scan of it finds N and A, which run together to "NA". */
  lemma NotAJoin()
    ensures Join(Tokens("N/A"), "") != "N/A"
  {
    var s := "N/A";
    assert MatchLength(s) == 1 && s[..1] == "N" && s[1..] == "/A";
    assert MatchLength("/A") == 0 && "/A"[1..] == "A";
    assert MatchLength("A") == 1 && "A"[..1] == "A" && "A"[1..] == [];
    assert Tokens("A") == ["A"];
    assert Tokens("/A") == ["A"];
    assert Tokens(s) == ["N", "A"];
    assert Join(["N", "A"], "") == "N" + "" + "A";
  }

  // ---------------------------------------------------------------- saving products

  /** handleSaveToInventory's molecule: name, SMILES, weight and TPSA copied, the scraped
      formula, and no cid. */
  function SavedMolecule(chem: PredictedChemical): (m: Molecule)
    ensures m.cid.None? && m.name == Some(chem.name) && m.smiles == chem.smiles
    ensures m.properties.molecularWeight == Some(chem.molecularWeight) && m.properties.tpsa == chem.tpsa
    ensures m.properties.formula == Some(FormulaText(chem.reasoning))
    ensures m.properties.logP.None? && m.properties.hBondDonors.None? && m.properties.hBondAcceptors.None?
    ensures m.properties.rotatableBonds.None? && m.inchi.None? && m.safety.None?
  {
    Molecule(None, Some(chem.name), chem.smiles, None,
             Properties(Some(chem.molecularWeight), None, None, None, None, Some(FormulaText(chem.reasoning)), chem.tpsa),
             None)
  }

  /** A saved product has no cid, so only its SMILES string can make the add a no-op. */
  lemma SavedBlockedBySmilesOnly(inv: Workspace.Inventory, chem: PredictedChemical)
    ensures Workspace.InventoryBlocks(inv, SavedMolecule(chem)) <==>
      exists k, i | k in inv && 0 <= i < |inv[k]| :: inv[k][i].smiles == chem.smiles
  {
  }

  function SavedMolecules(chems: seq<PredictedChemical>): (ms: seq<Molecule>)
    ensures |ms| == |chems|
    ensures forall i | 0 <= i < |chems| :: ms[i] == SavedMolecule(chems[i])
  {
    seq(|chems|, i requires 0 <= i < |chems| => SavedMolecule(chems[i]))
  }

  /** The save button of a card. */
  method HandleSaveToInventory(chem: PredictedChemical, ws: Workspace.Workspace)
    requires ws.Valid()
    modifies ws`inventory, ws`storedSynthesized
    ensures ws.Valid()
    ensures ws.inventory == Workspace.InventoryAdd(old(ws.inventory), SavedMolecule(chem))
    ensures ws.storedSynthesized ==
      if Workspace.InventoryBlocks(old(ws.inventory), SavedMolecule(chem)) then old(ws.storedSynthesized)
      else Some(ws.inventory[Workspace.SynthesizedKey])
  {
    ws.AddToInventory(SavedMolecule(chem));
  }

  lemma SavedMoleculesStep(chems: seq<PredictedChemical>, i: nat)
    requires i < |chems|
    ensures SavedMolecules(chems[..i + 1]) == SavedMolecules(chems[..i]) + [SavedMolecule(chems[i])]
  {
  }

  /** "Add all": saves every product of the result once, in order; byproducts are not
      touched. */
  method HandleAddAllToInventory(result: ReactionSimulationResult, ws: Workspace.Workspace)
    requires ws.Valid()
    modifies ws`inventory, ws`storedSynthesized
    ensures ws.Valid()
    ensures ws.inventory == Workspace.InventoryAfter(old(ws.inventory), SavedMolecules(result.products))
    ensures ws.storedSynthesized ==
      if ws.inventory == old(ws.inventory) then old(ws.storedSynthesized)
      else Some(ws.inventory[Workspace.SynthesizedKey])
  {
    ghost var start := ws.inventory;
    ghost var startStored := ws.storedSynthesized;
    var products := result.products;
    var i := 0;
    while i < |products|
      invariant 0 <= i <= |products|
      invariant ws.Valid()
      invariant ws.inventory == Workspace.InventoryAfter(start, SavedMolecules(products[..i]))
      invariant ws.storedSynthesized ==
        if ws.inventory == start then startStored else Some(ws.inventory[Workspace.SynthesizedKey])
    {
      ghost var done := SavedMolecules(products[..i]);
      HandleSaveToInventory(products[i], ws);
      SavedMoleculesStep(products, i);
      Workspace.InventoryAfterStep(start, done, SavedMolecule(products[i]));
      i := i + 1;
    }
    assert products[..i] == products;
  }

  // ---------------------------------------------------------------- report fallbacks

  /** `approxTimeRequired || "TBD"`. */
  function DurationText(approxTimeRequired: string): (shown: string)
    ensures shown == "TBD" <==> approxTimeRequired == [] || approxTimeRequired == "TBD"
    ensures shown != "TBD" ==> shown == approxTimeRequired
  {
    if approxTimeRequired == [] then "TBD" else approxTimeRequired
  }

  /** What the TPSA slot of a card shows: the number, or 'N/A' when it is missing or 0. */
  datatype Shown = ShownNumber(value: real) | ShownText(text: string)

  function TpsaText(tpsa: Option<real>): (shown: Shown)
    ensures shown.ShownText? <==> tpsa.None? || tpsa.value == 0.0
    ensures shown.ShownText? ==> shown.text == "N/A"
    ensures shown.ShownNumber? ==> tpsa == Some(shown.value)
  {
    if tpsa.Some? && tpsa.value != 0.0 then ShownNumber(tpsa.value) else ShownText("N/A")
  }
}
