/** The identifier resolver of services/pubchemService.ts. The chemistry database is an
    oracle: each remote lookup either answers (Ok with the part of the JSON body the code
    reads), answers with a non-success status (NotOk), or throws (Rejected: the fetch or
    the JSON parse failed). What is verified is the control flow around those answers:
    which requests are issued, in which order, and when the result is null. */
module PubChem {
  import opened Types
  import opened Text

  const PubChemBase: string := "https://pubchem.ncbi.nlm.nih.gov/rest/pug"

  /** The characters whose presence marks a structure string. */
  const StructureChars: string := "=#()[]"

  /** Identifiers longer than this are taken for structure strings. */
  const MaxNameLength: nat := 20

  datatype IdentifierType = CidType | SmilesType | NameType

  /** The test /^\d+$/, scanned left to right. */
  function MatchesDigitsOnly(s: string): (r: bool)
    ensures r <==> |s| > 0 && AllDigits(s)
    decreases |s|
  {
    |s| > 0 && IsDigit(s[0]) && (|s| == 1 || MatchesDigitsOnly(s[1..]))
  }

  /** The test /[=#\(\)\[\]]/, scanned left to right. */
  function ContainsStructureChar(s: string): (r: bool)
    ensures r <==> exists i | 0 <= i < |s| :: s[i] in StructureChars
    decreases |s|
  {
    |s| > 0 && (s[0] in StructureChars || ContainsStructureChar(s[1..]))
  }

  /** detectType: a digit string of any length is a cid; otherwise a structure character or
      a length above 20 makes a structure string; everything else is a name. */
  function DetectType(id: string): (t: IdentifierType)
    ensures t == CidType <==> |id| > 0 && AllDigits(id)
    ensures t == SmilesType <==>
      && !(|id| > 0 && AllDigits(id))
      && ((exists i | 0 <= i < |id| :: id[i] in StructureChars) || |id| > MaxNameLength)
    ensures t == NameType <==>
      && !(|id| > 0 && AllDigits(id))
      && (forall i | 0 <= i < |id| :: id[i] !in StructureChars) && |id| <= MaxNameLength
  {
    if MatchesDigitsOnly(id) then CidType
    else if ContainsStructureChar(id) || |id| > MaxNameLength then SmilesType
    else NameType
  }

  /** The path segment of the search endpoint. */
  datatype Namespace = NameNamespace | SmilesNamespace

  /** The full descriptor list, or the minimal one (weight, formula, SMILES). */
  datatype PropertySet = FullSet | MinimalSet

  datatype Request =
    | CidSearch(namespace: Namespace, identifier: string)
    | PropertyFetch(cid: int, propertySet: PropertySet)
    | SynonymFetch(cid: int)

  datatype Response<T> = Ok(body: T) | NotOk | Rejected

  /** The first row of a property table, as far as the resolver reads it. */
  datatype PropertyRow = PropertyRow(
    cid: Option<int>,
    molecularWeight: Option<real>,
    xLogP: Option<real>,
    logP: Option<real>,
    hBondDonorCount: Option<int>,
    hBondAcceptorCount: Option<int>,
    rotatableBondCount: Option<int>,
    molecularFormula: Option<string>,
    canonicalSmiles: Option<string>,
    inChI: Option<string>,
    tpsa: Option<real>)

  /** The remote database: the first cid of a search answer, the first row of a property
      table, the first synonym of a synonym list. */
  datatype Database = Database(
    search: (Namespace, string) -> Response<Option<int>>,
    properties: (int, PropertySet) -> Response<Option<PropertyRow>>,
    synonyms: int -> Response<Option<string>>)

  /** `x || null` on a cid: absent and 0 both become null. */
  function TruthyCid(c: Option<int>): (r: Option<int>)
    ensures r.Some? <==> Truthy(c)
    ensures r.Some? ==> r == c
  {
    if Truthy(c) then c else None
  }

  /** The cid a search answer yields; a non-success or thrown answer yields none. */
  function SearchCid(res: Response<Option<int>>): Option<int> {
    if res.Ok? then TruthyCid(res.body) else None
  }

  /** `x ? parseFloat(x) : undefined` on a number: 0 counts as absent. */
  function TruthyReal(x: Option<real>): Option<real> {
    if x.Some? && x.value != 0.0 then x else None
  }

  function CountSearches(reqs: seq<Request>): nat
    decreases |reqs|
  {
    if reqs == [] then 0 else (if reqs[0].CidSearch? then 1 else 0) + CountSearches(reqs[1..])
  }

  lemma {:induction false} CountSearchesAppend(a: seq<Request>, b: seq<Request>)
    ensures CountSearches(a + b) == CountSearches(a) + CountSearches(b)
    decreases |a|
  {
    if a == [] {
      assert a + b == b;
    } else {
      CountSearchesAppend(a[1..], b);
      assert (a + b)[0] == a[0];
      assert (a + b)[1..] == a[1..] + b;
    }
  }

  datatype CidLookup = CidLookup(cid: Option<int>, requests: seq<Request>)

  /** Step 1: a cid input is parsed and used directly; a name is searched as a name and,
      when that yields no cid without throwing, once more as a SMILES string; a SMILES
      input is searched once. */
  function LookupCid(t: string, db: Database): (r: CidLookup)
    ensures r.cid.Some? ==> r.cid.value != 0
    ensures DetectType(t) == CidType ==> r.requests == [] && r.cid == TruthyCid(Some(ParseDecimal(t)))
    ensures DetectType(t) == SmilesType ==> r.requests == [CidSearch(SmilesNamespace, t)]
    ensures DetectType(t) == SmilesType ==> r.cid == SearchCid(db.search(SmilesNamespace, t))
    ensures DetectType(t) == NameType ==>
      var first := db.search(NameNamespace, t);
      && 1 <= |r.requests| <= 2
      && r.requests[0] == CidSearch(NameNamespace, t)
      && (|r.requests| == 2 <==> !first.Rejected? && SearchCid(first).None?)
      && (|r.requests| == 2 ==> r.requests[1] == CidSearch(SmilesNamespace, t))
      && r.cid == (if |r.requests| == 1 then SearchCid(first) else SearchCid(db.search(SmilesNamespace, t)))
  {
    match DetectType(t)
    case CidType =>
      CidLookup(TruthyCid(Some(ParseDecimal(t))), [])
    case SmilesType =>
      CidLookup(SearchCid(db.search(SmilesNamespace, t)), [CidSearch(SmilesNamespace, t)])
    case NameType =>
      var first := db.search(NameNamespace, t);
      if first.Rejected? || SearchCid(first).Some? then
        CidLookup(SearchCid(first), [CidSearch(NameNamespace, t)])
      else
        CidLookup(SearchCid(db.search(SmilesNamespace, t)),
                  [CidSearch(NameNamespace, t), CidSearch(SmilesNamespace, t)])
  }

  datatype PropertyLookup = PropertyLookup(row: Option<PropertyRow>, requests: seq<Request>)

  /** Step 2: the full property list, and the minimal list once only when the full request
      answered with a non-success status. */
  function LookupProperties(cid: int, db: Database): (r: PropertyLookup)
    ensures |r.requests| == (if db.properties(cid, FullSet).NotOk? then 2 else 1)
    ensures r.requests[0] == PropertyFetch(cid, FullSet)
    ensures |r.requests| == 2 ==> r.requests[1] == PropertyFetch(cid, MinimalSet)
    ensures db.properties(cid, FullSet).Ok? ==> r.row == db.properties(cid, FullSet).body
    ensures db.properties(cid, FullSet).NotOk? && db.properties(cid, MinimalSet).Ok? ==>
      r.row == db.properties(cid, MinimalSet).body
    ensures db.properties(cid, FullSet).Rejected? ==> r.row.None?
    ensures db.properties(cid, FullSet).NotOk? && !db.properties(cid, MinimalSet).Ok? ==> r.row.None?
  {
    var full := db.properties(cid, FullSet);
    if full.Ok? then PropertyLookup(full.body, [PropertyFetch(cid, FullSet)])
    else if full.Rejected? then PropertyLookup(None, [PropertyFetch(cid, FullSet)])
    else
      var minimal := db.properties(cid, MinimalSet);
      PropertyLookup(if minimal.Ok? then minimal.body else None,
                     [PropertyFetch(cid, FullSet), PropertyFetch(cid, MinimalSet)])
  }

  function FallbackName(cid: int): string {
    "CID " + IntToString(cid)
  }

  /** Step 3: the first synonym when one comes back non-empty, else "CID <n>"; a failed or
      thrown synonym lookup never fails the resolution. */
  function DisplayName(cid: int, db: Database): (name: string)
    ensures name == FallbackName(cid) || (name != "" && db.synonyms(cid) == Ok(Some(name)))
    ensures db.synonyms(cid).Ok? && db.synonyms(cid).body.Some? && db.synonyms(cid).body.value != "" ==>
      name == db.synonyms(cid).body.value
    ensures !db.synonyms(cid).Ok? || db.synonyms(cid).body == None || db.synonyms(cid).body == Some("") ==>
      name == FallbackName(cid)
  {
    var res := db.synonyms(cid);
    if res.Ok? && res.body.Some? && res.body.value != "" then res.body.value else FallbackName(cid)
  }

  /** The molecule built from a property row and a display name: the row's cid, the
      SMILES string or "", XLogP in preference to LogP, counts defaulting to 0, and a
      zero weight or polar surface area read as absent. */
  function MoleculeFromRow(row: PropertyRow, name: string): (m: Molecule)
    ensures m.cid == row.cid && m.name == Some(name) && m.inchi == row.inChI && m.safety.None?
    ensures m.smiles == (if row.canonicalSmiles.Some? then row.canonicalSmiles.value else "")
    ensures row.xLogP.Some? ==> m.properties.logP == row.xLogP
    ensures row.xLogP.None? ==> m.properties.logP == row.logP
    ensures m.properties.hBondDonors == Some(if row.hBondDonorCount.Some? then row.hBondDonorCount.value else 0)
    ensures m.properties.hBondAcceptors == Some(if row.hBondAcceptorCount.Some? then row.hBondAcceptorCount.value else 0)
    ensures m.properties.rotatableBonds == Some(if row.rotatableBondCount.Some? then row.rotatableBondCount.value else 0)
    ensures m.properties.formula == row.molecularFormula
    ensures m.properties.molecularWeight.Some? <==> row.molecularWeight.Some? && row.molecularWeight.value != 0.0
    ensures m.properties.molecularWeight.Some? ==> m.properties.molecularWeight == row.molecularWeight
    ensures m.properties.tpsa.Some? <==> row.tpsa.Some? && row.tpsa.value != 0.0
    ensures m.properties.tpsa.Some? ==> m.properties.tpsa == row.tpsa
  {
    Molecule(
      row.cid,
      Some(name),
      row.canonicalSmiles.GetOr(""),
      row.inChI,
      Properties(
        TruthyReal(row.molecularWeight),
        if row.xLogP.Some? then row.xLogP else row.logP,
        Some(row.hBondDonorCount.GetOr(0)),
        Some(row.hBondAcceptorCount.GetOr(0)),
        Some(row.rotatableBondCount.GetOr(0)),
        row.molecularFormula,
        TruthyReal(row.tpsa)),
      None)
  }

  datatype Resolution = Resolution(molecule: Option<Molecule>, requests: seq<Request>)

  /** fetchMoleculeByIdentifier as a function of the identifier and the database answers:
      the molecule (None for null) and the requests issued, in order. */
  function Resolve(id: string, db: Database): (r: Resolution)
    ensures AllWhitespace(id) ==> r == Resolution(None, [])
    ensures r.molecule.Some? ==> |r.requests| >= 2 && r.requests[|r.requests| - 1].SynonymFetch?
  {
    var t := Trim(id);
    if t == [] then Resolution(None, []) else ResolveTrimmed(t, db)
  }

  /** The resolution of a non-blank, trimmed identifier. */
  function ResolveTrimmed(t: string, db: Database): (r: Resolution)
    ensures r.molecule.Some? ==> |r.requests| >= 2 && r.requests[|r.requests| - 1].SynonymFetch?
    ensures r.molecule.Some? ==>
      && LookupCid(t, db).cid.Some?
      && PropertyFetch(LookupCid(t, db).cid.value, FullSet) in r.requests
      && r.requests[|r.requests| - 1] == SynonymFetch(LookupCid(t, db).cid.value)
  {
      var lookup := LookupCid(t, db);
      if lookup.cid.None? then Resolution(None, lookup.requests)
      else
        var cid := lookup.cid.value;
        var props := LookupProperties(cid, db);
        if props.row.None? then Resolution(None, lookup.requests + props.requests)
        else
          Resolution(Some(MoleculeFromRow(props.row.value, DisplayName(cid, db))),
                     lookup.requests + props.requests + [SynonymFetch(cid)])
  }

  /** A cid identifier is never searched for, and the cid 0 resolves to null before any
      request. */
  lemma ResolveCidInput(id: string, db: Database)
    requires !AllWhitespace(id) && DetectType(Trim(id)) == CidType
    ensures CountSearches(Resolve(id, db).requests) == 0
    ensures ParseDecimal(Trim(id)) == 0 ==> Resolve(id, db) == Resolution(None, [])
    ensures ParseDecimal(Trim(id)) != 0 ==>
      Resolve(id, db).requests[0] == PropertyFetch(ParseDecimal(Trim(id)), FullSet)
  {
    var t := Trim(id);
    var lookup := LookupCid(t, db);
    assert lookup.requests == [];
    if lookup.cid.Some? {
      var c := lookup.cid.value;
      var props := LookupProperties(c, db);
      var tail := props.requests + [SynonymFetch(c)];
      if props.row.None? {
        assert Resolve(id, db).requests == props.requests;
        PropertyRequestsNoSearch(props.requests);
      } else {
        assert Resolve(id, db).requests == tail;
        PropertyRequestsNoSearch(tail);
      }
    }
  }

  lemma {:induction false} PropertyRequestsNoSearch(reqs: seq<Request>)
    requires forall i | 0 <= i < |reqs| :: !reqs[i].CidSearch?
    ensures CountSearches(reqs) == 0
    decreases |reqs|
  {
    if reqs != [] {
      PropertyRequestsNoSearch(reqs[1..]);
    }
  }

  lemma {:induction false} AllSearchesCount(reqs: seq<Request>)
    requires forall i | 0 <= i < |reqs| :: reqs[i].CidSearch?
    ensures CountSearches(reqs) == |reqs|
    decreases |reqs|
  {
    if reqs != [] {
      AllSearchesCount(reqs[1..]);
    }
  }

  /** At most two searches are ever issued: exactly one for a structure string, and for a
      name a second one (by SMILES) exactly when the name search answered without a cid. */
  lemma ResolveSearchCount(id: string, db: Database)
    requires !AllWhitespace(id)
    ensures CountSearches(Resolve(id, db).requests) <= 2
    ensures DetectType(Trim(id)) == SmilesType ==> CountSearches(Resolve(id, db).requests) == 1
    ensures DetectType(Trim(id)) == NameType ==>
      var first := db.search(NameNamespace, Trim(id));
      CountSearches(Resolve(id, db).requests) == (if !first.Rejected? && SearchCid(first).None? then 2 else 1)
  {
    SearchesAreTheLookup(Trim(id), db);
  }

  /** Every search of a resolution belongs to its cid lookup. */
  lemma SearchesAreTheLookup(t: string, db: Database)
    requires t != []
    ensures CountSearches(ResolveTrimmed(t, db).requests) == |LookupCid(t, db).requests|
  {
    var lookup := LookupCid(t, db);
    assert forall i | 0 <= i < |lookup.requests| :: lookup.requests[i].CidSearch?;
    AllSearchesCount(lookup.requests);
    if lookup.cid.Some? {
      var c := lookup.cid.value;
      var props := LookupProperties(c, db);
      var tail := if props.row.None? then props.requests else props.requests + [SynonymFetch(c)];
      assert ResolveTrimmed(t, db).requests == lookup.requests + tail;
      PropertyRequestsNoSearch(tail);
      CountSearchesAppend(lookup.requests, tail);
    }
  }

  /** A non-blank identifier resolves to a molecule exactly when its cid step finds a cid
      and the property step returns a row for it; the molecule is then built from that
      row and the cid's display name. */
  lemma ResolveOutcome(id: string, db: Database)
    requires !AllWhitespace(id)
    ensures
      var lookup := LookupCid(Trim(id), db);
      && (Resolve(id, db).molecule.Some? <==>
            lookup.cid.Some? && LookupProperties(lookup.cid.value, db).row.Some?)
      && (Resolve(id, db).molecule.Some? ==>
            Resolve(id, db).molecule ==
              Some(MoleculeFromRow(LookupProperties(lookup.cid.value, db).row.value,
                                   DisplayName(lookup.cid.value, db))))
  {

  }

  /** A resolved molecule: the last request is the synonym lookup of the cid found, whose
      full property list was requested; the name is that cid's first non-empty synonym,
      else "CID <n>"; every field comes from the property row read for that cid. */
  lemma ResolvedMolecule(id: string, db: Database)
    requires Resolve(id, db).molecule.Some?
    ensures
      var r := Resolve(id, db);
      var m := r.molecule.value;
      var c := r.requests[|r.requests| - 1].cid;
      var syn := db.synonyms(c);
      && LookupCid(Trim(id), db).cid == Some(c)
      && c != 0
      && PropertyFetch(c, FullSet) in r.requests
      && (syn.Ok? && syn.body.Some? && syn.body.value != "" ==> m.name == Some(syn.body.value))
      && (!(syn.Ok? && syn.body.Some? && syn.body.value != "") ==> m.name == Some(FallbackName(c)))
      && LookupProperties(c, db).row.Some?
      && m == MoleculeFromRow(LookupProperties(c, db).row.value, DisplayName(c, db))
  {
  }

  /** The cid block of the resolver: parse, or search and fall back, with early exits
      when a search throws. */
  method FindCid(trimmedId: string, db: Database) returns (cid: Option<int>, requests: seq<Request>)
    ensures CidLookup(cid, requests) == LookupCid(trimmedId, db)
  {
    requests := [];
    cid := None;
    var kind := DetectType(trimmedId);
    if kind == CidType {
      cid := TruthyCid(Some(ParseDecimal(trimmedId)));
      return;
    }
    var ns := if kind == NameType then NameNamespace else SmilesNamespace;
    var cidRes := db.search(ns, trimmedId);
    requests := requests + [CidSearch(ns, trimmedId)];
    if cidRes.Rejected? {
      return;
    }
    if cidRes.Ok? {
      cid := TruthyCid(cidRes.body);
    }
    if !Truthy(cid) && kind == NameType {
      var altRes := db.search(SmilesNamespace, trimmedId);
      requests := requests + [CidSearch(SmilesNamespace, trimmedId)];
      if altRes.Rejected? {
        return;
      }
      if altRes.Ok? {
        cid := TruthyCid(altRes.body);
      }
    }
  }

  /** The property block: the full list, then the minimal list after a non-success status. */
  method FetchProperties(cid: int, db: Database) returns (row: Option<PropertyRow>, requests: seq<Request>)
    ensures PropertyLookup(row, requests) == LookupProperties(cid, db)
  {
    row := None;
    var propRes := db.properties(cid, FullSet);
    requests := [PropertyFetch(cid, FullSet)];
    if propRes.Rejected? {
      return;
    }
    if propRes.NotOk? {
      propRes := db.properties(cid, MinimalSet);
      requests := requests + [PropertyFetch(cid, MinimalSet)];
      if !propRes.Ok? {
        return;
      }
    }
    row := propRes.body;
  }

  /** fetchMoleculeByIdentifier: trim, find the cid, read the properties, then the name. */
  method FetchMoleculeByIdentifier(id: string, db: Database)
    returns (molecule: Option<Molecule>, requests: seq<Request>)
    ensures Resolution(molecule, requests) == Resolve(id, db)
  {
    molecule, requests := None, [];
    var trimmedId := Trim(id);
    if trimmedId == [] {
      return;
    }
    var cid, searches := FindCid(trimmedId, db);
    requests := searches;
    if cid.None? {
      return;
    }
    var c := cid.value;
    var row, fetches := FetchProperties(c, db);
    requests := requests + fetches;
    if row.None? {
      return;
    }
    var name := FallbackName(c);
    var nameRes := db.synonyms(c);
    requests := requests + [SynonymFetch(c)];
    if nameRes.Ok? && nameRes.body.Some? && nameRes.body.value != "" {
      name := nameRes.body.value;
    }
    molecule := Some(MoleculeFromRow(row.value, name));
  }

  /** getMoleculeImage: the PNG rendering endpoint of a cid. */
  function MoleculeImage(cid: int): string {
    PubChemBase + "/compound/cid/" + IntToString(cid) + "/PNG"
  }

  /** Different cids never share an image URL. */
  lemma MoleculeImageInjective(a: int, b: int)
    requires MoleculeImage(a) == MoleculeImage(b)
    ensures a == b
  {
    var prefix := PubChemBase + "/compound/cid/";
    var sa, sb := IntToString(a), IntToString(b);
    assert MoleculeImage(a) == prefix + (sa + "/PNG");
    assert MoleculeImage(b) == prefix + (sb + "/PNG");
    assert sa + "/PNG" == MoleculeImage(a)[|prefix|..];
    assert sb + "/PNG" == MoleculeImage(b)[|prefix|..];
    assert |sa| == |sb|;
    assert sa == (sa + "/PNG")[..|sa|];
    assert sb == (sb + "/PNG")[..|sb|];
    IntToStringInjective(a, b);
  }
}
