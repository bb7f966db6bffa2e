/** The application's data model (types.ts). Optional TypeScript fields are Options,
    string unions are enumerations, JavaScript numbers that are only stored and copied
    are reals, and identifiers and counts are integers. */
module Types {

  datatype Option<+T> = None | Some(value: T) {
    function GetOr(default: T): T {
      match this
      case Some(v) => v
      case None => default
    }
  }

  /** The descriptor bag of a molecule; every entry may be missing. */
  datatype Properties = Properties(
    molecularWeight: Option<real>,
    logP: Option<real>,
    hBondDonors: Option<int>,
    hBondAcceptors: Option<int>,
    rotatableBonds: Option<int>,
    formula: Option<string>,
    tpsa: Option<real>)

  const NoProperties := Properties(None, None, None, None, None, None, None)

  datatype SafetyCategory =
    Toxicity | Flammability | Explosiveness | Environmental | Regulatory | EnvironmentMismatch

  datatype Severity = Low | Medium | High | Critical

  datatype SafetyWarning = SafetyWarning(
    category: SafetyCategory,
    severity: Severity,
    description: string,
    explanation: string)

  /** A molecule: only the SMILES string is required. */
  datatype Molecule = Molecule(
    cid: Option<int>,
    name: Option<string>,
    smiles: string,
    inchi: Option<string>,
    properties: Properties,
    safety: Option<seq<SafetyWarning>>)

  /** The snapshot of the form that a simulation request is built from. */
  datatype ReactionInput = ReactionInput(
    reactants: seq<Molecule>,
    catalysts: string,
    temperature: real,
    pressure: real,
    description: string)

  datatype PredictedChemical = PredictedChemical(
    smiles: string,
    name: string,
    iupacName: string,
    molecularWeight: real,
    yieldEstimate: string,
    reasoning: string,
    applications: seq<string>,
    tpsa: Option<real>)

  datatype MassBalanceStatus = Verified | ImbalanceDetected | UnknownBalance

  datatype ModelConsensus = ModelConsensus(structural: bool, thermodynamic: bool, kinetic: bool)

  /** The confidence score is documented as a percentage, 0 to 100, but nothing enforces it. */
  datatype MLAccuracyMetrics = MLAccuracyMetrics(
    confidenceScore: real,
    massBalanceStatus: MassBalanceStatus,
    modelConsensus: ModelConsensus,
    errorMargin: string)

  datatype Intermediate = Intermediate(smiles: string, name: string, description: string)

  datatype EnergyTrend = Exothermic | Endothermic | Neutral

  datatype ReactionSimulationResult = ReactionSimulationResult(
    products: seq<PredictedChemical>,
    byproducts: seq<PredictedChemical>,
    intermediates: Option<seq<Intermediate>>,
    feasibilityScore: real,
    energyTrend: EnergyTrend,
    mechanismInsight: string,
    approxTimeRequired: string,
    alternativeRoute: string,
    safetyAssessment: seq<SafetyWarning>,
    conditionWarnings: Option<seq<string>>,
    mlAccuracy: Option<MLAccuracyMetrics>)

  /** One entry of the history log: an id and a timestamp around one (input, result) pair. */
  datatype HistoryItem = HistoryItem(
    id: string,
    timestamp: string,
    input: ReactionInput,
    result: ReactionSimulationResult)

  /** JavaScript truthiness of an optional number: absent and 0 are both false. */
  predicate Truthy(n: Option<int>) {
    n.Some? && n.value != 0
  }

  /** The spelling of a severity in the data. */
  function SeverityName(s: Severity): string {
    match s
    case Low => "Low"
    case Medium => "Medium"
    case High => "High"
    case Critical => "Critical"
  }

  /** Reads a severity back from its spelling; any other string is not a severity. */
  function ParseSeverity(s: string): (r: Option<Severity>)
    ensures r.Some? ==> SeverityName(r.value) == s
  {
    if s == "Low" then Some(Low)
    else if s == "Medium" then Some(Medium)
    else if s == "High" then Some(High)
    else if s == "Critical" then Some(Critical)
    else None
  }

  lemma SeverityRoundTrip(s: Severity)
    ensures ParseSeverity(SeverityName(s)) == Some(s)
  {
  }

  function EnergyTrendName(t: EnergyTrend): string {
    match t
    case Exothermic => "Exothermic"
    case Endothermic => "Endothermic"
    case Neutral => "Neutral"
  }

  function MassBalanceName(m: MassBalanceStatus): string {
    match m
    case Verified => "Verified"
    case ImbalanceDetected => "Imbalance Detected"
    case UnknownBalance => "Unknown"
  }
}
