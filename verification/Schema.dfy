/** The vocabulary shared by the control path (c3r/state_schema.py). Costs and
    utilities are reals; a float that may be infinite or NaN is a `Number`. */
module Schema {

  datatype Option<+T> = None | Some(value: T)

  datatype Number = Finite(value: real) | NotFinite

  datatype ActionFamily =
    | DirectTypedAction | Tool | Retrieval | LocalModel | FrontierModel
    | Verify | Deliberate | AskUser | Stop

  datatype RiskClass =
    | ReadOnly | LowReversible | ExternalWrite | HighConsequence | Destructive | ApprovalRequired

  datatype ActionCandidate = ActionCandidate(
    id: string,
    family: ActionFamily,
    riskClass: RiskClass,
    optimisticUtility: real,
    requestedVerifier: Option<string>,
    payload: seq<(string, string)>)

  datatype ActionDefinition = ActionDefinition(
    id: string,
    family: ActionFamily,
    subgroup: string,
    operation: string,
    riskClass: RiskClass,
    argumentVariants: seq<seq<(string, string)>>,
    placements: seq<string>,
    verifierIds: seq<string>,
    optimisticUtility: real,
    estimatedCost: real,
    provenanceComplete: bool,
    dataBoundary: string,
    requiredArgumentKeys: set<string>,
    allowedArgumentKeys: set<string>)

  datatype AuthorityPolicy = AuthorityPolicy(
    allowedFamilies: set<ActionFamily>,
    allowedRisks: set<RiskClass>,
    allowedDataBoundaries: set<string>)
  {
    predicate Permits(candidate: ActionCandidate) {
      candidate.family in allowedFamilies && candidate.riskClass in allowedRisks
    }
  }

  datatype ValueEstimate = ValueEstimate(
    expectedGain: Number, totalCost: Number, riskPenalty: Number, uncertainty: Number)

  /** The wire value of a family; families are compiled in the order of these strings. */
  function FamilyValue(family: ActionFamily): string {
    match family
    case DirectTypedAction => "DIRECT_TYPED_ACTION"
    case Tool => "TOOL"
    case Retrieval => "RETRIEVAL"
    case LocalModel => "LOCAL_MODEL"
    case FrontierModel => "FRONTIER_MODEL"
    case Verify => "VERIFY"
    case Deliberate => "DELIBERATE"
    case AskUser => "ASK_USER"
    case Stop => "STOP"
  }

  function RiskValue(risk: RiskClass): string {
    match risk
    case ReadOnly => "READ_ONLY"
    case LowReversible => "LOW_REVERSIBLE"
    case ExternalWrite => "EXTERNAL_WRITE"
    case HighConsequence => "HIGH_CONSEQUENCE"
    case Destructive => "DESTRUCTIVE"
    case ApprovalRequired => "APPROVAL_REQUIRED"
  }
}
