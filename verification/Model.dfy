/**
 Model: the canonical finding and the scales it is measured on
 (internal/normalization/finding.go, severity.go, fix.go, threatintel.go).
 Enumerations are open strings in the system, so each keeps an `Unrecognised`
 value for text outside the known set.
 */
module Model {
  import opened Ordering

  datatype Severity = Critical | High | Medium | Low | Info | Unknown | Unrecognised(text: string)
  {
    predicate Valid() { !Unrecognised? }

    /** As written in reports and policies. */
    function Text(): string {
      match this
      case Critical => "critical"
      case High => "high"
      case Medium => "medium"
      case Low => "low"
      case Info => "info"
      case Unknown => "unknown"
      case Unrecognised(text) => text
    }

    /** Higher is worse; `unknown` outranks `low`. */
    function Rank(): (r: nat)
      ensures r <= 5
    {
      match this
      case Critical => 5
      case High => 4
      case Medium => 3
      case Unknown => 2
      case Low => 1
      case _ => 0
    }
  }

  datatype Confidence = Sure | Likely | Weak | UnrecognisedConfidence(text: string)
  {
    predicate Valid() { !UnrecognisedConfidence? }
  }

  datatype Status =
    | Open | Acknowledged | InProgress | Resolved | Reopened | FalsePositive | Ignored
    | UnrecognisedStatus(text: string)
  {
    predicate Valid() { !UnrecognisedStatus? }
  }

  /** The complement used by risk, remediation and the gate. */
  predicate Dismissed(s: Status) {
    s.Resolved? || s.FalsePositive? || s.Ignored?
  }

  /** The statuses correlation reads. */
  predicate Correlatable(s: Status) {
    s.Open? || s.Reopened? || s.Acknowledged? || s.InProgress?
  }

  type Category = string

  datatype FixState = FixUnknown | Fixed | NotFixed | WontFix

  datatype Fix = Fix(state: FixState, versions: seq<string>)
  {
    predicate Available() { state.Fixed? && versions != [] }
  }

  /** A finding; `epss` is the percentile when threat intelligence is available. */
  datatype Finding = Finding(
    fingerprint: string, scanner: string, ruleId: string, category: Category,
    severity: Severity, confidence: Confidence, packageName: string, purl: string,
    cve: string, fix: Fix, epss: Option<real>, status: Status)
  {
    /** What storage guarantees of a stored finding, where scoring depends on it. */
    predicate Storable() {
      && severity.Valid() && confidence.Valid() && status.Valid()
      && (epss.Some? ==> 0.0 <= epss.value <= 1.0)
    }
  }
}
