/**
 * The data model of one hadith analysis: the closed verdict enumeration,
 * the narrator record, the analysis result and the chart entry.
 */
module Types {

  datatype Option<+T> = None | Some(value: T)

  /** The four rulings a hadith can receive. */
  datatype Verdict = SAHIH | HASAN | GHARIB | MAWDU

  /** The enumeration's string value, which is what the service sends and the page shows. */
  function Label(v: Verdict): string
  {
    match v
    case SAHIH => "صحيح"
    case HASAN => "حسن"
    case GHARIB => "غريب"
    case MAWDU => "موضوع / منكر"
  }

  /** The members of the enumeration in declaration order. */
  const AllVerdicts: seq<Verdict> := [SAHIH, HASAN, GHARIB, MAWDU]

  /** The enumeration has exactly four members, all listed, with pairwise-distinct labels. */
  lemma VerdictEnumeration()
    ensures |AllVerdicts| == 4
    ensures forall v: Verdict :: v in AllVerdicts
    ensures forall i, j :: 0 <= i < j < |AllVerdicts| ==> Label(AllVerdicts[i]) != Label(AllVerdicts[j])
  {
    forall v: Verdict ensures v in AllVerdicts {
      match v
      case SAHIH => assert v == AllVerdicts[0];
      case HASAN => assert v == AllVerdicts[1];
      case GHARIB => assert v == AllVerdicts[2];
      case MAWDU => assert v == AllVerdicts[3];
    }
    assert Label(SAHIH)[0] != Label(GHARIB)[0];
  }

  /** Reverse lookup of a label: the verdict whose value is `s`, if there is one. */
  function ParseVerdict(s: string): (r: Option<Verdict>)
    ensures r.Some? ==> Label(r.value) == s
    ensures r.None? ==> forall v: Verdict :: Label(v) != s
  {
    if s == Label(SAHIH) then Some(SAHIH)
    else if s == Label(HASAN) then Some(HASAN)
    else if s == Label(GHARIB) then Some(GHARIB)
    else if s == Label(MAWDU) then Some(MAWDU)
    else None
  }

  /** Labels and verdicts are in one-to-one correspondence. */
  lemma ParseLabel(v: Verdict)
    ensures ParseVerdict(Label(v)) == Some(v)
  {
    VerdictEnumeration();
    assert v == AllVerdicts[0] || v == AllVerdicts[1] || v == AllVerdicts[2] || v == AllVerdicts[3];
  }

  /** One transmitter of the chain, as the service reports it. */
  datatype Narrator = Narrator(
    name: string,
    reliabilityScore: real,   // documented as 0-100
    status: string,
    biographySnippet: string)

  /** The narrator record's field names, in declaration order. */
  const NarratorFieldNames: seq<string> := ["name", "reliabilityScore", "status", "biographySnippet"]

  /**
   * The result of one analysis. `verdict` is held as the string the reply
   * carried: nothing between the reply and the page checks that it is one of
   * the four labels. `narrators` is produced by the service but absent from
   * the declared interface.
   */
  datatype AnalysisResult = AnalysisResult(
    verdict: string,
    confidenceScore: real,      // documented as 0-100
    quranicConsistency: real,   // documented as 0-1
    isnadScore: real,           // documented as 0-1
    matnScore: real,            // documented as 0-1
    reasoning: string,
    mathFormula: string,
    narratorChain: Option<seq<string>>,
    orthogonalityCheck: string,
    narrators: Option<seq<Narrator>>)

  /** One point of a chart series. */
  datatype ChartData = ChartData(subject: string, A: real, fullMark: real)

  predicate UnitScore(x: real)
  {
    0.0 <= x <= 1.0
  }

  predicate PercentScore(x: real)
  {
    0.0 <= x <= 100.0
  }

  /** The ranges the declarations document; no code enforces them. */
  predicate InDocumentedRanges(r: AnalysisResult)
  {
    && ParseVerdict(r.verdict).Some?
    && PercentScore(r.confidenceScore)
    && UnitScore(r.quranicConsistency)
    && UnitScore(r.isnadScore)
    && UnitScore(r.matnScore)
    && (r.narrators.Some? ==> forall n :: n in r.narrators.value ==> PercentScore(n.reliabilityScore))
  }

  /** The result's field names, in declaration order. */
  const FieldNames: seq<string> := [
    "verdict", "confidenceScore", "quranicConsistency", "isnadScore", "matnScore",
    "reasoning", "mathFormula", "narratorChain", "orthogonalityCheck", "narrators"]

  /**
   * Whether result `r` carries the field called `name`. Only the two `Option`
   * fields can be absent from a record; every other declared field is present
   * by definition, since the record type always holds it.
   */
  predicate FieldPresent(r: AnalysisResult, name: string)
  {
    if name == "narratorChain" then r.narratorChain.Some?
    else if name == "narrators" then r.narrators.Some?
    else name in FieldNames
  }

  /** Exactly the two sequences are optional; every other declared field is always there. */
  lemma OptionalFields(name: string)
    requires name in FieldNames
    ensures (forall r :: FieldPresent(r, name)) <==> name != "narratorChain" && name != "narrators"
  {
    var bare := AnalysisResult("", 0.0, 0.0, 0.0, 0.0, "", "", None, "", None);
    if name == "narratorChain" || name == "narrators" {
      assert !FieldPresent(bare, name);
    }
  }
}
