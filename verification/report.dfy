/** The computable parts of `format_pr_comment` (and the counts `run`
    reports): the verdict label, the severity counts, the banded dimension
    scores and the truncated list of blockers. Markdown, emoji and the
    casing of dimension names are not modelled; the comment is represented
    by a `Summary` of what it shows. */
module Report {
  import opened Outcomes
  import opened Text
  import opened ExitCodes

  /** One element of the report's "findings" array. */
  datatype Finding = Finding(title: Option<string>, description: Option<string>, severity: Option<string>)

  /** A dimension's "score" member: absent (read as 0), a number, or some
      other JSON value (null, a string, ...) that Python cannot order
      against an integer. */
  datatype ScoreField = Unscored | Numeric(value: real) | NonNumeric

  /** One member of the report's "dimensions" object, in document order. */
  datatype Dimension = Dimension(name: string, score: ScoreField)

  /** The members of the report document this model reads. */
  datatype ReportDoc = ReportDoc(verdict: Option<string>, findings: seq<Finding>, dimensions: seq<Dimension>)

  // ---------------------------------------------------------------------
  // Verdicts

  const ProductionReadyText := "PRODUCTION_READY"
  const NotProductionReadyText := "NOT_PRODUCTION_READY"
  const ConditionallyReadyText := "CONDITIONALLY_READY"
  const UnknownText := "UNKNOWN"

  /** The server's verdict string; any text other than the three known
      names is kept verbatim. */
  datatype Verdict = ProductionReady | NotProductionReady | ConditionallyReady | Unrecognised(text: string)

  predicate KnownVerdictText(s: string) {
    s == ProductionReadyText || s == NotProductionReadyText || s == ConditionallyReadyText
  }

  function ParseVerdict(s: string): (v: Verdict)
    ensures v == ProductionReady <==> s == ProductionReadyText
    ensures v == NotProductionReady <==> s == NotProductionReadyText
    ensures v == ConditionallyReady <==> s == ConditionallyReadyText
    ensures v.Unrecognised? ==> !KnownVerdictText(v.text)
  {
    if s == ProductionReadyText then ProductionReady
    else if s == NotProductionReadyText then NotProductionReady
    else if s == ConditionallyReadyText then ConditionallyReady
    else Unrecognised(s)
  }

  function VerdictText(v: Verdict): string {
    match v
    case ProductionReady => ProductionReadyText
    case NotProductionReady => NotProductionReadyText
    case ConditionallyReady => ConditionallyReadyText
    case Unrecognised(t) => t
  }

  /** Parsing loses nothing: the verdict renders back to the same string,
      and every verdict parsing can produce parses back from its text. */
  lemma VerdictRoundTrip(s: string, v: Verdict)
    ensures VerdictText(ParseVerdict(s)) == s
    ensures (v.Unrecognised? ==> !KnownVerdictText(v.text)) ==> ParseVerdict(VerdictText(v)) == v
  {
  }

  /** `report.get("verdict", "UNKNOWN")`. */
  function ReportVerdict(report: ReportDoc): (v: Verdict)
    ensures report.verdict.None? ==> v == Unrecognised(UnknownText)
    ensures report.verdict.Some? ==> v == ParseVerdict(report.verdict.value)
    ensures VerdictText(v) == report.verdict.GetOr(UnknownText)
  {
    ParseVerdict(report.verdict.GetOr(UnknownText))
  }

  /** The verdict heading of the comment. */
  datatype Label = ReadyLabel | NotReadyLabel | ConditionalLabel

  /** Only the two explicit verdicts get their own heading; every other one,
      including UNKNOWN, is headed "conditionally ready". */
  function VerdictLabel(v: Verdict): (l: Label)
    ensures l == ReadyLabel <==> v == ProductionReady
    ensures l == NotReadyLabel <==> v == NotProductionReady
    ensures l == ConditionalLabel <==> v.ConditionallyReady? || v.Unrecognised?
  {
    match v
    case ProductionReady => ReadyLabel
    case NotProductionReady => NotReadyLabel
    case _ => ConditionalLabel
  }

  // ---------------------------------------------------------------------
  // Severity counts

  const BlockerSeverity := "Blocker"
  const MajorSeverity := "Major"
  const MinorSeverity := "Minor"

  predicate HasSeverity(f: Finding, severity: string) {
    f.severity == Some(severity)
  }

  predicate Recognised(f: Finding) {
    HasSeverity(f, BlockerSeverity) || HasSeverity(f, MajorSeverity) || HasSeverity(f, MinorSeverity)
  }

  /** `[f for f in findings if f.get("severity") == severity]`. */
  function WithSeverity(fs: seq<Finding>, severity: string): (r: seq<Finding>)
    ensures |r| <= |fs|
    ensures forall k :: 0 <= k < |r| ==> HasSeverity(r[k], severity)
    ensures forall k :: 0 <= k < |r| ==> r[k] in fs
    decreases |fs|
  {
    if |fs| == 0 then []
    else (if HasSeverity(fs[0], severity) then [fs[0]] else []) + WithSeverity(fs[1..], severity)
  }

  /** `len([f for f in findings if f.get("severity") == severity])`. */
  function CountSeverity(fs: seq<Finding>, severity: string): nat {
    |WithSeverity(fs, severity)|
  }

  /** Filtering distributes over concatenation. */
  lemma {:induction false} WithSeverityAppend(a: seq<Finding>, b: seq<Finding>, severity: string)
    ensures WithSeverity(a + b, severity) == WithSeverity(a, severity) + WithSeverity(b, severity)
    decreases |a|
  {
    if |a| == 0 {
      assert a + b == b;
    } else {
      assert (a + b)[1..] == a[1..] + b;
      WithSeverityAppend(a[1..], b, severity);
    }
  }

  /** The three counts never exceed the number of findings, and they add
      up to it exactly when every finding has one of the three severities. */
  lemma {:induction false} SeverityCountsBounded(fs: seq<Finding>)
    ensures CountSeverity(fs, BlockerSeverity) + CountSeverity(fs, MajorSeverity)
            + CountSeverity(fs, MinorSeverity) <= |fs|
    ensures CountSeverity(fs, BlockerSeverity) + CountSeverity(fs, MajorSeverity)
            + CountSeverity(fs, MinorSeverity) == |fs|
            <==> forall k :: 0 <= k < |fs| ==> Recognised(fs[k])
    decreases |fs|
  {
    if |fs| > 0 {
      SeverityCountsBounded(fs[1..]);
      assert forall k :: 0 < k < |fs| ==> fs[k] == fs[1..][k - 1];
    }
  }

  /** A finding with any other severity ("Info", a different case, none at
      all) changes none of the three counts, wherever it stands. */
  lemma UnrecognisedSeverityIgnored(a: seq<Finding>, f: Finding, b: seq<Finding>, severity: string)
    requires !Recognised(f)
    requires severity in {BlockerSeverity, MajorSeverity, MinorSeverity}
    ensures CountSeverity(a + [f] + b, severity) == CountSeverity(a + b, severity)
  {
    WithSeverityAppend(a + [f], b, severity);
    WithSeverityAppend(a, [f], severity);
    WithSeverityAppend(a, b, severity);
    assert WithSeverity([f], severity) == [] by {
      assert [f][1..] == [];
    }
  }

  /** The filtered list keeps the original order: the finding at index `j`
      with the given severity is the one preceded by as many such findings
      as come before `j`. */
  lemma WithSeverityKeepsOrder(fs: seq<Finding>, severity: string, j: nat)
    requires j < |fs| && HasSeverity(fs[j], severity)
    ensures CountSeverity(fs[..j], severity) < CountSeverity(fs, severity)
    ensures WithSeverity(fs, severity)[CountSeverity(fs[..j], severity)] == fs[j]
  {
    assert fs == fs[..j] + ([fs[j]] + fs[j + 1..]);
    WithSeverityAppend(fs[..j], [fs[j]] + fs[j + 1..], severity);
    assert ([fs[j]] + fs[j + 1..])[1..] == fs[j + 1..];
  }

  // ---------------------------------------------------------------------
  // Dimension scores

  /** The status colour shown beside a dimension score. */
  datatype Band = Green | Yellow | Red

  function BandOf(score: real): (b: Band)
    ensures b == Green <==> score >= 70.0
    ensures b == Yellow <==> 50.0 <= score < 70.0
    ensures b == Red <==> score < 50.0
  {
    if score >= 70.0 then Green else if score >= 50.0 then Yellow else Red
  }

  function BandRank(b: Band): nat {
    match b
    case Red => 0
    case Yellow => 1
    case Green => 2
  }

  /** A higher score never gets a worse colour. */
  lemma BandMonotonic(s: real, t: real)
    requires s <= t
    ensures BandRank(BandOf(s)) <= BandRank(BandOf(t))
  {
  }

  /** One row of the dimension table. */
  datatype DimensionRow = DimensionRow(name: string, score: real, band: Band)

  /** `data.get("score", 0)`, when it can be compared with 70. */
  function ScoreValue(f: ScoreField): real
    requires !f.NonNumeric?
  {
    if f.Numeric? then f.value else 0.0
  }

  predicate Comparable(d: Dimension) {
    !d.score.NonNumeric?
  }

  /** The dimension table; it raises a `TypeError` (comparing a non-number
      with 70) as soon as one score is not a number. */
  function DimensionRows(ds: seq<Dimension>): (r: Result<seq<DimensionRow>, Failure>)
    ensures r.Success? <==> forall i :: 0 <= i < |ds| ==> Comparable(ds[i])
    ensures r.Failure? ==> r.error == LibraryError
    ensures r.Success? ==> |r.value| == |ds|
    ensures r.Success? ==> forall i :: 0 <= i < |ds| ==>
              && r.value[i].name == ds[i].name
              && r.value[i].score == ScoreValue(ds[i].score)
              && r.value[i].band == BandOf(r.value[i].score)
    decreases |ds|
  {
    if |ds| == 0 then Success([])
    else if !Comparable(ds[0]) then Failure(LibraryError)
    else
      var score := ScoreValue(ds[0].score);
      match DimensionRows(ds[1..])
      case Failure(e) => Failure(e)
      case Success(rest) => Success([DimensionRow(ds[0].name, score, BandOf(score))] + rest)
  }

  // ---------------------------------------------------------------------
  // The blocker list

  const MaxListedBlockers := 5
  const MaxDescriptionLength := 200
  const UntitledText := "Untitled"

  /** A listed blocker: its title and its clipped description. */
  datatype BlockerEntry = BlockerEntry(title: string, description: string)

  /** The blockers shown, and the count in the "...and k more" line when
      there is one. */
  datatype BlockerSection = BlockerSection(shown: seq<BlockerEntry>, more: Option<nat>)

  function Entry(f: Finding): (e: BlockerEntry)
    ensures |e.description| == Min(MaxDescriptionLength, |f.description.GetOr("")|)
    ensures |e.description| <= |f.description.GetOr("")|
    ensures e.description == f.description.GetOr("")[..|e.description|]
    ensures |f.description.GetOr("")| <= MaxDescriptionLength ==> e.description == f.description.GetOr("")
    ensures f.title.Some? ==> e.title == f.title.value
    ensures f.title.None? ==> e.title == UntitledText
  {
    BlockerEntry(f.title.GetOr(UntitledText), Clip(f.description.GetOr(""), MaxDescriptionLength))
  }

  /** The blocker section: the first five blockers in report order, each
      description clipped to 200 characters, and the number left out. */
  function TopBlockers(fs: seq<Finding>): (r: BlockerSection)
    ensures |r.shown| == Min(MaxListedBlockers, CountSeverity(fs, BlockerSeverity))
    ensures forall i :: 0 <= i < |r.shown| ==>
              r.shown[i] == Entry(WithSeverity(fs, BlockerSeverity)[i])
    ensures r.more.Some? <==> CountSeverity(fs, BlockerSeverity) > MaxListedBlockers
    ensures r.more.Some? ==> r.more.value == CountSeverity(fs, BlockerSeverity) - MaxListedBlockers
    ensures |r.shown| + r.more.GetOr(0) == CountSeverity(fs, BlockerSeverity)
  {
    var blockers := WithSeverity(fs, BlockerSeverity);
    var listed := if |blockers| <= MaxListedBlockers then blockers else blockers[..MaxListedBlockers];
    BlockerSection(
      seq(|listed|, i requires 0 <= i < |listed| => Entry(listed[i])),
      if |blockers| > MaxListedBlockers then Some(|blockers| - MaxListedBlockers) else None)
  }

  /** Seven blockers show five and report two more. */
  lemma SevenBlockersShowFive(fs: seq<Finding>)
    requires CountSeverity(fs, BlockerSeverity) == 7
    ensures |TopBlockers(fs).shown| == 5 && TopBlockers(fs).more == Some(2)
  {
  }

  // ---------------------------------------------------------------------
  // The whole summary

  /** What the comment shows, section by section. An empty `dimensions`
      or `top.shown` means the section is omitted. */
  datatype Summary = Summary(
    heading: Label,
    blockers: nat,
    majors: nat,
    minors: nat,
    dimensions: seq<DimensionRow>,
    top: BlockerSection)

  /** `format_pr_comment`, up to the text it produces. */
  function Summarise(report: ReportDoc): (r: Result<Summary, Failure>)
    ensures r.Success? <==> forall i :: 0 <= i < |report.dimensions| ==> Comparable(report.dimensions[i])
    ensures r.Failure? ==> r.error == LibraryError
    ensures r.Success? ==>
              && r.value.heading == VerdictLabel(ReportVerdict(report))
              && r.value.blockers == CountSeverity(report.findings, BlockerSeverity)
              && r.value.majors == CountSeverity(report.findings, MajorSeverity)
              && r.value.minors == CountSeverity(report.findings, MinorSeverity)
              && r.value.blockers + r.value.majors + r.value.minors <= |report.findings|
              && r.value.top == TopBlockers(report.findings)
              && r.value.blockers == |r.value.top.shown| + r.value.top.more.GetOr(0)
              && r.value.dimensions == DimensionRows(report.dimensions).value
              && |r.value.dimensions| == |report.dimensions|
  {
    var fs := report.findings;
    SeverityCountsBounded(fs);
    match DimensionRows(report.dimensions)
    case Failure(e) => Failure(e)
    case Success(rows) =>
      Success(Summary(
        VerdictLabel(ReportVerdict(report)),
        CountSeverity(fs, BlockerSeverity),
        CountSeverity(fs, MajorSeverity),
        CountSeverity(fs, MinorSeverity),
        rows,
        TopBlockers(fs)))
  }
}
