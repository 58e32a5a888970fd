/** The six guardrail checks on a drafted reply and the decision they add up to. */
module Guardrails {

  datatype Decision = Allow | RequireApproval | Block

  function Rank(d: Decision): nat {
    match d case Allow => 0 case RequireApproval => 1 case Block => 2
  }

  datatype Verdict = Safe | NeedsReview | Blocked

  datatype Settings = Settings(
    maxAutoSendCostCents: int,
    requireApprovalForLowConfidence: bool,
    blockOnPiiDetection: bool,
    minCriticCompletenessScore: int)

  /** What the pipeline hands to the guardrails; what the detectors found in the draft is given. */
  datatype Context = Context(
    verdict: Verdict,
    criticPassed: bool,
    completeness: real,
    costCents: int,
    usedArticles: nat,
    piiDetected: bool,
    secretsDetected: bool,
    confidence: real,
    settings: Settings)

  /** `Math.round`: halves go up. */
  function Round(x: real): int {
    (x + 0.5).Floor
  }

  function CompletenessPercent(ctx: Context): int {
    Round(ctx.completeness * 100.0)
  }

  function SafetyPolicy(ctx: Context): Decision {
    if ctx.verdict == Blocked then Block
    else if !ctx.criticPassed && CompletenessPercent(ctx) < ctx.settings.minCriticCompletenessScore then Block
    else if !ctx.criticPassed then RequireApproval
    else Allow
  }

  function CostLimit(ctx: Context): Decision {
    if ctx.costCents > ctx.settings.maxAutoSendCostCents then RequireApproval else Allow
  }

  function KnowledgeGrounding(ctx: Context): Decision {
    if ctx.usedArticles == 0 then RequireApproval else Allow
  }

  function PiiDetection(ctx: Context): Decision {
    if !ctx.piiDetected then Allow
    else if ctx.settings.blockOnPiiDetection then Block
    else RequireApproval
  }

  function SecretDetection(ctx: Context): Decision {
    if ctx.secretsDetected then Block else Allow
  }

  function AutoSendPolicy(ctx: Context): Decision {
    if ctx.settings.requireApprovalForLowConfidence && ctx.confidence < 0.7 then RequireApproval else Allow
  }

  function Checks(ctx: Context): seq<Decision> {
    [SafetyPolicy(ctx), CostLimit(ctx), KnowledgeGrounding(ctx), PiiDetection(ctx), SecretDetection(ctx),
     AutoSendPolicy(ctx)]
  }

  /** `d` is the strictest of `ds`, or Allow when nothing is stricter. */
  predicate Strictest(ds: seq<Decision>, d: Decision) {
    (d == Allow || d in ds) && forall i :: 0 <= i < |ds| ==> Rank(ds[i]) <= Rank(d)
  }

  /** What has to be clean for a reply to go out without a person. */
  predicate AutoSendable(ctx: Context) {
    && ctx.verdict != Blocked && ctx.criticPassed
    && ctx.costCents <= ctx.settings.maxAutoSendCostCents
    && ctx.usedArticles > 0
    && !ctx.piiDetected && !ctx.secretsDetected
    && (ctx.settings.requireApprovalForLowConfidence ==> ctx.confidence >= 0.7)
  }

  /** What must not go out at all; the completeness is a percentage, of which half a point is rounded up. */
  predicate MustBlock(ctx: Context) {
    || ctx.verdict == Blocked
    || (!ctx.criticPassed && ctx.completeness * 100.0 + 0.5 < ctx.settings.minCriticCompletenessScore as real)
    || (ctx.piiDetected && ctx.settings.blockOnPiiDetection)
    || ctx.secretsDetected
  }

  /** `runAll`: the aggregate is the strictest check; it allows exactly the auto-sendable replies and
      blocks exactly those that must be. */
  method RunAll(ctx: Context) returns (checks: seq<Decision>, aggregate: Decision)
    ensures checks == Checks(ctx) && Strictest(checks, aggregate)
    ensures aggregate == Allow <==> AutoSendable(ctx)
    ensures aggregate == Block <==> MustBlock(ctx)
  {
    checks := Checks(ctx);
    aggregate := Allow;
    for i := 0 to |checks|
      invariant aggregate == Allow || aggregate in checks
      invariant forall j :: 0 <= j < i ==> Rank(checks[j]) <= Rank(aggregate)
    {
      if Rank(checks[i]) > Rank(aggregate) {
        aggregate := checks[i];
      }
    }
    StrictestMeans(ctx, aggregate);
  }

  lemma StrictestMeans(ctx: Context, d: Decision)
    requires Strictest(Checks(ctx), d)
    ensures d == Allow <==> AutoSendable(ctx)
    ensures d == Block <==> MustBlock(ctx)
  {
    var cs := Checks(ctx);
    assert cs[0] == SafetyPolicy(ctx) && cs[1] == CostLimit(ctx) && cs[2] == KnowledgeGrounding(ctx);
    assert cs[3] == PiiDetection(ctx) && cs[4] == SecretDetection(ctx) && cs[5] == AutoSendPolicy(ctx);
  }
}
