/** The password and MFA policy audit: three independent rules each add at
    most one finding; the findings' severity-weighted scores give a penalty,
    the penalty an overall score, the score a risk level, and the three
    heaviest findings a one-line summary. */
module PasswordMfa {
  import opened Common
  import opened Text

  datatype Severity = Low | Medium | High | Critical

  datatype RiskLevel = LowRisk | ModerateRisk | ElevatedRisk | HighRisk

  datatype Environment = Prod | Staging | Dev

  datatype PasswordPolicy = PasswordPolicy(
    minLength: nat,
    requireUpper: bool,
    requireLower: bool,
    requireDigit: bool,
    requireSymbol: bool,
    historyPreventReuse: int,
    lockoutThreshold: Option<int>,
    lockoutWindowMinutes: Option<int>,
    lockoutDurationMinutes: Option<int>,
    dictionaryCheckEnabled: bool,
    blocklistEnabled: bool)

  datatype MfaFactors = MfaFactors(
    sms: bool,
    totpApp: bool,
    pushApproval: bool,
    fido2Webauthn: bool,
    emailOtp: bool)

  datatype MfaEnforcement = MfaEnforcement(
    requiredForAllUsers: bool,
    requiredForAdmins: bool,
    conditionalByRisk: bool,
    numberMatchingEnabled: bool,
    deviceBindingEnabled: bool,
    pushRateLimitPerMinute: Option<int>)

  datatype PolicyInput = PolicyInput(
    policy: PasswordPolicy,
    mfaFactors: MfaFactors,
    mfaEnforcement: MfaEnforcement,
    environment: Environment,
    userCount: Option<int>,
    rawPolicyText: Option<string>)

  /** One detected violation; `evidence` holds the integer facts it cites. */
  datatype Finding = Finding(
    id: string,
    title: string,
    severity: Severity,
    description: string,
    remediation: string,
    standardRefs: seq<string>,
    evidence: map<string, int>,
    score: real)

  datatype AuditResponse = AuditResponse(
    overallScore: real,
    riskLevel: RiskLevel,
    findings: seq<Finding>,
    summary: string)

  // ---------------------------------------------------------------------
  // The rules

  const MinLengthId := "PW_MINLEN"
  const SmsOnlyId := "MFA_SMS_ONLY"
  const AdminsId := "MFA_ADMINS"

  predicate SmsOnly(f: MfaFactors) {
    f.sms && !(f.totpApp || f.fido2Webauthn)
  }

  function MinLengthFinding(minLength: nat): Finding {
    Finding(MinLengthId, "Password minimum length below 12", High,
            "Configured min length = " + NatToString(minLength) + ".",
            "Increase to \U{2265} 12 (preferably 14+).",
            ["NIST SP 800-63B \U{A7}5.1.1.2"],
            map["min_length" := minLength as int],
            0.8)
  }

  const SmsOnlyFinding := Finding(
    SmsOnlyId, "SMS is the only MFA factor", High,
    "SMS OTP is vulnerable to SIM swap/interception.",
    "Enable TOTP and/or FIDO2/WebAuthn; phase out SMS.",
    ["NIST SP 800-63B \U{A7}5.2.10"], map[], 0.85)

  const AdminsFinding := Finding(
    AdminsId, "MFA not enforced for admins", Critical,
    "Privileged accounts lack MFA enforcement.",
    "Require MFA for all admin accounts.",
    ["NIST SP 800-53 IA-2(1)"], map[], 0.95)

  /** The finding a rule emits for this input, identified by its id. */
  predicate IsRuleFinding(inp: PolicyInput, f: Finding) {
    || f == MinLengthFinding(inp.policy.minLength)
    || f == SmsOnlyFinding
    || f == AdminsFinding
  }

  /** Position of a rule in evaluation order. */
  function RuleRank(id: string): int {
    if id == MinLengthId then 0 else if id == SmsOnlyId then 1 else 2
  }

  predicate HasFinding(fs: seq<Finding>, id: string) {
    exists i :: 0 <= i < |fs| && fs[i].id == id
  }

  /** Findings appear in rule order, so no id occurs twice. */
  predicate InRuleOrder(fs: seq<Finding>) {
    forall i, j :: 0 <= i < j < |fs| ==> RuleRank(fs[i].id) < RuleRank(fs[j].id)
  }

  // ---------------------------------------------------------------------
  // Aggregation

  function Weight(s: Severity): real {
    match s
    case Low => 0.25
    case Medium => 0.5
    case High => 0.8
    case Critical => 1.0
  }

  /** The sort key and penalty term of a finding: weight of its severity times its score. */
  function Impact(f: Finding): real {
    Weight(f.severity) * f.score
  }

  function TotalImpact(fs: seq<Finding>): real {
    if fs == [] then 0.0 else Impact(fs[0]) + TotalImpact(fs[1..])
  }

  function Penalty(fs: seq<Finding>): real {
    if fs != [] then TotalImpact(fs) / (Max(|fs|, 1) as real) else 0.0
  }

  /** `max(0, 1 - penalty)`, before rounding. */
  function OverallScore(fs: seq<Finding>): real {
    var o := 1.0 - Penalty(fs);
    if o < 0.0 then 0.0 else o
  }

  /** The four risk bands partition the score line at 0.85, 0.65 and 0.45,
      each band closed at its lower end. */
  function RiskFor(overall: real): (r: RiskLevel)
    ensures r == LowRisk <==> overall >= 0.85
    ensures r == ModerateRisk <==> 0.65 <= overall < 0.85
    ensures r == ElevatedRisk <==> 0.45 <= overall < 0.65
    ensures r == HighRisk <==> overall < 0.45
  {
    if overall >= 0.85 then LowRisk
    else if overall >= 0.65 then ModerateRisk
    else if overall >= 0.45 then ElevatedRisk
    else HighRisk
  }

  function RiskName(r: RiskLevel): string {
    match r
    case LowRisk => "low"
    case ModerateRisk => "moderate"
    case ElevatedRisk => "elevated"
    case HighRisk => "high"
  }

  /** `round(x, 3)` on an exact value: the nearest multiple of 0.001, halves up. */
  function Round3(x: real): real {
    ((x * 1000.0 + 0.5).Floor as real) / 1000.0
  }

  // Stable descending sort by impact, as `sorted(..., reverse=True)` does it.

  function InsertByImpact(f: Finding, sorted: seq<Finding>): (r: seq<Finding>)
    ensures |r| == |sorted| + 1
  {
    if sorted == [] || Impact(sorted[0]) <= Impact(f) then [f] + sorted
    else [sorted[0]] + InsertByImpact(f, sorted[1..])
  }

  function SortByImpact(fs: seq<Finding>): (r: seq<Finding>)
    ensures |r| == |fs|
  {
    if fs == [] then [] else InsertByImpact(fs[0], SortByImpact(fs[1..]))
  }

  predicate NonIncreasing(s: seq<Finding>) {
    forall i, j :: 0 <= i < j < |s| ==> Impact(s[i]) >= Impact(s[j])
  }

  /** The findings of `s` whose impact is `v`, in their order in `s`. */
  function WithImpact(s: seq<Finding>, v: real): seq<Finding> {
    if s == [] then [] else (if Impact(s[0]) == v then [s[0]] else []) + WithImpact(s[1..], v)
  }

  /** The (at most three) findings the summary names. */
  function TopFindings(fs: seq<Finding>): (r: seq<Finding>)
    ensures |r| == Min(3, |fs|)
    ensures NonIncreasing(r)
    ensures multiset(r) <= multiset(fs)
    ensures forall i, g :: 0 <= i < |r| && g in multiset(fs) - multiset(r) ==> Impact(g) <= Impact(r[i])
    ensures r == SortByImpact(fs)[..Min(3, |fs|)]
  {
    SortByImpactSpec(fs);
    SortedPrefixIsTop(fs, SortByImpact(fs), Min(3, |fs|));
    SortByImpact(fs)[..Min(3, |fs|)]
  }

  /** A prefix of a descending permutation of `fs` holds findings of `fs`
      none of which is outranked by a finding left out. */
  lemma SortedPrefixIsTop(fs: seq<Finding>, sorted: seq<Finding>, n: nat)
    requires NonIncreasing(sorted) && multiset(sorted) == multiset(fs) && n <= |sorted|
    ensures NonIncreasing(sorted[..n])
    ensures multiset(sorted[..n]) <= multiset(fs)
    ensures forall i, g :: 0 <= i < n && g in multiset(fs) - multiset(sorted[..n]) ==> Impact(g) <= Impact(sorted[..n][i])
  {
    assert sorted == sorted[..n] + sorted[n..];
    assert multiset(sorted) == multiset(sorted[..n]) + multiset(sorted[n..]);
    forall i, g | 0 <= i < n && g in multiset(fs) - multiset(sorted[..n])
      ensures Impact(g) <= Impact(sorted[..n][i])
    {
      assert g in sorted[n..];
      var j :| 0 <= j < |sorted[n..]| && sorted[n..][j] == g;
      assert sorted[n + j] == g;
    }
  }

  function Titles(fs: seq<Finding>): (r: seq<string>)
    ensures |r| == |fs|
  {
    seq(|fs|, i requires 0 <= i < |fs| => fs[i].title)
  }

  function TopIssues(fs: seq<Finding>): string {
    var joined := Join(", ", Titles(TopFindings(fs)));
    if joined == "" then "No material issues" else joined
  }

  function Summary(risk: RiskLevel, fs: seq<Finding>): string {
    "Overall risk: " + RiskName(risk) + ". Top issues: " + TopIssues(fs) + "."
  }

  // ---------------------------------------------------------------------
  // The audit

  /** Evaluates the three rules in order, appending each finding that fires,
      then aggregates them into the response. */
  method RunAudit(inp: PolicyInput) returns (resp: AuditResponse)
    ensures HasFinding(resp.findings, MinLengthId) <==> inp.policy.minLength < 12
    ensures HasFinding(resp.findings, SmsOnlyId) <==> SmsOnly(inp.mfaFactors)
    ensures HasFinding(resp.findings, AdminsId) <==> !inp.mfaEnforcement.requiredForAdmins
    ensures resp.findings == RuleOutput(inp)
    ensures InRuleOrder(resp.findings) && |resp.findings| <= 3
    ensures resp.overallScore == Round3(OverallScore(resp.findings))
    ensures resp.riskLevel == RiskFor(OverallScore(resp.findings))
    ensures resp.summary == Summary(resp.riskLevel, resp.findings)
    ensures 0.0 <= resp.overallScore <= 1.0
    ensures resp.findings == [] ==>
              && resp.overallScore == 1.0
              && resp.summary == "Overall risk: low. Top issues: No material issues."
    ensures resp.riskLevel == LowRisk <==> resp.findings == []
    ensures resp.findings != [] ==> OverallScore(resp.findings) <= 0.36 && resp.riskLevel == HighRisk
  {
    var findings: seq<Finding> := [];

    if inp.policy.minLength < 12 {
      findings := findings + [MinLengthFinding(inp.policy.minLength)];
    }
    ghost var a := Fired(inp.policy.minLength < 12, MinLengthFinding(inp.policy.minLength));
    assert findings == a;
    if inp.mfaFactors.sms && !(inp.mfaFactors.totpApp || inp.mfaFactors.fido2Webauthn) {
      findings := findings + [SmsOnlyFinding];
    }
    ghost var b := Fired(SmsOnly(inp.mfaFactors), SmsOnlyFinding);
    assert findings == a + b;
    if !inp.mfaEnforcement.requiredForAdmins {
      findings := findings + [AdminsFinding];
    }

    assert findings == RuleOutput(inp);
    RuleOutputSpec(inp);

    var overall := OverallScore(findings);
    var risk := RiskFor(overall);
    var summary := Summary(risk, findings);
    resp := AuditResponse(Round3(overall), risk, findings, summary);

    AuditAggregate(inp);
  }

  // ---------------------------------------------------------------------
  // Lemmas

  function Fired(c: bool, f: Finding): seq<Finding> {
    if c then [f] else []
  }

  /** The findings the three rules produce, in rule order. */
  function RuleOutput(inp: PolicyInput): seq<Finding> {
    Fired(inp.policy.minLength < 12, MinLengthFinding(inp.policy.minLength))
    + Fired(SmsOnly(inp.mfaFactors), SmsOnlyFinding)
    + Fired(!inp.mfaEnforcement.requiredForAdmins, AdminsFinding)
  }

  lemma RuleOutputSpec(inp: PolicyInput)
    ensures HasFinding(RuleOutput(inp), MinLengthId) <==> inp.policy.minLength < 12
    ensures HasFinding(RuleOutput(inp), SmsOnlyId) <==> SmsOnly(inp.mfaFactors)
    ensures HasFinding(RuleOutput(inp), AdminsId) <==> !inp.mfaEnforcement.requiredForAdmins
    ensures forall i :: 0 <= i < |RuleOutput(inp)| ==> IsRuleFinding(inp, RuleOutput(inp)[i])
    ensures InRuleOrder(RuleOutput(inp)) && |RuleOutput(inp)| <= 3
  {
    var a := Fired(inp.policy.minLength < 12, MinLengthFinding(inp.policy.minLength));
    var b := Fired(SmsOnly(inp.mfaFactors), SmsOnlyFinding);
    var c := Fired(!inp.mfaEnforcement.requiredForAdmins, AdminsFinding);
    var fs := RuleOutput(inp);
    assert fs == a + b + c;
    forall i | 0 <= i < |fs|
      ensures IsRuleFinding(inp, fs[i])
      ensures RuleRank(fs[i].id) == (if i < |a| then 0 else if i < |a| + |b| then 1 else 2)
    {
      if i < |a| { assert fs[i] == a[i]; }
      else if i < |a| + |b| { assert fs[i] == b[i - |a|]; }
      else { assert fs[i] == c[i - |a| - |b|]; }
    }
    assert HasFinding(fs, MinLengthId) <==> |a| == 1 by {
      if |a| == 1 { assert fs[0].id == MinLengthId; }
    }
    assert HasFinding(fs, SmsOnlyId) <==> |b| == 1 by {
      if |b| == 1 { assert fs[|a|].id == SmsOnlyId; }
    }
    assert HasFinding(fs, AdminsId) <==> |c| == 1 by {
      if |c| == 1 { assert fs[|a| + |b|].id == AdminsId; }
    }
  }

  lemma RuleFindingsImpact(inp: PolicyInput, fs: seq<Finding>)
    requires forall i :: 0 <= i < |fs| ==> IsRuleFinding(inp, fs[i])
    ensures forall i :: 0 <= i < |fs| ==> 0.0 <= fs[i].score && Impact(fs[i]) >= 0.64
  {
  }

  lemma {:induction false} TotalImpactNonNegative(fs: seq<Finding>)
    requires forall i :: 0 <= i < |fs| ==> 0.0 <= fs[i].score
    ensures TotalImpact(fs) >= 0.0
  {
    if fs != [] {
      TotalImpactNonNegative(fs[1..]);
    }
  }

  lemma {:induction false} TotalImpactAtLeast(fs: seq<Finding>, bound: real)
    requires forall i :: 0 <= i < |fs| ==> Impact(fs[i]) >= bound
    ensures TotalImpact(fs) >= bound * |fs| as real
  {
    if fs != [] {
      TotalImpactAtLeast(fs[1..], bound);
    }
  }

  /** The overall score lies in [0, 1] whenever no finding has a negative score. */
  lemma OverallScoreBounds(fs: seq<Finding>)
    requires forall i :: 0 <= i < |fs| ==> 0.0 <= fs[i].score
    ensures 0.0 <= OverallScore(fs) <= 1.0
  {
    TotalImpactNonNegative(fs);
    if fs != [] {
      var n := |fs| as real;
      assert Penalty(fs) == TotalImpact(fs) / n;
      assert Penalty(fs) >= 0.0;
    }
  }

  /** Rounding to three decimals keeps a value of [0, 1] inside [0, 1]. */
  lemma Round3Bounds(x: real)
    requires 0.0 <= x <= 1.0
    ensures 0.0 <= Round3(x) <= 1.0
    ensures x == 1.0 ==> Round3(x) == 1.0
  {
    var k := (x * 1000.0 + 0.5).Floor;
    assert 0 <= k <= 1000;
  }

  /** With the rule weights and scores every finding costs at least 0.64, so
      one finding already forces the overall score to at most 0.36, which is
      below every threshold: the risk is high. */
  lemma AnyFindingMeansHighRisk(fs: seq<Finding>)
    requires fs != []
    requires forall i :: 0 <= i < |fs| ==> Impact(fs[i]) >= 0.64
    ensures OverallScore(fs) <= 0.36
    ensures RiskFor(OverallScore(fs)) == HighRisk
  {
    TotalImpactAtLeast(fs, 0.64);
    var n := |fs| as real;
    var t := TotalImpact(fs);
    assert Penalty(fs) == t / n;
    assert t / n >= 0.64 by {
      assert t >= 0.64 * n;
      assert t / n * n == t;
    }
  }

  /** No findings: score 1.0, low risk, and the fixed summary. */
  lemma NoFindingsSummary()
    ensures OverallScore([]) == 1.0
    ensures RiskFor(OverallScore([])) == LowRisk
    ensures Summary(LowRisk, []) == "Overall risk: low. Top issues: No material issues."
  {
    assert |TopFindings([])| == 0;
    assert Titles(TopFindings([])) == [];
    assert TopIssues([]) == "No material issues";
    LowRiskSummaryText();
  }

  lemma LowRiskSummaryText()
    ensures "Overall risk: " + "low" + ". Top issues: " + "No material issues" + "."
         == "Overall risk: low. Top issues: No material issues."
  {
  }

  /** The aggregate of any list of rule findings: a rounded score in [0, 1],
      a perfect low-risk score exactly when nothing fired, high risk otherwise. */
  lemma AuditAggregate(inp: PolicyInput)
    ensures var fs := RuleOutput(inp);
      && 0.0 <= Round3(OverallScore(fs)) <= 1.0
      && (fs == [] ==>
            && Round3(OverallScore(fs)) == 1.0
            && Summary(RiskFor(OverallScore(fs)), fs) == "Overall risk: low. Top issues: No material issues.")
      && (RiskFor(OverallScore(fs)) == LowRisk <==> fs == [])
      && (fs != [] ==> OverallScore(fs) <= 0.36 && RiskFor(OverallScore(fs)) == HighRisk)
  {
    var fs := RuleOutput(inp);
    RuleOutputSpec(inp);
    RuleFindingsImpact(inp, fs);
    OverallScoreBounds(fs);
    Round3Bounds(OverallScore(fs));
    if fs == [] {
      NoFindingsSummary();
    } else {
      AnyFindingMeansHighRisk(fs);
    }
  }

  lemma {:induction false} InsertByImpactPermutes(f: Finding, s: seq<Finding>)
    ensures multiset(InsertByImpact(f, s)) == multiset([f] + s)
    decreases |s|
  {
    if s != [] && Impact(s[0]) > Impact(f) {
      InsertByImpactPermutes(f, s[1..]);
      assert s == [s[0]] + s[1..];
    }
  }

  lemma {:induction false} InsertByImpactSorted(f: Finding, s: seq<Finding>)
    requires NonIncreasing(s)
    ensures NonIncreasing(InsertByImpact(f, s))
    decreases |s|
  {
    if s != [] && Impact(s[0]) > Impact(f) {
      var rest := InsertByImpact(f, s[1..]);
      InsertByImpactSorted(f, s[1..]);
      InsertByImpactBounded(f, s[1..], Impact(s[0]));
      var r := [s[0]] + rest;
      assert InsertByImpact(f, s) == r;
      forall i, j | 0 <= i < j < |r| ensures Impact(r[i]) >= Impact(r[j]) {
        assert r[j] == rest[j - 1];
        if i > 0 {
          assert r[i] == rest[i - 1];
        }
      }
    }
  }

  /** Inserting a finding below a bound into findings below it stays below it. */
  lemma {:induction false} InsertByImpactBounded(f: Finding, s: seq<Finding>, b: real)
    requires Impact(f) <= b
    requires forall k :: 0 <= k < |s| ==> Impact(s[k]) <= b
    ensures forall k :: 0 <= k < |InsertByImpact(f, s)| ==> Impact(InsertByImpact(f, s)[k]) <= b
    decreases |s|
  {
    if s != [] && Impact(s[0]) > Impact(f) {
      InsertByImpactBounded(f, s[1..], b);
      var rest := InsertByImpact(f, s[1..]);
      assert InsertByImpact(f, s) == [s[0]] + rest;
    }
  }

  lemma {:induction false} InsertByImpactStable(f: Finding, s: seq<Finding>, v: real)
    ensures WithImpact(InsertByImpact(f, s), v) == WithImpact([f] + s, v)
    decreases |s|
  {
    if s != [] && Impact(s[0]) > Impact(f) {
      var rest := InsertByImpact(f, s[1..]);
      InsertByImpactStable(f, s[1..], v);
      assert ([s[0]] + rest)[1..] == rest;
      assert ([f] + s[1..])[1..] == s[1..];
      assert ([f] + s)[1..] == s;
    }
  }

  /** The sort orders by non-increasing impact, is a permutation, and is
      stable: the findings of any one impact keep their original order. */
  lemma {:induction false} SortByImpactSpec(fs: seq<Finding>)
    ensures NonIncreasing(SortByImpact(fs))
    ensures multiset(SortByImpact(fs)) == multiset(fs)
    ensures forall v :: WithImpact(SortByImpact(fs), v) == WithImpact(fs, v)
  {
    if fs != [] {
      SortByImpactSpec(fs[1..]);
      var t := SortByImpact(fs[1..]);
      InsertByImpactSorted(fs[0], t);
      InsertByImpactPermutes(fs[0], t);
      assert fs == [fs[0]] + fs[1..];
      forall v ensures WithImpact(SortByImpact(fs), v) == WithImpact(fs, v) {
        InsertByImpactStable(fs[0], t, v);
        assert ([fs[0]] + t)[1..] == t;
      }
    }
  }
}
