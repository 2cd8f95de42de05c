/** The verdict of the session-event compatibility check: the reasons it collects, the evidence it
    weighs, and what a PASS guarantees. */
module CompatibilityGate {
  import opened Text
  import opened Bridge

  // ---------- the reason list ----------

  predicate Distinct(rs: seq<string>) {
    forall i, j :: 0 <= i < j < |rs| ==> rs[i] != rs[j]
  }

  function AppendedUnique(rs: seq<string>, r: string): seq<string> {
    if r in rs then rs else rs + [r]
  }

  function AppendedAll(rs: seq<string>, more: seq<string>): seq<string> {
    if more == [] then rs else AppendedUnique(AppendedAll(rs, more[..|more| - 1]), more[|more| - 1])
  }

  // Element i of a list is the first of its kind.
  predicate FirstOfKind(rs: seq<string>, i: nat)
    requires i < |rs|
  {
    rs[i] !in rs[..i]
  }

  function FirstOccurrences(rs: seq<string>): seq<string> {
    if rs == [] then []
    else FirstOccurrences(rs[..|rs| - 1]) + if FirstOfKind(rs, |rs| - 1) then [rs[|rs| - 1]] else []
  }

  lemma {:induction false} FirstOccurrencesMembers(rs: seq<string>)
    ensures forall r :: r in FirstOccurrences(rs) <==> r in rs
    ensures Distinct(FirstOccurrences(rs))
  {
    if rs != [] {
      var init, last := rs[..|rs| - 1], rs[|rs| - 1];
      FirstOccurrencesMembers(init);
      assert rs == init + [last];
    }
  }

  /** Whatever is appended, in whatever order, the reasons are the first occurrences of everything
      appended, so no reason is listed twice. */
  lemma {:induction false} ReasonsAreFirstOccurrences(more: seq<string>)
    ensures AppendedAll([], more) == FirstOccurrences(more)
    ensures Distinct(AppendedAll([], more))
    ensures AppendedAll([], more) == [] <==> more == []
  {
    FirstOccurrencesMembers(more);
    if more != [] {
      var init := more[..|more| - 1];
      ReasonsAreFirstOccurrences(init);
      FirstOccurrencesMembers(init);
      assert more[|more| - 1] in more;
    }
  }

  lemma {:induction false} AppendedTwice(rs: seq<string>, a: seq<string>, b: seq<string>)
    ensures AppendedAll(rs, a + b) == AppendedAll(AppendedAll(rs, a), b)
  {
    if b == [] {
      assert a + b == a;
    } else {
      assert (a + b)[..|a + b| - 1] == a + b[..|b| - 1];
      AppendedTwice(rs, a, b[..|b| - 1]);
    }
  }

  lemma NothingAppended(rs: seq<string>)
    ensures AppendedAll(rs, []) == rs
  {
  }

  class ReasonLog {
    var reasons: seq<string>

    constructor ()
      ensures reasons == []
    {
      reasons := [];
    }

    method AppendUnique(reason: string)
      modifies this
      ensures reasons == AppendedUnique(old(reasons), reason)
    {
      if reason !in reasons {
        reasons := reasons + [reason];
      }
    }

    method AppendEach(more: seq<string>)
      modifies this
      ensures reasons == AppendedAll(old(reasons), more)
    {
      for i := 0 to |more|
        invariant reasons == AppendedAll(old(reasons), more[..i])
      {
        AppendUnique(more[i]);
        assert more[..i + 1][..i] == more[..i];
      }
      assert more[..|more|] == more;
    }
  }

  // ---------- evidence for one field ----------

  // A value found at one source: nothing, text, a list or dict with its canonical dump, or another
  // value as str() shows it.
  datatype Raw = Missing | Str(s: string) | Container(empty: bool, dump: string) | Other(shown: string)

  datatype Source = Source(path: string, value: Raw)

  datatype Field = Field(name: string, address: bool, sources: seq<Source>)

  function NormalizeValue(v: Raw, address: bool): Option<string> {
    match v
    case Missing => None
    case Str(s) => if Strip(s) == "" then None else Some(if address then Lower(Strip(s)) else Strip(s))
    case Container(empty, dump) => if empty then None else Some(dump)
    case Other(shown) => Some(shown)
  }

  datatype Evidence = Evidence(missing: seq<string>, present: seq<string>, canonical: Option<string>, sufficient: bool)

  function MissingSources(f: Field, n: nat): seq<string>
    requires n <= |f.sources|
  {
    if n == 0 then []
    else
      MissingSources(f, n - 1)
      + if NormalizeValue(f.sources[n - 1].value, f.address) == None then [f.sources[n - 1].path] else []
  }

  function PresentValues(f: Field, n: nat): seq<string>
    requires n <= |f.sources|
  {
    if n == 0 then []
    else
      PresentValues(f, n - 1)
      + match NormalizeValue(f.sources[n - 1].value, f.address)
        case None => []
        case Some(v) => [v]
  }

  // All present values are one value: the set of them has one element.
  predicate Consistent(present: seq<string>) {
    present != [] && |set v | v in present| == 1
  }

  function FieldEvidence(f: Field): Evidence {
    var missing, present := MissingSources(f, |f.sources|), PresentValues(f, |f.sources|);
    Evidence(missing, present, if Consistent(present) then Some(present[0]) else None,
             missing == [] && Consistent(present))
  }

  lemma ConsistentMeansEqual(present: seq<string>)
    ensures Consistent(present) <==> present != [] && forall v :: v in present ==> v == present[0]
  {
    var all := set v | v in present;
    if present != [] {
      assert present[0] in all;
      if |all| == 1 {
        var rest := all - {present[0]};
        assert |rest| == 0;
        assert forall v :: v in present ==> v in all;
      }
      if forall v :: v in present ==> v == present[0] {
        assert all == {present[0]};
      }
    }
  }

  predicate Holds(f: Field, i: nat, v: string)
    requires i < |f.sources|
  {
    NormalizeValue(f.sources[i].value, f.address) == Some(v)
  }

  predicate Lacks(f: Field, i: nat)
    requires i < |f.sources|
  {
    NormalizeValue(f.sources[i].value, f.address) == None
  }

  lemma {:induction false} MissingUpTo(f: Field, n: nat)
    requires n <= |f.sources|
    ensures MissingSources(f, n) == [] <==> (forall i: nat :: i < n ==> !Lacks(f, i))
  {
    if n > 0 {
      MissingUpTo(f, n - 1);
      assert Lacks(f, n - 1) <==> NormalizeValue(f.sources[n - 1].value, f.address) == None;
    }
  }

  // Every source of the field holds the value v.
  predicate AgreesOn(f: Field, v: string) {
    f.sources != [] && forall i: nat :: i < |f.sources| ==> Holds(f, i, v)
  }

  lemma {:induction false} PresentUpTo(f: Field, n: nat, v: string)
    requires n <= |f.sources|
    ensures v in PresentValues(f, n) <==> (exists i: nat :: i < n && Holds(f, i, v))
  {
    if n > 0 {
      PresentUpTo(f, n - 1, v);
      if v in PresentValues(f, n) && v !in PresentValues(f, n - 1) {
        assert Holds(f, n - 1, v);
      }
    }
  }

  ghost predicate Agreed(f: Field) {
    exists v :: AgreesOn(f, v)
  }

  /** A field's evidence is sufficient exactly when all its sources hold one and the same normalised
      value, and then that value is the canonical one. */
  lemma SufficientIff(f: Field)
    ensures FieldEvidence(f).sufficient <==> Agreed(f)
    ensures forall v :: AgreesOn(f, v) ==> FieldEvidence(f).canonical == Some(v)
  {
    forall v | AgreesOn(f, v)
      ensures FieldEvidence(f).sufficient && FieldEvidence(f).canonical == Some(v)
    {
      AgreementSuffices(f, v);
    }
    if FieldEvidence(f).sufficient {
      SufficientAgrees(f);
    }
  }

  lemma AgreementSuffices(f: Field, v: string)
    requires AgreesOn(f, v)
    ensures FieldEvidence(f).sufficient && FieldEvidence(f).canonical == Some(v)
  {
    var n := |f.sources|;
    var present := PresentValues(f, n);
    MissingUpTo(f, n);
    ConsistentMeansEqual(present);
    assert Holds(f, 0, v);
    forall i: nat | i < n
      ensures !Lacks(f, i)
    {
      assert Holds(f, i, v);
    }
    PresentUpTo(f, n, v);
    forall u | u in present
      ensures u == v
    {
      PresentUpTo(f, n, u);
      var i: nat :| i < n && Holds(f, i, u);
      assert Holds(f, i, v);
    }
    assert present[0] in present;
  }

  lemma SufficientAgrees(f: Field)
    requires FieldEvidence(f).sufficient
    ensures Agreed(f)
  {
    var n := |f.sources|;
    var present := PresentValues(f, n);
    MissingUpTo(f, n);
    ConsistentMeansEqual(present);
    forall i: nat | i < n
      ensures Holds(f, i, present[0])
    {
      assert !Lacks(f, i);
      var u := NormalizeValue(f.sources[i].value, f.address).value;
      assert Holds(f, i, u);
      PresentUpTo(f, n, u);
    }
    assert n > 0;
    assert AgreesOn(f, present[0]);
  }

  // The paths of the sources that hold nothing, in order.
  lemma {:induction false} MissingPaths(f: Field, n: nat, path: string)
    requires n <= |f.sources|
    ensures path in MissingSources(f, n) <==> exists i: nat :: i < n && Lacks(f, i) && f.sources[i].path == path
  {
    if n > 0 {
      MissingPaths(f, n - 1, path);
      if path in MissingSources(f, n) && path !in MissingSources(f, n - 1) {
        assert Lacks(f, n - 1);
      }
    }
  }

  /** What the evidence for a field shows: as missing, the paths of exactly those sources that hold
      nothing; and a canonical value exactly when some source holds one and no two differ. */
  lemma EvidenceShows(f: Field)
    ensures forall path ::
              path in FieldEvidence(f).missing
              <==> exists i: nat :: i < |f.sources| && Lacks(f, i) && f.sources[i].path == path
    ensures forall v ::
              FieldEvidence(f).canonical == Some(v)
              <==> && (exists i: nat :: i < |f.sources| && Holds(f, i, v))
                   && forall i: nat, u :: i < |f.sources| && Holds(f, i, u) ==> u == v
  {
    hide NormalizeValue, Holds, Lacks, PresentValues, MissingSources, Consistent;
    var n, present := |f.sources|, PresentValues(f, |f.sources|);
    ConsistentMeansEqual(present);
    forall path
      ensures path in MissingSources(f, n) <==> exists i: nat :: i < n && Lacks(f, i) && f.sources[i].path == path
    {
      MissingPaths(f, n, path);
    }
    forall v
      ensures v in present <==> exists i: nat :: i < n && Holds(f, i, v)
    {
      PresentUpTo(f, n, v);
    }
    forall v
      ensures FieldEvidence(f).canonical == Some(v) <==> v in present && forall u :: u in present ==> u == v
    {
      if present != [] {
        assert present[0] in present;
      }
    }
    forall i: nat, v | i < n && Holds(f, i, v)
      ensures v in present
    {
      PresentUpTo(f, n, v);
    }
  }

  // ---------- the binding fields of a funding plan ----------

  datatype Mandate = Mandate(
    vault: Raw, executor: Raw, nonce: Raw, deadline: Raw, authorityEpoch: Raw,
    allowedAdaptersRoot: Raw, payloadDigest: Raw, extensionsHash: Raw)

  datatype ExecuteInput = ExecuteInput(
    chainId: Raw, vault: Raw, from: Raw, mandate: Mandate, actions: Raw, adapterProofs: Raw, extensions: Raw)

  // The transfer as the ERC-20 call has it, and as the plan's summary shows it.
  datatype Transfer = Transfer(token: Raw, to: Raw, amount: Raw)

  datatype PlanSummary = PlanSummary(token: string, to: string, amount: string)

  datatype FundingPlan = FundingPlan(
    chainId: Raw, vault: Raw, executor: Raw, payloadBinding: Raw, typedData: Raw,
    mandate: Mandate, actionsDigest: Raw, extensionsHash: Raw,
    summary: PlanSummary, call: Transfer, simulate: Option<ExecuteInput>, prepare: Option<ExecuteInput>)

  function FromInput(x: Option<ExecuteInput>, get: ExecuteInput -> Raw): Raw {
    if x.Some? then get(x.value) else Missing
  }

  // One value read from the simulate input and from the prepare input.
  function FromInputs(plan: FundingPlan, name: string, get: ExecuteInput -> Raw): seq<Source> {
    [Source("fundingPlan.simulateExecuteInput." + name, FromInput(plan.simulate, get)),
     Source("fundingPlan.prepareExecuteInput." + name, FromInput(plan.prepare, get))]
  }

  // A mandate value: signed, simulated and prepared.
  function MandateField(plan: FundingPlan, name: string, address: bool, get: Mandate -> Raw): Field {
    Field(name, address,
          [Source("fundingPlan.signRequest.mandate." + name, get(plan.mandate))]
          + FromInputs(plan, "mandate." + name, (x: ExecuteInput) => get(x.mandate)))
  }

  function SummaryField(name: string, address: bool, path: string, summary: string, call: Raw): Field {
    Field(name, address,
          [Source("fundingPlan.humanReadableSummary." + path, Str(summary)),
           Source("fundingPlan.erc20Call." + path, call)])
  }

  function PayloadBinding(plan: FundingPlan): Field {
    Field("payloadBinding", false, [Source("fundingPlan.accountContext.defaults.payloadBinding", plan.payloadBinding)])
  }

  function ContextFields(plan: FundingPlan): seq<Field> {
    [PayloadBinding(plan),
     Field("typedData", false, [Source("fundingPlan.signRequest.typedData", plan.typedData)]),
     Field("chainId", false, [Source("fundingPlan.accountContext.chainId", plan.chainId)]
                             + FromInputs(plan, "chainId", (x: ExecuteInput) => x.chainId)),
     Field("vault", true, [Source("fundingPlan.accountContext.vault", plan.vault),
                           Source("fundingPlan.signRequest.mandate.vault", plan.mandate.vault)]
                          + FromInputs(plan, "vault", (x: ExecuteInput) => x.vault)),
     Field("executor", true, [Source("fundingPlan.accountContext.executor", plan.executor),
                              Source("fundingPlan.signRequest.mandate.executor", plan.mandate.executor)]
                             + FromInputs(plan, "from", (x: ExecuteInput) => x.from))]
  }

  function TransferFields(plan: FundingPlan): seq<Field> {
    [SummaryField("tokenAddress", true, "tokenAddress", plan.summary.token, plan.call.token),
     SummaryField("recipient", true, "to", plan.summary.to, plan.call.to),
     SummaryField("amountRaw", false, "amountRaw", plan.summary.amount, plan.call.amount)]
  }

  function MandateFields(plan: FundingPlan): seq<Field> {
    [MandateField(plan, "nonce", false, (m: Mandate) => m.nonce),
     MandateField(plan, "deadline", false, (m: Mandate) => m.deadline),
     MandateField(plan, "authorityEpoch", false, (m: Mandate) => m.authorityEpoch),
     MandateField(plan, "allowedAdaptersRoot", false, (m: Mandate) => m.allowedAdaptersRoot),
     MandateField(plan, "payloadDigest", false, (m: Mandate) => m.payloadDigest)]
  }

  function RunFields(plan: FundingPlan): seq<Field> {
    [Field("actionsDigest", false, [Source("fundingPlan.signRequest.actionsDigest", plan.actionsDigest)]),
     Field("extensionsHash", false,
           [Source("fundingPlan.signRequest.extensionsHash", plan.extensionsHash),
            Source("fundingPlan.signRequest.mandate.extensionsHash", plan.mandate.extensionsHash)]
           + FromInputs(plan, "mandate.extensionsHash", (x: ExecuteInput) => x.mandate.extensionsHash)),
     Field("actions", false, FromInputs(plan, "actions", (x: ExecuteInput) => x.actions)),
     Field("adapterProofs", false, FromInputs(plan, "adapterProofs", (x: ExecuteInput) => x.adapterProofs)),
     Field("extensions", false, FromInputs(plan, "extensions", (x: ExecuteInput) => x.extensions))]
  }

  function RequiredFields(plan: FundingPlan): seq<Field> {
    ContextFields(plan) + TransferFields(plan) + MandateFields(plan) + RunFields(plan)
  }

  // ---------- the published field set ----------

  datatype Declared = Declared(name: string, paths: seq<string>)

  function InInputs(name: string): seq<string> {
    ["fundingPlan.simulateExecuteInput." + name, "fundingPlan.prepareExecuteInput." + name]
  }

  // The paths of a value of the signed, the simulated and the prepared mandate.
  function InMandates(name: string): seq<string> {
    ["fundingPlan.signRequest.mandate." + name] + InInputs("mandate." + name)
  }

  function InSummaryAndCall(name: string): seq<string> {
    ["fundingPlan.humanReadableSummary." + name, "fundingPlan.erc20Call." + name]
  }

  const CONTEXT_SET: seq<Declared> := [
    Declared("payloadBinding", ["fundingPlan.accountContext.defaults.payloadBinding"]),
    Declared("typedData", ["fundingPlan.signRequest.typedData"]),
    Declared("chainId", ["fundingPlan.accountContext.chainId"] + InInputs("chainId")),
    Declared("vault", ["fundingPlan.accountContext.vault", "fundingPlan.signRequest.mandate.vault"] + InInputs("vault")),
    Declared("executor",
             ["fundingPlan.accountContext.executor", "fundingPlan.signRequest.mandate.executor"] + InInputs("from"))]

  const TRANSFER_SET: seq<Declared> := [
    Declared("tokenAddress", InSummaryAndCall("tokenAddress")),
    Declared("recipient", InSummaryAndCall("to")),
    Declared("amountRaw", InSummaryAndCall("amountRaw"))]

  const MANDATE_SET: seq<Declared> := [
    Declared("nonce", InMandates("nonce")),
    Declared("deadline", InMandates("deadline")),
    Declared("authorityEpoch", InMandates("authorityEpoch")),
    Declared("allowedAdaptersRoot", InMandates("allowedAdaptersRoot")),
    Declared("payloadDigest", InMandates("payloadDigest"))]

  const RUN_SET: seq<Declared> := [
    Declared("actionsDigest", ["fundingPlan.signRequest.actionsDigest"]),
    Declared("extensionsHash",
             ["fundingPlan.signRequest.extensionsHash", "fundingPlan.signRequest.mandate.extensionsHash"]
             + InInputs("mandate.extensionsHash")),
    Declared("actions", InInputs("actions")),
    Declared("adapterProofs", InInputs("adapterProofs")),
    Declared("extensions", InInputs("extensions"))]

  // The field set that the check publishes.
  function RequiredRuntimeFieldSet(): seq<Declared> {
    CONTEXT_SET + TRANSFER_SET + MANDATE_SET + RUN_SET
  }

  // The field has the declared name and sources at the declared paths.
  predicate AsDeclared(f: Field, d: Declared) {
    f.name == d.name && |f.sources| == |d.paths| && forall i :: 0 <= i < |d.paths| ==> f.sources[i].path == d.paths[i]
  }

  predicate AllDeclared(fields: seq<Field>, declared: seq<Declared>) {
    |fields| == |declared| && forall i :: 0 <= i < |fields| ==> AsDeclared(fields[i], declared[i])
  }

  lemma ContextDeclared(plan: FundingPlan)
    ensures AllDeclared(ContextFields(plan), CONTEXT_SET)
  {
  }

  lemma TransferDeclared(plan: FundingPlan)
    ensures AllDeclared(TransferFields(plan), TRANSFER_SET)
  {
  }

  lemma MandateDeclared(plan: FundingPlan)
    ensures AllDeclared(MandateFields(plan), MANDATE_SET)
  {
  }

  lemma RunDeclared(plan: FundingPlan)
    ensures AllDeclared(RunFields(plan), RUN_SET)
  {
  }

  /** The fields that are checked are those of the published set, in its order, each with its sources. */
  lemma FieldsAsDeclared(plan: FundingPlan)
    ensures AllDeclared(RequiredFields(plan), RequiredRuntimeFieldSet())
  {
    hide ContextFields, TransferFields, MandateFields, RunFields, AsDeclared;
    ContextDeclared(plan);
    TransferDeclared(plan);
    MandateDeclared(plan);
    RunDeclared(plan);
  }

  const WRONG_BINDING := "payloadBinding must be actionsDigest for local replay-safe verification"

  function FieldGap(f: Field): seq<string> {
    if FieldEvidence(f).sufficient then [] else ["runtime binding field " + f.name + " is missing or inconsistent"]
  }

  function FieldGaps(fields: seq<Field>): seq<string> {
    if fields == [] then [] else FieldGaps(fields[..|fields| - 1]) + FieldGap(fields[|fields| - 1])
  }

  function BindingGaps(plan: FundingPlan): seq<string> {
    (if FieldEvidence(PayloadBinding(plan)).canonical != Some("actionsDigest") then [WRONG_BINDING] else [])
    + FieldGaps(RequiredFields(plan))
  }

  method RequiredRuntimeFieldEvidence(plan: FundingPlan) returns (gaps: seq<string>)
    ensures gaps == BindingGaps(plan)
  {
    hide RequiredFields, FieldEvidence;
    var fields := RequiredFields(plan);
    gaps := [];
    if FieldEvidence(PayloadBinding(plan)).canonical != Some("actionsDigest") {
      gaps := gaps + [WRONG_BINDING];
    }
    ghost var first := gaps;
    for i := 0 to |fields|
      invariant gaps == first + FieldGaps(fields[..i])
    {
      assert fields[..i + 1][..i] == fields[..i];
      if !FieldEvidence(fields[i]).sufficient {
        gaps := gaps + ["runtime binding field " + fields[i].name + " is missing or inconsistent"];
      }
    }
    assert fields[..|fields|] == fields;
  }

  lemma FieldGapIff(f: Field)
    ensures FieldGap(f) == [] <==> Agreed(f)
  {
    SufficientIff(f);
  }

  lemma {:induction false} NoFieldGapsIff(fields: seq<Field>)
    ensures FieldGaps(fields) == [] <==> (forall i :: 0 <= i < |fields| ==> Agreed(fields[i]))
  {
    hide FieldGap, Agreed;
    if fields != [] {
      var init, last := fields[..|fields| - 1], fields[|fields| - 1];
      NoFieldGapsIff(init);
      FieldGapIff(last);
      assert forall i :: 0 <= i < |init| ==> fields[i] == init[i];
      assert |FieldGaps(fields)| == |FieldGaps(init)| + |FieldGap(last)|;
    }
  }

  lemma {:induction false} FieldGapListed(fields: seq<Field>, i: nat)
    requires i < |fields| && !Agreed(fields[i])
    ensures "runtime binding field " + fields[i].name + " is missing or inconsistent" in FieldGaps(fields)
  {
    hide Agreed, FieldEvidence;
    if i < |fields| - 1 {
      FieldGapListed(fields[..|fields| - 1], i);
    } else {
      FieldGapIff(fields[i]);
    }
  }

  /** Every field of the published set that is not agreed on is named in a gap, and so is a payload that
      is not bound to the actions digest. */
  lemma BindingGapsSay(plan: FundingPlan, i: nat)
    requires i < |RequiredRuntimeFieldSet()|
    ensures i < |RequiredFields(plan)|
    ensures !Agreed(RequiredFields(plan)[i]) ==>
              "runtime binding field " + RequiredRuntimeFieldSet()[i].name
                + " is missing or inconsistent" in BindingGaps(plan)
    ensures !AgreesOn(PayloadBinding(plan), "actionsDigest") ==>
              "payloadBinding must be actionsDigest for local replay-safe verification" in BindingGaps(plan)
  {
    hide RequiredFields, RequiredRuntimeFieldSet, Agreed, AgreesOn, FieldEvidence;
    FieldsAsDeclared(plan);
    assert AsDeclared(RequiredFields(plan)[i], RequiredRuntimeFieldSet()[i]);
    if !Agreed(RequiredFields(plan)[i]) {
      FieldGapListed(RequiredFields(plan), i);
    }
    BindingCanonicalIff(plan);
  }

  lemma BindingCanonicalIff(plan: FundingPlan)
    ensures FieldEvidence(PayloadBinding(plan)).canonical == Some("actionsDigest")
            <==> AgreesOn(PayloadBinding(plan), "actionsDigest")
  {
    hide NormalizeValue;
    var f := PayloadBinding(plan);
    EvidenceShows(f);
    assert AgreesOn(f, "actionsDigest") <==> Holds(f, 0, "actionsDigest");
  }

  // Every required field has one present value in all its sources, and the payload binding is the
  // digest of the actions.
  ghost predicate BindingSound(plan: FundingPlan) {
    && (forall f :: f in RequiredFields(plan) ==> Agreed(f))
    && AgreesOn(PayloadBinding(plan), "actionsDigest")
  }

  lemma NoBindingGapsIff(plan: FundingPlan)
    ensures BindingGaps(plan) == [] <==> BindingSound(plan)
  {
    var fields := RequiredFields(plan);
    NoFieldGapsIff(fields);
    BindingFirst(plan);
    BindingCanonical(PayloadBinding(plan));
    assert PayloadBinding(plan) in fields;
  }

  lemma BindingFirst(plan: FundingPlan)
    ensures |RequiredFields(plan)| > 0 && RequiredFields(plan)[0] == PayloadBinding(plan)
  {
  }

  lemma BindingCanonical(f: Field)
    ensures Agreed(f) ==> (FieldEvidence(f).canonical == Some("actionsDigest") <==> AgreesOn(f, "actionsDigest"))
  {
    SufficientIff(f);
  }

  // ---------- the session transition ----------

  datatype TransferResult = TransferResult(status: string, txHash: Option<string>)

  datatype Created = Created(
    result: TransferResult, confirmations: Option<int>, token: string, to: string, amount: string)

  datatype Session = Session(status: string, currentStep: string, fundingStatus: string,
                             fundingResult: Option<TransferResult>, followUpStatus: string)

  // One check and the gap it leaves when it fails.
  datatype Check = Check(ok: bool, gap: string)

  function Gaps(checks: seq<Check>): seq<string> {
    if checks == [] then []
    else Gaps(checks[..|checks| - 1]) + if checks[|checks| - 1].ok then [] else [checks[|checks| - 1].gap]
  }

  lemma {:induction false} NoGapsIff(checks: seq<Check>)
    ensures Gaps(checks) == [] <==> forall i :: 0 <= i < |checks| ==> checks[i].ok
  {
    if checks != [] {
      var init, last := checks[..|checks| - 1], checks[|checks| - 1];
      NoGapsIff(init);
      assert forall i :: 0 <= i < |init| ==> checks[i] == init[i];
      assert |Gaps(checks)| == |Gaps(init)| + if last.ok then 0 else 1;
    }
  }

  // A failed check has its text among the gaps.
  lemma {:induction false} GapListed(checks: seq<Check>, i: nat)
    requires i < |checks| && !checks[i].ok
    ensures checks[i].gap in Gaps(checks)
  {
    if i < |checks| - 1 {
      GapListed(checks[..|checks| - 1], i);
    }
  }

  // As many gaps as failed checks.
  function Failed(checks: seq<Check>): nat {
    if checks == [] then 0 else Failed(checks[..|checks| - 1]) + if checks[|checks| - 1].ok then 0 else 1
  }

  lemma {:induction false} GapsCount(checks: seq<Check>)
    ensures |Gaps(checks)| == Failed(checks)
  {
    if checks != [] {
      GapsCount(checks[..|checks| - 1]);
    }
  }

  function SessionChecks(created: Created, initial: Session, applied: Session): seq<Check> {
    [Check(initial.status == "pendingFunding", "initial session status must be pendingFunding"),
     Check(initial.currentStep == "fundTargetAccount", "initial session currentStep must be fundTargetAccount"),
     Check(created.result.status == "confirmed", "created assetTransferResult status must be confirmed"),
     Check(created.confirmations.Some?, "created assetTransferResult receipt.confirmations is missing"),
     Check(applied.status == "pendingFollowUp", "fundingConfirmed event did not transition session to pendingFollowUp"),
     Check(applied.currentStep == "followUpAction",
           "fundingConfirmed event did not transition currentStep to followUpAction"),
     Check(applied.fundingStatus == "succeeded", "applied session fundingStep.status must be succeeded")]
  }

  function NextStepCheck(next: Option<string>): Check {
    if next == None then Check(false, "next-step check after fundingConfirmed is unavailable")
    else Check(next.value == "submitFollowUp", "next-step after fundingConfirmed must be submitFollowUp")
  }

  function ResultChecks(created: Created, applied: Session, next: Option<string>, plan: PlanSummary): seq<Check> {
    var funding := applied.fundingResult;
    [Check(funding.Some? && funding.value.status == "confirmed", "applied session fundingStep.result must be confirmed"),
     Check(funding.Some? ==> funding.value.txHash == created.result.txHash,
           "applied session fundingStep.result txHash does not match created assetTransferResult"),
     Check(applied.followUpStatus == "pending", "applied session followUpStep.status must remain pending"),
     NextStepCheck(next),
     Check(Lower(created.token) == Lower(plan.token),
           "created assetTransferResult plan tokenAddress does not match funding plan"),
     Check(Lower(created.to) == Lower(plan.to),
           "created assetTransferResult plan recipient does not match funding plan"),
     Check(created.amount == plan.amount, "created assetTransferResult plan amountRaw does not match funding plan")]
  }

  function TransitionGaps(created: Created, initial: Session, applied: Session, next: Option<string>,
                          plan: PlanSummary): seq<string>
  {
    Gaps(SessionChecks(created, initial, applied)) + Gaps(ResultChecks(created, applied, next, plan))
  }

  // The session moved from waiting for funding to waiting for the follow-up, on the strength of the
  // transfer that was created.
  ghost predicate TransitionSound(created: Created, initial: Session, applied: Session, next: Option<string>,
                                  plan: PlanSummary)
  {
    && initial.status == "pendingFunding" && initial.currentStep == "fundTargetAccount"
    && applied.status == "pendingFollowUp" && applied.currentStep == "followUpAction"
    && applied.fundingStatus == "succeeded" && applied.followUpStatus == "pending"
    && created.result.status == "confirmed" && created.confirmations.Some?
    && applied.fundingResult == Some(TransferResult("confirmed", created.result.txHash))
    && next == Some("submitFollowUp")
    && Lower(created.token) == Lower(plan.token) && Lower(created.to) == Lower(plan.to) && created.amount == plan.amount
  }

  lemma SevenChecks(checks: seq<Check>)
    requires |checks| == 7
    ensures Gaps(checks) == []
            <==> && checks[0].ok && checks[1].ok && checks[2].ok && checks[3].ok && checks[4].ok && checks[5].ok
                 && checks[6].ok
  {
    NoGapsIff(checks);
  }

  lemma SessionChecksPass(created: Created, initial: Session, applied: Session)
    ensures Gaps(SessionChecks(created, initial, applied)) == []
            <==> && initial.status == "pendingFunding" && initial.currentStep == "fundTargetAccount"
                 && created.result.status == "confirmed" && created.confirmations.Some?
                 && applied.status == "pendingFollowUp" && applied.currentStep == "followUpAction"
                 && applied.fundingStatus == "succeeded"
  {
    hide Gaps;
    SevenChecks(SessionChecks(created, initial, applied));
  }

  lemma ResultChecksPass(created: Created, applied: Session, next: Option<string>, plan: PlanSummary)
    ensures Gaps(ResultChecks(created, applied, next, plan)) == []
            <==> && applied.fundingResult == Some(TransferResult("confirmed", created.result.txHash))
                 && applied.followUpStatus == "pending" && next == Some("submitFollowUp")
                 && Lower(created.token) == Lower(plan.token) && Lower(created.to) == Lower(plan.to)
                 && created.amount == plan.amount
  {
    hide Gaps, Lower, NextStepCheck;
    NextStepOk(next);
    SevenChecks(ResultChecks(created, applied, next, plan));
  }

  /** Every gap of the session that is there is named, in words that say which. */
  lemma SessionGapsSay(created: Created, initial: Session, applied: Session)
    ensures var gaps := Gaps(SessionChecks(created, initial, applied));
            && (initial.status != "pendingFunding" ==> "initial session status must be pendingFunding" in gaps)
            && (initial.currentStep != "fundTargetAccount" ==>
                  "initial session currentStep must be fundTargetAccount" in gaps)
            && (created.result.status != "confirmed" ==> "created assetTransferResult status must be confirmed" in gaps)
            && (created.confirmations == None ==>
                  "created assetTransferResult receipt.confirmations is missing" in gaps)
            && (applied.status != "pendingFollowUp" ==>
                  "fundingConfirmed event did not transition session to pendingFollowUp" in gaps)
            && (applied.currentStep != "followUpAction" ==>
                  "fundingConfirmed event did not transition currentStep to followUpAction" in gaps)
            && (applied.fundingStatus != "succeeded" ==>
                  "applied session fundingStep.status must be succeeded" in gaps)
  {
    hide Gaps;
    SevenListed(SessionChecks(created, initial, applied));
  }

  lemma ResultGapsSay(created: Created, applied: Session, next: Option<string>, plan: PlanSummary)
    ensures var gaps, funding := Gaps(ResultChecks(created, applied, next, plan)), applied.fundingResult;
            && (funding == None ==> "applied session fundingStep.result must be confirmed" in gaps)
            && (funding.Some? ==>
                  && (funding.value.status != "confirmed" ==>
                        "applied session fundingStep.result must be confirmed" in gaps)
                  && (funding.value.txHash != created.result.txHash ==>
                        "applied session fundingStep.result txHash does not match created assetTransferResult" in gaps))
            && (applied.followUpStatus != "pending" ==>
                  "applied session followUpStep.status must remain pending" in gaps)
  {
    hide Gaps, Lower, NextStepCheck;
    SevenListed(ResultChecks(created, applied, next, plan));
  }

  lemma NextGapsSay(created: Created, applied: Session, next: Option<string>, plan: PlanSummary)
    ensures var gaps := Gaps(ResultChecks(created, applied, next, plan));
            && (next == None ==> "next-step check after fundingConfirmed is unavailable" in gaps)
            && (next.Some? && next.value != "submitFollowUp" ==>
                  "next-step after fundingConfirmed must be submitFollowUp" in gaps)
  {
    hide Gaps, Lower, ResultChecks;
    NextListed(created, applied, next, plan);
  }

  lemma NextListed(created: Created, applied: Session, next: Option<string>, plan: PlanSummary)
    ensures Says(Gaps(ResultChecks(created, applied, next, plan)), NextStepCheck(next))
  {
    hide Gaps, Lower, NextStepCheck, Says;
    SevenListed(ResultChecks(created, applied, next, plan));
  }

  lemma PlanGapsSay(created: Created, applied: Session, next: Option<string>, plan: PlanSummary)
    ensures var gaps := Gaps(ResultChecks(created, applied, next, plan));
            && (!SameText(created.token, plan.token) ==>
                  "created assetTransferResult plan tokenAddress does not match funding plan" in gaps)
            && (!SameText(created.to, plan.to) ==>
                  "created assetTransferResult plan recipient does not match funding plan" in gaps)
            && (created.amount != plan.amount ==>
                  "created assetTransferResult plan amountRaw does not match funding plan" in gaps)
  {
    hide Gaps, Lower, SameText, NextStepCheck;
    CaseForms(created.token, plan.token);
    CaseForms(created.to, plan.to);
    SevenListed(ResultChecks(created, applied, next, plan));
  }

  predicate Says(gaps: seq<string>, c: Check) {
    c.ok || c.gap in gaps
  }

  lemma SevenListed(checks: seq<Check>)
    requires |checks| == 7
    ensures var gaps := Gaps(checks);
            && Says(gaps, checks[0]) && Says(gaps, checks[1]) && Says(gaps, checks[2]) && Says(gaps, checks[3])
            && Says(gaps, checks[4]) && Says(gaps, checks[5]) && Says(gaps, checks[6])
  {
    hide Gaps;
    forall i | 0 <= i < 7
      ensures Says(Gaps(checks), checks[i])
    {
      if !checks[i].ok {
        GapListed(checks, i);
      }
    }
  }

  lemma NextStepOk(next: Option<string>)
    ensures NextStepCheck(next).ok <==> next == Some("submitFollowUp")
  {
  }

  lemma NoTransitionGapsIff(created: Created, initial: Session, applied: Session, next: Option<string>, plan: PlanSummary)
    ensures TransitionGaps(created, initial, applied, next, plan) == []
            <==> TransitionSound(created, initial, applied, next, plan)
  {
    hide SessionChecks, ResultChecks;
    SessionChecksPass(created, initial, applied);
    ResultChecksPass(created, applied, next, plan);
  }

  /** The transaction hash is only compared: a transition that is sound stays so when the hash is
      absent on both sides, so a PASS does not need one. */
  lemma NoHashStillSound(created: Created, initial: Session, applied: Session, next: Option<string>, plan: PlanSummary)
    requires TransitionSound(created, initial, applied, next, plan)
    ensures var bare := created.(result := created.result.(txHash := None));
            TransitionSound(bare, initial, applied.(fundingResult := Some(TransferResult("confirmed", None))), next, plan)
  {
    hide Lower;
  }

  method SessionTransitionEvidence(created: Created, initial: Session, applied: Session, next: Option<string>,
                                   plan: PlanSummary) returns (gaps: seq<string>)
    ensures gaps == TransitionGaps(created, initial, applied, next, plan)
  {
    hide SessionChecks, ResultChecks;
    var session := CollectGaps(SessionChecks(created, initial, applied));
    var result := CollectGaps(ResultChecks(created, applied, next, plan));
    gaps := session + result;
  }

  // The gaps of the failed checks, in order.
  method CollectGaps(checks: seq<Check>) returns (gaps: seq<string>)
    ensures gaps == Gaps(checks)
  {
    gaps := [];
    for i := 0 to |checks|
      invariant gaps == Gaps(checks[..i])
    {
      assert checks[..i + 1][..i] == checks[..i];
      if !checks[i].ok {
        gaps := gaps + [checks[i].gap];
      }
    }
    assert checks[..|checks|] == checks;
  }

  // ---------- the verdict ----------

  const RESULT_TOOL := "vault_asset_transfer_result_create"
  const APPLY_TOOL := "agent_fund_and_action_session_apply_event"
  const NEXT_TOOL := "agent_fund_and_action_session_next_step"

  // How the conversation with the MCP runtime ended.
  datatype Collected =
    | ConnectFailed(error: string)
    | Raised(error: string)
    | PlanRejected(gaps: seq<string>)
    | NoFundingPlan
    | Completed(plan: FundingPlan, created: Created, initial: Session, applied: Session, next: Option<string>)

  /** One run: the reasons found while reading the configuration, whether a complete configuration
      came out of it, the tools the runtime offers and what was collected from it. */
  datatype Inputs = Inputs(configReasons: seq<string>, configured: bool, tools: set<string>, collected: Collected)

  predicate StartsWith(s: string, prefix: string) {
    |prefix| <= |s| && s[..|prefix|] == prefix
  }

  predicate Blocking(reason: string) {
    StartsWith(reason, "missing ") || StartsWith(reason, "invalid ")
  }

  predicate Proceeds(x: Inputs) {
    x.configured && forall i :: 0 <= i < |x.configReasons| ==> !Blocking(x.configReasons[i])
  }

  /** The runtime is asked exactly when the configuration is complete and names nothing as missing or
      invalid. */
  lemma ProceedsIff(x: Inputs)
    ensures Proceeds(x)
            <==> x.configured
                 && forall what: string :: "missing " + what !in x.configReasons && "invalid " + what !in x.configReasons
  {
    hide StartsWith;
    forall s: string, prefix: string
      ensures StartsWith(s, prefix) <==> exists what :: s == prefix + what
    {
      PrefixIff(s, prefix);
    }
    forall what: string
      ensures Blocking("missing " + what) && Blocking("invalid " + what)
    {
      PrefixIff("missing " + what, "missing ");
      PrefixIff("invalid " + what, "invalid ");
    }
  }

  lemma PrefixIff(s: string, prefix: string)
    ensures StartsWith(s, prefix) <==> exists what :: s == prefix + what
  {
    if StartsWith(s, prefix) {
      assert s == prefix + s[|prefix|..];
    }
  }

  function ToolReason(tools: set<string>, tool: string): seq<string> {
    if tool in tools then [] else ["MCP runtime does not expose " + tool]
  }

  function ToolReasons(tools: set<string>): seq<string> {
    ToolReason(tools, RESULT_TOOL) + ToolReason(tools, APPLY_TOOL) + ToolReason(tools, NEXT_TOOL)
  }

  // The next step is only asked for when the runtime offers the tool.
  function NextStep(x: Inputs): Option<string>
    requires x.collected.Completed?
  {
    if NEXT_TOOL in x.tools then x.collected.next else None
  }

  function CollectedTransitionGaps(x: Inputs): seq<string>
    requires x.collected.Completed?
  {
    TransitionGaps(x.collected.created, x.collected.initial, x.collected.applied, NextStep(x), x.collected.plan.summary)
  }

  function CollectedReasons(x: Inputs): seq<string> {
    match x.collected
    case ConnectFailed(error) => ["unable to evaluate session-event compatibility: " + error]
    case Raised(error) => ["unable to evaluate session-event compatibility: " + error]
    case PlanRejected(gaps) => gaps
    case NoFundingPlan => ["fund-and-action plan did not include a fundingPlan"]
    case Completed(plan, _, _, _, _) => BindingGaps(plan) + CollectedTransitionGaps(x)
  }

  // Without a connection there are no tools to look for.
  function ConnectedReasons(x: Inputs): seq<string> {
    if x.collected.ConnectFailed? then [] else ToolReasons(x.tools)
  }

  // Everything that is appended to the reason list, in order.
  function AllReasons(x: Inputs): seq<string> {
    x.configReasons + if Proceeds(x) then ConnectedReasons(x) + CollectedReasons(x) else []
  }

  /** What the reasons say of a run that asked the runtime: each session tool it does not offer, what kept
      the check from being evaluated, and every gap of the plan and of the transition. */
  lemma ReasonsSay(x: Inputs, tool: string)
    requires Proceeds(x)
    ensures !x.collected.ConnectFailed? && tool !in x.tools && tool in {RESULT_TOOL, APPLY_TOOL, NEXT_TOOL} ==>
              "MCP runtime does not expose " + tool in AllReasons(x)
    ensures x.collected.ConnectFailed? || x.collected.Raised? ==>
              "unable to evaluate session-event compatibility: " + x.collected.error in AllReasons(x)
    ensures x.collected.NoFundingPlan? ==> "fund-and-action plan did not include a fundingPlan" in AllReasons(x)
    ensures x.collected.PlanRejected? ==> forall gap :: gap in x.collected.gaps ==> gap in AllReasons(x)
    ensures x.collected.Completed? ==>
              forall gap :: gap in BindingGaps(x.collected.plan) || gap in CollectedTransitionGaps(x) ==>
                  gap in AllReasons(x)
  {
    hide BindingGaps, TransitionGaps;
    if !x.collected.ConnectFailed? && tool !in x.tools && tool in {RESULT_TOOL, APPLY_TOOL, NEXT_TOOL} {
      ToolListed(x.tools, tool);
    }
  }

  lemma ToolListed(tools: set<string>, tool: string)
    requires tool !in tools && tool in {RESULT_TOOL, APPLY_TOOL, NEXT_TOOL}
    ensures "MCP runtime does not expose " + tool in ToolReasons(tools)
  {
  }

  predicate StrongEnough(x: Inputs) {
    && Proceeds(x) && x.collected.Completed?
    && RuntimeReady(x.tools) && CollectedTransitionGaps(x) == [] && BindingGaps(x.collected.plan) == []
    && RESULT_TOOL in x.tools && APPLY_TOOL in x.tools && NEXT_TOOL in x.tools
  }

  /** The run: reasons go through the log as they are found, and the verdict is PASS only with strong
      evidence and an empty log. */
  method RunCheck(x: Inputs) returns (pass: bool, reasons: seq<string>)
    ensures reasons == FirstOccurrences(AllReasons(x))
    ensures pass <==> StrongEnough(x) && reasons == []
  {
    hide CollectedReasons, ToolReasons, RuntimeReady, Blocking, TransitionGaps, BindingGaps, AppendedAll,
         FirstOccurrences;
    var log := new ReasonLog();
    log.AppendEach(x.configReasons);
    var strong := false;
    if Proceeds(x) {
      if !x.collected.ConnectFailed? {
        log.AppendEach(ToolReasons(x.tools));
      } else {
        NothingAppended(log.reasons);
      }
      strong := Collect(x, log);
      AppendedTwice([], x.configReasons, ConnectedReasons(x));
      AppendedTwice([], x.configReasons + ConnectedReasons(x), CollectedReasons(x));
      assert x.configReasons + ConnectedReasons(x) + CollectedReasons(x) == AllReasons(x);
    } else {
      assert AllReasons(x) == x.configReasons;
    }
    ReasonsAreFirstOccurrences(AllReasons(x));
    reasons := log.reasons;
    pass := strong && reasons == [];
  }

  // The part of the run that talks to the runtime, after the tools were listed.
  method Collect(x: Inputs, log: ReasonLog) returns (strong: bool)
    requires Proceeds(x)
    modifies log
    ensures log.reasons == AppendedAll(old(log.reasons), CollectedReasons(x))
    ensures strong <==> StrongEnough(x)
  {
    hide RuntimeReady, Blocking, TransitionGaps, BindingGaps;
    if !x.collected.Completed? {
      log.AppendEach(CollectedReasons(x));
      return false;
    }
    var binding := RequiredRuntimeFieldEvidence(x.collected.plan);
    var transition := SessionTransitionEvidence(
      x.collected.created, x.collected.initial, x.collected.applied, NextStep(x), x.collected.plan.summary);
    strong := RuntimeReady(x.tools) && transition == [] && binding == []
              && RESULT_TOOL in x.tools && APPLY_TOOL in x.tools && NEXT_TOOL in x.tools;
    log.AppendEach(binding + transition);
  }

  /** PASS is sound and complete: the verdict is PASS exactly when the configuration raised nothing,
      the runtime is ready and offers the three session tools, every required binding field has one
      present value in all its sources with the payload bound to the actions digest, and the session
      moved from pending funding to pending follow-up with the created transaction. */
  lemma PassIff(x: Inputs)
    ensures StrongEnough(x) && FirstOccurrences(AllReasons(x)) == []
            <==> && x.configured && x.configReasons == []
                 && RuntimeReady(x.tools) && {RESULT_TOOL, APPLY_TOOL, NEXT_TOOL} <= x.tools
                 && x.collected.Completed?
                 && BindingSound(x.collected.plan)
                 && TransitionSound(x.collected.created, x.collected.initial, x.collected.applied, x.collected.next,
                                    x.collected.plan.summary)
  {
    hide BindingGaps, TransitionGaps, BindingSound, TransitionSound, RuntimeReady;
    NothingListed(AllReasons(x));
    if x.collected.Completed? {
      var c := x.collected;
      NoBindingGapsIff(c.plan);
      NoTransitionGapsIff(c.created, c.initial, c.applied, NextStep(x), c.plan.summary);
    }
  }

  lemma NothingListed(rs: seq<string>)
    ensures FirstOccurrences(rs) == [] <==> rs == []
  {
    FirstOccurrencesMembers(rs);
    if rs != [] {
      assert rs[0] in rs;
    }
  }
}
