/** What a PASS of the compatibility check says about the plan, member by member, and which changes
    of the plan take it away. */
module PassVerdict {
  import opened Text
  import opened Bridge
  import opened CompatibilityGate

  // ---------- values and their normal forms ----------

  // Two values are there and count as the same.
  predicate Same(a: Raw, b: Raw, address: bool) {
    NormalizeValue(a, address).Some? && NormalizeValue(a, address) == NormalizeValue(b, address)
  }

  predicate Given(v: Raw) {
    NormalizeValue(v, false).Some?
  }

  predicate Core(s: string) {
    s != "" ==> !IsSpace(s[0]) && !IsSpace(s[|s| - 1])
  }

  /** Texts count as the same when they are, apart from blanks around them and, in an address, from
      the case of letters; a blank text is not there. */
  lemma TextsSame(lead: string, a: string, trail: string, lead': string, b: string, trail': string)
    requires Blank(lead) && Blank(trail) && Blank(lead') && Blank(trail') && Core(a) && Core(b)
    ensures var v, w := Str(lead + a + trail), Str(lead' + b + trail');
            && (Given(v) <==> a != "")
            && (Same(v, w, false) <==> a != "" && a == b)
            && (Same(v, w, true) <==> a != "" && SameText(a, b))
  {
    hide Strip, Lower, SameText;
    StripPad(lead, a, trail);
    StripPad(lead', b, trail');
    CaseForms(a, b);
    assert a == "" && SameText(a, b) ==> b == "" by {
      if a == "" && SameText(a, b) {
        SameLength(a, b);
      }
    }
    assert SameText(a, b) ==> |a| == |b| by {
      if SameText(a, b) {
        SameLength(a, b);
      }
    }
  }

  lemma SameLength(a: string, b: string)
    requires SameText(a, b)
    ensures |a| == |b|
  {
  }

  /** Other values: nothing and an empty list or object are not there; a list or object counts as its
      dump, and anything else as it is shown. */
  lemma ValuesSame(a: string, b: string, address: bool)
    ensures !Given(Missing) && !Given(Container(true, a))
    ensures Same(Container(false, a), Container(false, b), address) <==> a == b
    ensures Same(Other(a), Other(b), address) <==> a == b
  {
  }

  // ---------- the plan, member by member ----------

  // One execution input against the plan: chain, vault, executor and the signed mandate.
  predicate InputSound(plan: FundingPlan, x: ExecuteInput) {
    && Same(plan.chainId, x.chainId, false) && Same(plan.vault, x.vault, true) && Same(plan.executor, x.from, true)
    && Same(plan.mandate.nonce, x.mandate.nonce, false)
    && Same(plan.mandate.deadline, x.mandate.deadline, false)
    && Same(plan.mandate.authorityEpoch, x.mandate.authorityEpoch, false)
    && Same(plan.mandate.allowedAdaptersRoot, x.mandate.allowedAdaptersRoot, false)
    && Same(plan.mandate.payloadDigest, x.mandate.payloadDigest, false)
    && Same(plan.extensionsHash, x.mandate.extensionsHash, false)
  }

  predicate TransferSound(plan: FundingPlan) {
    && Same(Str(plan.summary.token), plan.call.token, true)
    && Same(Str(plan.summary.to), plan.call.to, true)
    && Same(Str(plan.summary.amount), plan.call.amount, false)
  }

  // The simulated and the prepared execution run the same.
  predicate RunsSame(s: ExecuteInput, p: ExecuteInput) {
    Same(s.actions, p.actions, false) && Same(s.adapterProofs, p.adapterProofs, false)
    && Same(s.extensions, p.extensions, false)
  }

  predicate HeaderSound(plan: FundingPlan) {
    && NormalizeValue(plan.payloadBinding, false) == Some("actionsDigest")
    && Given(plan.typedData) && Given(plan.actionsDigest)
    && Same(plan.vault, plan.mandate.vault, true) && Same(plan.executor, plan.mandate.executor, true)
    && Same(plan.extensionsHash, plan.mandate.extensionsHash, false)
  }

  /** A sound plan: the payload is bound to the actions digest; what is called is what the summary
      shows; what is simulated is what is prepared; and both agree with the context and the signed
      mandate. */
  predicate PlanSound(plan: FundingPlan) {
    && HeaderSound(plan) && TransferSound(plan)
    && plan.simulate.Some? && InputSound(plan, plan.simulate.value)
    && plan.prepare.Some? && InputSound(plan, plan.prepare.value)
    && RunsSame(plan.simulate.value, plan.prepare.value)
  }

  // A field is agreed on when all its sources are the same as its first.
  lemma AgreedIff(f: Field)
    ensures Agreed(f)
            <==> f.sources != []
                 && forall i :: 0 <= i < |f.sources| ==> Same(f.sources[0].value, f.sources[i].value, f.address)
  {
    hide NormalizeValue;
    if Agreed(f) {
      var v :| AgreesOn(f, v);
      assert Holds(f, 0, v);
      forall i | 0 <= i < |f.sources|
        ensures Same(f.sources[0].value, f.sources[i].value, f.address)
      {
        assert Holds(f, i, v);
      }
    }
    if f.sources != [] && forall i :: 0 <= i < |f.sources| ==> Same(f.sources[0].value, f.sources[i].value, f.address) {
      assert Same(f.sources[0].value, f.sources[0].value, f.address);
      var v := NormalizeValue(f.sources[0].value, f.address).value;
      forall i: nat | i < |f.sources|
        ensures Holds(f, i, v)
      {
        assert Same(f.sources[0].value, f.sources[i].value, f.address);
      }
      assert AgreesOn(f, v);
    }
  }

  lemma FewSources(f: Field)
    requires 1 <= |f.sources| <= 4
    ensures var s := f.sources;
            Agreed(f) <==> && NormalizeValue(s[0].value, f.address).Some?
                           && (|s| > 1 ==> Same(s[0].value, s[1].value, f.address))
                           && (|s| > 2 ==> Same(s[0].value, s[2].value, f.address))
                           && (|s| > 3 ==> Same(s[0].value, s[3].value, f.address))
  {
    hide NormalizeValue;
    AgreedIff(f);
  }

  ghost predicate AllAgreed(fields: seq<Field>) {
    forall f :: f in fields ==> Agreed(f)
  }

  lemma FiveAgreed(fs: seq<Field>)
    requires |fs| == 5
    ensures AllAgreed(fs) <==> Agreed(fs[0]) && Agreed(fs[1]) && Agreed(fs[2]) && Agreed(fs[3]) && Agreed(fs[4])
  {
    hide Agreed;
    assert fs == [fs[0], fs[1], fs[2], fs[3], fs[4]];
  }

  lemma TransferAgreed(plan: FundingPlan)
    ensures AllAgreed(TransferFields(plan)) <==> TransferSound(plan)
  {
    hide Agreed, NormalizeValue;
    var fs := TransferFields(plan);
    FewSources(fs[0]);
    FewSources(fs[1]);
    FewSources(fs[2]);
    assert AllAgreed(fs) <==> Agreed(fs[0]) && Agreed(fs[1]) && Agreed(fs[2]);
  }

  lemma ContextAgreed(plan: FundingPlan, s: ExecuteInput, p: ExecuteInput)
    requires plan.simulate == Some(s) && plan.prepare == Some(p)
    ensures AllAgreed(ContextFields(plan))
            <==> && Given(plan.payloadBinding) && Given(plan.typedData)
                 && Same(plan.chainId, s.chainId, false) && Same(plan.chainId, p.chainId, false)
                 && Same(plan.vault, plan.mandate.vault, true)
                 && Same(plan.vault, s.vault, true) && Same(plan.vault, p.vault, true)
                 && Same(plan.executor, plan.mandate.executor, true)
                 && Same(plan.executor, s.from, true) && Same(plan.executor, p.from, true)
  {
    hide Agreed, NormalizeValue, AllAgreed;
    var fs := ContextFields(plan);
    FiveAgreed(fs);
    FewSources(fs[0]);
    FewSources(fs[1]);
    FewSources(fs[2]);
    FewSources(fs[3]);
    FewSources(fs[4]);
  }

  lemma MandateAgreed(plan: FundingPlan, s: ExecuteInput, p: ExecuteInput)
    requires plan.simulate == Some(s) && plan.prepare == Some(p)
    ensures var m := plan.mandate;
            AllAgreed(MandateFields(plan))
            <==> && Same(m.nonce, s.mandate.nonce, false) && Same(m.nonce, p.mandate.nonce, false)
                 && Same(m.deadline, s.mandate.deadline, false) && Same(m.deadline, p.mandate.deadline, false)
                 && Same(m.authorityEpoch, s.mandate.authorityEpoch, false)
                 && Same(m.authorityEpoch, p.mandate.authorityEpoch, false)
                 && Same(m.allowedAdaptersRoot, s.mandate.allowedAdaptersRoot, false)
                 && Same(m.allowedAdaptersRoot, p.mandate.allowedAdaptersRoot, false)
                 && Same(m.payloadDigest, s.mandate.payloadDigest, false)
                 && Same(m.payloadDigest, p.mandate.payloadDigest, false)
  {
    hide Agreed, NormalizeValue, AllAgreed;
    var fs := MandateFields(plan);
    FiveAgreed(fs);
    FewSources(fs[0]);
    FewSources(fs[1]);
    FewSources(fs[2]);
    FewSources(fs[3]);
    FewSources(fs[4]);
  }

  lemma RunAgreed(plan: FundingPlan, s: ExecuteInput, p: ExecuteInput)
    requires plan.simulate == Some(s) && plan.prepare == Some(p)
    ensures AllAgreed(RunFields(plan))
            <==> && Given(plan.actionsDigest)
                 && Same(plan.extensionsHash, plan.mandate.extensionsHash, false)
                 && Same(plan.extensionsHash, s.mandate.extensionsHash, false)
                 && Same(plan.extensionsHash, p.mandate.extensionsHash, false)
                 && RunsSame(s, p)
  {
    hide Agreed, NormalizeValue, AllAgreed;
    var fs := RunFields(plan);
    FiveAgreed(fs);
    FewSources(fs[0]);
    FewSources(fs[1]);
    FewSources(fs[2]);
    FewSources(fs[3]);
    FewSources(fs[4]);
  }

  lemma GroupsAgreed(plan: FundingPlan)
    ensures BindingSound(plan)
            <==> && AllAgreed(ContextFields(plan)) && AllAgreed(TransferFields(plan))
                 && AllAgreed(MandateFields(plan)) && AllAgreed(RunFields(plan))
                 && NormalizeValue(plan.payloadBinding, false) == Some("actionsDigest")
  {
    hide Agreed, ContextFields, TransferFields, MandateFields, RunFields, NormalizeValue;
    var f := PayloadBinding(plan);
    assert AgreesOn(f, "actionsDigest") <==> NormalizeValue(plan.payloadBinding, false) == Some("actionsDigest") by {
      hide *;
      BindingAgrees(plan);
    }
  }

  lemma BindingAgrees(plan: FundingPlan)
    ensures AgreesOn(PayloadBinding(plan), "actionsDigest")
            <==> NormalizeValue(plan.payloadBinding, false) == Some("actionsDigest")
  {
    hide NormalizeValue;
    var f := PayloadBinding(plan);
    assert Holds(f, 0, "actionsDigest") <==> NormalizeValue(plan.payloadBinding, false) == Some("actionsDigest");
  }

  /** The check of the required fields asks for exactly a sound plan. */
  lemma BindingSoundIff(plan: FundingPlan)
    ensures BindingSound(plan) <==> PlanSound(plan)
  {
    hide BindingSound, AllAgreed, Same, NormalizeValue, ContextFields, MandateFields, TransferFields;
    GroupsAgreed(plan);
    TransferAgreed(plan);
    if plan.simulate.Some? && plan.prepare.Some? {
      ContextAgreed(plan, plan.simulate.value, plan.prepare.value);
      MandateAgreed(plan, plan.simulate.value, plan.prepare.value);
      RunAgreed(plan, plan.simulate.value, plan.prepare.value);
    } else {
      InputsNeeded(plan);
    }
  }

  lemma InputsNeeded(plan: FundingPlan)
    requires plan.simulate == None || plan.prepare == None
    ensures !AllAgreed(RunFields(plan))
  {
    hide Agreed, AllAgreed;
    var fs := RunFields(plan);
    FiveAgreed(fs);
    FewSources(fs[4]);
  }

  // ---------- the verdict ----------

  // The run ends with PASS.
  predicate Passes(x: Inputs) {
    StrongEnough(x) && FirstOccurrences(AllReasons(x)) == []
  }

  // The tools a PASS needs.
  predicate ToolsOffered(tools: set<string>) {
    && (|| "vault_bootstrap" in tools
        || ("factory_predict_vault_address" in tools && "factory_create_vault_prepare" in tools
            && "vault_health_check" in tools))
    && "vault_asset_transfer_result_create" in tools && "agent_fund_and_action_session_apply_event" in tools
    && "agent_fund_and_action_session_next_step" in tools
  }

  /** What a PASS means: no reason came from the configuration, the runtime offers its tools, the plan
      is sound in all its members, and the session moved with the transfer that was created. */
  lemma PassMeans(x: Inputs)
    ensures Passes(x)
            <==> && x.configured && x.configReasons == [] && ToolsOffered(x.tools)
                 && x.collected.Completed? && PlanSound(x.collected.plan)
                 && TransitionSound(x.collected.created, x.collected.initial, x.collected.applied, x.collected.next,
                                    x.collected.plan.summary)
  {
    hide BindingSound, PlanSound, TransitionSound, RuntimeReady, StrongEnough, AllReasons;
    PassIff(x);
    ReadyIff(x.tools);
    if x.collected.Completed? {
      BindingSoundIff(x.collected.plan);
    }
  }

  // ---------- changing one member of the plan ----------

  datatype PlanMember = ChainId | Vault | Executor | Binding | TypedData | ActionsDigest | ExtensionsHash

  datatype MandateMember =
    | MandateVault | MandateExecutor | Nonce | Deadline | AuthorityEpoch | AdaptersRoot | PayloadDigest
    | MandateExtensions

  datatype InputMember = InputChainId | InputVault | InputFrom | Actions | AdapterProofs | Extensions

  datatype TransferMember = Token | To | Amount

  datatype Place = Signed | Simulated | Prepared

  // One member of the plan gets another value; the summary holds text only.
  datatype Change =
    | InPlan(member: PlanMember, value: Raw)
    | InMandate(place: Place, part: MandateMember, value: Raw)
    | InInput(prepared: bool, entry: InputMember, value: Raw)
    | InCall(transfer: TransferMember, value: Raw)
    | InSummary(transfer: TransferMember, text: string)

  function PutPlan(plan: FundingPlan, k: PlanMember, v: Raw): FundingPlan {
    match k
    case ChainId => plan.(chainId := v)
    case Vault => plan.(vault := v)
    case Executor => plan.(executor := v)
    case Binding => plan.(payloadBinding := v)
    case TypedData => plan.(typedData := v)
    case ActionsDigest => plan.(actionsDigest := v)
    case ExtensionsHash => plan.(extensionsHash := v)
  }

  function GetPlan(plan: FundingPlan, k: PlanMember): Raw {
    match k
    case ChainId => plan.chainId
    case Vault => plan.vault
    case Executor => plan.executor
    case Binding => plan.payloadBinding
    case TypedData => plan.typedData
    case ActionsDigest => plan.actionsDigest
    case ExtensionsHash => plan.extensionsHash
  }

  function PutMandate(m: Mandate, k: MandateMember, v: Raw): Mandate {
    match k
    case MandateVault => m.(vault := v)
    case MandateExecutor => m.(executor := v)
    case Nonce => m.(nonce := v)
    case Deadline => m.(deadline := v)
    case AuthorityEpoch => m.(authorityEpoch := v)
    case AdaptersRoot => m.(allowedAdaptersRoot := v)
    case PayloadDigest => m.(payloadDigest := v)
    case MandateExtensions => m.(extensionsHash := v)
  }

  function GetMandate(m: Mandate, k: MandateMember): Raw {
    match k
    case MandateVault => m.vault
    case MandateExecutor => m.executor
    case Nonce => m.nonce
    case Deadline => m.deadline
    case AuthorityEpoch => m.authorityEpoch
    case AdaptersRoot => m.allowedAdaptersRoot
    case PayloadDigest => m.payloadDigest
    case MandateExtensions => m.extensionsHash
  }

  function PutInput(x: ExecuteInput, k: InputMember, v: Raw): ExecuteInput {
    match k
    case InputChainId => x.(chainId := v)
    case InputVault => x.(vault := v)
    case InputFrom => x.(from := v)
    case Actions => x.(actions := v)
    case AdapterProofs => x.(adapterProofs := v)
    case Extensions => x.(extensions := v)
  }

  function GetInput(x: ExecuteInput, k: InputMember): Raw {
    match k
    case InputChainId => x.chainId
    case InputVault => x.vault
    case InputFrom => x.from
    case Actions => x.actions
    case AdapterProofs => x.adapterProofs
    case Extensions => x.extensions
  }

  function PutCall(t: Transfer, k: TransferMember, v: Raw): Transfer {
    match k
    case Token => t.(token := v)
    case To => t.(to := v)
    case Amount => t.(amount := v)
  }

  function GetCall(t: Transfer, k: TransferMember): Raw {
    match k
    case Token => t.token
    case To => t.to
    case Amount => t.amount
  }

  function PutSummary(s: PlanSummary, k: TransferMember, text: string): PlanSummary {
    match k
    case Token => s.(token := text)
    case To => s.(to := text)
    case Amount => s.(amount := text)
  }

  function GetSummary(s: PlanSummary, k: TransferMember): string {
    match k
    case Token => s.token
    case To => s.to
    case Amount => s.amount
  }

  predicate HasInputs(plan: FundingPlan) {
    plan.simulate.Some? && plan.prepare.Some?
  }

  function Changed(plan: FundingPlan, c: Change): FundingPlan
    requires HasInputs(plan)
  {
    var s, p := plan.simulate.value, plan.prepare.value;
    match c
    case InPlan(k, v) => PutPlan(plan, k, v)
    case InMandate(Signed, k, v) => plan.(mandate := PutMandate(plan.mandate, k, v))
    case InMandate(Simulated, k, v) => plan.(simulate := Some(s.(mandate := PutMandate(s.mandate, k, v))))
    case InMandate(Prepared, k, v) => plan.(prepare := Some(p.(mandate := PutMandate(p.mandate, k, v))))
    case InInput(prepared, k, v) =>
      if prepared then plan.(prepare := Some(PutInput(p, k, v))) else plan.(simulate := Some(PutInput(s, k, v)))
    case InCall(k, v) => plan.(call := PutCall(plan.call, k, v))
    case InSummary(k, text) => plan.(summary := PutSummary(plan.summary, k, text))
  }

  function MandateAt(plan: FundingPlan, place: Place): Mandate
    requires HasInputs(plan)
  {
    match place
    case Signed => plan.mandate
    case Simulated => plan.simulate.value.mandate
    case Prepared => plan.prepare.value.mandate
  }

  predicate SameForm(a: Raw, b: Raw, address: bool) {
    NormalizeValue(a, address) == NormalizeValue(b, address)
  }

  // The new value counts as the one it replaces. Two values stand alone and only have to be there,
  // and nobody looks at the vault and the executor inside the simulated and the prepared mandate.
  predicate Harmless(plan: FundingPlan, c: Change)
    requires HasInputs(plan)
  {
    match c
    case InPlan(k, v) =>
      if k == TypedData || k == ActionsDigest then Given(v)
      else SameForm(v, GetPlan(plan, k), k == Vault || k == Executor)
    case InMandate(place, k, v) =>
      var address := k == MandateVault || k == MandateExecutor;
      (address && place != Signed) || SameForm(v, GetMandate(MandateAt(plan, place), k), address)
    case InInput(prepared, k, v) =>
      var x := if prepared then plan.prepare.value else plan.simulate.value;
      SameForm(v, GetInput(x, k), k == InputVault || k == InputFrom)
    case InCall(k, v) => SameForm(v, GetCall(plan.call, k), k != Amount)
    case InSummary(k, text) =>
      if k == Amount then text == plan.summary.amount else SameText(text, GetSummary(plan.summary, k))
  }

  lemma PlanChange(plan: FundingPlan, k: PlanMember, v: Raw)
    requires PlanSound(plan)
    ensures PlanSound(PutPlan(plan, k, v)) <==> Harmless(plan, InPlan(k, v))
  {
    hide NormalizeValue;
  }

  lemma SignedChange(plan: FundingPlan, k: MandateMember, v: Raw)
    requires PlanSound(plan)
    ensures PlanSound(Changed(plan, InMandate(Signed, k, v))) <==> Harmless(plan, InMandate(Signed, k, v))
  {
    hide NormalizeValue;
  }

  lemma SimulatedChange(plan: FundingPlan, k: MandateMember, v: Raw)
    requires PlanSound(plan)
    ensures PlanSound(Changed(plan, InMandate(Simulated, k, v))) <==> Harmless(plan, InMandate(Simulated, k, v))
  {
    hide NormalizeValue;
  }

  lemma PreparedChange(plan: FundingPlan, k: MandateMember, v: Raw)
    requires PlanSound(plan)
    ensures PlanSound(Changed(plan, InMandate(Prepared, k, v))) <==> Harmless(plan, InMandate(Prepared, k, v))
  {
    hide NormalizeValue;
  }

  lemma InputChange(plan: FundingPlan, prepared: bool, k: InputMember, v: Raw)
    requires PlanSound(plan)
    ensures PlanSound(Changed(plan, InInput(prepared, k, v))) <==> Harmless(plan, InInput(prepared, k, v))
  {
    hide NormalizeValue;
  }

  lemma CallChange(plan: FundingPlan, k: TransferMember, v: Raw)
    requires PlanSound(plan)
    ensures PlanSound(Changed(plan, InCall(k, v))) <==> Harmless(plan, InCall(k, v))
  {
    hide NormalizeValue;
  }

  // Texts that differ in case only have one address form.
  lemma SameTextSameForm(s: string, t: string)
    requires Lower(s) == Lower(t)
    ensures NormalizeValue(Str(s), true) == NormalizeValue(Str(t), true)
  {
    hide Strip, Lower;
    StripLower(s);
    StripLower(t);
    assert |Lower(Strip(s))| == |Strip(s)| && |Lower(Strip(t))| == |Strip(t)|;
  }

  lemma SummaryChange(x: Inputs, k: TransferMember, text: string)
    requires x.collected.Completed? && PlanSound(x.collected.plan)
    requires var c := x.collected; TransitionSound(c.created, c.initial, c.applied, c.next, c.plan.summary)
    ensures var c, changed := x.collected, Changed(x.collected.plan, InSummary(k, text));
            PlanSound(changed) && TransitionSound(c.created, c.initial, c.applied, c.next, changed.summary)
            <==> Harmless(c.plan, InSummary(k, text))
  {
    hide NormalizeValue, Lower, SameText;
    var former := GetSummary(x.collected.plan.summary, k);
    CaseForms(text, former);
    if Lower(text) == Lower(former) {
      SameTextSameForm(text, former);
    }
  }

  /** A PASS depends on every member of the plan: after changing any one of them to any other value the
      check still passes if and only if the new value counts as the old one (in the summary, differs in
      the case of an address at most); the digest of the actions and the typed data need only be
      there, and the vault and executor inside the simulated and prepared mandates are not looked at. */
  lemma OneChange(x: Inputs, c: Change)
    requires Passes(x)
    ensures x.collected.Completed? && HasInputs(x.collected.plan)
    ensures Passes(x.(collected := x.collected.(plan := Changed(x.collected.plan, c)))) <==> Harmless(x.collected.plan, c)
  {
    hide Passes, PlanSound, TransitionSound, Harmless, ToolsOffered, PutPlan;
    PassMeans(x);
    var plan := x.collected.plan;
    assert HasInputs(plan) by {
      assert PlanSound(plan);
      NeedsInputs(plan);
    }
    PassMeans(x.(collected := x.collected.(plan := Changed(plan, c))));
    if !c.InSummary? {
      KeepsSummary(plan, c);
    }
    match c
    case InPlan(k, v) => PlanChange(plan, k, v);
    case InMandate(Signed, k, v) => SignedChange(plan, k, v);
    case InMandate(Simulated, k, v) => SimulatedChange(plan, k, v);
    case InMandate(Prepared, k, v) => PreparedChange(plan, k, v);
    case InInput(prepared, k, v) => InputChange(plan, prepared, k, v);
    case InCall(k, v) => CallChange(plan, k, v);
    case InSummary(k, text) => SummaryChange(x, k, text);
  }

  lemma NeedsInputs(plan: FundingPlan)
    requires PlanSound(plan)
    ensures HasInputs(plan)
  {
  }

  lemma KeepsSummary(plan: FundingPlan, c: Change)
    requires HasInputs(plan) && !c.InSummary?
    ensures Changed(plan, c).summary == plan.summary
  {
  }
}
