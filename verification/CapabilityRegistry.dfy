/** The assistant's capabilities, and how a company's profile decides on them. */
module CapabilityRegistry {
  import opened Wrappers

  datatype Preset = Advisory | Executor | Supervisor

  datatype Decision = Allow | ApprovalRequired | Deny

  datatype Risk = L0 | L1 | L2 | L3 | L4 | F

  datatype Capability = Capability(
    id: string,
    risk: Risk,
    advisory: Decision,
    executor: Decision,
    supervisor: Decision,
    temporaryGrantAllowed: bool
  )

  const CRM: seq<Capability> := [
    Capability("crm.dashboard.read", L0, Allow, Allow, Allow, false),
    Capability("crm.customer.read", L0, Allow, Allow, Allow, false),
    Capability("crm.customer.note.write", L1, Deny, Allow, Allow, false),
    Capability("crm.customer.stage.write", L1, Deny, Allow, Allow, false),
    Capability("crm.customer.create", L2, Deny, ApprovalRequired, Allow, false),
    Capability("crm.customer.update", L2, Deny, ApprovalRequired, Allow, false),
    Capability("crm.customer.merge", L4, Deny, ApprovalRequired, ApprovalRequired, false),
    Capability("crm.customer.delete", L4, Deny, ApprovalRequired, ApprovalRequired, false)
  ]

  const ORDERS: seq<Capability> := [
    Capability("crm.order.read", L0, Allow, Allow, Allow, false),
    Capability("crm.order.draft.write", L2, Deny, ApprovalRequired, Allow, false),
    Capability("crm.order.status.write", L2, Deny, ApprovalRequired, Allow, false),
    Capability("crm.order.status.critical", L4, Deny, ApprovalRequired, ApprovalRequired, false),
    Capability("crm.order.cancel", L4, Deny, ApprovalRequired, ApprovalRequired, false)
  ]

  const QUOTES: seq<Capability> := [
    Capability("crm.quote.read", L0, Allow, Allow, Allow, false),
    Capability("crm.product.read", L0, Allow, Allow, Allow, false),
    Capability("crm.quote.draft.write", L2, Deny, ApprovalRequired, Allow, false),
    Capability("crm.quote.render", L1, Deny, Allow, Allow, false),
    Capability("crm.quote.send", L3, Deny, ApprovalRequired, Allow, true)
  ]

  const MESSAGES: seq<Capability> := [
    Capability("crm.message.draft", L1, Allow, Allow, Allow, false),
    Capability("crm.message.read", L0, Allow, Allow, Allow, false),
    Capability("crm.email.read", L0, Allow, Allow, Allow, false),
    Capability("crm.message.send", L3, Deny, ApprovalRequired, Allow, true),
    Capability("crm.email.send", L3, Deny, ApprovalRequired, Allow, true)
  ]

  const OTHERS: seq<Capability> := [
    Capability("crm.task.write", L1, Deny, Allow, Allow, false),
    Capability("crm.research.start", L1, Deny, Allow, Allow, false),
    Capability("channel.wechat.manage", L4, Deny, ApprovalRequired, ApprovalRequired, false),
    Capability("infrastructure.shell", F, Deny, Deny, Deny, false),
    Capability("infrastructure.sql", F, Deny, Deny, Deny, false),
    Capability("infrastructure.secrets", F, Deny, Deny, Deny, false)
  ]

  const CAPABILITIES: seq<Capability> := CRM + ORDERS + QUOTES + MESSAGES + OTHERS

  /** A map built from a list: a later entry of an id wins. */
  function Lookup(list: seq<Capability>, id: string): Option<Capability> {
    if list == [] then None
    else if list[|list| - 1].id == id then Some(list[|list| - 1])
    else Lookup(list[..|list| - 1], id)
  }

  function GetCapability(id: string): Option<Capability> { Lookup(CAPABILITIES, id) }

  lemma {:induction false} LookupFinds(list: seq<Capability>, id: string)
    ensures match Lookup(list, id)
            case Some(c) => c in list && c.id == id
            case None => forall c :: c in list ==> c.id != id
  {
    if list != [] {
      LookupFinds(list[..|list| - 1], id);
      assert list == list[..|list| - 1] + [list[|list| - 1]];
    }
  }

  function Default(c: Capability, preset: Preset): Decision {
    match preset case Advisory => c.advisory case Executor => c.executor case Supervisor => c.supervisor
  }

  type Overrides = map<string, Decision>

  function Requested(c: Capability, preset: Preset, overrides: Overrides): Decision {
    if c.id in overrides then overrides[c.id] else Default(c, preset)
  }

  /** `resolveAssistantCapabilityDecision`. */
  function Resolve(preset: Preset, id: string, overrides: Overrides, hasGrant: bool): Decision {
    match GetCapability(id)
    case None => Deny
    case Some(c) =>
      if c.risk.F? then Deny
      else
        var requested := Requested(c, preset, overrides);
        if c.risk.L4? && requested.Allow? then ApprovalRequired
        else if hasGrant && c.temporaryGrantAllowed && requested.ApprovalRequired? then Allow
        else requested
  }

  lemma {:induction false} LookupLast(list: seq<Capability>, n: nat, id: string)
    requires n < |list| && list[n].id == id && forall i :: n < i < |list| ==> list[i].id != id
    ensures Lookup(list, id) == Some(list[n])
  {
    if n < |list| - 1 { LookupLast(list[..|list| - 1], n, id); }
  }

  /** Sending an email is a capability open to grants. */
  lemma EmailSend()
    ensures GetCapability("crm.email.send") == Some(Capability("crm.email.send", L3, Deny, ApprovalRequired, Allow, true))
  {
    var n := |CRM| + |ORDERS| + |QUOTES| + 4;
    assert CAPABILITIES[n] == MESSAGES[4];
    forall i | n < i < |CAPABILITIES| ensures CAPABILITIES[i].id != "crm.email.send" {
      assert CAPABILITIES[i] == OTHERS[i - n - 1];
      OthersDiffer(i - n - 1);
    }
    LookupLast(CAPABILITIES, n, "crm.email.send");
  }

  lemma OthersDiffer(k: nat)
    requires k < |OTHERS|
    ensures OTHERS[k].id != "crm.email.send"
  {
    assert "crm.email.send"[4] == 'e' && "crm.task.write"[4] == 't' && "crm.research.start"[4] == 'r';
    assert "channel.wechat.manage"[4] == 'n' && "infrastructure.shell"[4] == 'a' && "infrastructure.sql"[4] == 'a' && "infrastructure.secrets"[4] == 'a';
  }

  // ---------------------------------------------------------------- what the table promises

  function Rank(d: Decision): nat { match d case Deny => 0 case ApprovalRequired => 1 case Allow => 2 }

  /**
   The risk alone tells what the presets decide and that exactly L3 is open to grants, but for drafting a
   message, which an adviser may do; so presets widen in order.
   */
  predicate Sound(c: Capability) {
    && (c.temporaryGrantAllowed <==> c.risk.L3?)
    && (match c.risk
        case L0 => c.advisory.Allow? && c.executor.Allow? && c.supervisor.Allow?
        case L1 => (c.advisory == if c.id == "crm.message.draft" then Allow else Deny) && c.executor.Allow? && c.supervisor.Allow?
        case L2 => c.advisory.Deny? && c.executor.ApprovalRequired? && c.supervisor.Allow?
        case L3 => c.advisory.Deny? && c.executor.ApprovalRequired? && c.supervisor.Allow?
        case L4 => c.advisory.Deny? && c.executor.ApprovalRequired? && c.supervisor.ApprovalRequired?
        case F => c.advisory.Deny? && c.executor.Deny? && c.supervisor.Deny?)
    && Rank(c.advisory) <= Rank(c.executor) <= Rank(c.supervisor)
  }

  lemma FoundSound(id: string)
    ensures GetCapability(id).Some? ==> GetCapability(id).value.id == id && Sound(GetCapability(id).value)
  {
    LookupFinds(CAPABILITIES, id);
    hide Sound;
    if GetCapability(id).Some? { TableSound(GetCapability(id).value); }
  }

  lemma TableSound(c: Capability)
    requires c in CAPABILITIES
    ensures Sound(c)
  {
    if c in CRM { CrmSound(c); }
    else if c in ORDERS { OrdersSound(c); }
    else if c in QUOTES { QuotesSound(c); }
    else if c in MESSAGES { MessagesSound(c); }
    else { OthersSound(c); }
  }

  lemma CrmSound(c: Capability)
    requires c in CRM
    ensures Sound(c)
  {
    assert forall i :: 0 <= i < |CRM| ==> Sound(CRM[i]);
  }

  lemma OrdersSound(c: Capability)
    requires c in ORDERS
    ensures Sound(c)
  {
    assert forall i :: 0 <= i < |ORDERS| ==> Sound(ORDERS[i]);
  }

  lemma QuotesSound(c: Capability)
    requires c in QUOTES
    ensures Sound(c)
  {
    assert forall i :: 0 <= i < |QUOTES| ==> Sound(QUOTES[i]);
  }

  lemma MessagesSound(c: Capability)
    requires c in MESSAGES
    ensures Sound(c)
  {
    assert forall i :: 0 <= i < |MESSAGES| ==> Sound(MESSAGES[i]);
  }

  lemma OthersSound(c: Capability)
    requires c in OTHERS
    ensures Sound(c)
  {
    assert forall i :: 0 <= i < |OTHERS| ==> Sound(OTHERS[i]);
  }

  predicate Critical(id: string) { GetCapability(id).Some? && (GetCapability(id).value.risk.L4? || GetCapability(id).value.risk.F?) }

  /** Whatever the preset, the overrides and the grants: nothing of risk L4 or F is ever allowed outright. */
  lemma NeverAllowsCritical(preset: Preset, id: string, overrides: Overrides, hasGrant: bool)
    requires Critical(id)
    ensures !Resolve(preset, id, overrides, hasGrant).Allow?
  {
    FoundSound(id);
    hide GetCapability;
  }

  /**
   A decision in full: unknown capabilities and risk F are denied; otherwise the override, or else the
   preset, decides, but that L4 is never allowed outright and that a grant stands in for an approval of L3.
   */
  lemma ResolveMeaning(preset: Preset, id: string, overrides: Overrides, hasGrant: bool)
    ensures var r := Resolve(preset, id, overrides, hasGrant);
      match GetCapability(id)
      case None => r == Deny
      case Some(c) =>
        var asked := if id in overrides then overrides[id] else if preset.Advisory? then c.advisory else if preset.Executor? then c.executor else c.supervisor;
        && (c.risk.F? || asked.Deny? ==> r == Deny)
        && (!c.risk.F? && asked.Allow? ==> r == if c.risk.L4? then ApprovalRequired else Allow)
        && (!c.risk.F? && asked.ApprovalRequired? ==> r == if hasGrant && c.risk.L3? then Allow else ApprovalRequired)
  {
    FoundSound(id);
    hide GetCapability;
  }

  /** A grant makes a difference exactly where approval is required of a capability open to grants: it allows it. */
  lemma GrantEffect(preset: Preset, id: string, overrides: Overrides)
    ensures var c, with, without := GetCapability(id), Resolve(preset, id, overrides, true), Resolve(preset, id, overrides, false);
      && (with != without <==> c.Some? && c.value.temporaryGrantAllowed && Requested(c.value, preset, overrides).ApprovalRequired?)
      && (with != without ==> with.Allow? && without.ApprovalRequired?)
  {
    FoundSound(id);
    hide GetCapability;
  }

  /** A wider preset never decides more strictly. */
  lemma PresetsOrdered(id: string, overrides: Overrides, hasGrant: bool)
    ensures Rank(Resolve(Advisory, id, overrides, hasGrant)) <= Rank(Resolve(Executor, id, overrides, hasGrant))
         <= Rank(Resolve(Supervisor, id, overrides, hasGrant))
  {
    FoundSound(id);
    hide GetCapability;
  }

  // ---------------------------------------------------------------- overrides

  datatype OverrideError = UnknownCapability(id: string) | InvalidDecision(id: string)

  /** An own property of the overrides object; its value is None unless it is one of the three decisions. */
  datatype Override = Override(id: string, decision: Option<Decision>)

  ghost predicate DistinctIds(entries: seq<Override>) { forall i, j :: 0 <= i < j < |entries| ==> entries[i].id != entries[j].id }

  predicate ValidOverride(e: Override) { GetCapability(e.id).Some? && e.decision.Some? }

  function ErrorOf(e: Override): OverrideError { if GetCapability(e.id).None? then UnknownCapability(e.id) else InvalidDecision(e.id) }

  function Capped(c: Capability, d: Decision): Decision {
    if c.risk.F? then Deny else if c.risk.L4? && d.Allow? then ApprovalRequired else d
  }

  ghost predicate AllValid(entries: seq<Override>) { forall i :: 0 <= i < |entries| ==> ValidOverride(entries[i]) }

  function CappedBy(e: Override): Decision
    requires ValidOverride(e)
  {
    Capped(GetCapability(e.id).value, e.decision.value)
  }

  ghost function Normalized(entries: seq<Override>): Overrides
    requires AllValid(entries)
  {
    if entries == [] then map[]
    else
      var last := |entries| - 1;
      Normalized(entries[..last])[entries[last].id := CappedBy(entries[last])]
  }

  /** The stored overrides are those entered, each capped by its risk. */
  lemma {:induction false} NormalizedEntries(entries: seq<Override>)
    requires AllValid(entries) && DistinctIds(entries)
    ensures forall i :: 0 <= i < |entries| ==> entries[i].id in Normalized(entries) && Normalized(entries)[entries[i].id] == CappedBy(entries[i])
    ensures forall id :: id in Normalized(entries) ==> exists i :: 0 <= i < |entries| && entries[i].id == id
  {
    hide CappedBy, ValidOverride;
    if entries != [] {
      var front := entries[..|entries| - 1];
      NormalizedEntries(front);
      forall id | id in Normalized(entries) ensures exists i :: 0 <= i < |entries| && entries[i].id == id {
        if id in Normalized(front) {
          var i :| 0 <= i < |front| && front[i].id == id;
          assert entries[i].id == id;
        }
      }
    }
  }

  /** All overrides, capped by risk; or the error of the first one that is not valid. */
  method ValidateOverrides(entries: seq<Override>) returns (r: Result<Overrides, OverrideError>)
    ensures AllValid(entries) ==> r == Success(Normalized(entries))
    ensures !AllValid(entries) ==> exists n :: 0 <= n < |entries| && !ValidOverride(entries[n]) && AllValid(entries[..n]) && r == Failure(ErrorOf(entries[n]))
  {
    hide CappedBy, GetCapability, ErrorOf;
    var normalized: Overrides := map[];
    for n := 0 to |entries|
      invariant AllValid(entries[..n]) && normalized == Normalized(entries[..n])
    {
      var e := entries[n];
      if GetCapability(e.id).None? || e.decision.None? {
        assert !ValidOverride(e);
        return Failure(ErrorOf(e));
      }
      assert entries[..n + 1][..n] == entries[..n];
      normalized := normalized[e.id := CappedBy(e)];
    }
    assert entries[..|entries|] == entries;
    return Success(normalized);
  }

  /** Capping changes no decision: the profile decides by stored overrides as it would by those entered. */
  lemma CappingKeepsDecisions(preset: Preset, id: string, entered: Overrides, stored: Overrides, hasGrant: bool)
    requires stored.Keys == entered.Keys
    requires id in entered && GetCapability(id).Some? ==> stored[id] == Capped(GetCapability(id).value, entered[id])
    ensures Resolve(preset, id, stored, hasGrant) == Resolve(preset, id, entered, hasGrant)
  {
    FoundSound(id);
    hide GetCapability;
  }
}
