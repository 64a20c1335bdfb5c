/** The field names of a PATCH body, and the columns they select. */
module ConfigNames {
  import opened PodConfig
  import opened Options

  function QuantityName(q: Quantity): string {
    match q
    case CapPrimary => "cap_primary"
    case CapFallback => "cap_fallback"
    case ColdstartBudget => "coldstart_budget_s"
    case PortBindBudget => "port_bind_budget_s"
    case FailureCooldown => "failure_cooldown_s"
    case MonthlyBudget => "monthly_budget_brl"
    case ScheduleUpHour => "schedule_up_hour"
    case ScheduleDownHour => "schedule_down_hour"
    case GraceRampDown => "grace_ramp_down_s"
    case ProvisionLead => "provision_lead_s"
  }

  function PlainName(p: Plain): string {
    match p
    case Blocklist => "blocklist"
    case Allowlist => "allowlist"
    case HostId => "host_id"
    case RejectPrivateIp => "reject_private_ip"
    case ScheduleDays => "schedule_days"
    case ScheduleDisabled => "schedule_disabled"
  }

  function SideName(s: Side): string {
    if s.Min? then "_min" else "_max"
  }

  function Kind(c: Column): string {
    if c.Bound? then "bound" else "config"
  }

  function Name(c: Column): string {
    match c
    case Field(p) => PlainName(p)
    case Level(q) => QuantityName(q)
    case Bound(q, side) => QuantityName(q) + SideName(side)
  }

  function QuantityNamed(s: string): Option<Quantity> {
    match s
    case "cap_primary" => Some(CapPrimary)
    case "cap_fallback" => Some(CapFallback)
    case "coldstart_budget_s" => Some(ColdstartBudget)
    case "port_bind_budget_s" => Some(PortBindBudget)
    case "failure_cooldown_s" => Some(FailureCooldown)
    case "monthly_budget_brl" => Some(MonthlyBudget)
    case "schedule_up_hour" => Some(ScheduleUpHour)
    case "schedule_down_hour" => Some(ScheduleDownHour)
    case "grace_ramp_down_s" => Some(GraceRampDown)
    case "provision_lead_s" => Some(ProvisionLead)
    case _ => None
  }

  function PlainNamed(s: string): Option<Plain> {
    match s
    case "blocklist" => Some(Blocklist)
    case "allowlist" => Some(Allowlist)
    case "host_id" => Some(HostId)
    case "reject_private_ip" => Some(RejectPrivateIp)
    case "schedule_days" => Some(ScheduleDays)
    case "schedule_disabled" => Some(ScheduleDisabled)
    case _ => None
  }

  function ColumnNamed(kind: string, field: string): Option<Column> {
    match kind
    case "config" =>
      var q, p := QuantityNamed(field), PlainNamed(field);
      if q.Some? then Some(Level(q.value)) else if p.Some? then Some(Field(p.value)) else None
    case "bound" =>
      if |field| < 4 then None
      else
        var q, tail := QuantityNamed(field[..|field| - 4]), field[|field| - 4..];
        if q.None? then None
        else if tail == "_min" then Some(Bound(q.value, Min))
        else if tail == "_max" then Some(Bound(q.value, Max))
        else None
    case _ => None
  }

  lemma QuantityNames(q: Quantity)
    ensures QuantityNamed(QuantityName(q)) == Some(q) && PlainNamed(QuantityName(q)).None?
  {
  }

  lemma PlainNames(p: Plain)
    ensures PlainNamed(PlainName(p)) == Some(p) && QuantityNamed(PlainName(p)).None?
  {
  }

  lemma QuantityNamedIsItsName(s: string)
    ensures QuantityNamed(s).Some? ==> s == QuantityName(QuantityNamed(s).value)
  {
  }

  lemma PlainNamedIsItsName(s: string)
    ensures PlainNamed(s).Some? ==> s == PlainName(PlainNamed(s).value)
  {
  }

  lemma NameSelectsItsColumn(c: Column)
    ensures ColumnNamed(Kind(c), Name(c)) == Some(c)
  {
    match c
    case Field(p) => PlainNames(p);
    case Level(q) => QuantityNames(q);
    case Bound(q, side) =>
      QuantityNames(q);
      var name := QuantityName(q) + SideName(side);
      assert name[..|name| - 4] == QuantityName(q) && name[|name| - 4..] == SideName(side);
  }

  lemma SelectedColumnIsNamed(kind: string, field: string)
    ensures ColumnNamed(kind, field).Some? ==>
              kind == Kind(ColumnNamed(kind, field).value) && field == Name(ColumnNamed(kind, field).value)
  {
    QuantityNamedIsItsName(field);
    PlainNamedIsItsName(field);
    if |field| >= 4 {
      QuantityNamedIsItsName(field[..|field| - 4]);
      assert field == field[..|field| - 4] + field[|field| - 4..];
    }
  }

  /** Each of the 36 columns has one name, and a name selects no other column. */
  lemma NamesSelectColumns(kind: string, field: string, c: Column)
    ensures ColumnNamed(kind, field) == Some(c) <==> kind == Kind(c) && field == Name(c)
  {
    NameSelectsItsColumn(c);
    SelectedColumnIsNamed(kind, field);
  }

  /** The names as they stand in a request; a bound's is its quantity's with a suffix. */
  lemma NamesSpelledOut()
    ensures Name(Level(CapPrimary)) == "cap_primary" && Name(Level(CapFallback)) == "cap_fallback"
    ensures Name(Level(ColdstartBudget)) == "coldstart_budget_s" && Name(Level(PortBindBudget)) == "port_bind_budget_s"
    ensures Name(Level(FailureCooldown)) == "failure_cooldown_s" && Name(Level(MonthlyBudget)) == "monthly_budget_brl"
    ensures Name(Level(ScheduleUpHour)) == "schedule_up_hour" && Name(Level(ScheduleDownHour)) == "schedule_down_hour"
    ensures Name(Level(GraceRampDown)) == "grace_ramp_down_s" && Name(Level(ProvisionLead)) == "provision_lead_s"
    ensures Name(Field(Blocklist)) == "blocklist" && Name(Field(Allowlist)) == "allowlist"
    ensures Name(Field(HostId)) == "host_id" && Name(Field(RejectPrivateIp)) == "reject_private_ip"
    ensures Name(Field(ScheduleDays)) == "schedule_days" && Name(Field(ScheduleDisabled)) == "schedule_disabled"
    ensures forall q :: Name(Bound(q, Min)) == Name(Level(q)) + "_min" && Name(Bound(q, Max)) == Name(Level(q)) + "_max"
  {
  }
}
