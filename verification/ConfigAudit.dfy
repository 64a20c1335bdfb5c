/**
 The dashboard's two update actions: read the live row, validate against it, PATCH
 the gateway, write one audit row. The gateway may validate against a stale snapshot.
 */
module ConfigAudit {
  import opened JsonValues
  import opened PodConfig
  import opened ConfigNames
  import opened ConfigWrite
  import opened Options

  datatype AuditRow = AuditRow(column: Column, old_: Json, new_: Json)

  /** The row and the audit rows written so far. */
  datatype Books = Books(row: Row, audit: seq<AuditRow>)

  datatype Action = Action(column: Column, value: Json, gatewaySnapshot: Row, reply: DbReply)

  predicate Succeeds(b: Books, a: Action) {
    && DashboardAccepts(a.column, a.value, b.row)
    && StatusOf(a.column, a.value, a.gatewaySnapshot, a.reply) == OK
  }

  /** An action the dashboard refuses changes nothing; one the gateway fails writes no audit row. */
  function Acted(b: Books, a: Action): Books
    requires a.column in b.row
  {
    if !DashboardAccepts(a.column, a.value, b.row) then b
    else Books(Patched(b.row, a.column, a.value, a.gatewaySnapshot, a.reply),
               if Succeeds(b, a) then b.audit + [AuditRow(a.column, b.row[a.column], a.value)] else b.audit)
  }

  class Dashboard {
    const gateway: Handler
    var adminAuditLog: seq<AuditRow>

    constructor (gateway: Handler)
      ensures this.gateway == gateway && adminAuditLog == []
    {
      this.gateway := gateway;
      adminAuditLog := [];
    }

    function Current(): Books
      reads this, gateway
    {
      Books(gateway.row, adminAuditLog)
    }

    /** `updatePodConfigCore` and `updatePodConfigBoundCore`; false where they throw. */
    method Update(kind: string, field: string, value: Json, reply: DbReply) returns (ok: bool)
      requires forall c: Column :: c in gateway.row
      modifies this, gateway`row
      ensures var c := ColumnNamed(kind, field);
              if c.None? then !ok && Current() == old(Current())
              else
                var a := Action(c.value, value, gateway.snapshot, reply);
                ok == Succeeds(old(Current()), a) && Current() == Acted(old(Current()), a)
    {
      var c := ColumnNamed(kind, field);
      if c.None? {
        return false;
      }
      var current := gateway.row;
      if !DashboardAccepts(c.value, value, current) {
        return false;
      }
      var status := gateway.ServeHTTP(kind, field, value, reply);
      if status != OK {
        return false;
      }
      adminAuditLog := adminAuditLog + [AuditRow(c.value, current[c.value], value)];
      return true;
    }
  }

  // ---- Runs ----

  ghost predicate Complete(row: Row) {
    forall c: Column :: c in row
  }

  ghost function Run(row: Row, actions: seq<Action>): (b: Books)
    requires Complete(row)
    ensures Complete(b.row)
  {
    if actions == [] then Books(row, [])
    else Acted(Run(row, actions[..|actions| - 1]), actions[|actions| - 1])
  }

  /** Applies the `{field, new}` of every audit row, oldest first. */
  function Replay(row: Row, audit: seq<AuditRow>): Row {
    if audit == [] then row
    else Replay(row, audit[..|audit| - 1])[audit[|audit| - 1].column := audit[|audit| - 1].new_]
  }

  /** The last `new` recorded for a column, or its initial value. */
  function LastNew(row: Row, audit: seq<AuditRow>, c: Column): Json
    requires c in row
  {
    if audit == [] then row[c]
    else if audit[|audit| - 1].column == c then audit[|audit| - 1].new_
    else LastNew(row, audit[..|audit| - 1], c)
  }

  lemma {:induction false} ReplayIsLastNew(row: Row, audit: seq<AuditRow>, c: Column)
    requires c in row
    ensures c in Replay(row, audit) && Replay(row, audit)[c] == LastNew(row, audit, c)
  {
    if audit != [] {
      ReplayIsLastNew(row, audit[..|audit| - 1], c);
    }
  }

  /** The audit log explains the row, and every `old` is the last value recorded before it. */
  ghost predicate Explained(row: Row, b: Books)
    requires Complete(row)
  {
    && Replay(row, b.audit) == b.row
    && (forall k :: 0 <= k < |b.audit| ==>
          b.audit[k].old_ == LastNew(row, b.audit[..k], b.audit[k].column))
  }

  /** Both validators accept, the UPDATE is committed, and the gateway reports a failure. */
  predicate Unreported(b: Books, a: Action) {
    && DashboardAccepts(a.column, a.value, b.row)
    && Validate(a.column, a.value, a.gatewaySnapshot).Some?
    && a.reply == Failed(true)
  }

  /** A successful action stores its value as given; an unreported write stores what was there. */
  predicate Faithful(b: Books, a: Action)
    requires a.column in b.row
  {
    && (Succeeds(b, a) ==> StoredAsGiven(a.column, a.value))
    && (Unreported(b, a) ==> Validate(a.column, a.value, a.gatewaySnapshot).value == b.row[a.column])
  }

  /** A successful action leaves the log explaining the row exactly when its value is stored as given. */
  lemma SuccessExplainedExactly(row: Row, b: Books, a: Action)
    requires Complete(row) && Complete(b.row) && Explained(row, b)
    requires Typed(a.gatewaySnapshot) && Succeeds(b, a)
    ensures Explained(row, Acted(b, a)) <==> StoredAsGiven(a.column, a.value)
  {
    var b' := Acted(b, a);
    assert b'.audit[..|b.audit|] == b.audit;
    StoredUnchangedExactly(a.column, a.value, a.gatewaySnapshot);
    ReplayIsLastNew(row, b.audit, a.column);
    assert Replay(row, b'.audit) == b.row[a.column := a.value];
    forall k | 0 <= k < |b'.audit|
      ensures b'.audit[k].old_ == LastNew(row, b'.audit[..k], b'.audit[k].column)
    {
      if k < |b.audit| {
        assert b'.audit[..k] == b.audit[..k] && b'.audit[k] == b.audit[k];
      }
    }
    if Explained(row, b') {
      assert b'.row[a.column] == b.row[a.column := a.value][a.column];
    }
  }

  /** An action that is not recorded leaves the log explaining the row exactly when it left the row alone. */
  lemma FailureExplainedExactly(row: Row, b: Books, a: Action)
    requires Complete(row) && Complete(b.row) && Explained(row, b) && !Succeeds(b, a)
    ensures Explained(row, Acted(b, a)) <==>
            (Unreported(b, a) ==> Validate(a.column, a.value, a.gatewaySnapshot).value == b.row[a.column])
  {
    var b' := Acted(b, a);
    assert b'.audit == b.audit;
    if Unreported(b, a) {
      var stored := Validate(a.column, a.value, a.gatewaySnapshot).value;
      assert b'.row == b.row[a.column := stored];
      if stored == b.row[a.column] {
        assert b'.row == b.row;
      } else {
        assert b'.row[a.column] != b.row[a.column];
      }
    } else {
      assert b'.row == b.row;
    }
  }

  /** An action leaves the log explaining the row exactly when it is faithful. */
  lemma ActionExplainedExactly(row: Row, b: Books, a: Action)
    requires Complete(row) && Complete(b.row) && Explained(row, b)
    requires Typed(a.gatewaySnapshot)
    ensures Explained(row, Acted(b, a)) <==> Faithful(b, a)
  {
    if Succeeds(b, a) {
      SuccessExplainedExactly(row, b, a);
    } else {
      FailureExplainedExactly(row, b, a);
    }
  }

  /** The log explains the row after every action of the run. */
  ghost predicate AlwaysExplained(row: Row, actions: seq<Action>)
    requires Complete(row)
  {
    Explained(row, Run(row, actions)) && (actions != [] ==> AlwaysExplained(row, actions[..|actions| - 1]))
  }

  /** Every action was faithful when it was taken. */
  ghost predicate AllFaithful(row: Row, actions: seq<Action>)
    requires Complete(row)
  {
    actions != [] ==>
      && AllFaithful(row, actions[..|actions| - 1])
      && Faithful(Run(row, actions[..|actions| - 1]), actions[|actions| - 1])
  }

  /**
   Over a serial run the log explains the row after every action exactly when every
   action of it is faithful.
   */
  lemma {:induction false} EveryRunExplainedExactly(row: Row, actions: seq<Action>)
    requires Complete(row) && forall a :: a in actions ==> Typed(a.gatewaySnapshot)
    ensures AlwaysExplained(row, actions) <==> AllFaithful(row, actions)
  {
    if actions != [] {
      var before, last := actions[..|actions| - 1], actions[|actions| - 1];
      assert last in actions;
      EveryRunExplainedExactly(row, before);
      if Explained(row, Run(row, before)) {
        ActionExplainedExactly(row, Run(row, before), last);
      }
    }
  }

  lemma {:induction false} ReportedRunsAreFaithful(row: Row, actions: seq<Action>)
    requires Complete(row)
    requires forall a :: a in actions ==> StoredAsGiven(a.column, a.value) && a.reply != Failed(true)
    ensures AllFaithful(row, actions)
  {
    if actions != [] {
      assert actions[|actions| - 1] in actions;
      ReportedRunsAreFaithful(row, actions[..|actions| - 1]);
    }
  }

  /** When every failed PATCH left the row alone and values are stored as given, the log explains every run. */
  lemma EveryRunExplained(row: Row, actions: seq<Action>)
    requires Complete(row)
    requires forall a :: a in actions ==> Typed(a.gatewaySnapshot) && StoredAsGiven(a.column, a.value)
    requires forall a :: a in actions ==> a.reply != Failed(true)
    ensures Explained(row, Run(row, actions))
  {
    ReportedRunsAreFaithful(row, actions);
    EveryRunExplainedExactly(row, actions);
  }

  /** A committed write that is reported as failed leaves the log behind, unless the value was already there. */
  lemma UnreportedWriteIsUnexplained(row: Row, q: Quantity, v: Json)
    requires Complete(row) && Typed(row)
    requires DashboardAccepts(Level(q), v, row) && Validate(Level(q), v, row).Some? && v != row[Level(q)]
    ensures !Explained(row, Run(row, [Action(Level(q), v, row, Failed(true))]))
  {
    var a := Action(Level(q), v, row, Failed(true));
    assert [a][..0] == [] && Run(row, [a]) == Acted(Books(row, []), a);
    assert v.Num?;
    StoredUnchangedExactly(Level(q), v, row);
    ActionExplainedExactly(row, Books(row, []), a);
  }
}
