/**
 * The save hooks: before a device or virtual machine is written, the stored status is
 * captured, populate runs in memory and the new status is captured; after the write,
 * the status transition decides which AWX inventory source to refresh, and the refresh
 * is deferred until the transaction commits. Saving a platform or site enqueues the
 * cascade job for it.
 */
module Signals {
  import opened Py
  import opened Utils
  import opened Tasks
  import PopulateProps

  // ------------------------------------------------------------------
  // Status capture

  /** `_new_status_for(obj)`: `zbp_status`, or `cf_zbp_status` when that is falsy. */
  function NewStatusFor(cfd: CfData): (r: Value)
    ensures Truthy(r) <==> Truthy(Get(cfd, "zbp_status")) || Truthy(Get(cfd, "cf_zbp_status"))
    ensures Truthy(Get(cfd, "zbp_status")) ==> r == cfd["zbp_status"]
    ensures r == VNone ==> Get(cfd, "cf_zbp_status") == VNone
  {
    Or(Get(cfd, "zbp_status"), Get(cfd, "cf_zbp_status"))
  }

  /** `_old_status_for(obj)`: the status stored in the object's row, read the same way as
      `_new_status_for`; None for an object without a primary key or without a row. */
  function OldStatusFor(pk: Option<int>, row: Option<CfData>): (r: Value)
    ensures pk == None || pk == Some(0) || row == None ==> r == VNone
    ensures pk.Some? && pk.value != 0 && row.Some? ==> r == NewStatusFor(row.value)
  {
    if pk.Some? && pk.value != 0 then
      var stored := if row.Some? then row.value else map[];
      Or(Get(stored, "zbp_status"), Get(stored, "cf_zbp_status"))
    else VNone
  }

  /** The custom-field data populate leaves in memory (`save=False`): the new copy when it
      reports a change, the data as it was when it reports none or raises. */
  function PopulatedData(schema: Schema, cf: CfData, src: Sources): (r: CfData)
    ensures PopulateSpec(schema, cf, src, true).Err? ==> r == cf
    ensures PopulateSpec(schema, cf, src, true).Ok? ==> r == PopulateSpec(schema, cf, src, true).value.cf
  {
    match PopulateSpec(schema, cf, src, true)
    case Err(_) => cf
    case Ok(d) =>
      if d.changed then d.cf
      else
        PopulateProps.UnchangedMeansUntouched(schema, cf, src, true);
        cf
  }

  /** `nbzbx_device_presave` / `nbzbx_vm_presave`: capture the stored status, populate in
      memory, then capture the new status. When populate raises, the exception is swallowed:
      the old status is already set and the new one is left as it was. */
  method PreSave(inst: Instance, schema: Schema)
    modifies inst
    ensures inst.oldStatus == Some(OldStatusFor(inst.pk, old(inst.row)))
    ensures inst.row == old(inst.row)
    ensures inst.customFieldData == PopulatedData(schema, old(inst.customFieldData), inst.sources)
    ensures PopulateSpec(schema, old(inst.customFieldData), inst.sources, true).Err? ==>
      inst.newStatus == old(inst.newStatus)
    ensures PopulateSpec(schema, old(inst.customFieldData), inst.sources, true).Ok? ==>
      inst.newStatus == Some(NewStatusFor(inst.customFieldData))
  {
    inst.oldStatus := Some(OldStatusFor(inst.pk, inst.row));
    var r := inst.Populate(schema, false, false, true, true);
    if r.Ok? {
      inst.newStatus := Some(NewStatusFor(inst.customFieldData));
    }
  }

  // ------------------------------------------------------------------
  // The refresh decision

  /** What `_route_refresh` queues: nothing, a refresh of the primary source (the configured
      `source_id`), or a refresh of the removal source `sourceId`. */
  datatype Action = NoRefresh | RefreshPrimary | RefreshRemoval(sourceId: int)

  /** `cfd.get("mon_req") or cfd.get("cf_mon_req")` */
  function MonFlag(cfd: CfData): Value
  {
    Or(Get(cfd, "mon_req"), Get(cfd, "cf_mon_req"))
  }

  /** `new_status in ("Not Synced", "Missing Data", "Synced")` */
  predicate PrimaryStatus(v: Value)
  {
    v == VStr("Not Synced") || v == VStr("Missing Data") || v == VStr("Synced")
  }

  /** `_route_refresh(instance)` under the post-save handler's `try`. `oldStatus`/`newStatus`
      are the attributes the pre-save handler set (None: never set); `cfg` is `_awx_cfg()`,
      None when it raised, which ends the handler before any decision. */
  function Route(cfd: CfData, oldStatus: Option<Value>, newStatus: Option<Value>, cfg: Option<AwxConfig>): (a: Action)
    ensures cfg.None? ==> a == NoRefresh
    ensures a.RefreshRemoval? ==> cfg.Some? && a.sourceId == cfg.value.removeSourceId && a.sourceId != 0
  {
    var prev := if oldStatus.Some? then oldStatus.value else VNone;
    var next := if newStatus.Some? then newStatus.value else NewStatusFor(cfd);
    if cfg.None? then NoRefresh
    else if PyEq(prev, next) then NoRefresh
    else if !TruthyFlag(MonFlag(cfd)) || PyEq(next, VStr(RemovePending)) then
      (if cfg.value.removeSourceId != 0 then RefreshRemoval(cfg.value.removeSourceId) else NoRefresh)
    else if PrimaryStatus(next) then RefreshPrimary
    else NoRefresh
  }

  /** The decision, case by case: an unchanged status (both absent included) refreshes nothing;
      monitoring off or "Remove Pending" goes to the removal source when one is configured,
      ahead of the primary path; otherwise one of the three sync statuses refreshes the
      primary source, and any other status nothing. */
  lemma RouteCases(cfd: CfData, prev: Value, next: Value, cfg: AwxConfig)
    ensures PyEq(prev, next) ==> Route(cfd, Some(prev), Some(next), Some(cfg)) == NoRefresh
    ensures !PyEq(prev, next) && (!TruthyFlag(MonFlag(cfd)) || next == VStr(RemovePending)) ==>
      Route(cfd, Some(prev), Some(next), Some(cfg)) ==
        (if cfg.removeSourceId != 0 then RefreshRemoval(cfg.removeSourceId) else NoRefresh)
    ensures !PyEq(prev, next) && TruthyFlag(MonFlag(cfd)) && next != VStr(RemovePending) ==>
      (Route(cfd, Some(prev), Some(next), Some(cfg)) == RefreshPrimary <==> PrimaryStatus(next))
    ensures Route(cfd, Some(prev), Some(next), Some(cfg)) == RefreshPrimary ==>
      TruthyFlag(MonFlag(cfd)) && PrimaryStatus(next) && !PyEq(prev, next)
  {
    PyEqStr(next, RemovePending);
  }

  /** Without the pre-save attributes the old status counts as None and the new one is read
      from the data, so an object with no status anywhere refreshes nothing. */
  lemma RouteWithoutCapture(cfd: CfData, cfg: Option<AwxConfig>)
    requires !Truthy(Get(cfd, "zbp_status")) && Get(cfd, "cf_zbp_status") == VNone
    ensures Route(cfd, None, None, cfg) == NoRefresh
  {
  }

  /** A missing capture falls back as the receiver does: the old status as None, the new one
      read from the data, so the decision is the one `RouteCases` states for those values. */
  lemma RouteFallback(cfd: CfData, oldStatus: Option<Value>, newStatus: Option<Value>, cfg: Option<AwxConfig>)
    ensures Route(cfd, oldStatus, None, cfg) == Route(cfd, oldStatus, Some(NewStatusFor(cfd)), cfg)
    ensures Route(cfd, None, newStatus, cfg) == Route(cfd, Some(VNone), newStatus, cfg)
  {
  }

  /** A true flag is a truthy value: the falsy ones (None, False, 0, "", [], {}) are never flags. */
  lemma FlagIsTruthy(v: Value)
    requires TruthyFlag(v)
    ensures Truthy(v)
  {
    match v
    case VInt(i) => TruthyFlagInt(i);
    case VList(_) => TruthyFlagContainer(v);
    case VDict(_) => TruthyFlagContainer(v);
    case _ =>
  }

  /** With only the `mon_req` key present, the router's flag and populate's agree. */
  lemma MonFlagAgrees(cfd: CfData)
    requires "cf_mon_req" !in cfd && "cf_cf_mon_req" !in cfd
    ensures TruthyFlag(MonFlag(cfd)) <==> MonEnabled(cfd)
  {
    PopulateProps.ReadKeysUnmanaged();
    var v := Get(cfd, "mon_req");
    assert MonEnabled(cfd) <==> TruthyFlag(v);
    if TruthyFlag(v) {
      FlagIsTruthy(v);
    }
  }

  /** The two readings differ when both keys are present: a non-flag `mon_req` hides a true
      `cf_mon_req` from the router but not from populate. */
  lemma MonFlagDiffers()
    ensures var cfd := map["mon_req" := VStr("no"), "cf_mon_req" := VBool(true)];
      MonEnabled(cfd) && !TruthyFlag(MonFlag(cfd))
  {
    var cfd := map["mon_req" := VStr("no"), "cf_mon_req" := VBool(true)];
    assert Lower(Strip("no")) == "no" by {
      StripFixed("no");
    }
    assert GetCf(cfd, "cf_mon_req") == VBool(true);
  }

  /** Populate never writes the monitoring flag, so the router reads it as the user set it. */
  lemma PopulateKeepsMonFlag(schema: Schema, cf: CfData, src: Sources)
    ensures MonFlag(PopulatedData(schema, cf, src)) == MonFlag(cf)
  {
    if PopulateSpec(schema, cf, src, true).Ok? {
      PopulateProps.PopulateTouchesOnlyMonitoringFields(schema, cf, src, true);
      PopulateProps.ReadKeysUnmanaged();
    }
  }

  /** The status populate leaves when the status field is defined: one of the three sync
      statuses for a monitored object, "Remove Pending" for any other. */
  lemma PopulatedStatus(schema: Schema, cf: CfData, src: Sources)
    requires "zbp_status" in schema.defined
    requires PopulateSpec(schema, cf, src, true).Ok?
    ensures MonEnabled(cf) ==> PrimaryStatus(NewStatusFor(PopulatedData(schema, cf, src)))
    ensures !MonEnabled(cf) ==> NewStatusFor(PopulatedData(schema, cf, src)) == VStr(RemovePending)
  {
    var d := PopulateSpec(schema, cf, src, true).value;
    if MonEnabled(cf) {
      var d3 := TemplateSteps(schema, cf, Draft(cf, false), src, true).value;
      var d5 := InterfaceSteps(schema, d3, src, true).value;
      var e := ExtraTemplatesStep(schema, PlacementStep(schema, d5, src, true));
      assert d == StatusStep(schema, cf, e);
      PopulateProps.StatusOutcome(schema, cf, e);
    } else {
      PopulateProps.DisabledOnlyMarksRemoval(schema, cf, src, true);
    }
  }

  /** End to end: saving a monitored object whose status field is defined, after a successful
      pre-save, refreshes the primary source exactly when the status moved. */
  lemma MonitoredSaveRefreshesPrimary(schema: Schema, cf: CfData, src: Sources, prev: Value, cfg: AwxConfig)
    requires "zbp_status" in schema.defined
    requires PopulateSpec(schema, cf, src, true).Ok?
    requires TruthyFlag(MonFlag(cf))
    ensures var data := PopulatedData(schema, cf, src);
      Route(data, Some(prev), Some(NewStatusFor(data)), Some(cfg)) ==
        (if PyEq(prev, NewStatusFor(data)) then NoRefresh else RefreshPrimary)
  {
    var data := PopulatedData(schema, cf, src);
    PopulateKeepsMonFlag(schema, cf, src);
    MonFlagImpliesEnabled(cf);
    PopulatedStatus(schema, cf, src);
    RouteCases(data, prev, NewStatusFor(data), cfg);
  }

  /** A true router flag is a true populate flag. */
  lemma MonFlagImpliesEnabled(cfd: CfData)
    requires TruthyFlag(MonFlag(cfd))
    ensures MonEnabled(cfd)
  {
    PopulateProps.ReadKeysUnmanaged();
    if !Truthy(Get(cfd, "mon_req")) && "mon_req" in cfd {
      assert TruthyFlag(Get(cfd, "cf_mon_req"));
      assert GetCf(cfd, "cf_mon_req") == cfd["cf_mon_req"];
    }
  }

  /** End to end: saving an object with monitoring off, whose status field is defined and was
      not already "Remove Pending", refreshes the removal source when one is configured. */
  lemma UnmonitoredSaveRefreshesRemoval(schema: Schema, cf: CfData, src: Sources, prev: Value, cfg: AwxConfig)
    requires "zbp_status" in schema.defined
    requires !MonEnabled(cf)
    requires prev != VStr(RemovePending)
    ensures PopulateSpec(schema, cf, src, true).Ok?
    ensures var data := PopulatedData(schema, cf, src);
      Route(data, Some(prev), Some(NewStatusFor(data)), Some(cfg)) ==
        (if cfg.removeSourceId != 0 then RefreshRemoval(cfg.removeSourceId) else NoRefresh)
  {
    PopulateProps.DisabledOnlyMarksRemoval(schema, cf, src, true);
    var data := PopulatedData(schema, cf, src);
    PopulatedStatus(schema, cf, src);
    PyEqStr(prev, RemovePending);
    RouteCases(data, prev, NewStatusFor(data), cfg);
  }

  // ------------------------------------------------------------------
  // Deferred calls

  /** The deferred calls an action registers with `transaction.on_commit`: each is
      `schedule_awx_inventory_refresh(source_id)` with the given `source_id` (None: default). */
  function Deferred(a: Action): (calls: seq<Option<int>>)
    ensures |calls| <= 1
    ensures a == NoRefresh <==> calls == []
    ensures a == RefreshPrimary ==> calls == [None]
    ensures a.RefreshRemoval? ==> calls == [Some(a.sourceId)]
  {
    match a
    case NoRefresh => []
    case RefreshPrimary => [None]
    case RefreshRemoval(id) => [Some(id)]
  }

  /** The broker after running deferred calls in order, each reading the configuration anew
      and each exception swallowed. */
  function RunAll(s: BrokerState, cfg: Option<AwxConfig>, calls: seq<Option<int>>): (r: BrokerState)
    ensures r.now == s.now
    ensures |s.jobs| <= |r.jobs| <= |s.jobs| + |calls| && r.jobs[..|s.jobs|] == s.jobs
  {
    if |calls| == 0 then s
    else
      var prev := RunAll(s, cfg, calls[..|calls| - 1]);
      var next := ScheduleSpec(prev, cfg, calls[|calls| - 1]).1;
      assert next.jobs[..|s.jobs|] == prev.jobs[..|s.jobs|];
      next
  }

  /** One more deferred call runs after the earlier ones. */
  lemma RunAllStep(s: BrokerState, cfg: Option<AwxConfig>, calls: seq<Option<int>>, i: int)
    requires 0 <= i < |calls|
    ensures RunAll(s, cfg, calls[..i + 1]) == ScheduleSpec(RunAll(s, cfg, calls[..i]), cfg, calls[i]).1
  {
    assert calls[..i + 1][..i] == calls[..i];
  }

  /** What a commit guarantees: it keeps the jobs queued before it, and every refresh it adds
      is for a different source, whose marker is still alive at the end. */
  ghost predicate OncePerSource(s0: BrokerState, s: BrokerState)
  {
    && s.now == s0.now
    && |s0.jobs| <= |s.jobs| && s.jobs[..|s0.jobs|] == s0.jobs
    && (forall a, b :: |s0.jobs| <= a < b < |s.jobs| ==> s.jobs[a].sourceId != s.jobs[b].sourceId)
    && (forall a :: |s0.jobs| <= a < |s.jobs| ==> Live(s, DebounceKey(s.jobs[a].sourceId)))
  }

  /** However many saves a transaction makes, its commit refreshes each AWX source at most once. */
  lemma {:induction false} CommitRefreshesEachSourceOnce(s: BrokerState, cfg: Option<AwxConfig>, calls: seq<Option<int>>)
    ensures OncePerSource(s, RunAll(s, cfg, calls))
    decreases |calls|
  {
    if |calls| > 0 {
      var prev := RunAll(s, cfg, calls[..|calls| - 1]);
      CommitRefreshesEachSourceOnce(s, cfg, calls[..|calls| - 1]);
      var (o, next) := ScheduleSpec(prev, cfg, calls[|calls| - 1]);
      if o.Dispatched? {
        var key := DebounceKey(o.sourceId);
        assert Live(next, key);
        forall a | |s.jobs| <= a < |prev.jobs|
          ensures next.jobs[a] == prev.jobs[a]
          ensures next.jobs[a].sourceId != o.sourceId
          ensures Live(next, DebounceKey(next.jobs[a].sourceId))
        {
          assert Live(prev, DebounceKey(prev.jobs[a].sourceId));
        }
      }
    }
  }

  /** The transaction's `on_commit` list. */
  class CommitQueue {
    var pending: seq<Option<int>>

    constructor ()
      ensures pending == []
    {
      pending := [];
    }

    /** `nbzbx_device_postsave` / `nbzbx_vm_postsave`: decide with `_route_refresh` and defer
        the chosen refresh. */
    method PostSave(inst: Instance, env: Env)
      modifies this
      ensures pending == old(pending) +
        Deferred(Route(inst.customFieldData, inst.oldStatus, inst.newStatus, AwxConfigFrom(env)))
    {
      var a := Route(inst.customFieldData, inst.oldStatus, inst.newStatus, AwxConfigFrom(env));
      match a {
        case NoRefresh =>
          assert pending + Deferred(a) == pending;
        case RefreshPrimary =>
          pending := pending + [None];
        case RefreshRemoval(id) =>
          pending := pending + [Some(id)];
      }
    }

    /** The commit: every deferred call runs in order through `_call`, which swallows its
        exception; then the list is spent. */
    method Commit(broker: Broker, env: Env)
      modifies this, broker
      ensures pending == []
      ensures broker.State() == RunAll(old(broker.State()), AwxConfigFrom(env), old(pending))
    {
      ghost var s0 := broker.State();
      ghost var cfg := AwxConfigFrom(env);
      var i := 0;
      while i < |pending|
        invariant 0 <= i <= |pending|
        invariant pending == old(pending)
        invariant broker.State() == RunAll(s0, cfg, pending[..i])
      {
        var _ := broker.Schedule(env, pending[i]);
        RunAllStep(s0, cfg, pending, i);
        i := i + 1;
      }
      assert pending[..i] == pending;
      pending := [];
    }
  }

  // ------------------------------------------------------------------
  // Cascades

  /** A cascade job on the queue: `update_related_for_platform(pk)` or `update_related_for_site(pk)`. */
  datatype Cascade = PlatformCascade(platformId: int) | SiteCascade(siteId: int)

  class CascadeQueue {
    var jobs: seq<Cascade>

    constructor ()
      ensures jobs == []
    {
      jobs := [];
    }

    /** `nbzbx_platform_changed`: every platform save enqueues the platform cascade. */
    method PlatformSaved(pk: int)
      modifies this
      ensures jobs == old(jobs) + [PlatformCascade(pk)]
    {
      jobs := jobs + [PlatformCascade(pk)];
    }

    /** `nbzbx_site_changed`: every site save enqueues the site cascade. */
    method SiteSaved(pk: int)
      modifies this
      ensures jobs == old(jobs) + [SiteCascade(pk)]
    {
      jobs := jobs + [SiteCascade(pk)];
    }
  }
}
