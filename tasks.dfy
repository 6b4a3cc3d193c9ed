/**
 * The worker side of the plugin: the AWX settings read from the environment,
 * the debounced scheduling of an AWX inventory-source refresh (a marker with a
 * time-to-live in Redis, then one queued job), and the cascade jobs that re-run
 * populate over every monitored device and virtual machine of a platform or site.
 *
 * Redis, the job queue and the clock are one `Broker` object; the environment is a
 * map; the database query is the sequence of objects it returned.
 */
module Tasks {
  import opened Py
  import opened Utils
  import PopulateProps

  // ------------------------------------------------------------------
  // _awx_cfg

  /** The process environment. */
  type Env = map<string, string>

  /** `os.getenv(name, dflt)` */
  function EnvGet(env: Env, name: string, dflt: string): string
  {
    if name in env then env[name] else dflt
  }

  /** `int(os.getenv(name, str(dflt)) or dflt)`: None stands for the ValueError of `int`. */
  function IntSetting(env: Env, name: string, dflt: nat): (r: Option<int>)
    ensures name !in env || env[name] == "" ==> r == Some(dflt)
    ensures name in env && env[name] != "" ==> r == ParseInt(env[name])
  {
    var t := EnvGet(env, name, NatToStr(dflt));
    if t == "" then Some(dflt)
    else
      ParseIntOfIntToStr(dflt);
      ParseInt(t)
  }

  /** A setting written as the text of an integer reads back as that integer. */
  lemma IntSettingReads(env: Env, name: string, dflt: nat, n: int)
    requires name in env && env[name] == IntToStr(n)
    ensures IntSetting(env, name, dflt) == Some(n)
  {
    ParseIntOfIntToStr(n);
    IntToStrChars(n);
  }

  datatype AwxConfig = AwxConfig(
    base: string,
    token: Option<string>,
    verify: bool,
    sourceId: int,
    removeSourceId: int,
    debounce: int)

  const VerifyTokens: set<string> := {"1", "true", "yes"}

  /** `os.getenv("AWX_API_BASE", "").rstrip("/")`: the setting with only '/' cut off its end. */
  function BaseSetting(env: Env): (b: string)
    ensures |b| > 0 ==> b[|b| - 1] != '/'
    ensures |b| <= |EnvGet(env, "AWX_API_BASE", "")| && b == EnvGet(env, "AWX_API_BASE", "")[..|b|]
    ensures forall k :: |b| <= k < |EnvGet(env, "AWX_API_BASE", "")| ==> EnvGet(env, "AWX_API_BASE", "")[k] == '/'
  {
    StripRightOf(EnvGet(env, "AWX_API_BASE", ""), {'/'})
  }

  /** `str(os.getenv("AWX_VERIFY", "true")).lower() in ("1", "true", "yes")`; on when unset. */
  predicate VerifySetting(env: Env)
    ensures "AWX_VERIFY" !in env ==> VerifySetting(env)
  {
    LowerFixed("true");
    Lower(EnvGet(env, "AWX_VERIFY", "true")) in VerifyTokens
  }

  /** `_awx_cfg()`; None when one of the numeric settings is not an integer. */
  function AwxConfigFrom(env: Env): (r: Option<AwxConfig>)
    ensures r.Some? ==>
      && (|r.value.base| > 0 ==> r.value.base[|r.value.base| - 1] != '/')
      && |r.value.base| <= |EnvGet(env, "AWX_API_BASE", "")|
      && r.value.base == EnvGet(env, "AWX_API_BASE", "")[..|r.value.base|]
      && (forall k :: |r.value.base| <= k < |EnvGet(env, "AWX_API_BASE", "")| ==> EnvGet(env, "AWX_API_BASE", "")[k] == '/')
      && (r.value.token.Some? <==> "AWX_API_TOKEN" in env)
      && ("AWX_API_TOKEN" in env ==> r.value.token == Some(env["AWX_API_TOKEN"]))
      && (r.value.verify <==> Lower(EnvGet(env, "AWX_VERIFY", "true")) in VerifyTokens)
      && ("AWX_VERIFY" !in env ==> r.value.verify)
    ensures r.Some? <==>
      IntSetting(env, "AWX_INVENTORY_SOURCE_ID", 0).Some? && IntSetting(env, "AWX_REMOVE_SOURCE_ID", 0).Some? &&
      IntSetting(env, "AWX_DEBOUNCE_SECONDS", 60).Some?
    ensures r.Some? ==>
      && r.value.sourceId == IntSetting(env, "AWX_INVENTORY_SOURCE_ID", 0).value
      && r.value.removeSourceId == IntSetting(env, "AWX_REMOVE_SOURCE_ID", 0).value
      && r.value.debounce == IntSetting(env, "AWX_DEBOUNCE_SECONDS", 60).value
  {
    var src := IntSetting(env, "AWX_INVENTORY_SOURCE_ID", 0);
    var rm := IntSetting(env, "AWX_REMOVE_SOURCE_ID", 0);
    var deb := IntSetting(env, "AWX_DEBOUNCE_SECONDS", 60);
    if src.None? || rm.None? || deb.None? then None
    else
      Some(AwxConfig(
        BaseSetting(env),
        if "AWX_API_TOKEN" in env then Some(env["AWX_API_TOKEN"]) else None,
        VerifySetting(env),
        src.value, rm.value, deb.value))
  }

  const SettingNames: set<string> := {
    "AWX_API_BASE", "AWX_API_TOKEN", "AWX_VERIFY",
    "AWX_INVENTORY_SOURCE_ID", "AWX_REMOVE_SOURCE_ID", "AWX_DEBOUNCE_SECONDS"}

  /** With nothing set: no base, no token, verification on, both source ids 0, a 60-second debounce. */
  lemma ConfigDefaults(env: Env)
    requires forall n :: n in SettingNames ==> n !in env
    ensures AwxConfigFrom(env) == Some(AwxConfig("", None, true, 0, 0, 60))
  {
    assert "AWX_VERIFY" in SettingNames && "AWX_API_BASE" in SettingNames && "AWX_API_TOKEN" in SettingNames;
    assert Lower("true") == "true";
  }

  /** The configuration is refused exactly when a non-empty numeric setting is not an integer. */
  lemma ConfigErrorCause(env: Env)
    ensures AwxConfigFrom(env).None? <==>
      exists n :: n in {"AWX_INVENTORY_SOURCE_ID", "AWX_REMOVE_SOURCE_ID", "AWX_DEBOUNCE_SECONDS"}
        && n in env && env[n] != "" && ParseInt(env[n]).None?
  {
    var names := {"AWX_INVENTORY_SOURCE_ID", "AWX_REMOVE_SOURCE_ID", "AWX_DEBOUNCE_SECONDS"};
    if AwxConfigFrom(env).None? {
      if IntSetting(env, "AWX_INVENTORY_SOURCE_ID", 0).None? {
        assert "AWX_INVENTORY_SOURCE_ID" in names;
      } else if IntSetting(env, "AWX_REMOVE_SOURCE_ID", 0).None? {
        assert "AWX_REMOVE_SOURCE_ID" in names;
      } else {
        assert "AWX_DEBOUNCE_SECONDS" in names;
      }
    }
  }

  // ------------------------------------------------------------------
  // schedule_awx_inventory_refresh

  /** `source_id or cfg["source_id"] or 0` */
  function ResolveSource(cfg: AwxConfig, sourceId: Option<int>): (id: int)
    ensures sourceId == None || sourceId == Some(0) ==> id == cfg.sourceId
    ensures sourceId.Some? && sourceId.value != 0 ==> id == sourceId.value
  {
    if sourceId.Some? && sourceId.value != 0 then sourceId.value else cfg.sourceId
  }

  /** `cfg["base"] and cfg["token"] and source_id` */
  predicate Ready(cfg: AwxConfig, id: int)
  {
    cfg.base != "" && cfg.token.Some? && cfg.token.value != "" && id != 0
  }

  /** `max(5, debounce)` */
  function Ttl(cfg: AwxConfig): (t: int)
    ensures t >= 5 && t >= cfg.debounce
    ensures t == 5 || t == cfg.debounce
  {
    if cfg.debounce > 5 then cfg.debounce else 5
  }

  const KeyPrefix: string := "nbzbx:awx:invsrc:"
  const KeySuffix: string := ":debounce"

  /** The Redis key of a source's debounce marker. */
  function DebounceKey(id: int): string
  {
    KeyPrefix + IntToStr(id) + KeySuffix
  }

  /** Distinct sources have distinct markers. */
  lemma DebounceKeyInjective(a: int, b: int)
    requires DebounceKey(a) == DebounceKey(b)
    ensures a == b
  {
    var ka, kb := DebounceKey(a), DebounceKey(b);
    assert IntToStr(a) == ka[|KeyPrefix|..|ka| - |KeySuffix|];
    assert IntToStr(b) == kb[|KeyPrefix|..|kb| - |KeySuffix|];
    ParseIntOfIntToStr(a);
    ParseIntOfIntToStr(b);
  }

  /** The job `awx_refresh_inventory.delay(source_id, base=..., token=..., verify=...)` enqueues. */
  datatype Refresh = Refresh(sourceId: int, base: string, token: string, verify: bool)

  /** The clock, the Redis keys with their expiry (None: no expiry set) and the job queue. */
  datatype BrokerState = BrokerState(now: int, markers: map<string, Option<int>>, jobs: seq<Refresh>)

  /** A key exists in Redis: it was set and has not expired. */
  predicate Live(s: BrokerState, key: string)
  {
    key in s.markers && (s.markers[key].None? || s.now < s.markers[key].value)
  }

  /** What a call did. ConfigError is the ValueError `_awx_cfg` raises. */
  datatype Outcome = ConfigError | Skipped | Debounced | Dispatched(sourceId: int)

  /** `schedule_awx_inventory_refresh(source_id)` once `_awx_cfg()` has been read (None: it
      raised), with the skip and debounce paths logging and returning, as the code evidently
      intends (see `ScheduleAsWritten`). */
  function ScheduleSpec(s: BrokerState, cfg: Option<AwxConfig>, sourceId: Option<int>): (r: (Outcome, BrokerState))
    ensures r.1.now == s.now
    ensures !r.0.Dispatched? ==> r.1 == s
    ensures r.0 == ConfigError <==> cfg.None?
    ensures r.0 == Skipped <==> cfg.Some? && !Ready(cfg.value, ResolveSource(cfg.value, sourceId))
    ensures r.0 == Debounced ==> Live(s, DebounceKey(ResolveSource(cfg.value, sourceId)))
    ensures r.0.Dispatched? ==>
      var key := DebounceKey(r.0.sourceId);
      && r.0.sourceId == ResolveSource(cfg.value, sourceId)
      && Ready(cfg.value, r.0.sourceId)
      && !Live(s, key)
      && r.1.markers.Keys == s.markers.Keys + {key}
      && r.1.markers[key] == Some(s.now + Ttl(cfg.value))
      && (forall k :: k in s.markers && k != key ==> r.1.markers[k] == s.markers[k])
      && r.1.jobs == s.jobs + [Refresh(r.0.sourceId, cfg.value.base, cfg.value.token.value, cfg.value.verify)]
  {
    match cfg
    case None => (ConfigError, s)
    case Some(c) =>
      var id := ResolveSource(c, sourceId);
      if !Ready(c, id) then (Skipped, s)
      else
        var key := DebounceKey(id);
        if Live(s, key) then (Debounced, s)
        else (Dispatched(id), Dispatch(s, c, id))
  }

  /** Setting the marker of `id` for `max(5, debounce)` seconds and enqueueing its refresh. */
  function Dispatch(s: BrokerState, c: AwxConfig, id: int): BrokerState
    requires c.token.Some?
  {
    s.(markers := s.markers[DebounceKey(id) := Some(s.now + Ttl(c))],
       jobs := s.jobs + [Refresh(id, c.base, c.token.value, c.verify)])
  }

  /** A request that finds its source's marker alive enqueues nothing. */
  lemma DebouncedWhileLive(s: BrokerState, c: AwxConfig, sourceId: Option<int>)
    requires Ready(c, ResolveSource(c, sourceId))
    requires Live(s, DebounceKey(ResolveSource(c, sourceId)))
    ensures ScheduleSpec(s, Some(c), sourceId) == (Debounced, s)
  {
  }

  /** Two requests in a row for the same source at the same instant enqueue at most one refresh. */
  lemma BurstDispatchesOnce(s: BrokerState, cfg: Option<AwxConfig>, sourceId: Option<int>)
    ensures var s1 := ScheduleSpec(s, cfg, sourceId).1;
      ScheduleSpec(s1, cfg, sourceId) == (if ScheduleSpec(s, cfg, sourceId).0.Dispatched? then Debounced
                                          else ScheduleSpec(s, cfg, sourceId).0, s1)
  {
    var (o1, s1) := ScheduleSpec(s, cfg, sourceId);
    if o1.Dispatched? {
      assert Live(s1, DebounceKey(o1.sourceId));
    }
  }

  /** A dispatch keeps every later request for that source quiet until `max(5, debounce)`
      seconds have passed, and in particular for the first 5 seconds. */
  lemma QuietForTtl(s: BrokerState, c: AwxConfig, sourceId: Option<int>, dt: nat)
    requires ScheduleSpec(s, Some(c), sourceId).0.Dispatched?
    requires dt < Ttl(c)
    ensures var s1 := ScheduleSpec(s, Some(c), sourceId).1;
      ScheduleSpec(s1.(now := s1.now + dt), Some(c), sourceId).0 == Debounced
  {
    var s1 := ScheduleSpec(s, Some(c), sourceId).1;
    assert Live(s1.(now := s1.now + dt), DebounceKey(ResolveSource(c, sourceId)));
  }

  /** Once the marker has expired, the next request for that source dispatches again. */
  lemma DispatchesAgainAfterTtl(s: BrokerState, c: AwxConfig, sourceId: Option<int>, dt: nat)
    requires ScheduleSpec(s, Some(c), sourceId).0.Dispatched?
    requires dt >= Ttl(c)
    ensures var s1 := ScheduleSpec(s, Some(c), sourceId).1;
      ScheduleSpec(s1.(now := s1.now + dt), Some(c), sourceId).0 == ScheduleSpec(s, Some(c), sourceId).0
  {
    var s1 := ScheduleSpec(s, Some(c), sourceId).1;
    assert !Live(s1.(now := s1.now + dt), DebounceKey(ResolveSource(c, sourceId)));
  }

  /** A request for one source never creates, extends or clears the marker of another. */
  lemma SourcesIndependent(s: BrokerState, c: AwxConfig, sourceId: Option<int>, other: int)
    requires other != ResolveSource(c, sourceId)
    ensures Live(ScheduleSpec(s, Some(c), sourceId).1, DebounceKey(other)) <==> Live(s, DebounceKey(other))
  {
    var r := ScheduleSpec(s, Some(c), sourceId);
    if r.0.Dispatched? && DebounceKey(other) == DebounceKey(r.0.sourceId) {
      DebounceKeyInjective(other, r.0.sourceId);
    }
  }

  /** The exception a call raises, as written. */
  datatype Raised = ValueError | NameError

  /** `schedule_awx_inventory_refresh` as written: `logger` is never defined in the module, so
      the log calls on the skip and debounce paths raise NameError after the decision. */
  function ScheduleAsWritten(s: BrokerState, cfg: Option<AwxConfig>, sourceId: Option<int>): (r: (Result<int, Raised>, BrokerState))
    ensures r.1 == ScheduleSpec(s, cfg, sourceId).1
    ensures r.0.Ok? <==> ScheduleSpec(s, cfg, sourceId).0.Dispatched?
  {
    match cfg
    case None => (Err(ValueError), s)
    case Some(c) =>
      var id := ResolveSource(c, sourceId);
      if !Ready(c, id) then (Err(NameError), s)
      else
        var key := DebounceKey(id);
        if Live(s, key) then (Err(NameError), s)
        else (Ok(id), Dispatch(s, c, id))
  }

  /** With no AWX settings at all, the call meant to log "skipped" raises NameError instead. */
  lemma SkipRaisesNameError(s: BrokerState)
    ensures ScheduleAsWritten(s, AwxConfigFrom(map[]), None).0 == Err(NameError)
    ensures ScheduleSpec(s, AwxConfigFrom(map[]), None).0 == Skipped
  {
    ConfigDefaults(map[]);
  }

  /** A second request right after a dispatch, meant to log "debounced", raises NameError. */
  lemma DebounceRaisesNameError(s: BrokerState, cfg: Option<AwxConfig>, sourceId: Option<int>)
    requires ScheduleSpec(s, cfg, sourceId).0.Dispatched?
    ensures var s1 := ScheduleSpec(s, cfg, sourceId).1;
      ScheduleAsWritten(s1, cfg, sourceId).0 == Err(NameError)
      && ScheduleSpec(s1, cfg, sourceId).0 == Debounced
  {
    BurstDispatchesOnce(s, cfg, sourceId);
  }

  class Broker {
    var now: int
    var markers: map<string, Option<int>>
    var jobs: seq<Refresh>

    function State(): BrokerState
      reads this
    {
      BrokerState(now, markers, jobs)
    }

    constructor (now: int)
      ensures State() == BrokerState(now, map[], [])
    {
      this.now := now;
      markers := map[];
      jobs := [];
    }

    /** Time passes. */
    method Tick(dt: nat)
      modifies this`now
      ensures State() == old(State()).(now := old(now) + dt)
    {
      now := now + dt;
    }

    /** `conn.setnx(key, "1")`: sets a key with no expiry when it does not exist. */
    method SetNx(key: string) returns (created: bool)
      modifies this`markers
      ensures created <==> !Live(old(State()), key)
      ensures markers == if created then old(markers)[key := None] else old(markers)
    {
      created := !Live(State(), key);
      if created {
        markers := markers[key := None];
      }
    }

    /** `conn.expire(key, ttl)`: an existing key expires `ttl` seconds from now. */
    method Expire(key: string, ttl: int)
      modifies this`markers
      ensures markers == if Live(old(State()), key) then old(markers)[key := Some(now + ttl)] else old(markers)
    {
      if Live(State(), key) {
        markers := markers[key := Some(now + ttl)];
      }
    }

    /** `schedule_awx_inventory_refresh(source_id)` */
    method Schedule(env: Env, sourceId: Option<int>) returns (outcome: Outcome)
      modifies this
      ensures (outcome, State()) == ScheduleSpec(old(State()), AwxConfigFrom(env), sourceId)
    {
      var cfg := AwxConfigFrom(env);
      outcome := ScheduleWith(cfg, sourceId);
    }

    /** The body of `schedule_awx_inventory_refresh` once `_awx_cfg()` has been read. */
    method ScheduleWith(cfg: Option<AwxConfig>, sourceId: Option<int>) returns (outcome: Outcome)
      modifies this
      ensures (outcome, State()) == ScheduleSpec(old(State()), cfg, sourceId)
    {
      ghost var s0 := State();
      if cfg.None? {
        return ConfigError;
      }
      var id := ResolveSource(cfg.value, sourceId);
      if !Ready(cfg.value, id) {
        return Skipped;
      }
      var key := DebounceKey(id);
      var created := SetNx(key);
      if created {
        Expire(key, Ttl(cfg.value));
        assert markers == s0.markers[key := Some(now + Ttl(cfg.value))];
        jobs := jobs + [Refresh(id, cfg.value.base, cfg.value.token.value, cfg.value.verify)];
        outcome := Dispatched(id);
        assert State() == Dispatch(s0, cfg.value, id);
      } else {
        outcome := Debounced;
      }
    }
  }

  // ------------------------------------------------------------------
  // _process and the cascades

  /** `Q(custom_field_data__mon_req=True) | Q(custom_field_data__cf_mon_req=True)`: the JSON
      value `true` under either key. */
  predicate MonReqQuery(cf: CfData)
  {
    Get(cf, "mon_req") == VBool(true) || Get(cf, "cf_mon_req") == VBool(true)
  }

  /** Every object the cascade query selects is one populate treats as monitored. */
  lemma MonReqQueryEnabled(cf: CfData)
    requires MonReqQuery(cf)
    ensures MonEnabled(cf)
  {
  }

  datatype Counts = Counts(updated: nat, errors: nat)

  function Add(a: Counts, b: Counts): Counts
  {
    Counts(a.updated + b.updated, a.errors + b.errors)
  }

  /** One object's pass through `_process`: what `populate_monitoring_fields(obj, validate=False,
      save=True, overwrite_source=True)` returned or raised, and the object's custom-field data
      and stored row afterwards. */
  datatype Run = Run(outcome: Result<bool, PopError>, data: CfData, row: Option<CfData>)

  /** The pass of an object whose data is `cf` and whose stored row is `row`. Only the
      unhashable-value error can be raised; a reported change is saved, and an object populate
      leaves unchanged is left exactly as it was. */
  function RunOf(schema: Schema, cf: CfData, src: Sources, row: Option<CfData>): (r: Run)
    ensures r.outcome.Err? ==> r.outcome.error == Unhashable && r.data == cf && r.row == row
    ensures r.outcome == Ok(false) ==> r.data == cf && r.row == row
    ensures r.outcome == Ok(true) ==> r.row == Some(r.data)
  {
    match PopulateSpec(schema, cf, src, true)
    case Err(e) =>
      PopulateProps.PopulateErrorCause(schema, cf, src, true);
      Run(Err(e), cf, row)
    case Ok(d) =>
      if d.changed then Run(Ok(true), d.cf, Some(d.cf))
      else
        PopulateProps.UnchangedMeansUntouched(schema, cf, src, true);
        Run(Ok(false), cf, row)
  }

  /** One object's contribution to the counters of `_process`. */
  function Count(c: Counts, r: Result<bool, PopError>): Counts
  {
    match r
    case Ok(b) => if b then c.(updated := c.updated + 1) else c
    case Err(_) => c.(errors := c.errors + 1)
  }

  /** The counters of `_process` after a sequence of passes: each object adds to at most one. */
  function Tally(runs: seq<Run>): (c: Counts)
    ensures c.updated + c.errors <= |runs|
  {
    if |runs| == 0 then Counts(0, 0)
    else Count(Tally(runs[..|runs| - 1]), runs[|runs| - 1].outcome)
  }

  /** No error is counted exactly when populate raised for no object, and every object is
      counted as updated exactly when populate reported a change for each. */
  lemma {:induction false} TallyCounts(runs: seq<Run>)
    ensures Tally(runs).errors == 0 <==> forall i :: 0 <= i < |runs| ==> runs[i].outcome.Ok?
    ensures Tally(runs).updated == |runs| <==> forall i :: 0 <= i < |runs| ==> runs[i].outcome == Ok(true)
  {
    if |runs| > 0 {
      var init := runs[..|runs| - 1];
      TallyCounts(init);
      assert forall i :: 0 <= i < |init| ==> init[i] == runs[i];
    }
  }

  lemma TallyPrefix(runs: seq<Run>, k: nat)
    requires k < |runs|
    ensures Tally(runs[..k + 1]) == Count(Tally(runs[..k]), runs[k].outcome)
  {
    assert runs[..k + 1][..k] == runs[..k];
  }

  lemma CountAdd(x: Counts, y: Counts, r: Result<bool, PopError>)
    ensures Count(Add(x, y), r) == Add(x, Count(y, r))
  {
  }

  /** Counting two passes and adding is counting their concatenation. */
  lemma {:induction false} TallyAppend(a: seq<Run>, b: seq<Run>)
    ensures Tally(a + b) == Add(Tally(a), Tally(b))
    decreases |b|
  {
    if |b| == 0 {
      assert a + b == a;
    } else {
      var ab := a + b;
      var b' := b[..|b| - 1];
      assert ab[..|ab| - 1] == a + b';
      assert ab[|ab| - 1] == b[|b| - 1];
      TallyAppend(a, b');
      CountAdd(Tally(a), Tally(b'), b[|b| - 1].outcome);
    }
  }

  /** The custom-field data of each object. */
  function Data(objs: seq<Instance>): (cfs: seq<CfData>)
    reads objs
    ensures |cfs| == |objs|
  {
    seq(|objs|, i requires 0 <= i < |objs| reads objs => objs[i].customFieldData)
  }

  /** The stored row of each object. */
  function Rows(objs: seq<Instance>): (rows: seq<Option<CfData>>)
    reads objs
    ensures |rows| == |objs|
  {
    seq(|objs|, i requires 0 <= i < |objs| reads objs => objs[i].row)
  }

  /** The passes of objects whose data and rows are `cfs` and `rows`. */
  function Runs(schema: Schema, objs: seq<Instance>, cfs: seq<CfData>, rows: seq<Option<CfData>>): (r: seq<Run>)
    requires |cfs| == |objs| && |rows| == |objs|
    ensures |r| == |objs|
  {
    seq(|objs|, i requires 0 <= i < |objs| => RunOf(schema, cfs[i], objs[i].sources, rows[i]))
  }

  /** An object holds the data and row a pass left. */
  predicate Holds(o: Instance, cf: CfData, row: Option<CfData>)
    reads o
  {
    o.customFieldData == cf && o.row == row
  }

  function RunData(runs: seq<Run>): (cfs: seq<CfData>)
    ensures |cfs| == |runs|
  {
    seq(|runs|, i requires 0 <= i < |runs| => runs[i].data)
  }

  function RunRows(runs: seq<Run>): (rows: seq<Option<CfData>>)
    ensures |rows| == |runs|
  {
    seq(|runs|, i requires 0 <= i < |runs| => runs[i].row)
  }

  predicate Distinct(objs: seq<Instance>)
  {
    forall i, j :: 0 <= i < j < |objs| ==> objs[i] != objs[j]
  }

  /** One iteration of `_process`: populate and save `o`. */
  method ProcessOne(schema: Schema, o: Instance) returns (r: Result<bool, PopError>)
    modifies o
    ensures Run(r, o.customFieldData, o.row) == RunOf(schema, old(o.customFieldData), o.sources, old(o.row))
  {
    r := o.Populate(schema, false, true, true, true);
  }

  /** `_process(qs)`: populate and save each object in id order, counting updates and errors. */
  method Process(schema: Schema, objs: seq<Instance>) returns (c: Counts)
    requires Distinct(objs)
    modifies objs
    ensures c == Tally(old(Runs(schema, objs, Data(objs), Rows(objs))))
    ensures Data(objs) == RunData(old(Runs(schema, objs, Data(objs), Rows(objs))))
    ensures Rows(objs) == RunRows(old(Runs(schema, objs, Data(objs), Rows(objs))))
  {
    ghost var cfs := Data(objs);
    ghost var rows := Rows(objs);
    ghost var runs := Runs(schema, objs, cfs, rows);
    c := Counts(0, 0);
    var i := 0;
    while i < |objs|
      invariant 0 <= i <= |objs|
      invariant c == Tally(runs[..i])
      invariant forall k :: 0 <= k < i ==> Holds(objs[k], runs[k].data, runs[k].row)
      invariant forall k :: i <= k < |objs| ==> Holds(objs[k], cfs[k], rows[k])
    {
      var o := objs[i];
      var r := ProcessOne(schema, o);
      assert Run(r, o.customFieldData, o.row) == runs[i];
      assert forall k :: 0 <= k < |objs| && k != i ==> objs[k] != o;
      TallyPrefix(runs, i);
      ghost var c0 := c;
      match r {
        case Ok(b) =>
          if b {
            c := c.(updated := c.updated + 1);
          }
        case Err(_) =>
          c := c.(errors := c.errors + 1);
      }
      assert c == Count(c0, runs[i].outcome);
      i := i + 1;
    }
    assert runs[..i] == runs;
    assert Data(objs) == RunData(runs) && Rows(objs) == RunRows(runs) by {
      forall k | 0 <= k < |objs|
        ensures Data(objs)[k] == RunData(runs)[k] && Rows(objs)[k] == RunRows(runs)[k]
      {
        assert Holds(objs[k], runs[k].data, runs[k].row);
      }
    }
  }

  /** `update_related_for_platform(pk)` / `update_related_for_site(pk)`: `found` says whether the
      platform or site exists; `devices` and `vms` are the monitored objects the two queries
      return, in id order. A device is never a virtual machine. */
  method UpdateRelated(schema: Schema, found: bool, devices: seq<Instance>, vms: seq<Instance>)
    returns (c: Counts)
    requires Distinct(devices) && Distinct(vms)
    requires forall o :: o in devices ==> o !in vms
    modifies devices, vms
    ensures !found ==> c == Counts(0, 0) && Data(devices) == old(Data(devices)) && Data(vms) == old(Data(vms))
    ensures !found ==> Rows(devices) == old(Rows(devices)) && Rows(vms) == old(Rows(vms))
    ensures found ==> c == Add(Tally(old(Runs(schema, devices, Data(devices), Rows(devices)))),
                               Tally(old(Runs(schema, vms, Data(vms), Rows(vms)))))
    ensures found ==> Data(devices) == RunData(old(Runs(schema, devices, Data(devices), Rows(devices)))) &&
                      Rows(devices) == RunRows(old(Runs(schema, devices, Data(devices), Rows(devices))))
    ensures found ==> Data(vms) == RunData(old(Runs(schema, vms, Data(vms), Rows(vms)))) &&
                      Rows(vms) == RunRows(old(Runs(schema, vms, Data(vms), Rows(vms))))
    ensures c.updated + c.errors <= |devices| + |vms|
  {
    if !found {
      return Counts(0, 0);
    }
    ghost var vRuns := Runs(schema, vms, Data(vms), Rows(vms));
    var du := Process(schema, devices);
    assert forall k :: 0 <= k < |vms| ==> vms[k] !in devices;
    assert Runs(schema, vms, Data(vms), Rows(vms)) == vRuns;
    ghost var dcfs, drows := Data(devices), Rows(devices);
    var vu := Process(schema, vms);
    assert forall k :: 0 <= k < |devices| ==> devices[k] !in vms;
    assert Data(devices) == dcfs && Rows(devices) == drows;
    c := Add(du, vu);
  }

  /** The two passes count as one pass over the devices followed by the virtual machines. */
  lemma UpdateRelatedOnePass(schema: Schema, devices: seq<Instance>, vms: seq<Instance>,
                             dcfs: seq<CfData>, drows: seq<Option<CfData>>,
                             vcfs: seq<CfData>, vrows: seq<Option<CfData>>)
    requires |dcfs| == |devices| == |drows| && |vcfs| == |vms| == |vrows|
    ensures Add(Tally(Runs(schema, devices, dcfs, drows)), Tally(Runs(schema, vms, vcfs, vrows)))
      == Tally(Runs(schema, devices + vms, dcfs + vcfs, drows + vrows))
  {
    var ds := Runs(schema, devices, dcfs, drows);
    var vs := Runs(schema, vms, vcfs, vrows);
    var all := Runs(schema, devices + vms, dcfs + vcfs, drows + vrows);
    forall k | 0 <= k < |all|
      ensures all[k] == (ds + vs)[k]
    {
      if k < |devices| {
        assert (devices + vms)[k] == devices[k] && (dcfs + vcfs)[k] == dcfs[k] && (drows + vrows)[k] == drows[k];
      } else {
        var j := k - |devices|;
        assert (devices + vms)[k] == vms[j] && (dcfs + vcfs)[k] == vcfs[j] && (drows + vrows)[k] == vrows[j];
      }
    }
    assert all == ds + vs;
    TallyAppend(ds, vs);
  }
}
