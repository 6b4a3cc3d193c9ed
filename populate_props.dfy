/**
 * Properties of populate_monitoring_fields (Utils.PopulateSpec): which fields it may
 * touch, when it reports a change, the disabled path, the one exception it can raise,
 * the status machine, and that a second run over its own result changes nothing.
 */
module PopulateProps {
  import opened Py
  import opened Choices
  import opened Utils

  /** The fields each block of populate may write, and all of them. */
  const TemplateKeys: set<string> := {"zbp_vname", "zbp_int_ip", "zbp_pri_template_name_id", "zbp_pri_template_name"}
  const InterfaceKeys: set<string> := {"zbp_pri_template_int_id", "zbp_pri_template_int_name"}
  const PlacementKeys: set<string> := {"zbp_platform", "zbp_site", "zbp_proxy_id", "zbp_group_id", "zbp_sla_code"}
  const FinalKeys: set<string> := PlacementKeys + {"zb_extra_templates", "zbp_status"}
  const ManagedKeys: set<string> := TemplateKeys + (InterfaceKeys + FinalKeys)

  /** `b` agrees with `a` on every key outside `ks`, present or absent. */
  ghost predicate OnlyWrites(a: CfData, b: CfData, ks: set<string>)
  {
    forall k :: k !in ks ==> (k in a <==> k in b) && (k in a ==> a[k] == b[k])
  }

  /** From `d` to `r`: no key is dropped, only keys of `ks` change, `changed` never falls and
      rises with any change. */
  ghost predicate Moves(d: Draft, r: Draft, ks: set<string>)
  {
    && d.cf.Keys <= r.cf.Keys
    && OnlyWrites(d.cf, r.cf, ks)
    && (d.changed ==> r.changed)
    && (r.cf != d.cf ==> r.changed)
  }

  /** No block writes a field of another. */
  lemma KeysDisjoint()
    ensures TemplateKeys !! (InterfaceKeys + FinalKeys) && InterfaceKeys !! FinalKeys
    ensures "zb_extra_templates" !in PlacementKeys && "zbp_status" !in PlacementKeys
  {
  }

  /** The fields populate reads from the object besides its own outputs are never written. */
  lemma ReadKeysUnmanaged()
    ensures "mon_req" !in ManagedKeys && "cf_mon_req" !in ManagedKeys && "cf_cf_mon_req" !in ManagedKeys
    ensures "zb_mon_env" !in ManagedKeys && "cf_zb_mon_env" !in ManagedKeys && "cf_zbp_int_ip" !in ManagedKeys
    ensures "cf_" + "mon_req" == "cf_mon_req" && "cf_" + "cf_mon_req" == "cf_cf_mon_req"
    ensures "cf_" + "zb_mon_env" == "cf_zb_mon_env"
  {
  }

  lemma StepAtMoves(d: Draft, r: Draft, key: string)
    requires StepAt(d, r, key)
    ensures Moves(d, r, {key})
  {
  }

  lemma MovesTrans(a: Draft, b: Draft, c: Draft, s1: set<string>, s2: set<string>)
    requires Moves(a, b, s1) && Moves(b, c, s2)
    ensures Moves(a, c, s1 + s2)
  {
  }

  lemma {:induction false} PlacementMoves(schema: Schema, d: Draft, src: Sources, overwrite: bool)
    ensures Moves(d, PlacementStep(schema, d, src, overwrite), PlacementKeys)
  {
    var d1 := if src.platform.Some? then PutFromSourceStep(schema, d, "zbp_platform", src.platform.value.slug, overwrite) else d;
    var d2 := if src.site.Some? then PutFromSourceStep(schema, d1, "zbp_site", src.site.value.slug, overwrite) else d1;
    var d3 := PutFromSourceStep(schema, d2, "zbp_proxy_id", Get(SiteCf(src), "zb_proxy_id"), overwrite);
    var d4 := PutFromSourceStep(schema, d3, "zbp_group_id", Get(SiteCf(src), "zb_group_id"), overwrite);
    var d5 := PutFromSourceStep(schema, d4, "zbp_sla_code", SlaCode(src), overwrite);
    StepChain5(d, d1, d2, d3, d4, d5, "zbp_platform", "zbp_site", "zbp_proxy_id", "zbp_group_id", "zbp_sla_code");
  }

  /** Five single-key steps in a row change only those five keys. */
  lemma StepChain5(d: Draft, d1: Draft, d2: Draft, d3: Draft, d4: Draft, d5: Draft,
                   k1: string, k2: string, k3: string, k4: string, k5: string)
    requires StepAt(d, d1, k1) && StepAt(d1, d2, k2) && StepAt(d2, d3, k3)
    requires StepAt(d3, d4, k4) && StepAt(d4, d5, k5)
    ensures Moves(d, d5, {k1, k2, k3, k4, k5})
  {
    StepAtMoves(d, d1, k1);
    StepAtMoves(d1, d2, k2);
    StepAtMoves(d2, d3, k3);
    StepAtMoves(d3, d4, k4);
    StepAtMoves(d4, d5, k5);
    MovesTrans(d, d1, d2, {k1}, {k2});
    MovesTrans(d, d2, d3, {k1} + {k2}, {k3});
    MovesTrans(d, d3, d4, {k1} + {k2} + {k3}, {k4});
    MovesTrans(d, d4, d5, {k1} + {k2} + {k3} + {k4}, {k5});
    assert {k1} + {k2} + {k3} + {k4} + {k5} == {k1, k2, k3, k4, k5};
  }

  /** Four single-key steps in a row change only those four keys. */
  lemma StepChain4(d: Draft, d1: Draft, d2: Draft, d3: Draft, d4: Draft, k1: string, k2: string, k3: string, k4: string)
    requires StepAt(d, d1, k1) && StepAt(d1, d2, k2) && StepAt(d2, d3, k3) && StepAt(d3, d4, k4)
    ensures Moves(d, d4, {k1, k2, k3, k4})
  {
    StepAtMoves(d, d1, k1);
    StepAtMoves(d1, d2, k2);
    StepAtMoves(d2, d3, k3);
    StepAtMoves(d3, d4, k4);
    MovesTrans(d, d1, d2, {k1}, {k2});
    MovesTrans(d, d2, d3, {k1} + {k2}, {k3});
    MovesTrans(d, d3, d4, {k1} + {k2} + {k3}, {k4});
    assert {k1} + {k2} + {k3} + {k4} == {k1, k2, k3, k4};
  }

  lemma {:induction false} TemplateStepsMoves(schema: Schema, orig: CfData, d: Draft, src: Sources, overwrite: bool)
    requires TemplateSteps(schema, orig, d, src, overwrite).Ok?
    ensures Moves(d, TemplateSteps(schema, orig, d, src, overwrite).value, TemplateKeys)
  {
    var platTmpl := PlatformTemplate(src);
    var d1a := VisibleNameStep(schema, d, src);
    var d1 := HostIpStep(schema, orig, d1a, src);
    var d2 := PutFromSourceStep(schema, d1, "zbp_pri_template_name_id", platTmpl, overwrite);
    var d3 := TemplateNameStep(schema, d2, platTmpl, overwrite).value;
    StepChain4(d, d1a, d1, d2, d3, "zbp_vname", "zbp_int_ip", "zbp_pri_template_name_id", "zbp_pri_template_name");
  }

  lemma {:induction false} InterfaceStepsMoves(schema: Schema, d: Draft, src: Sources, overwrite: bool)
    requires InterfaceSteps(schema, d, src, overwrite).Ok?
    ensures Moves(d, InterfaceSteps(schema, d, src, overwrite).value, InterfaceKeys)
  {
    var intId := InterfaceIdValue(schema, d, PlatformTemplate(src), PlatformCf(src)).value;
    var d4 := PutFromSourceStep(schema, d, "zbp_pri_template_int_id", intId, overwrite);
    var d5 := InterfaceNameStep(schema, d4, intId, overwrite);
    StepAtMoves(d, d4, "zbp_pri_template_int_id");
    StepAtMoves(d4, d5, "zbp_pri_template_int_name");
    MovesTrans(d, d4, d5, {"zbp_pri_template_int_id"}, {"zbp_pri_template_int_name"});
    assert {"zbp_pri_template_int_id"} + {"zbp_pri_template_int_name"} == InterfaceKeys;
  }

  lemma {:induction false} FinalStepsMoves(schema: Schema, orig: CfData, d: Draft, src: Sources, overwrite: bool)
    ensures Moves(d, FinalSteps(schema, orig, d, src, overwrite), FinalKeys)
  {
    var d5b := PlacementStep(schema, d, src, overwrite);
    var d6 := ExtraTemplatesStep(schema, d5b);
    var d7 := StatusStep(schema, orig, d6);
    PlacementMoves(schema, d, src, overwrite);
    StepAtMoves(d5b, d6, "zb_extra_templates");
    StepAtMoves(d6, d7, "zbp_status");
    MovesTrans(d5b, d6, d7, {"zb_extra_templates"}, {"zbp_status"});
    assert {"zb_extra_templates"} + {"zbp_status"} == {"zb_extra_templates", "zbp_status"};
    MovesTrans(d, d5b, d7, PlacementKeys, {"zb_extra_templates", "zbp_status"});
  }

  /** Populate writes only the monitoring fields, drops no key, and reports a change
      whenever the data differs. */
  lemma {:induction false} PopulateTouchesOnlyMonitoringFields(schema: Schema, orig: CfData, src: Sources, overwrite: bool)
    requires PopulateSpec(schema, orig, src, overwrite).Ok?
    ensures Moves(Draft(orig, false), PopulateSpec(schema, orig, src, overwrite).value, ManagedKeys)
  {
    var d0 := Draft(orig, false);
    if !MonEnabled(orig) {
      StepAtMoves(d0, DisableStep(schema, d0), "zbp_status");
      assert "zbp_status" in ManagedKeys;
      return;
    }
    var d3 := TemplateSteps(schema, orig, d0, src, overwrite).value;
    var d5 := InterfaceSteps(schema, d3, src, overwrite).value;
    var d7 := FinalSteps(schema, orig, d5, src, overwrite);
    TemplateStepsMoves(schema, orig, d0, src, overwrite);
    InterfaceStepsMoves(schema, d3, src, overwrite);
    FinalStepsMoves(schema, orig, d5, src, overwrite);
    MovesTrans(d3, d5, d7, InterfaceKeys, FinalKeys);
    MovesTrans(d0, d3, d7, TemplateKeys, InterfaceKeys + FinalKeys);
  }

  /** A run that reports no change leaves the custom-field data exactly as it was. */
  lemma UnchangedMeansUntouched(schema: Schema, orig: CfData, src: Sources, overwrite: bool)
    requires PopulateSpec(schema, orig, src, overwrite).Ok?
    requires !PopulateSpec(schema, orig, src, overwrite).value.changed
    ensures PopulateSpec(schema, orig, src, overwrite).value.cf == orig
  {
    PopulateTouchesOnlyMonitoringFields(schema, orig, src, overwrite);
  }

  /** With monitoring not requested, populate cannot fail, and its only effect is to mark a
      defined status field "Remove Pending". */
  lemma DisabledOnlyMarksRemoval(schema: Schema, orig: CfData, src: Sources, overwrite: bool)
    requires !MonEnabled(orig)
    ensures PopulateSpec(schema, orig, src, overwrite).Ok?
    ensures var d := PopulateSpec(schema, orig, src, overwrite).value;
      && (d.cf == orig || d.cf == orig["zbp_status" := VStr(RemovePending)])
      && ("zbp_status" in schema.defined ==> Get(d.cf, "zbp_status") == VStr(RemovePending))
      && (d.changed <==> d.cf != orig)
  {
  }

  /** The only exception populate raises: with no choice table for the primary template, a
      platform template value that is a non-empty list or dict reaches a dict lookup. */
  lemma {:induction false} PopulateErrorCause(schema: Schema, orig: CfData, src: Sources, overwrite: bool)
    requires PopulateSpec(schema, orig, src, overwrite).Err?
    ensures PopulateSpec(schema, orig, src, overwrite).error == Unhashable
    ensures MonEnabled(orig)
    ensures |Vocabulary(schema, "zb_pri_template_name")| == 0
    ensures Truthy(PlatformTemplate(src)) && (PlatformTemplate(src).VList? || PlatformTemplate(src).VDict?)
  {
    var m := Vocabulary(schema, "zb_pri_template_name");
    var platTmpl := PlatformTemplate(src);
    if |m| > 0 {
      RevLabelNonEmptyVocabulary(m, platTmpl);
    }
  }

  /** Monitoring on and a `zb_extra_templates` key present: populate always reports a change,
      so with `save` it always writes the row. */
  lemma {:induction false} ExtraTemplatesForceChange(schema: Schema, orig: CfData, src: Sources, overwrite: bool)
    requires MonEnabled(orig) && "zb_extra_templates" in orig
    requires PopulateSpec(schema, orig, src, overwrite).Ok?
    ensures PopulateSpec(schema, orig, src, overwrite).value.changed
  {
    var d0 := Draft(orig, false);
    var d3 := TemplateSteps(schema, orig, d0, src, overwrite).value;
    var d5 := InterfaceSteps(schema, d3, src, overwrite).value;
    TemplateStepsMoves(schema, orig, d0, src, overwrite);
    InterfaceStepsMoves(schema, d3, src, overwrite);
    PlacementMoves(schema, d5, src, overwrite);
    var d6 := ExtraTemplatesStep(schema, PlacementStep(schema, d5, src, overwrite));
    assert d6.changed;
    assert PopulateSpec(schema, orig, src, overwrite).value == StatusStep(schema, orig, d6);
  }

  // ------------------------------------------------------------------
  // The status machine

  /** The required fields never include the status field itself. */
  lemma StatusNotRequired(schema: Schema)
    ensures "zbp_status" !in ExistingRequired(schema)
  {
  }

  /** Writing the status field leaves completeness as it was. */
  lemma CompleteIgnoresStatus(schema: Schema, orig: CfData, cf: CfData, v: Value)
    ensures Complete(schema, orig, cf["zbp_status" := v]) == Complete(schema, orig, cf)
  {
    StatusNotRequired(schema);
    assert forall k :: k in ExistingRequired(schema) ==> Get(cf["zbp_status" := v], k) == Get(cf, k);
  }

  /** After the status step a defined status is "Synced" only if the data is complete and
      it was "Synced" before, "Missing Data" exactly when the data is incomplete, and
      "Not Synced" otherwise. */
  lemma {:induction false} StatusOutcome(schema: Schema, orig: CfData, d: Draft)
    requires "zbp_status" in schema.defined
    ensures var r := StatusStep(schema, orig, d);
      && Complete(schema, orig, r.cf) == Complete(schema, orig, d.cf)
      && (Get(r.cf, "zbp_status") == VStr("Synced") <==>
            Complete(schema, orig, d.cf) && Get(d.cf, "zbp_status") == VStr("Synced"))
      && (Get(r.cf, "zbp_status") == VStr("Missing Data") <==> !Complete(schema, orig, d.cf))
      && (Get(r.cf, "zbp_status") == VStr("Not Synced") <==>
            Complete(schema, orig, d.cf) && Get(d.cf, "zbp_status") != VStr("Synced"))
  {
    var r := StatusStep(schema, orig, d);
    if r.cf != d.cf {
      CompleteIgnoresStatus(schema, orig, d.cf, r.cf["zbp_status"]);
    }
  }

  /** A second status step right after the first changes nothing. */
  lemma {:induction false} StatusStepStable(schema: Schema, orig: CfData, d: Draft)
    ensures var r := StatusStep(schema, orig, d);
      StatusStep(schema, orig, Draft(r.cf, false)) == Draft(r.cf, false)
  {
    var r := StatusStep(schema, orig, d);
    if "zbp_status" in schema.defined {
      StatusOutcome(schema, orig, d);
      DesiredStatusStable(Get(d.cf, "zbp_status"), Complete(schema, orig, d.cf));
    }
  }

  // ------------------------------------------------------------------
  // A second run over populate's own result changes nothing

  lemma MovesGet(a: Draft, b: Draft, ks: set<string>, k: string)
    requires Moves(a, b, ks) && k !in ks
    ensures Get(a.cf, k) == Get(b.cf, k) && (k in a.cf <==> k in b.cf)
  {
  }

  lemma GetCfUnmoved(a: Draft, b: Draft, ks: set<string>, key: string)
    requires Moves(a, b, ks) && key !in ks && "cf_" + key !in ks
    ensures GetCf(a.cf, key) == GetCf(b.cf, key)
  {
    MovesGet(a, b, ks, key);
    MovesGet(a, b, ks, "cf_" + key);
  }

  lemma GetCfSame(a: CfData, b: CfData, key: string)
    requires (key in a <==> key in b) && Get(a, key) == Get(b, key) && Get(a, "cf_" + key) == Get(b, "cf_" + key)
    ensures GetCf(a, key) == GetCf(b, key)
  {
  }

  /** A field `put_from_source` has settled stays put on the next run. */
  lemma PutFromSourceSettled(schema: Schema, d: Draft, e: CfData, key: string, raw: Value, overwrite: bool)
    requires Get(e, key) == Get(PutFromSourceStep(schema, d, key, raw, overwrite).cf, key)
    ensures PutFromSourceStep(schema, Draft(e, false), key, raw, overwrite) == Draft(e, false)
  {
  }

  lemma VisibleNameSettled(schema: Schema, d: Draft, e: CfData, src: Sources)
    requires Get(e, "zbp_vname") == Get(VisibleNameStep(schema, d, src).cf, "zbp_vname")
    ensures VisibleNameStep(schema, Draft(e, false), src) == Draft(e, false)
  {
  }

  /** The host IP settles too: the value the object now holds is either truthy or was
      found empty with nothing to fill it from (an address text is never empty). */
  lemma {:induction false} HostIpSettled(schema: Schema, orig: CfData, d: Draft, e: CfData, src: Sources)
    requires src.primaryIp4 != Some("")
    requires Get(d.cf, "zbp_int_ip") == Get(orig, "zbp_int_ip") && ("zbp_int_ip" in d.cf <==> "zbp_int_ip" in orig)
    requires Get(e, "cf_zbp_int_ip") == Get(orig, "cf_zbp_int_ip")
    requires var r := HostIpStep(schema, orig, d, src);
      Get(e, "zbp_int_ip") == Get(r.cf, "zbp_int_ip") && ("zbp_int_ip" in e <==> "zbp_int_ip" in r.cf)
    ensures HostIpStep(schema, e, Draft(e, false), src) == Draft(e, false)
  {
    var ip := "zbp_int_ip";
    var r1 := PutIfEmptyStep(schema, d, ip, GetCf(orig, ip));
    var r := HostIpStep(schema, orig, d, src);
    var q1 := PutIfEmptyStep(schema, Draft(e, false), ip, GetCf(e, ip));
    if ip in schema.defined && EmptyLike(Get(e, ip)) {
      EmptyLikeIsFalsy(Get(e, ip));
      assert r == r1 && r1 == d;
      assert "cf_" + ip == "cf_zbp_int_ip";
      assert r.cf == d.cf;
      assert (ip in e <==> ip in orig) && Get(e, ip) == Get(orig, ip);
      GetCfSame(e, orig, ip);
      assert q1 == Draft(e, false);
    } else if ip in schema.defined {
      assert q1 == Draft(e, false);
    }
  }

  lemma TemplateNameSettled(schema: Schema, d: Draft, e: CfData, platTmpl: Value, overwrite: bool)
    requires TemplateNameStep(schema, d, platTmpl, overwrite).Ok?
    requires Get(e, "zbp_pri_template_name") ==
             Get(TemplateNameStep(schema, d, platTmpl, overwrite).value.cf, "zbp_pri_template_name")
    ensures TemplateNameStep(schema, Draft(e, false), platTmpl, overwrite) == Ok(Draft(e, false))
  {
  }

  /** The inferred interface id depends on the working copy only through the template name. */
  lemma InterfaceIdSameTemplate(schema: Schema, a: Draft, b: Draft, platTmpl: Value, pcf: CfData)
    requires Get(a.cf, "zbp_pri_template_name") == Get(b.cf, "zbp_pri_template_name")
    ensures InterfaceIdValue(schema, a, platTmpl, pcf) == InterfaceIdValue(schema, b, platTmpl, pcf)
  {
  }

  lemma InterfaceNameSettled(schema: Schema, d: Draft, e: CfData, platIntId: Value, overwrite: bool)
    requires Get(e, "zbp_pri_template_int_name") ==
             Get(InterfaceNameStep(schema, d, platIntId, overwrite).cf, "zbp_pri_template_int_name")
    ensures InterfaceNameStep(schema, Draft(e, false), platIntId, overwrite) == Draft(e, false)
  {
  }

  lemma StatusSettled(schema: Schema, orig: CfData, orig2: CfData, d: Draft, e: CfData)
    requires Complete(schema, orig2, e) == Complete(schema, orig, d.cf)
    requires Get(e, "zbp_status") == Get(StatusStep(schema, orig, d).cf, "zbp_status")
    ensures StatusStep(schema, orig2, Draft(e, false)) == Draft(e, false)
  {
    DesiredStatusStable(Get(d.cf, "zbp_status"), Complete(schema, orig, d.cf));
  }

  lemma StepAtGet(d: Draft, r: Draft, key: string, k: string)
    requires StepAt(d, r, key) && k != key
    ensures Get(d.cf, k) == Get(r.cf, k) && (k in d.cf <==> k in r.cf)
  {
  }

  lemma {:induction false} PlacementSettled(schema: Schema, d: Draft, e: CfData, src: Sources, overwrite: bool)
    requires forall k :: k in PlacementKeys ==> Get(e, k) == Get(PlacementStep(schema, d, src, overwrite).cf, k)
    ensures PlacementStep(schema, Draft(e, false), src, overwrite) == Draft(e, false)
  {
    var d1 := if src.platform.Some? then PutFromSourceStep(schema, d, "zbp_platform", src.platform.value.slug, overwrite) else d;
    var d2 := if src.site.Some? then PutFromSourceStep(schema, d1, "zbp_site", src.site.value.slug, overwrite) else d1;
    var d3 := PutFromSourceStep(schema, d2, "zbp_proxy_id", Get(SiteCf(src), "zb_proxy_id"), overwrite);
    var d4 := PutFromSourceStep(schema, d3, "zbp_group_id", Get(SiteCf(src), "zb_group_id"), overwrite);
    var d5 := PutFromSourceStep(schema, d4, "zbp_sla_code", SlaCode(src), overwrite);
    assert PlacementStep(schema, d, src, overwrite) == d5;
    assert "zbp_platform" in PlacementKeys && "zbp_site" in PlacementKeys && "zbp_proxy_id" in PlacementKeys;
    assert "zbp_group_id" in PlacementKeys && "zbp_sla_code" in PlacementKeys;
    StepAtGet(d4, d5, "zbp_sla_code", "zbp_group_id");
    StepAtGet(d3, d4, "zbp_group_id", "zbp_proxy_id");
    StepAtGet(d4, d5, "zbp_sla_code", "zbp_proxy_id");
    var e0 := Draft(e, false);
    if src.platform.Some? {
      StepAtGet(d1, d2, "zbp_site", "zbp_platform");
      StepAtGet(d2, d3, "zbp_proxy_id", "zbp_platform");
      StepAtGet(d3, d4, "zbp_group_id", "zbp_platform");
      StepAtGet(d4, d5, "zbp_sla_code", "zbp_platform");
      PutFromSourceSettled(schema, d, e, "zbp_platform", src.platform.value.slug, overwrite);
    }
    if src.site.Some? {
      StepAtGet(d2, d3, "zbp_proxy_id", "zbp_site");
      StepAtGet(d3, d4, "zbp_group_id", "zbp_site");
      StepAtGet(d4, d5, "zbp_sla_code", "zbp_site");
      PutFromSourceSettled(schema, d1, e, "zbp_site", src.site.value.slug, overwrite);
    }
    PutFromSourceSettled(schema, d2, e, "zbp_proxy_id", Get(SiteCf(src), "zb_proxy_id"), overwrite);
    PutFromSourceSettled(schema, d3, e, "zbp_group_id", Get(SiteCf(src), "zb_group_id"), overwrite);
    PutFromSourceSettled(schema, d4, e, "zbp_sla_code", SlaCode(src), overwrite);
  }

  /** The template block settles: run again over data that holds its outputs, it changes nothing. */
  lemma {:induction false} TemplateStepsSettled(schema: Schema, orig: CfData, src: Sources, overwrite: bool, f: CfData)
    requires TemplateSteps(schema, orig, Draft(orig, false), src, overwrite).Ok?
    requires var out := TemplateSteps(schema, orig, Draft(orig, false), src, overwrite).value;
      && (forall k :: k in TemplateKeys ==> Get(f, k) == Get(out.cf, k))
      && ("zbp_int_ip" in f <==> "zbp_int_ip" in out.cf)
    requires Get(f, "cf_zbp_int_ip") == Get(orig, "cf_zbp_int_ip")
    requires src.primaryIp4 != Some("")
    ensures TemplateSteps(schema, f, Draft(f, false), src, overwrite) == Ok(Draft(f, false))
  {
    var d0 := Draft(orig, false);
    var platTmpl := PlatformTemplate(src);
    var d1a := VisibleNameStep(schema, d0, src);
    var d1 := HostIpStep(schema, orig, d1a, src);
    var d2 := PutFromSourceStep(schema, d1, "zbp_pri_template_name_id", platTmpl, overwrite);
    var d3 := TemplateNameStep(schema, d2, platTmpl, overwrite).value;
    assert "zbp_vname" in TemplateKeys && "zbp_int_ip" in TemplateKeys;
    assert "zbp_pri_template_name_id" in TemplateKeys && "zbp_pri_template_name" in TemplateKeys;
    StepAtGet(d0, d1a, "zbp_vname", "zbp_int_ip");
    StepAtGet(d1a, d1, "zbp_int_ip", "zbp_vname");
    StepAtGet(d1, d2, "zbp_pri_template_name_id", "zbp_vname");
    StepAtGet(d2, d3, "zbp_pri_template_name", "zbp_vname");
    VisibleNameSettled(schema, d0, f, src);
    StepAtGet(d1, d2, "zbp_pri_template_name_id", "zbp_int_ip");
    StepAtGet(d2, d3, "zbp_pri_template_name", "zbp_int_ip");
    HostIpSettled(schema, orig, d1a, f, src);
    StepAtGet(d2, d3, "zbp_pri_template_name", "zbp_pri_template_name_id");
    PutFromSourceSettled(schema, d1, f, "zbp_pri_template_name_id", platTmpl, overwrite);
    TemplateNameSettled(schema, d2, f, platTmpl, overwrite);
  }

  /** The interface block settles once the template name it reads is the same. */
  lemma {:induction false} InterfaceStepsSettled(schema: Schema, d: Draft, f: CfData, src: Sources, overwrite: bool)
    requires InterfaceSteps(schema, d, src, overwrite).Ok?
    requires Get(f, "zbp_pri_template_name") == Get(d.cf, "zbp_pri_template_name")
    requires var out := InterfaceSteps(schema, d, src, overwrite).value;
      && Get(f, "zbp_pri_template_int_id") == Get(out.cf, "zbp_pri_template_int_id")
      && Get(f, "zbp_pri_template_int_name") == Get(out.cf, "zbp_pri_template_int_name")
    ensures InterfaceSteps(schema, Draft(f, false), src, overwrite) == Ok(Draft(f, false))
  {
    var platTmpl := PlatformTemplate(src);
    var intId := InterfaceIdValue(schema, d, platTmpl, PlatformCf(src)).value;
    var d4 := PutFromSourceStep(schema, d, "zbp_pri_template_int_id", intId, overwrite);
    StepAtGet(d4, InterfaceNameStep(schema, d4, intId, overwrite), "zbp_pri_template_int_name", "zbp_pri_template_int_id");
    InterfaceIdSameTemplate(schema, Draft(f, false), d, platTmpl, PlatformCf(src));
    PutFromSourceSettled(schema, d, f, "zbp_pri_template_int_id", intId, overwrite);
    InterfaceNameSettled(schema, d4, f, intId, overwrite);
  }

  /** The final block settles when no extra templates are present and the environment it
      reads is the same. */
  lemma {:induction false} FinalStepsSettled(schema: Schema, orig: CfData, d: Draft, src: Sources, overwrite: bool)
    requires "zb_extra_templates" !in d.cf
    requires GetCf(FinalSteps(schema, orig, d, src, overwrite).cf, "zb_mon_env") == GetCf(orig, "zb_mon_env")
    ensures var f := FinalSteps(schema, orig, d, src, overwrite).cf;
      FinalSteps(schema, f, Draft(f, false), src, overwrite) == Draft(f, false)
  {
    var d5b := PlacementStep(schema, d, src, overwrite);
    var d6 := ExtraTemplatesStep(schema, d5b);
    var d7 := StatusStep(schema, orig, d6);
    var f := d7.cf;
    KeysDisjoint();
    PlacementMoves(schema, d, src, overwrite);
    MovesGet(d, d5b, PlacementKeys, "zb_extra_templates");
    assert d6 == d5b;
    forall k | k in PlacementKeys
      ensures Get(f, k) == Get(d5b.cf, k)
    {
      StepAtGet(d6, d7, "zbp_status", k);
    }
    PlacementSettled(schema, d, f, src, overwrite);
    StepAtGet(d6, d7, "zbp_status", "zb_extra_templates");
    if f != d6.cf {
      CompleteIgnoresStatus(schema, f, d6.cf, f["zbp_status"]);
    }
    assert Complete(schema, f, f) == Complete(schema, orig, d6.cf);
    StatusSettled(schema, orig, f, d6, f);
  }

  /** Monitoring requested: populate over its own result changes nothing and stays enabled. */
  lemma {:induction false} EnabledRunSettled(schema: Schema, orig: CfData, src: Sources, overwrite: bool)
    requires MonEnabled(orig)
    requires "zb_extra_templates" !in orig
    requires src.primaryIp4 != Some("")
    requires PopulateSpec(schema, orig, src, overwrite).Ok?
    ensures var f := PopulateSpec(schema, orig, src, overwrite).value.cf;
      PopulateSpec(schema, f, src, overwrite) == Ok(Draft(f, false))
  {
    var d0 := Draft(orig, false);
    var d3 := TemplateSteps(schema, orig, d0, src, overwrite).value;
    var d5 := InterfaceSteps(schema, d3, src, overwrite).value;
    var d7 := FinalSteps(schema, orig, d5, src, overwrite);
    var f := d7.cf;
    TemplateStepsMoves(schema, orig, d0, src, overwrite);
    InterfaceStepsMoves(schema, d3, src, overwrite);
    FinalStepsMoves(schema, orig, d5, src, overwrite);
    MovesTrans(d3, d5, d7, InterfaceKeys, FinalKeys);
    MovesTrans(d0, d3, d7, TemplateKeys, InterfaceKeys + FinalKeys);
    MovesTrans(d0, d3, d5, TemplateKeys, InterfaceKeys);
    KeysDisjoint();
    ReadKeysUnmanaged();

    // Monitoring stays requested
    GetCfUnmoved(d0, d7, ManagedKeys, "mon_req");
    GetCfUnmoved(d0, d7, ManagedKeys, "cf_mon_req");
    assert MonEnabled(f);

    // Template block
    forall k | k in TemplateKeys
      ensures Get(f, k) == Get(d3.cf, k)
    {
      MovesGet(d3, d7, InterfaceKeys + FinalKeys, k);
    }
    assert "zbp_int_ip" in TemplateKeys && "zbp_pri_template_name" in TemplateKeys;
    MovesGet(d3, d7, InterfaceKeys + FinalKeys, "zbp_int_ip");
    MovesGet(d0, d7, ManagedKeys, "cf_zbp_int_ip");
    TemplateStepsSettled(schema, orig, src, overwrite, f);

    // Interface block
    assert "zbp_pri_template_int_id" in InterfaceKeys && "zbp_pri_template_int_name" in InterfaceKeys;
    MovesGet(d5, d7, FinalKeys, "zbp_pri_template_int_id");
    MovesGet(d5, d7, FinalKeys, "zbp_pri_template_int_name");
    InterfaceStepsSettled(schema, d3, f, src, overwrite);

    // Final block
    assert "zb_extra_templates" in FinalKeys;
    MovesGet(d0, d5, TemplateKeys + InterfaceKeys, "zb_extra_templates");
    GetCfUnmoved(d0, d7, ManagedKeys, "zb_mon_env");
    FinalStepsSettled(schema, orig, d5, src, overwrite);
  }

  /** Populate is idempotent: run again over the data it produced, it reports no change and
      writes nothing, as long as no `zb_extra_templates` key is present (that step always
      reports a change) and the primary address text is not empty. */
  lemma {:induction false} PopulateIdempotent(schema: Schema, orig: CfData, src: Sources, overwrite: bool)
    requires "zb_extra_templates" !in orig
    requires src.primaryIp4 != Some("")
    requires PopulateSpec(schema, orig, src, overwrite).Ok?
    ensures var f := PopulateSpec(schema, orig, src, overwrite).value.cf;
      PopulateSpec(schema, f, src, overwrite) == Ok(Draft(f, false))
  {
    if MonEnabled(orig) {
      EnabledRunSettled(schema, orig, src, overwrite);
    } else {
      var f := DisableStep(schema, Draft(orig, false)).cf;
      ReadKeysUnmanaged();
      PopulateTouchesOnlyMonitoringFields(schema, orig, src, overwrite);
      GetCfUnmoved(Draft(orig, false), Draft(f, true), ManagedKeys, "mon_req");
      GetCfUnmoved(Draft(orig, false), Draft(f, true), ManagedKeys, "cf_mon_req");
    }
  }
}
