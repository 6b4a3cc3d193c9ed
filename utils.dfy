/**
 * The monitoring-readiness engine of netbox_zabbix/utils.py: the small coercion
 * helpers, the step-by-step population of a Device's or VM's custom-field data
 * from the object, its Platform, Site and Role, and the Zabbix status machine.
 *
 * NetBox's custom-field definitions are a `Schema` value; the Device or VM is an
 * `Instance` object whose `customFieldData` populate updates in place.
 */
module Utils {
  import opened Py
  import opened Choices

  /** `IFACE_LABELS`: Zabbix template interface types. */
  const IfaceLabels: map<int, string> := map[1 := "Agent", 2 := "SNMP", 3 := "IPMI", 4 := "JMX"]

  const TruthyTokens: set<string> := {"1", "true", "yes", "y", "enabled", "enable"}

  const RemovePending := "Remove Pending"

  // ------------------------------------------------------------------
  // Helpers

  /** `truthy(v)`: a bool as is, None false, anything else by its trimmed, lower-cased text. */
  predicate TruthyFlag(v: Value)
  {
    match v
    case VBool(b) => b
    case VNone => false
    case _ => Lower(Strip(Str(v))) in TruthyTokens
  }

  /** The text of an int is made of digits and minus signs only. */
  lemma IntToStrChars(i: int)
    ensures |IntToStr(i)| > 0
    ensures forall k :: 0 <= k < |IntToStr(i)| ==> IsDigit(IntToStr(i)[k]) || IntToStr(i)[k] == '-'
  {
    if i < 0 {
      var d := NatToStr(-i);
      assert IntToStr(i) == "-" + d;
      assert forall k :: 1 <= k < |IntToStr(i)| ==> IntToStr(i)[k] == d[k - 1];
    }
  }

  /** An integer is a true flag exactly when it is 1. */
  lemma {:induction false} TruthyFlagInt(i: int)
    ensures TruthyFlag(VInt(i)) <==> i == 1
  {
    var t := IntToStr(i);
    assert Str(VInt(i)) == t;
    IntToStrChars(i);
    StripFixed(t);
    LowerFixed(t);
    assert TruthyFlag(VInt(i)) <==> t in TruthyTokens;
    NumericToken(t);
    if i == 1 {
      assert t == "1";
    }
    if t == "1" {
      ParseIntOfIntToStr(i);
      ParseIntDigits("1");
      assert DigitsValue("1") == 1 by { assert "1"[..0] == ""; }
    }
  }

  /** The only flag token made of digits and minus signs is "1". */
  lemma NumericToken(t: string)
    requires forall k :: 0 <= k < |t| ==> IsDigit(t[k]) || t[k] == '-'
    ensures t in TruthyTokens <==> t == "1"
  {
    TokenStarts();
  }

  /** Every flag token but "1" starts with a lower-case letter. */
  lemma TokenStarts()
    ensures forall t :: t in TruthyTokens ==> t == "1" || (|t| > 0 && 'a' <= t[0] <= 'z')
  {
  }

  /** A list or a dict is never a true flag: its text starts with a bracket. */
  lemma TruthyFlagContainer(v: Value)
    requires v.VList? || v.VDict?
    ensures !TruthyFlag(v)
  {
    var t := Str(v);
    StrOfContainer(v);
    assert t[|t| - 1] == ']' || t[|t| - 1] == '}';
    StripFixed(t);
    assert Lower(t)[0] == t[0];
    BracketNotToken(Lower(t));
  }

  /** No flag token starts with a bracket. */
  lemma BracketNotToken(l: string)
    requires |l| > 0 && (l[0] == '[' || l[0] == '{')
    ensures l !in TruthyTokens
  {
  }

  /** `_get_cf(obj, key)`: the key when present (even holding None), else the `cf_` alias, else None. */
  function GetCf(d: CfData, key: string): (r: Value)
    ensures key in d ==> r == d[key]
    ensures key !in d ==> r == Get(d, "cf_" + key)
  {
    if key in d then d[key] else Get(d, "cf_" + key)
  }

  /** `_to_str(v)` (also `_to_choice_str`, `_to_iface_id_str`): the trimmed text, None when blank. */
  function ToStr(v: Value): (r: Option<string>)
    ensures v == VNone ==> r == None
    ensures v != VNone ==> (r.None? <==> Strip(Str(v)) == "")
    ensures r.Some? ==> r.value != "" && Strip(r.value) == r.value && !EmptyLike(VStr(r.value))
  {
    if v == VNone then None
    else
      var s := Strip(Str(v));
      StripIdempotent(Str(v));
      if s != "" then Some(s) else None
  }

  /** The trimmed, non-blank texts of a collection's elements. */
  function TrimmedTexts(xs: seq<Value>): (r: seq<string>)
    ensures |r| <= |xs|
    ensures forall k :: 0 <= k < |r| ==> r[k] != "" && Strip(r[k]) == r[k]
  {
    if |xs| == 0 then []
    else
      var init := TrimmedTexts(xs[..|xs| - 1]);
      var t := Str(xs[|xs| - 1]);
      var s := Strip(t);
      StripIdempotent(t);
      if s != "" then AppendTrimmed(init, s) else init
  }

  /** Appending an item that is non-empty and trimmed keeps every item non-empty and trimmed. */
  function AppendTrimmed(init: seq<string>, s: string): (r: seq<string>)
    requires forall k :: 0 <= k < |init| ==> init[k] != "" && Strip(init[k]) == init[k]
    requires s != "" && Strip(s) == s
    ensures |r| == |init| + 1
    ensures forall k :: 0 <= k < |r| ==> r[k] != "" && Strip(r[k]) == r[k]
  {
    init + [s]
  }

  /** The pieces that are not blank, kept untrimmed. */
  function NonBlank(ps: seq<string>): (r: seq<string>)
    ensures |r| <= |ps|
    ensures forall k :: 0 <= k < |r| ==> Strip(r[k]) != "" && r[k] in ps
  {
    if |ps| == 0 then []
    else
      var init := NonBlank(ps[..|ps| - 1]);
      var p := ps[|ps| - 1];
      assert forall k :: 0 <= k < |init| ==> init[k] in ps;
      if Strip(p) != "" then init + [p] else init
  }

  /** `_to_list_str(v)`: a collection gives its elements' trimmed texts; other values are
      split on commas and newlines, dropping blank pieces but not trimming the others. */
  function ToListStr(v: Value): (r: seq<string>)
    ensures v == VNone ==> r == []
    ensures v.VList? ==> |r| <= |v.items| && forall k :: 0 <= k < |r| ==> r[k] != "" && Strip(r[k]) == r[k]
    ensures v != VNone && !v.VList? ==>
      forall k :: 0 <= k < |r| ==> Strip(r[k]) != "" && ',' !in r[k] && '\n' !in r[k]
  {
    if v == VNone then []
    else if v.VList? then TrimmedTexts(v.items)
    else NonBlank(CsvTokens(Str(v)))
  }

  // ------------------------------------------------------------------
  // Inputs

  /** What populate reads from NetBox's custom-field definitions: the defined field names
      (`_cf_exists`), the choice rows of each field's choice set (`_choice_value_map`), and
      the fields that hold lists (`_expects_list`: multi-select, or an array/list data type). */
  datatype Schema = Schema(defined: set<string>, choices: map<string, seq<Choice>>, listFields: set<string>)

  /** `_choice_value_map(name)`: empty for a field without a choice set. */
  function Vocabulary(schema: Schema, name: string): Mapping
  {
    if name in schema.choices then BuildMapping(schema.choices[name]) else []
  }

  datatype Platform = Platform(slug: Value, cf: CfData)

  datatype Site = Site(slug: Value, cf: CfData)

  datatype Role = Role(slaReportCode: Value, cf: CfData)

  /** What populate reads from a Device or VM besides its custom-field data. `primaryIp4` is
      the text of the primary IPv4 address, when there is one. */
  datatype Sources = Sources(
    name: Value,
    description: Value,
    platform: Option<Platform>,
    site: Option<Site>,
    role: Option<Role>,
    primaryIp4: Option<string>)

  /** The exceptions populate lets escape: the `TypeError` of looking an unhashable value
      up in a dict, and the `ValidationError` of `full_clean`. */
  datatype PopError = Unhashable | ValidationFailed

  // ------------------------------------------------------------------
  // The steps of populate_monitoring_fields, on the working copy

  /** The working copy `cf` and the `changed` flag. */
  datatype Draft = Draft(cf: CfData, changed: bool)

  /** `cf[key] = v; changed = True` */
  function Write(d: Draft, key: string, v: Value): Draft
  {
    Draft(d.cf[key := v], true)
  }

  /** `r` follows `d` by at most one write, to `key`; a write raises `changed`, which never falls. */
  predicate StepAt(d: Draft, r: Draft, key: string)
  {
    (d.changed ==> r.changed) && (r.cf == d.cf || (r.changed && key in r.cf && r.cf == d.cf[key := r.cf[key]]))
  }

  /** `put_if_empty(key, raw)`: fill a defined, empty field with the trimmed text of `raw`. */
  function PutIfEmptyStep(schema: Schema, d: Draft, key: string, raw: Value): (r: Draft)
    ensures StepAt(d, r, key)
    ensures r.changed == (d.changed || r.cf != d.cf)
    ensures r.cf != d.cf <==> key in schema.defined && EmptyLike(Get(d.cf, key)) && ToStr(raw).Some?
    ensures r.cf != d.cf ==> r.cf[key] == VStr(ToStr(raw).value)
    ensures EmptyLike(Get(r.cf, key)) ==> r.cf == d.cf
  {
    if key !in schema.defined then d
    else if key !in d.cf || EmptyLike(d.cf[key]) then
      match ToStr(raw)
      case Some(s) => Write(d, key, VStr(s))
      case None => d
    else d
  }

  /** `put_from_source(key, raw)`: a defined field that is empty, or any defined field when
      `overwrite` is set, takes the trimmed text of `raw` unless that is blank; `changed`
      rises only when the stored value differs. (Against a str, Python's `!=` is plain
      inequality, see `Py.PyEqStr`.) */
  function PutFromSourceStep(schema: Schema, d: Draft, key: string, raw: Value, overwrite: bool): (r: Draft)
    ensures StepAt(d, r, key)
    ensures r.changed == (d.changed || r.cf != d.cf)
    ensures r.cf != d.cf ==>
      key in schema.defined && (overwrite || EmptyLike(Get(d.cf, key))) && ToStr(raw).Some? &&
      r.cf[key] == VStr(ToStr(raw).value)
    ensures key in schema.defined && (overwrite || EmptyLike(Get(d.cf, key))) && ToStr(raw).Some? ==>
      Get(r.cf, key) == VStr(ToStr(raw).value)
    ensures EmptyLike(Get(r.cf, key)) ==> r.cf == d.cf
  {
    if key !in schema.defined then d
    else
      var cur := Get(d.cf, key);
      if !EmptyLike(cur) && !overwrite then d
      else
        match ToStr(raw)
        case None => d
        case Some(s) => if cur != VStr(s) then Write(d, key, VStr(s)) else d
  }

  /** `mon_enabled`: `truthy` of `mon_req`, or of `cf_mon_req`, each read through `_get_cf`. */
  predicate MonEnabled(orig: CfData)
  {
    TruthyFlag(GetCf(orig, "mon_req")) || TruthyFlag(GetCf(orig, "cf_mon_req"))
  }

  /** Monitoring disabled: a defined `zbp_status` becomes "Remove Pending". */
  function DisableStep(schema: Schema, d: Draft): (r: Draft)
    ensures StepAt(d, r, "zbp_status")
  {
    if "zbp_status" in schema.defined && Get(d.cf, "zbp_status") != VStr(RemovePending) then
      Write(d, "zbp_status", VStr(RemovePending))
    else d
  }

  /** Visible name: a defined, falsy `zbp_vname` becomes "name - description" when the description is truthy. */
  function VisibleNameStep(schema: Schema, d: Draft, src: Sources): (r: Draft)
    ensures StepAt(d, r, "zbp_vname")
  {
    if "zbp_vname" in schema.defined && !Truthy(Get(d.cf, "zbp_vname")) && Truthy(src.description) then
      Write(d, "zbp_vname", VStr(Str(src.name) + " - " + Str(src.description)))
    else d
  }

  /** Host IP: fill from the object's own `zbp_int_ip`/`cf_zbp_int_ip`; a defined field still
      falsy then takes the primary IPv4 address. */
  function HostIpStep(schema: Schema, orig: CfData, d: Draft, src: Sources): (r: Draft)
    ensures StepAt(d, r, "zbp_int_ip")
  {
    var d1 := PutIfEmptyStep(schema, d, "zbp_int_ip", GetCf(orig, "zbp_int_ip"));
    if "zbp_int_ip" in schema.defined && !Truthy(Get(d1.cf, "zbp_int_ip")) && src.primaryIp4.Some? then
      Write(d1, "zbp_int_ip", VStr(src.primaryIp4.value))
    else d1
  }

  function PlatformCf(src: Sources): CfData
  {
    if src.platform.Some? then src.platform.value.cf else map[]
  }

  function SiteCf(src: Sources): CfData
  {
    if src.site.Some? then src.site.value.cf else map[]
  }

  /** The platform's raw `zb_pri_template_name` value. */
  function PlatformTemplate(src: Sources): Value
  {
    Get(PlatformCf(src), "zb_pri_template_name")
  }

  /** `rev.get(v)` where `rev = {v: k for k, v in m.items()}`: the key of the LAST entry holding `v`. */
  function ReverseLookup(m: Mapping, v: string): (r: Option<string>)
    ensures r.Some? ==> (r.value, v) in m
    ensures r.None? <==> !InRange(m, v)
  {
    if |m| == 0 then None
    else if m[|m| - 1].1 == v then Some(m[|m| - 1].0)
    else
      var r := ReverseLookup(m[..|m| - 1], v);
      assert forall i :: 0 <= i < |m| - 1 ==> m[i] == m[..|m| - 1][i];
      r
  }

  /** The reverse lookup finds the last entry holding the value. */
  lemma {:induction false} ReverseLookupLast(m: Mapping, v: string)
    requires ReverseLookup(m, v).Some?
    ensures exists i :: 0 <= i < |m| && m[i] == (ReverseLookup(m, v).value, v) &&
                        (forall j :: i < j < |m| ==> m[j].1 != v)
  {
    var r := ReverseLookup(m, v).value;
    if m[|m| - 1].1 != v {
      var init := m[..|m| - 1];
      assert ReverseLookup(m, v) == ReverseLookup(init, v);
      ReverseLookupLast(init, v);
      var i :| 0 <= i < |init| && init[i] == (r, v) && (forall j :: i < j < |init| ==> init[j].1 != v);
      assert m[i] == init[i];
      assert forall j :: i < j < |m| - 1 ==> m[j] == init[j];
      assert forall j :: i < j < |m| ==> m[j].1 != v;
    } else {
      assert m[|m| - 1] == (r, v);
    }
  }

  /** In a table with distinct keys, the key the reverse lookup finds maps back to the value. */
  lemma ReverseLookupRoundTrip(m: Mapping, v: string)
    requires DistinctKeys(m) && ReverseLookup(m, v).Some?
    ensures Lookup(m, ReverseLookup(m, v).value) == Some(v)
  {
    LookupDistinct(m, ReverseLookup(m, v).value, v);
  }

  /** The label `rev.get(stored_value)` gives, looked up only for a truthy value; a list or
      dict cannot be a dict key, so Python raises TypeError. */
  function RevLabel(m: Mapping, stored: Value): (r: Result<Option<string>, PopError>)
    ensures r.Err? <==> Truthy(stored) && (stored.VList? || stored.VDict?)
    ensures r.Ok? && r.value.Some? ==> stored.VStr? && (r.value.value, stored.s) in m
  {
    if !Truthy(stored) then Ok(None)
    else match stored
      case VStr(s) => Ok(ReverseLookup(m, s))
      case VList(_) => Err(Unhashable)
      case VDict(_) => Err(Unhashable)
      case _ => Ok(None)
  }

  /** The stored template value looked up through a non-empty vocabulary is a str or None,
      so the reverse lookup cannot raise. */
  lemma RevLabelNonEmptyVocabulary(m: Mapping, raw: Value)
    requires |m| > 0
    ensures RevLabel(m, Normalize(m, raw, false)).Ok?
  {
  }

  /** Template name: the label the platform's template value resolves to, written when the
      field is falsy or `overwrite` is set, and the label is new. */
  function TemplateNameStep(schema: Schema, d: Draft, platTmpl: Value, overwrite: bool): (r: Result<Draft, PopError>)
    ensures r.Ok? ==> StepAt(d, r.value, "zbp_pri_template_name")
  {
    if "zbp_pri_template_name" !in schema.defined then Ok(d)
    else
      var m := Vocabulary(schema, "zb_pri_template_name");
      match RevLabel(m, Normalize(m, platTmpl, false))
      case Err(e) => Err(e)
      case Ok(found) =>
        var cur := Get(d.cf, "zbp_pri_template_name");
        if (overwrite || !Truthy(cur)) && found.Some? && found.value != "" && cur != VStr(found.value) then
          Ok(Write(d, "zbp_pri_template_name", VStr(found.value)))
        else Ok(d)
  }

  /** The platform's explicit interface id: the first truthy of its three interface-id fields. */
  function PlatformIfaceId(pcf: CfData): Value
  {
    Or(Or(Get(pcf, "zb_pri_template_int_id"), Get(pcf, "zbp_pri_template_int_id")), Get(pcf, "zb_template_interface_id"))
  }

  /** The interface type a template label names: "snmp" before "ipmi" before "jmx", else the agent. */
  function InferIfaceId(tmpl: Value): (id: string)
    ensures id == "1" || id == "2" || id == "3" || id == "4"
    ensures Contains(Lower(Str(tmpl)), "snmp") ==> id == "2"
    ensures id == "1" <==> !Contains(Lower(Str(tmpl)), "snmp") && !Contains(Lower(Str(tmpl)), "ipmi") &&
                           !Contains(Lower(Str(tmpl)), "jmx")
  {
    var low := Lower(Str(tmpl));
    if Contains(low, "snmp") then "2"
    else if Contains(low, "ipmi") then "3"
    else if Contains(low, "jmx") then "4"
    else "1"
  }

  /** `plat_int_id` after inference: the platform's explicit id when truthy; otherwise, when a
      template label is known (the field, else the platform's template resolved to its label),
      the id inferred from it; otherwise the falsy explicit value. */
  function InterfaceIdValue(schema: Schema, d: Draft, platTmpl: Value, pcf: CfData): (r: Result<Value, PopError>)
    ensures Truthy(PlatformIfaceId(pcf)) ==> r == Ok(PlatformIfaceId(pcf))
    ensures r.Ok? && r.value != PlatformIfaceId(pcf) ==>
      exists id :: r.value == VStr(id) && (id == "1" || id == "2" || id == "3" || id == "4")
  {
    var explicit := PlatformIfaceId(pcf);
    if Truthy(explicit) then Ok(explicit)
    else
      var fromCf := if "zbp_pri_template_name" in schema.defined then Get(d.cf, "zbp_pri_template_name") else VNone;
      var tmpl: Result<Value, PopError> :=
        if !Truthy(fromCf) && Truthy(platTmpl) then
          var m := Vocabulary(schema, "zb_pri_template_name");
          (match RevLabel(m, Normalize(m, platTmpl, false))
           case Err(e) => Err(e)
           case Ok(k) => Ok(if k.Some? then VStr(k.value) else VNone))
        else Ok(fromCf);
      match tmpl
      case Err(e) => Err(e)
      case Ok(l) => Ok(if Truthy(l) then VStr(InferIfaceId(l)) else explicit)
  }

  /** `IFACE_LABELS.get(int(str(plat_int_id)))`, None when the id is None or `int` fails. */
  function IfaceNameFor(platIntId: Value): Option<string>
  {
    if platIntId == VNone then None else LabelOfParsed(ParseInt(Str(platIntId)))
  }

  /** `IFACE_LABELS.get(i)` for the outcome of `int(...)`. */
  function LabelOfParsed(parsed: Option<int>): Option<string>
  {
    match parsed
    case Some(i) => if i in IfaceLabels then Some(IfaceLabels[i]) else None
    case None => None
  }

  /** An integer id names an interface exactly when it is 1 to 4. */
  lemma {:induction false} IfaceNameForInt(i: int)
    ensures IfaceNameFor(VInt(i)) == (if 1 <= i <= 4 then Some(IfaceLabels[i]) else None)
  {
    ParseIntOfIntToStr(i);
    assert Str(VInt(i)) == IntToStr(i);
    assert IfaceNameFor(VInt(i)) == LabelOfParsed(Some(i));
    LabelOfInt(i);
  }

  /** The interface table's keys are 1 to 4. */
  lemma LabelOfInt(i: int)
    ensures LabelOfParsed(Some(i)) == (if 1 <= i <= 4 then Some(IfaceLabels[i]) else None)
  {
    assert IfaceLabels.Keys == {1, 2, 3, 4};
  }

  /** An inferred id always names an interface: 1 the agent, 2 SNMP, 3 IPMI, 4 JMX. */
  lemma {:induction false} IfaceNameForInferred(tmpl: Value)
    ensures IfaceNameFor(VStr(InferIfaceId(tmpl))).Some?
  {
    var id := InferIfaceId(tmpl);
    assert Str(VStr(id)) == id;
    ParseIntDigits(id);
    assert DigitsValue(id) == DigitValue(id[0]) by { assert id[..0] == ""; }
  }

  /** Interface name: written from the id when it names an interface, the field is falsy
      or `overwrite` is set, and the name is new. */
  function InterfaceNameStep(schema: Schema, d: Draft, platIntId: Value, overwrite: bool): (r: Draft)
    ensures StepAt(d, r, "zbp_pri_template_int_name")
  {
    if "zbp_pri_template_int_name" !in schema.defined then d
    else
      var lbl := IfaceNameFor(platIntId);
      var cur := Get(d.cf, "zbp_pri_template_int_name");
      if (overwrite || !Truthy(cur)) && lbl.Some? && lbl.value != "" && cur != VStr(lbl.value) then
        Write(d, "zbp_pri_template_int_name", VStr(lbl.value))
      else d
  }

  /** The role's SLA code attribute, else its `sla_report_code` custom field. */
  function SlaCode(src: Sources): Value
  {
    match src.role
    case None => VNone
    case Some(role) => Or(role.slaReportCode, Get(role.cf, "sla_report_code"))
  }

  /** Platform and site slugs, then proxy, group and SLA code, each by `put_from_source`. */
  function PlacementStep(schema: Schema, d: Draft, src: Sources, overwrite: bool): Draft
  {
    var d1 := if src.platform.Some? then PutFromSourceStep(schema, d, "zbp_platform", src.platform.value.slug, overwrite) else d;
    var d2 := if src.site.Some? then PutFromSourceStep(schema, d1, "zbp_site", src.site.value.slug, overwrite) else d1;
    var d3 := PutFromSourceStep(schema, d2, "zbp_proxy_id", Get(SiteCf(src), "zb_proxy_id"), overwrite);
    var d4 := PutFromSourceStep(schema, d3, "zbp_group_id", Get(SiteCf(src), "zb_group_id"), overwrite);
    PutFromSourceStep(schema, d4, "zbp_sla_code", SlaCode(src), overwrite)
  }

  /** Extra templates: a present `zb_extra_templates` is re-resolved through its vocabulary,
      and `changed` is raised whether or not the value changed. */
  function ExtraTemplatesStep(schema: Schema, d: Draft): (r: Draft)
    ensures StepAt(d, r, "zb_extra_templates")
    ensures "zb_extra_templates" in d.cf ==> r.changed && "zb_extra_templates" in r.cf
    ensures "zb_extra_templates" !in d.cf ==> r == d
  {
    if "zb_extra_templates" in d.cf then
      var m := Vocabulary(schema, "zb_extra_templates");
      Write(d, "zb_extra_templates", Normalize(m, d.cf["zb_extra_templates"], "zb_extra_templates" in schema.listFields))
    else d
  }

  /** The seven always-required fields. */
  const RequiredKeys: seq<string> := [
    "zbp_vname", "zbp_int_ip", "zbp_pri_template_name_id", "zbp_pri_template_int_id",
    "zbp_proxy_id", "zbp_group_id", "zbp_sla_code"]

  /** The keys of `ks` that are defined fields, in order. */
  function DefinedOnly(schema: Schema, ks: seq<string>): (r: seq<string>)
    ensures forall k :: k in r <==> k in ks && k in schema.defined
  {
    if |ks| == 0 then []
    else
      var init := DefinedOnly(schema, ks[..|ks| - 1]);
      assert ks == ks[..|ks| - 1] + [ks[|ks| - 1]];
      if ks[|ks| - 1] in schema.defined then init + [ks[|ks| - 1]] else init
  }

  /** `existing_reqs`: the required keys (with platform and site when defined) that are defined. */
  function ExistingRequired(schema: Schema): seq<string>
  {
    var opts := (if "zbp_platform" in schema.defined then ["zbp_platform"] else []) +
                (if "zbp_site" in schema.defined then ["zbp_site"] else []);
    DefinedOnly(schema, RequiredKeys + opts)
  }

  /** `complete`: a non-empty `zb_mon_env` on the object and every existing required field non-empty. */
  predicate Complete(schema: Schema, orig: CfData, cf: CfData)
  {
    !EmptyLike(GetCf(orig, "zb_mon_env")) && forall k :: k in ExistingRequired(schema) ==> !EmptyLike(Get(cf, k))
  }

  /** The status the machine wants. */
  function DesiredStatus(current: Value, complete: bool): (s: string)
    ensures complete && current == VStr("Synced") ==> s == "Synced"
    ensures complete && current != VStr("Synced") ==> s == "Not Synced"
    ensures !complete ==> s == "Missing Data"
  {
    if complete then (if current == VStr("Synced") then "Synced" else "Not Synced") else "Missing Data"
  }

  /** Applying the machine to its own answer changes nothing while completeness holds still. */
  lemma DesiredStatusStable(current: Value, complete: bool)
    ensures DesiredStatus(VStr(DesiredStatus(current, complete)), complete) == DesiredStatus(current, complete)
  {
  }

  /** The status machine on a defined `zbp_status`. */
  function StatusStep(schema: Schema, orig: CfData, d: Draft): (r: Draft)
    ensures StepAt(d, r, "zbp_status")
  {
    if "zbp_status" !in schema.defined then d
    else
      var current := Get(d.cf, "zbp_status");
      var desired := DesiredStatus(current, Complete(schema, orig, d.cf));
      if current != VStr(desired) then Write(d, "zbp_status", VStr(desired)) else d
  }

  /** Visible name, host IP, primary template id and template name, in that order. */
  function TemplateSteps(schema: Schema, orig: CfData, d: Draft, src: Sources, overwrite: bool): Result<Draft, PopError>
  {
    var platTmpl := PlatformTemplate(src);
    var d1 := HostIpStep(schema, orig, VisibleNameStep(schema, d, src), src);
    var d2 := PutFromSourceStep(schema, d1, "zbp_pri_template_name_id", platTmpl, overwrite);
    TemplateNameStep(schema, d2, platTmpl, overwrite)
  }

  /** Template interface id (explicit or inferred), then its name. */
  function InterfaceSteps(schema: Schema, d: Draft, src: Sources, overwrite: bool): Result<Draft, PopError>
  {
    match InterfaceIdValue(schema, d, PlatformTemplate(src), PlatformCf(src))
    case Err(e) => Err(e)
    case Ok(intId) =>
      Ok(InterfaceNameStep(schema, PutFromSourceStep(schema, d, "zbp_pri_template_int_id", intId, overwrite), intId, overwrite))
  }

  /** Placement fields, extra templates, then the status machine. */
  function FinalSteps(schema: Schema, orig: CfData, d: Draft, src: Sources, overwrite: bool): Draft
  {
    StatusStep(schema, orig, ExtraTemplatesStep(schema, PlacementStep(schema, d, src, overwrite)))
  }

  /** `populate_monitoring_fields` up to the save: the final working copy and `changed`, or
      the exception raised on the way. `orig` is the object's custom-field data. */
  function PopulateSpec(schema: Schema, orig: CfData, src: Sources, overwrite: bool): Result<Draft, PopError>
  {
    var d0 := Draft(orig, false);
    if !MonEnabled(orig) then Ok(DisableStep(schema, d0))
    else
      match TemplateSteps(schema, orig, d0, src, overwrite)
      case Err(e) => Err(e)
      case Ok(d3) =>
        match InterfaceSteps(schema, d3, src, overwrite)
        case Err(e) => Err(e)
        case Ok(d5) => Ok(FinalSteps(schema, orig, d5, src, overwrite))
  }

  // ------------------------------------------------------------------
  // The imperative engine

  /** The state the nested `put_*` helpers share with their caller: the working copy `cf`
      and the `nonlocal changed` flag. */
  class Work {
    var cf: CfData
    var changed: bool

    function State(): Draft
      reads this
    {
      Draft(cf, changed)
    }

    constructor (data: CfData)
      ensures State() == Draft(data, false)
    {
      cf := data;
      changed := false;
    }

    method Set(key: string, v: Value)
      modifies this
      ensures State() == Write(old(State()), key, v)
    {
      cf := cf[key := v];
      changed := true;
    }

    /** `put_if_empty` */
    method PutIfEmpty(schema: Schema, key: string, raw: Value)
      modifies this
      ensures State() == PutIfEmptyStep(schema, old(State()), key, raw)
    {
      if key !in schema.defined {
        return;
      }
      if key !in cf || EmptyLike(cf[key]) {
        var val := ToStr(raw);
        if val.Some? {
          cf := cf[key := VStr(val.value)];
          changed := true;
        }
      }
    }

    /** `put_from_source` */
    method PutFromSource(schema: Schema, key: string, raw: Value, overwrite: bool)
      modifies this
      ensures State() == PutFromSourceStep(schema, old(State()), key, raw, overwrite)
    {
      if key !in schema.defined {
        return;
      }
      var cur := Get(cf, key);
      if !EmptyLike(cur) && !overwrite {
        return;
      }
      var val := ToStr(raw);
      if val.Some? && cur != VStr(val.value) {
        cf := cf[key := VStr(val.value)];
        changed := true;
      }
    }

    /** Monitoring disabled. */
    method Disable(schema: Schema)
      modifies this
      ensures State() == DisableStep(schema, old(State()))
    {
      if "zbp_status" in schema.defined && Get(cf, "zbp_status") != VStr(RemovePending) {
        Set("zbp_status", VStr(RemovePending));
      }
    }

    /** Visible name. */
    method VisibleName(schema: Schema, src: Sources)
      modifies this
      ensures State() == VisibleNameStep(schema, old(State()), src)
    {
      if "zbp_vname" in schema.defined && !Truthy(Get(cf, "zbp_vname")) && Truthy(src.description) {
        Set("zbp_vname", VStr(Str(src.name) + " - " + Str(src.description)));
      }
    }

    /** Host IP. */
    method HostIp(schema: Schema, orig: CfData, src: Sources)
      modifies this
      ensures State() == HostIpStep(schema, orig, old(State()), src)
    {
      PutIfEmpty(schema, "zbp_int_ip", GetCf(orig, "zbp_int_ip"));
      if "zbp_int_ip" in schema.defined && !Truthy(Get(cf, "zbp_int_ip")) && src.primaryIp4.Some? {
        Set("zbp_int_ip", VStr(src.primaryIp4.value));
      }
    }

    /** Primary template name, by reverse lookup of the normalised platform value. */
    method TemplateName(schema: Schema, platTmpl: Value, overwrite: bool) returns (err: Option<PopError>)
      modifies this
      ensures match TemplateNameStep(schema, old(State()), platTmpl, overwrite)
        case Err(e) => err == Some(e) && State() == old(State())
        case Ok(d) => err == None && State() == d
    {
      if "zbp_pri_template_name" !in schema.defined {
        return None;
      }
      var m := Vocabulary(schema, "zb_pri_template_name");
      var stored := NormalizeChoice(m, platTmpl, false);
      var found := RevLabel(m, stored);
      if found.Err? {
        return Some(found.error);
      }
      var cur := Get(cf, "zbp_pri_template_name");
      if overwrite || !Truthy(cur) {
        if found.value.Some? && found.value.value != "" && cur != VStr(found.value.value) {
          Set("zbp_pri_template_name", VStr(found.value.value));
        }
      }
      err := None;
    }

    /** Template interface id, inferred from the template label when the platform gives none. */
    method InterfaceId(schema: Schema, platTmpl: Value, pcf: CfData) returns (r: Result<Value, PopError>)
      ensures r == InterfaceIdValue(schema, State(), platTmpl, pcf)
    {
      var platIntId := PlatformIfaceId(pcf);
      if !Truthy(platIntId) {
        var tmplLabel := if "zbp_pri_template_name" in schema.defined then Get(cf, "zbp_pri_template_name") else VNone;
        if !Truthy(tmplLabel) && Truthy(platTmpl) {
          var m := Vocabulary(schema, "zb_pri_template_name");
          var stored := NormalizeChoice(m, platTmpl, false);
          var found := RevLabel(m, stored);
          if found.Err? {
            return Err(found.error);
          }
          tmplLabel := if found.value.Some? then VStr(found.value.value) else VNone;
        }
        if Truthy(tmplLabel) {
          platIntId := VStr(InferIfaceId(tmplLabel));
        }
      }
      r := Ok(platIntId);
    }

    /** Template interface name. */
    method InterfaceName(schema: Schema, platIntId: Value, overwrite: bool)
      modifies this
      ensures State() == InterfaceNameStep(schema, old(State()), platIntId, overwrite)
    {
      if "zbp_pri_template_int_name" in schema.defined {
        var lbl := IfaceNameFor(platIntId);
        var cur := Get(cf, "zbp_pri_template_int_name");
        if overwrite || !Truthy(cur) {
          if lbl.Some? && lbl.value != "" && cur != VStr(lbl.value) {
            Set("zbp_pri_template_int_name", VStr(lbl.value));
          }
        }
      }
    }

    /** Platform and site slugs, proxy, group and SLA code. */
    method Placement(schema: Schema, src: Sources, overwrite: bool)
      modifies this
      ensures State() == PlacementStep(schema, old(State()), src, overwrite)
    {
      if src.platform.Some? {
        PutFromSource(schema, "zbp_platform", src.platform.value.slug, overwrite);
      }
      if src.site.Some? {
        PutFromSource(schema, "zbp_site", src.site.value.slug, overwrite);
      }
      PutFromSource(schema, "zbp_proxy_id", Get(SiteCf(src), "zb_proxy_id"), overwrite);
      PutFromSource(schema, "zbp_group_id", Get(SiteCf(src), "zb_group_id"), overwrite);
      PutFromSource(schema, "zbp_sla_code", SlaCode(src), overwrite);
    }

    /** Extra templates. */
    method ExtraTemplates(schema: Schema)
      modifies this
      ensures State() == ExtraTemplatesStep(schema, old(State()))
    {
      if "zb_extra_templates" in cf {
        var m := Vocabulary(schema, "zb_extra_templates");
        var v := NormalizeChoice(m, cf["zb_extra_templates"], "zb_extra_templates" in schema.listFields);
        Set("zb_extra_templates", v);
      }
    }

    /** The status machine. */
    method Status(schema: Schema, orig: CfData)
      modifies this
      ensures State() == StatusStep(schema, orig, old(State()))
    {
      if "zbp_status" in schema.defined {
        var current := Get(cf, "zbp_status");
        var desired := DesiredStatus(current, Complete(schema, orig, cf));
        if current != VStr(desired) {
          Set("zbp_status", VStr(desired));
        }
      }
    }
  }

  /** A Device or VirtualMachine as the plugin sees it. */
  class Instance {
    /** The primary key; None (or 0) for an object not yet saved. */
    const pk: Option<int>
    const sources: Sources
    /** `custom_field_data` of the Python object. */
    var customFieldData: CfData
    /** `custom_field_data` of the object's database row, when the row exists. */
    var row: Option<CfData>
    /** `_nbzbx_old_status` and `_nbzbx_new_status`, once the pre-save handler has set them. */
    var oldStatus: Option<Value>
    var newStatus: Option<Value>

    constructor (pk: Option<int>, sources: Sources, data: CfData, row: Option<CfData>)
      ensures this.pk == pk && this.sources == sources && customFieldData == data && this.row == row
      ensures oldStatus == None && newStatus == None
    {
      this.pk := pk;
      this.sources := sources;
      customFieldData := data;
      this.row := row;
      oldStatus := None;
      newStatus := None;
    }

    /** The tail of populate once `changed` is known: write the copy back, then, when saving,
        validate (`valid` is `full_clean`'s verdict) and store the row. */
    method Finish(cf: CfData, changed: bool, validate: bool, save: bool, valid: bool) returns (r: Result<bool, PopError>)
      modifies this`customFieldData, this`row
      ensures customFieldData == if changed then cf else old(customFieldData)
      ensures changed && save && validate && !valid ==> r == Err(ValidationFailed) && row == old(row)
      ensures !(changed && save && validate && !valid) ==>
        r == Ok(changed) && row == (if changed && save then Some(cf) else old(row))
    {
      if changed {
        customFieldData := cf;
        if save {
          if validate && !valid {
            return Err(ValidationFailed);
          }
          row := Some(cf);
        }
      }
      r := Ok(changed);
    }

    /** `populate_monitoring_fields(obj, validate=..., save=..., overwrite_source=...)`. */
    method Populate(schema: Schema, validate: bool, save: bool, overwrite: bool, valid: bool)
      returns (r: Result<bool, PopError>)
      modifies this`customFieldData, this`row
      ensures match PopulateSpec(schema, old(customFieldData), sources, overwrite)
        case Err(e) => r == Err(e) && customFieldData == old(customFieldData) && row == old(row)
        case Ok(d) =>
          && customFieldData == (if d.changed then d.cf else old(customFieldData))
          && (d.changed && save && validate && !valid ==> r == Err(ValidationFailed) && row == old(row))
          && (!(d.changed && save && validate && !valid) ==>
                r == Ok(d.changed) && row == (if d.changed && save then Some(d.cf) else old(row)))
    {
      var orig := customFieldData;
      var w := new Work(orig);
      if !MonEnabled(orig) {
        w.Disable(schema);
        r := Finish(w.cf, w.changed, validate, save, valid);
        return;
      }
      w.VisibleName(schema, sources);
      w.HostIp(schema, orig, sources);
      var platTmpl := PlatformTemplate(sources);
      w.PutFromSource(schema, "zbp_pri_template_name_id", platTmpl, overwrite);
      var err := w.TemplateName(schema, platTmpl, overwrite);
      if err.Some? {
        return Err(err.value);
      }
      ghost var d3 := w.State();
      var platIntId := w.InterfaceId(schema, platTmpl, PlatformCf(sources));
      if platIntId.Err? {
        return Err(platIntId.error);
      }
      w.PutFromSource(schema, "zbp_pri_template_int_id", platIntId.value, overwrite);
      w.InterfaceName(schema, platIntId.value, overwrite);
      assert InterfaceSteps(schema, d3, sources, overwrite) == Ok(w.State());
      w.Placement(schema, sources, overwrite);
      w.ExtraTemplates(schema);
      w.Status(schema, orig);
      r := Finish(w.cf, w.changed, validate, save, valid);
    }
  }
}
