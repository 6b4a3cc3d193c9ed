/**
 * The older "Monitoring" tab shipped at the plugin's top level: thirteen captioned rows read
 * from the object, its platform, site and role, shown only when `cf_mon_req` is set.
 */
module LegacyTab {
  import opened Py
  import opened Utils
  import Api

  /** A device or virtual machine as this tab reads it: its `custom_field_data`, the private
      `_custom_field_data` it falls back to when that is empty, name, description, platform,
      site, role and primary IPv4 address, its `comments`, and the `value` attribute of its
      status (None when the status is unset or has no such attribute). */
  datatype LegacyObj = LegacyObj(cfd: CfData, privateCfd: CfData, src: Sources, comments: Value, statusValue: Value)

  /** The custom-field data `get_cf` consults. */
  function Data(o: LegacyObj): CfData
  {
    if o.cfd != map[] then o.cfd else o.privateCfd
  }

  /** `get_cf(obj, key, default)`: the key, else the stripped key, else the default. */
  function LegacyGetCf(d: CfData, key: string, dflt: Value): (r: Value)
    ensures key in d ==> r == d[key]
    ensures key !in d && Strip(key) in d ==> r == d[Strip(key)]
    ensures key !in d && Strip(key) !in d ==> r == dflt
  {
    if key in d then d[key] else if Strip(key) in d then d[Strip(key)] else dflt
  }

  /** The narrower token set of this module's `truthy`. */
  const LegacyTokens: set<string> := {"1", "true", "yes", "y"}

  /** `truthy(v)` */
  predicate LegacyTruthy(v: Value)
  {
    match v
    case VBool(b) => b
    case VNone => false
    case _ => Lower(Strip(Str(v))) in LegacyTokens
  }

  /** Everything this tab takes as set the engine takes as set too; the engine also accepts
      "enabled" and "enable", which this tab does not. */
  lemma LegacyTruthyNarrower(v: Value)
    ensures LegacyTruthy(v) ==> TruthyFlag(v)
    ensures v.VStr? && Lower(Strip(v.s)) in {"enabled", "enable"} ==> TruthyFlag(v) && !LegacyTruthy(v)
  {
    assert LegacyTokens <= TruthyTokens;
    if v.VStr? {
      assert Str(v) == v.s;
    }
  }

  /** The characters the visible name is trimmed of. */
  const SpaceDash: set<char> := {' ', '-'}

  /** Right-stripping ignores a tail made of stripped characters. */
  lemma {:induction false} StripRightTail(x: string, t: string, cs: set<char>)
    requires forall i :: 0 <= i < |t| ==> t[i] in cs
    ensures StripRightOf(x + t, cs) == StripRightOf(x, cs)
    decreases |t|
  {
    if |t| > 0 {
      var n := |t| - 1;
      assert (x + t)[..|x + t| - 1] == x + t[..n];
      StripRightTail(x, t[..n], cs);
    } else {
      assert x + t == x;
    }
  }

  /** Left-stripping text with a tail of stripped characters: the tail survives only behind a
      character that is kept. */
  lemma {:induction false} StripLeftTail(x: string, t: string, cs: set<char>)
    requires forall i :: 0 <= i < |t| ==> t[i] in cs
    ensures StripLeftOf(x, cs) != "" ==> StripLeftOf(x + t, cs) == StripLeftOf(x, cs) + t
    ensures StripLeftOf(x, cs) == "" ==> StripLeftOf(x + t, cs) == ""
    decreases |x| + |t|
  {
    if |x| > 0 {
      assert (x + t)[0] == x[0];
      if x[0] in cs {
        assert (x + t)[1..] == x[1..] + t;
        StripLeftTail(x[1..], t, cs);
      }
    } else if |t| > 0 {
      assert (x + t) == t;
      StripLeftTail(x, t[1..], cs);
      assert t[1..] == x + t[1..];
    }
  }

  /** Stripping text with a tail of stripped characters strips the text alone. */
  lemma StripOfTail(x: string, t: string, cs: set<char>)
    requires forall i :: 0 <= i < |t| ==> t[i] in cs
    ensures StripOf(x + t, cs) == StripOf(x, cs)
  {
    StripLeftTail(x, t, cs);
    var l := StripLeftOf(x, cs);
    if l != "" {
      StripRightTail(l, t, cs);
    }
  }

  /** The description: the object's description, else its comments, else "". */
  function Description(o: LegacyObj): Value
  {
    Or(Or(o.src.description, o.comments), VStr(""))
  }

  /** The visible name: the `cf_zb_vname` entry, else "name - description" trimmed of spaces
      and dashes at both ends: a slice of that text with nothing but spaces and dashes cut off
      before and after it, and neither end a space or a dash. */
  function LegacyVisibleName(o: LegacyObj): (r: Value)
    ensures Truthy(LegacyGetCf(Data(o), "cf_zb_vname", VNone)) ==> r == LegacyGetCf(Data(o), "cf_zb_vname", VNone)
    ensures !Truthy(LegacyGetCf(Data(o), "cf_zb_vname", VNone)) ==>
      r.VStr? && (|r.s| > 0 ==> r.s[0] !in SpaceDash && r.s[|r.s| - 1] !in SpaceDash)
    ensures !Truthy(LegacyGetCf(Data(o), "cf_zb_vname", VNone)) ==>
      r.VStr? && TrimmedOf(Str(o.src.name) + " - " + Str(Description(o)), r.s, SpaceDash)
  {
    var joined := Str(o.src.name) + " - " + Str(Description(o));
    StripOfShape(joined, SpaceDash);
    Or(LegacyGetCf(Data(o), "cf_zb_vname", VNone), VStr(StripOf(joined, SpaceDash)))
  }

  /** With a name and a description that need no trimming, the visible name is "name - description". */
  lemma VisibleNameJoined(o: LegacyObj)
    requires !Truthy(LegacyGetCf(Data(o), "cf_zb_vname", VNone))
    requires var n := Str(o.src.name); |n| > 0 && n[0] !in SpaceDash
    requires var d := Str(Description(o)); |d| > 0 && d[|d| - 1] !in SpaceDash
    ensures LegacyVisibleName(o) == VStr(Str(o.src.name) + " - " + Str(Description(o)))
  {
    var s := Str(o.src.name) + " - " + Str(Description(o));
    StripOfFixed(s, SpaceDash);
  }

  /** Without a description the separator is trimmed away: the visible name is the name's own
      text, trimmed, where the newer tab shows nothing. */
  lemma VisibleNameWithoutDescription(o: LegacyObj)
    requires !Truthy(LegacyGetCf(Data(o), "cf_zb_vname", VNone))
    requires !Truthy(o.src.description) && !Truthy(o.comments)
    ensures LegacyVisibleName(o) == VStr(StripOf(Str(o.src.name), SpaceDash))
  {
    assert Str(Description(o)) == "";
    var t := " - ";
    assert Str(o.src.name) + " - " + Str(Description(o)) == Str(o.src.name) + t;
    StripOfTail(Str(o.src.name), t, SpaceDash);
  }

  /** The status text: the `cf_zb_status` entry as text, else "Enabled" for an active status,
      else "Not Enable". */
  function StatusText(o: LegacyObj): (r: string)
    ensures Truthy(LegacyGetCf(Data(o), "cf_zb_status", VNone)) ==> r == Str(LegacyGetCf(Data(o), "cf_zb_status", VNone))
    ensures !Truthy(LegacyGetCf(Data(o), "cf_zb_status", VNone)) ==>
      (r == "Enabled" <==> o.statusValue == VStr("active")) && (r == "Enabled" || r == "Not Enable")
  {
    var cfStatus := LegacyGetCf(Data(o), "cf_zb_status", VNone);
    if Truthy(cfStatus) then Str(cfStatus)
    else if o.statusValue == VStr("active") then "Enabled"
    else "Not Enable"
  }

  /** The host IP: the `cf_zb_int_ip` entry as text, else the primary IPv4 address, else None. */
  function LegacyIp(o: LegacyObj): (r: Value)
    ensures Truthy(LegacyGetCf(Data(o), "cf_zb_int_ip", VNone)) ==> r == VStr(Str(LegacyGetCf(Data(o), "cf_zb_int_ip", VNone)))
    ensures !Truthy(LegacyGetCf(Data(o), "cf_zb_int_ip", VNone)) && o.src.primaryIp4.Some? ==> r == VStr(o.src.primaryIp4.value)
    ensures !Truthy(LegacyGetCf(Data(o), "cf_zb_int_ip", VNone)) && o.src.primaryIp4.None? ==> r == VNone
  {
    var override := LegacyGetCf(Data(o), "cf_zb_int_ip", VNone);
    if Truthy(override) then VStr(Str(override))
    else if o.src.primaryIp4.Some? then VStr(o.src.primaryIp4.value)
    else VNone
  }

  /** The raw extra-template value: the `cf_zb_extra_templates` entry, else the entry under the
      same name with a trailing space. */
  function ExtraRaw(o: LegacyObj): Value
  {
    Or(LegacyGetCf(Data(o), "cf_zb_extra_templates", VNone), LegacyGetCf(Data(o), "cf_zb_extra_templates ", VNone))
  }

  /** Clean items joined with ", " make non-empty text that the export lists as the same items. */
  lemma JoinedItems(items: seq<string>)
    requires items != [] && forall k :: 0 <= k < |items| ==> Api.Clean(items[k])
    ensures Join(", ", items) != "" && Api.AsList(VStr(Join(", ", items))) == items
  {
    var text := Join(", ", items);
    assert items[0] != "" by {
      assert Api.Clean(items[0]);
    }
    JoinLength(items);
    Api.CsvItemsOfJoined(items);
    AsListText(text);
  }

  /** The export lists a text as its comma items. */
  lemma AsListText(t: string)
    ensures Api.AsList(VStr(t)) == Api.CsvItems(t)
  {
    assert Str(VStr(t)) == t;
  }

  /** A join is at least as long as its first part. */
  lemma JoinLength(items: seq<string>)
    requires items != []
    ensures |Join(", ", items)| >= |items[0]|
  {
    if |items| > 1 {
      assert Join(", ", items) == items[0] + ", " + Join(", ", items[1..]);
    }
  }

  /** The extra templates: the items of the raw value's text, joined with ", "; None without items. */
  function ExtraTemplates(raw: Value): (r: Value)
    ensures r == VNone <==> !Truthy(raw) || Api.CsvItems(Str(raw)) == []
    ensures r != VNone ==> r.VStr? && Api.AsList(r) == Api.CsvItems(Str(raw))
  {
    if !Truthy(raw) then VNone
    else
      var items := Api.CsvItems(Str(raw));
      if items == [] then VNone
      else
        JoinedItems(items);
        VStr(Join(", ", items))
  }

  /** The captions, in the order the tab shows them. */
  const LegacyCaptions: seq<string> := [
    "Host Name", "Visible Name", "Status", "Primary Template", "Template Interface ID",
    "Host IP Address", "Extra Templates", "Environment", "OS", "Site", "Zabbix Proxy ID",
    "Zabbix Group ID", "SLA Code"]

  /** The thirteen displays, in caption order. The platform lookups repeat their key once
      stripped, which changes nothing, so each is one lookup here. */
  function LegacyDisplays(o: LegacyObj): (d: seq<Value>)
    ensures |d| == |LegacyCaptions|
  {
    var pcf := PlatformCf(o.src);
    [o.src.name, LegacyVisibleName(o), VStr(StatusText(o)), Get(pcf, "zb_pri_template_name"),
     Get(pcf, "zb_pri_template_int_id"), LegacyIp(o), ExtraTemplates(ExtraRaw(o)),
     LegacyGetCf(Data(o), "cf_zb_mon_env", VNone),
     if o.src.platform.Some? then o.src.platform.value.slug else VNone,
     if o.src.site.Some? then o.src.site.value.slug else VNone,
     Get(SiteCf(o.src), "cf_zb_proxy_id"), Get(SiteCf(o.src), "cf_zb_group_id"), Api.RoleSla(o.src)]
  }

  /** `_collect_items(obj, is_device)`: always thirteen (caption, display) pairs in the fixed
      order; `is_device` is not read. */
  function CollectItems(o: LegacyObj): (items: seq<(string, Value)>)
    ensures |items| == 13
    ensures forall i :: 0 <= i < 13 ==> items[i] == (LegacyCaptions[i], LegacyDisplays(o)[i])
  {
    var d := LegacyDisplays(o);
    seq(|LegacyCaptions|, i requires 0 <= i < |LegacyCaptions| => (LegacyCaptions[i], d[i]))
  }

  /** `_cf_mon_req(obj)`: the condition under which the tab is shown. */
  predicate TabShown(o: LegacyObj)
  {
    LegacyTruthy(LegacyGetCf(Data(o), "cf_mon_req", VNone))
  }

  /** A shown tab belongs to an object the export lists: both read the `cf_mon_req` entry
      (the export may also fall back to `mon_req`), and this tab's truth test is the narrower. */
  lemma ShownImpliesExported(o: LegacyObj)
    requires TabShown(o)
    ensures Api.ApiTruthy(Api.ApiGetCf(Some(Data(o)), "cf_mon_req", VNone))
  {
    var d := Data(o);
    var key := "cf_mon_req";
    StripFixed(key);
    assert key in d;
    LegacyTruthyNarrower(d[key]);
    Api.ApiTruthyAgrees(d[key]);
  }
}
