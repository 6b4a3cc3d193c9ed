/**
 * The AWX inventory endpoint: each monitored device or virtual machine becomes a host
 * record (names, templates, interface, placement, tags, completeness and badge); the
 * list can be narrowed to one badge and is summarised by badge.
 */
module Api {
  import opened Py
  import opened Utils

  // ------------------------------------------------------------------
  // Helpers

  /** The token set of `_truthy`, written out again in the view module. */
  const ApiTruthyTokens: set<string> := {"1", "true", "yes", "y", "enabled", "enable"}

  /** `_truthy(v)` */
  predicate ApiTruthy(v: Value)
  {
    match v
    case VBool(b) => b
    case VNone => false
    case _ => Lower(Strip(Str(v))) in ApiTruthyTokens
  }

  /** The view's `_truthy` and the engine's `truthy` accept the same values. */
  lemma ApiTruthyAgrees(v: Value)
    ensures ApiTruthy(v) <==> TruthyFlag(v)
  {
    assert ApiTruthyTokens == TruthyTokens;
  }

  /** The alias `_get_cf` tries second: the key without its `cf_` prefix, or with one added. */
  function Alias(key: string): (r: string)
    ensures |key| >= 3 && key[..3] == "cf_" ==> "cf_" + r == key
    ensures !(|key| >= 3 && key[..3] == "cf_") ==> r == "cf_" + key
  {
    if |key| >= 3 && key[..3] == "cf_" then key[3..] else "cf_" + key
  }

  /** `_get_cf(obj, key, default)` on the object's custom-field data (None: no object):
      the key, else its alias, else the stripped key, else the default. */
  function ApiGetCf(data: Option<CfData>, key: string, dflt: Value): (r: Value)
    ensures data.None? ==> r == dflt
    ensures data.Some? && key in data.value ==> r == data.value[key]
    ensures r != dflt ==> data.Some? && r in data.value.Values
  {
    if data.None? then dflt
    else
      var d := data.value;
      if key in d then d[key]
      else if Alias(key) in d then d[Alias(key)]
      else if Strip(key) in d then d[Strip(key)]
      else dflt
  }

  /** On a plain key, the view's lookup is the engine's `_get_cf`: the key, then `cf_` + key. */
  lemma ApiGetCfPlainKey(d: CfData, key: string)
    requires !(|key| >= 3 && key[..3] == "cf_")
    requires Strip(key) == key
    ensures ApiGetCf(Some(d), key, VNone) == GetCf(d, key)
  {
  }

  /** On a `cf_`-prefixed key the order is reversed: the prefixed entry wins over the plain one. */
  lemma ApiGetCfPrefixedKey(d: CfData, key: string)
    requires "cf_" + key in d
    ensures ApiGetCf(Some(d), "cf_" + key, VNone) == d["cf_" + key]
    ensures key in d && d[key] != d["cf_" + key] ==> ApiGetCf(Some(d), "cf_" + key, VNone) != GetCf(d, key)
  {
  }

  /** `_label_and_id(cf, name_key, id_key)`: the stored label and id (each falling back to its
      `cf_` twin when falsy); a raw name that is all digits fills a falsy id, any other raw
      name fills a falsy label. */
  function LabelAndId(cf: CfData, nameKey: string, idKey: string): (r: (Value, Value))
    ensures cf == map[] ==> r == (VNone, VNone)
    ensures var lbl := Or(Get(cf, nameKey + "_label"), Get(cf, "cf_" + nameKey + "_label"));
      var id := Or(Get(cf, idKey), Get(cf, "cf_" + idKey));
      var raw := Or(Get(cf, nameKey), Get(cf, "cf_" + nameKey));
      && (cf != map[] && Truthy(lbl) ==> r.0 == lbl)
      && (cf != map[] && Truthy(id) ==> r.1 == id)
      && (cf != map[] && raw == VNone ==> r == (lbl, id))
      && (cf != map[] && raw != VNone && IsDigits(Strip(Str(raw))) ==>
            r.0 == lbl && (Truthy(id) || r.1 == VInt(DigitsValue(Strip(Str(raw))))))
      && (cf != map[] && raw != VNone && !IsDigits(Strip(Str(raw))) ==>
            r.1 == id && (Truthy(lbl) || r.0 == VStr(Strip(Str(raw)))))
  {
    if cf == map[] then (VNone, VNone)
    else
      var lbl := Or(Get(cf, nameKey + "_label"), Get(cf, "cf_" + nameKey + "_label"));
      var id := Or(Get(cf, idKey), Get(cf, "cf_" + idKey));
      var raw := Or(Get(cf, nameKey), Get(cf, "cf_" + nameKey));
      if raw == VNone then (lbl, id)
      else
        var s := Strip(Str(raw));
        if IsDigits(s) then (lbl, Or(id, VInt(DigitsValue(s))))
        else if !Truthy(lbl) then (VStr(s), id)
        else (lbl, id)
  }

  /** `_choice_label(value, ...)`: the label of the choice row whose value reads as `str(value)`,
      among the choice sets of the given fields; `table` holds those rows by value text. */
  function ChoiceLabel(table: map<string, Value>, v: Value): (r: Value)
    ensures v == VNone || v == VStr("") ==> r == VNone
    ensures r != VNone ==> Str(v) in table && r == table[Str(v)]
  {
    if v == VNone || v == VStr("") then VNone
    else if Str(v) in table then table[Str(v)]
    else VNone
  }

  /** `int(v)` for the values an id can hold; None is the TypeError or ValueError. */
  function IntOf(v: Value): (r: Option<int>)
    ensures v.VInt? ==> r == Some(v.i)
    ensures v.VStr? ==> r == ParseInt(v.s)
    ensures v == VNone || v.VList? || v.VDict? ==> r == None
  {
    match v
    case VBool(b) => Some(if b then 1 else 0)
    case VInt(i) => Some(i)
    case VStr(s) => ParseInt(s)
    case _ => None
  }

  /** `_zbx_iface_label(v)` */
  function IfaceLabel(v: Value): (r: string)
    ensures v == VNone ==> r == ""
    ensures IntOf(v).Some? && IntOf(v).value in IfaceLabels ==> r == IfaceLabels[IntOf(v).value]
    ensures v != VNone && !(IntOf(v).Some? && IntOf(v).value in IfaceLabels) ==> r == Str(v)
  {
    match IntOf(v)
    case Some(i) => if i in IfaceLabels then IfaceLabels[i] else Str(v)
    case None => if v != VNone then Str(v) else ""
  }

  /** The export's interface label agrees with the name populate writes, except on booleans,
      which `int()` accepts (`True` is the agent) but the engine reads as text. */
  lemma IfaceLabelAgrees(v: Value)
    requires v != VNone && !v.VBool?
    ensures IfaceNameFor(v).Some? ==> IfaceLabel(v) == IfaceNameFor(v).value
    ensures IfaceNameFor(v).None? ==> IfaceLabel(v) == Str(v)
  {
    match v
    case VInt(i) => IfaceNameForInt(i); LabelOfInt(i);
    case VStr(t) => assert Str(v) == t;
    case VList(_) => StripFixedContainer(v);
    case VDict(_) => StripFixedContainer(v);
  }

  /** A container's text is left alone by stripping and starts with a bracket. */
  lemma StripFixedContainer(v: Value)
    requires v.VList? || v.VDict?
    ensures Strip(Str(v)) == Str(v) && |Str(v)| > 0 && !IsDigit(Str(v)[0])
    ensures ParseInt(Str(v)) == None
  {
    StrOfContainer(v);
    var t := Str(v);
    assert t[|t| - 1] == ']' || t[|t| - 1] == '}';
    StripFixed(t);
  }

  /** A word that is not a number does not parse. */
  lemma ParseIntWord(t: string)
    requires |t| > 1 && Strip(t) == t
    requires !IsDigit(t[0]) && t[0] != '+' && t[0] != '-'
    ensures ParseInt(t) == None
  {
  }

  /** On a boolean the two readings part: `int(True)` is the agent, while the engine reads the
      text "True" and finds no interface. */
  lemma BoolLabel(b: bool)
    ensures IfaceLabel(VBool(b)) == (if b then "Agent" else "False")
    ensures IfaceNameFor(VBool(b)) == None
  {
    var t := Str(VBool(b));
    assert t == "True" || t == "False";
    StripFixed(t);
    ParseIntWord(t);
  }

  // ------------------------------------------------------------------
  // Comma lists

  /** The trimmed, non-blank pieces, in order. */
  function Cleaned(ps: seq<string>): (r: seq<string>)
    ensures |r| <= |ps|
    ensures forall k :: 0 <= k < |r| ==> r[k] != "" && Strip(r[k]) == r[k]
  {
    if |ps| == 0 then []
    else
      var init := Cleaned(ps[..|ps| - 1]);
      var s := Strip(ps[|ps| - 1]);
      StripIdempotent(ps[|ps| - 1]);
      if s != "" then init + [s] else init
  }

  /** An item a comma list can hold: non-blank, trimmed, and free of separators. */
  predicate Clean(s: string)
  {
    s != "" && Strip(s) == s && ',' !in s && '\n' !in s
  }

  /** `[s.strip() for s in text.replace("\n", ",").split(",") if s.strip()]` */
  function CsvItems(text: string): (r: seq<string>)
    ensures forall k :: 0 <= k < |r| ==> Clean(r[k])
  {
    var ps := CsvTokens(text);
    CleanedPieces(ps);
    Cleaned(ps)
  }

  /** Stripping keeps a substring, so it never brings in a separator. */
  lemma StripWithout(p: string, c: char)
    requires c !in p
    ensures c !in Strip(p)
  {
    var l := StripLeftOf(p, Whitespace);
    assert forall i :: 0 <= i < |l| ==> l[i] == p[|p| - |l| + i];
    var r := StripRightOf(l, Whitespace);
    assert forall i :: 0 <= i < |r| ==> r[i] == l[i];
  }

  /** The pieces of a separator-free list clean up to clean items. */
  lemma {:induction false} CleanedPieces(ps: seq<string>)
    requires forall k :: 0 <= k < |ps| ==> ',' !in ps[k] && '\n' !in ps[k]
    ensures forall k :: 0 <= k < |Cleaned(ps)| ==> Clean(Cleaned(ps)[k])
  {
    if |ps| > 0 {
      var p := ps[|ps| - 1];
      CleanedPieces(ps[..|ps| - 1]);
      StripWithout(p, ',');
      StripWithout(p, '\n');
    }
  }

  /** `_as_list(val)` */
  function AsList(v: Value): (r: seq<string>)
    ensures v == VNone ==> r == []
    ensures v.VList? ==> |r| == |v.items| && forall k :: 0 <= k < |r| ==> r[k] == Str(v.items[k])
    ensures v != VNone && !v.VList? ==> forall k :: 0 <= k < |r| ==> Clean(r[k])
  {
    if v == VNone then []
    else if v.VList? then seq(|v.items|, k requires 0 <= k < |v.items| => Str(v.items[k]))
    else CsvItems(Str(v))
  }

  /** Cutting `a + sep + b` at `sep`, when `a` has none, gives `a` then the pieces of `b`. */
  lemma {:induction false} SplitAfter(a: string, b: string, sep: char)
    requires sep !in a
    ensures Split(a + [sep] + b, sep) == [a] + Split(b, sep)
    decreases |a|
  {
    var s := a + [sep] + b;
    if |a| == 0 {
      assert s[1..] == b;
    } else {
      assert s[1..] == a[1..] + [sep] + b;
      SplitAfter(a[1..], b, sep);
      assert [a[0]] + a[1..] == a;
    }
  }

  /** Text without the separator is one piece. */
  lemma {:induction false} SplitWhole(a: string, sep: char)
    requires sep !in a
    ensures Split(a, sep) == [a]
    decreases |a|
  {
    if |a| > 0 {
      SplitWhole(a[1..], sep);
      assert [a[0]] + a[1..] == a;
    }
  }

  /** Cutting a ", "-joined list at the commas gives the items, each after the first with the
      space of the separator in front. */
  lemma {:induction false} SplitJoined(xs: seq<string>)
    requires |xs| > 0
    requires forall k :: 0 <= k < |xs| ==> ',' !in xs[k]
    ensures var r := Split(Join(", ", xs), ',');
      |r| == |xs| && r[0] == xs[0] && forall k :: 1 <= k < |xs| ==> r[k] == " " + xs[k]
    decreases |xs|
  {
    if |xs| == 1 {
      SplitWhole(xs[0], ',');
    } else {
      var tail := Join(", ", xs[1..]);
      assert Join(", ", xs) == xs[0] + [','] + (" " + tail);
      SplitAfter(xs[0], " " + tail, ',');
      SplitJoined(xs[1..]);
      var rest := Split(tail, ',');
      assert (" " + tail)[1..] == tail;
      assert Split(" " + tail, ',') == [[' '] + rest[0]] + rest[1..];
    }
  }

  /** Joined items keep only the characters of the items and the separator. */
  lemma {:induction false} JoinedChars(xs: seq<string>, c: char)
    requires c != ',' && c != ' '
    requires forall k :: 0 <= k < |xs| ==> c !in xs[k]
    ensures c !in Join(", ", xs)
    decreases |xs|
  {
    if |xs| > 1 {
      JoinedChars(xs[1..], c);
    }
  }

  /** A leading space is the first thing stripping removes. */
  lemma StripLeftSpace(x: string)
    ensures StripLeftOf(" " + x, Whitespace) == StripLeftOf(x, Whitespace)
  {
    assert (" " + x)[1..] == x;
  }

  /** Text that `strip` leaves alone has nothing to strip on the left either. */
  lemma StripLeftFixed(x: string)
    requires Strip(x) == x
    ensures StripLeftOf(x, Whitespace) == x
  {
    var l := StripLeftOf(x, Whitespace);
    assert |StripRightOf(l, Whitespace)| <= |l|;
  }

  /** Trimming a clean item with a space in front gives the item back. */
  lemma SpacedStrip(x: string)
    requires Strip(x) == x
    ensures Strip(" " + x) == x
  {
    StripLeftSpace(x);
    StripLeftFixed(x);
  }

  /** Trimming and filtering pieces that trim to given clean items gives those items. */
  lemma {:induction false} CleanedExactly(ps: seq<string>, xs: seq<string>)
    requires |ps| == |xs|
    requires forall k :: 0 <= k < |xs| ==> xs[k] != "" && Strip(ps[k]) == xs[k]
    ensures Cleaned(ps) == xs
    decreases |ps|
  {
    if |ps| > 0 {
      var n := |ps| - 1;
      CleanedExactly(ps[..n], xs[..n]);
      Snoc(xs);
      assert Cleaned(ps) == Cleaned(ps[..n]) + [xs[n]];
    }
  }

  /** Replacing a character that does not occur changes nothing. */
  lemma ReplaceAbsent(s: string, a: char, b: char)
    requires a !in s
    ensures ReplaceChar(s, a, b) == s
  {
  }

  /** Clean items joined with ", " read back as the same items: the list text the status tabs
      display is one `_as_list` parses into the original list. */
  lemma CsvItemsOfJoined(xs: seq<string>)
    requires forall k :: 0 <= k < |xs| ==> Clean(xs[k])
    ensures CsvItems(Join(", ", xs)) == xs
  {
    var text := Join(", ", xs);
    if |xs| == 0 {
      assert CsvTokens(text) == [""];
    } else {
      JoinedChars(xs, '\n');
      ReplaceAbsent(text, '\n', ',');
      SplitJoined(xs);
      var ps := CsvTokens(text);
      forall k | 0 <= k < |xs|
        ensures Strip(ps[k]) == xs[k]
      {
        if k > 0 {
          SpacedStrip(xs[k]);
        }
      }
      CleanedExactly(ps, xs);
    }
  }

  /** Listing, joining and listing again changes nothing. */
  lemma CsvItemsStable(text: string)
    ensures CsvItems(Join(", ", CsvItems(text))) == CsvItems(text)
  {
    CsvItemsOfJoined(CsvItems(text));
  }

  // ------------------------------------------------------------------
  // Completeness and badge

  /** `_missing_required(d)`: the keys whose value is empty, in the dict's order. */
  function MissingRequired(d: seq<(string, Value)>): (r: seq<string>)
    ensures |r| <= |d|
    ensures forall k :: k in r ==> exists i :: 0 <= i < |d| && d[i].0 == k && EmptyLike(d[i].1)
    ensures forall i :: 0 <= i < |d| && EmptyLike(d[i].1) ==> d[i].0 in r
    ensures r == [] <==> forall i :: 0 <= i < |d| ==> !EmptyLike(d[i].1)
  {
    if |d| == 0 then []
    else
      var init := MissingRequired(d[..|d| - 1]);
      assert forall i :: 0 <= i < |d| - 1 ==> d[..|d| - 1][i] == d[i];
      if EmptyLike(d[|d| - 1].1) then init + [d[|d| - 1].0] else init
  }

  /** The last entry contributes after the others as a single one does. */
  lemma MissingRequiredSnoc(xs: seq<(string, Value)>)
    requires |xs| > 0
    ensures MissingRequired(xs) == MissingRequired(xs[..|xs| - 1]) + (if EmptyLike(xs[|xs| - 1].1) then [xs[|xs| - 1].0] else [])
  {
  }

  /** The missing keys follow the dict's order: the entries of a longer dict contribute in turn. */
  lemma {:induction false} MissingRequiredInOrder(a: seq<(string, Value)>, b: seq<(string, Value)>)
    ensures MissingRequired(a + b) == MissingRequired(a) + MissingRequired(b)
    decreases |b|
  {
    if |b| == 0 {
      assert a + b == a;
    } else {
      var n := |b| - 1;
      var ab := a + b;
      var last := if EmptyLike(b[n].1) then [b[n].0] else [];
      assert ab[..|ab| - 1] == a + b[..n] && ab[|ab| - 1] == b[n];
      calc {
        MissingRequired(ab);
        { MissingRequiredSnoc(ab); }
        MissingRequired(a + b[..n]) + last;
        { MissingRequiredInOrder(a, b[..n]); }
        MissingRequired(a) + MissingRequired(b[..n]) + last;
        { MissingRequiredSnoc(b); }
        MissingRequired(a) + MissingRequired(b);
      }
    }
  }

  /** One entry is missing exactly when its value is empty. */
  lemma MissingRequiredOne(k: string, v: Value)
    ensures MissingRequired([(k, v)]) == if EmptyLike(v) then [k] else []
  {
    assert [(k, v)][..0] == [];
  }

  /** The three badges. */
  predicate ValidBadge(b: string)
  {
    b == "ok" || b == "caution" || b == "fail"
  }

  /** `_badge_for(zbx_status, complete)` */
  function BadgeFor(status: Value, complete: bool): (b: string)
    ensures ValidBadge(b)
    ensures b == "ok" <==> complete && Lower(Strip(Str(status))) == "synced"
    ensures b == "caution" <==> complete && Lower(Strip(Str(status))) != "synced"
    ensures b == "fail" <==> !complete
  {
    if complete && Lower(Strip(Str(status))) == "synced" then "ok"
    else if complete then "caution"
    else "fail"
  }

  // ------------------------------------------------------------------
  // Host records

  /** A device or virtual machine as the endpoint reads it: its primary key, custom-field data,
      name, description, platform, site, role and primary IPv4 address, its NetBox status value,
      and the `last_sync_status` of its newest MonitoringConfig (None: no config). */
  datatype HostObj = HostObj(pk: int, cf: CfData, src: Sources, nbStatus: Value, lastSyncStatus: Value)

  datatype ExtraTemplate = ExtraTemplate(id: string, name: Value)

  /** The host record `_build_host` returns. */
  datatype Host = Host(
    kind: string,
    id: int,
    name: Value,
    visibleName: Value,
    primaryTemplateId: Value,
    primaryTemplateName: Value,
    extraTemplates: seq<ExtraTemplate>,
    interfaceTypeId: Value,
    interfaceTypeLabel: string,
    ip: Value,
    proxyId: Value,
    groupId: Value,
    environment: Value,
    os: Value,
    site: Value,
    device: Value,
    nbStatus: Value,
    zabbixStatus: Value,
    complete: bool,
    missing: seq<string>,
    badge: string)

  /** The required fields of a host, in the order `_build_host` lists them. */
  function Required(h: Host): (d: seq<(string, Value)>)
    ensures |d| == 11
  {
    [("host_name", h.name), ("visible_name", h.visibleName), ("primary_template_id", h.primaryTemplateId),
     ("template_interface_id", h.interfaceTypeId), ("interface_ip", h.ip), ("environment", h.environment),
     ("os", h.os), ("site", h.site), ("proxy_id", h.proxyId), ("group_id", h.groupId), ("sla_code", h.device)]
  }

  function Cf(o: HostObj, key: string): Value
  {
    ApiGetCf(Some(o.cf), key, VNone)
  }

  function SiteCfOf(o: HostObj, key: string): Value
  {
    ApiGetCf(if o.src.site.Some? then Some(o.src.site.value.cf) else None, key, VNone)
  }

  /** The visible name: the override, else "name - description" when there is a description. */
  function VisibleName(o: HostObj): (r: Value)
    ensures Truthy(Cf(o, "cf_zb_vname")) ==> r == Cf(o, "cf_zb_vname")
    ensures !Truthy(Cf(o, "cf_zb_vname")) && !Truthy(o.src.description) ==> r == VNone
    ensures !Truthy(Cf(o, "cf_zb_vname")) && Truthy(o.src.description) ==>
      r == VStr(Str(o.src.name) + " - " + Str(o.src.description))
  {
    var override := Cf(o, "cf_zb_vname");
    if Truthy(override) then override
    else if Truthy(o.src.description) then VStr(Str(o.src.name) + " - " + Str(o.src.description))
    else VNone
  }

  /** The host IP: the override, else the primary IPv4 address when the override is falsy. */
  function HostIp(o: HostObj): (r: Value)
    ensures Truthy(Cf(o, "cf_zb_int_ip")) ==> r == Cf(o, "cf_zb_int_ip")
    ensures !Truthy(Cf(o, "cf_zb_int_ip")) && o.src.primaryIp4.Some? ==> r == VStr(o.src.primaryIp4.value)
    ensures !Truthy(Cf(o, "cf_zb_int_ip")) && o.src.primaryIp4.None? ==> r == Cf(o, "cf_zb_int_ip")
  {
    var ip := Cf(o, "cf_zb_int_ip");
    if !Truthy(ip) && o.src.primaryIp4.Some? then VStr(o.src.primaryIp4.value) else ip
  }

  /** The primary template id and lbl: from the platform, the lbl resolved through the
      choice sets when the platform has none and the id is set. */
  function PrimaryTemplate(o: HostObj, priChoices: map<string, Value>): (r: (Value, Value))
    ensures r.0 == LabelAndId(PlatformCf(o.src), "zb_pri_template_name", "zb_pri_template_id").1
    ensures var lbl := LabelAndId(PlatformCf(o.src), "zb_pri_template_name", "zb_pri_template_id").0;
      r.1 == (if !Truthy(lbl) && r.0 != VNone then ChoiceLabel(priChoices, r.0) else lbl)
  {
    var (lbl, id) := LabelAndId(PlatformCf(o.src), "zb_pri_template_name", "zb_pri_template_id");
    (id, if !Truthy(lbl) && id != VNone then ChoiceLabel(priChoices, id) else lbl)
  }

  /** The extra template ids with their labels (falsy labels as None). */
  function ExtraTemplates(o: HostObj, extraChoices: map<string, Value>): (r: seq<ExtraTemplate>)
    ensures var ids := AsList(Or(Cf(o, "cf_zb_extra_templates"), Cf(o, "zb_extra_templates")));
      |r| == |ids| && forall k :: 0 <= k < |r| ==> r[k].id == ids[k] && (r[k].name == VNone || Truthy(r[k].name))
    ensures forall k :: 0 <= k < |r| ==>
      var lbl := ChoiceLabel(extraChoices, VStr(r[k].id));
      (Truthy(lbl) ==> r[k].name == lbl) && (!Truthy(lbl) ==> r[k].name == VNone)
  {
    var ids := AsList(Or(Cf(o, "cf_zb_extra_templates"), Cf(o, "zb_extra_templates")));
    seq(|ids|, k requires 0 <= k < |ids| => ExtraTemplate(ids[k], Or(ChoiceLabel(extraChoices, VStr(ids[k])), VNone)))
  }

  /** Proxy and group ids: the site's fields first, then the object's, each under its "cf_"
      name before its plain one; the first truthy one wins. */
  function Placement(o: HostObj, key: string): (r: Value)
    ensures Truthy(SiteCfOf(o, "cf_" + key)) ==> r == SiteCfOf(o, "cf_" + key)
    ensures !Truthy(SiteCfOf(o, "cf_" + key)) && Truthy(SiteCfOf(o, key)) ==> r == SiteCfOf(o, key)
    ensures !Truthy(SiteCfOf(o, "cf_" + key)) && !Truthy(SiteCfOf(o, key)) && Truthy(Cf(o, "cf_" + key)) ==>
      r == Cf(o, "cf_" + key)
    ensures !Truthy(SiteCfOf(o, "cf_" + key)) && !Truthy(SiteCfOf(o, key)) && !Truthy(Cf(o, "cf_" + key)) ==>
      r == Cf(o, key)
  {
    Or(Or(Or(SiteCfOf(o, "cf_" + key), SiteCfOf(o, key)), Cf(o, "cf_" + key)), Cf(o, key))
  }

  /** The SLA code: the role's attribute, else its `sla_report_code` field; None without a role. */
  function RoleSla(src: Sources): (r: Value)
    ensures src.role.None? ==> r == VNone
    ensures src.role.Some? && Truthy(src.role.value.slaReportCode) ==> r == src.role.value.slaReportCode
    ensures src.role.Some? && !Truthy(src.role.value.slaReportCode) ==> r == Get(src.role.value.cf, "sla_report_code")
  {
    match src.role
    case None => VNone
    case Some(role) =>
      if Truthy(role.slaReportCode) then role.slaReportCode else Get(role.cf, "sla_report_code")
  }

  /** The fields `_build_host` reads, before completeness is judged. */
  function HostFields(o: HostObj, isDevice: bool, priChoices: map<string, Value>, extraChoices: map<string, Value>): Host
  {
    var pri := PrimaryTemplate(o, priChoices);
    var intId := LabelAndId(PlatformCf(o.src), "zb_pri_template_int_name", "zb_pri_template_int_id").1;
    Host(
      if isDevice then "device" else "vm", o.pk, o.src.name, VisibleName(o), pri.0, pri.1,
      ExtraTemplates(o, extraChoices), intId, IfaceLabel(intId), HostIp(o),
      Placement(o, "zb_proxy_id"), Placement(o, "zb_group_id"),
      Or(Cf(o, "cf_zb_mon_env"), Cf(o, "zb_mon_env")),
      if o.src.platform.Some? then o.src.platform.value.slug else VNone,
      if o.src.site.Some? then o.src.site.value.slug else VNone,
      RoleSla(o.src), o.nbStatus, Or(o.lastSyncStatus, VStr("Not Synced")), false, [], "")
  }

  /** The completeness block: the missing list, `complete` and the badge of a host's fields. */
  function Judged(h: Host): (r: Host)
    ensures Required(r) == Required(h) && r.zabbixStatus == h.zabbixStatus
    ensures r.missing == MissingRequired(Required(h))
    ensures r.complete <==> forall i :: 0 <= i < 11 ==> !EmptyLike(Required(h)[i].1)
    ensures r.badge == BadgeFor(h.zabbixStatus, r.complete)
    ensures r == h.(complete := r.complete, missing := r.missing, badge := r.badge)
  {
    var missing := MissingRequired(Required(h));
    h.(complete := |missing| == 0, missing := missing, badge := BadgeFor(h.zabbixStatus, |missing| == 0))
  }

  /** `_build_host(obj, is_device)`. `priChoices` and `extraChoices` are the choice rows
      `_choice_label` consults for the primary and the extra templates. */
  function BuildHost(o: HostObj, isDevice: bool, priChoices: map<string, Value>, extraChoices: map<string, Value>): (h: Host)
    ensures h.kind == (if isDevice then "device" else "vm") && h.id == o.pk && h.name == o.src.name
    ensures h.missing == MissingRequired(Required(h))
    ensures h.complete <==> forall i :: 0 <= i < 11 ==> !EmptyLike(Required(h)[i].1)
    ensures Truthy(h.zabbixStatus)
    ensures h.badge == BadgeFor(h.zabbixStatus, h.complete)
    ensures h.interfaceTypeLabel == IfaceLabel(h.interfaceTypeId)
    ensures h.visibleName == VisibleName(o) && h.ip == HostIp(o)
    ensures (h.primaryTemplateId, h.primaryTemplateName) == PrimaryTemplate(o, priChoices)
    ensures h.interfaceTypeId == LabelAndId(PlatformCf(o.src), "zb_pri_template_int_name", "zb_pri_template_int_id").1
    ensures h.extraTemplates == ExtraTemplates(o, extraChoices)
    ensures h.proxyId == Placement(o, "zb_proxy_id") && h.groupId == Placement(o, "zb_group_id")
    ensures h.environment == Or(Cf(o, "cf_zb_mon_env"), Cf(o, "zb_mon_env"))
    ensures h.os == (if o.src.platform.Some? then o.src.platform.value.slug else VNone)
    ensures h.site == (if o.src.site.Some? then o.src.site.value.slug else VNone)
    ensures h.device == RoleSla(o.src) && h.nbStatus == o.nbStatus
    ensures h.zabbixStatus == Or(o.lastSyncStatus, VStr("Not Synced"))
  {
    Judged(HostFields(o, isDevice, priChoices, extraChoices))
  }

  /** One extra template as the endpoint sends it. */
  function ExtraJson(t: ExtraTemplate): Value
  {
    VDict([("id", VStr(t.id)), ("name", t.name)])
  }

  /** The JSON object the endpoint sends for a host, its keys in the order `_build_host`
      writes them. */
  function HostJson(h: Host): Value
  {
    VDict([
      ("type", VStr(h.kind)), ("id", VInt(h.id)), ("name", h.name), ("visible_name", h.visibleName),
      ("primary_template", VDict([("id", h.primaryTemplateId), ("name", h.primaryTemplateName)])),
      ("extra_templates", VList(seq(|h.extraTemplates|, k requires 0 <= k < |h.extraTemplates| =>
        ExtraJson(h.extraTemplates[k])))),
      ("interface", VDict([("type_id", h.interfaceTypeId), ("type_label", VStr(h.interfaceTypeLabel)), ("ip", h.ip)])),
      ("proxy_id", h.proxyId), ("group_id", h.groupId),
      ("tags", VDict([("environment", h.environment), ("os", h.os), ("site", h.site),
                      ("device", h.device), ("nb_status", h.nbStatus)])),
      ("zabbix_status", h.zabbixStatus), ("complete", VBool(h.complete)),
      ("missing", VList(seq(|h.missing|, k requires 0 <= k < |h.missing| => VStr(h.missing[k])))),
      ("badge", VStr(h.badge))])
  }

  /** The host records as the response lists them. */
  function HostJsons(hosts: seq<Host>): seq<Value>
  {
    seq(|hosts|, k requires 0 <= k < |hosts| => HostJson(hosts[k]))
  }

  // ------------------------------------------------------------------
  // The endpoint

  /** The view emits an object only when `_truthy(_get_cf(obj, "cf_mon_req"))`. */
  predicate Monitored(o: HostObj)
  {
    ApiTruthy(Cf(o, "cf_mon_req"))
  }

  /** `_build_host` for one pass: the pass's `is_device` and the choice rows, as a function of
      the object. */
  function Builder(isDevice: bool, priChoices: map<string, Value>, extraChoices: map<string, Value>): HostObj -> Host
  {
    o => BuildHost(o, isDevice, priChoices, extraChoices)
  }

  /** Every record one pass emits carries one of the three badges. */
  lemma EmittedBadges(objs: seq<HostObj>, isDevice: bool, priChoices: map<string, Value>, extraChoices: map<string, Value>)
    ensures forall k :: 0 <= k < |Emit(objs, Builder(isDevice, priChoices, extraChoices))| ==>
      ValidBadge(Emit(objs, Builder(isDevice, priChoices, extraChoices))[k].badge)
  {
    var build := Builder(isDevice, priChoices, extraChoices);
    var r := Emit(objs, build);
    EmitExactly(objs, build);
    forall k | 0 <= k < |r|
      ensures ValidBadge(r[k].badge)
    {
      assert r[k] in r;
      var o :| o in objs && Monitored(o) && r[k] == build(o);
      var h := BuildHost(o, isDevice, priChoices, extraChoices);
      assert h.badge == BadgeFor(h.zabbixStatus, h.complete);
    }
  }

  /** The records `build` makes of the monitored objects, in order. */
  function Emit(objs: seq<HostObj>, build: HostObj -> Host): (r: seq<Host>)
    ensures |r| <= |objs|
    ensures (forall o :: ValidBadge(build(o).badge)) ==> forall k :: 0 <= k < |r| ==> ValidBadge(r[k].badge)
  {
    if |objs| == 0 then []
    else
      var init := Emit(objs[..|objs| - 1], build);
      var o := objs[|objs| - 1];
      if Monitored(o) then init + [build(o)] else init
  }

  /** Every monitored object has its record, and every record is a monitored object's. */
  lemma {:induction false} EmitExactly(objs: seq<HostObj>, build: HostObj -> Host)
    ensures forall o :: o in objs && Monitored(o) ==> build(o) in Emit(objs, build)
    ensures forall h :: h in Emit(objs, build) ==> exists o :: o in objs && Monitored(o) && h == build(o)
  {
    if |objs| > 0 {
      var n := |objs| - 1;
      var init, last := objs[..n], objs[n];
      EmitExactly(init, build);
      Snoc(objs);
      var e0 := Emit(init, build);
      var e := Emit(objs, build);
      assert e == if Monitored(last) then e0 + [build(last)] else e0;
      forall o | o in objs && Monitored(o)
        ensures build(o) in e
      {
        if o != last {
          assert o in init;
        }
      }
      forall h | h in e
        ensures exists o :: o in objs && Monitored(o) && h == build(o)
      {
        if h !in e0 {
          assert last in objs;
        } else {
          var o :| o in init && Monitored(o) && h == build(o);
          assert o in objs;
        }
      }
    }
  }

  /** `(request.query_params.get("badge") or "").strip().lower()` */
  function WantBadge(param: Option<string>): string
  {
    Lower(Strip(if param.Some? then param.value else ""))
  }

  /** `[h for h in hosts if h.get("badge") == want]` */
  function KeepBadge(hosts: seq<Host>, want: string): (r: seq<Host>)
    ensures |r| == CountBadge(hosts, want)
    ensures forall k :: 0 <= k < |r| ==> r[k].badge == want
  {
    if |hosts| == 0 then []
    else
      var init := KeepBadge(hosts[..|hosts| - 1], want);
      if hosts[|hosts| - 1].badge == want then init + [hosts[|hosts| - 1]] else init
  }

  /** The filter keeps exactly the hosts carrying the badge. */
  lemma {:induction false} KeepBadgeExactly(hosts: seq<Host>, want: string)
    ensures forall h :: h in KeepBadge(hosts, want) <==> h in hosts && h.badge == want
  {
    if |hosts| > 0 {
      KeepBadgeExactly(hosts[..|hosts| - 1], want);
      Snoc(hosts);
    }
  }

  /** The last host is kept after the others exactly as a single host is. */
  lemma KeepBadgeSnoc(hosts: seq<Host>, want: string)
    requires |hosts| > 0
    ensures KeepBadge(hosts, want) ==
      KeepBadge(hosts[..|hosts| - 1], want) + (if hosts[|hosts| - 1].badge == want then [hosts[|hosts| - 1]] else [])
  {
  }

  /** The filter keeps the hosts in their order: those kept from the first hosts, then those
      kept from the rest. */
  lemma {:induction false} KeepBadgeInOrder(a: seq<Host>, b: seq<Host>, want: string)
    ensures KeepBadge(a + b, want) == KeepBadge(a, want) + KeepBadge(b, want)
    decreases |b|
  {
    if |b| > 0 {
      var n := |b| - 1;
      var last := if b[n].badge == want then [b[n]] else [];
      assert (a + b)[..|a + b| - 1] == a + b[..n];
      calc {
        KeepBadge(a + b, want);
        { KeepBadgeSnoc(a + b, want); }
        KeepBadge(a + b[..n], want) + last;
        { KeepBadgeInOrder(a, b[..n], want); }
        KeepBadge(a, want) + KeepBadge(b[..n], want) + last;
        { assert KeepBadge(a, want) + KeepBadge(b[..n], want) + last == KeepBadge(a, want) + (KeepBadge(b[..n], want) + last); }
        KeepBadge(a, want) + (KeepBadge(b[..n], want) + last);
        { KeepBadgeSnoc(b, want); }
        KeepBadge(a, want) + KeepBadge(b, want);
      }
    } else {
      assert a + b == a;
    }
  }

  /** A single host is kept exactly when it carries the badge. */
  lemma KeepBadgeOne(h: Host, want: string)
    ensures KeepBadge([h], want) == if h.badge == want then [h] else []
  {
    assert [h][..0] == [];
  }

  /** The badge filter: applied only for "ok", "caution" or "fail". */
  function FilterBadge(hosts: seq<Host>, want: string): (r: seq<Host>)
    ensures !ValidBadge(want) ==> r == hosts
    ensures ValidBadge(want) ==> |r| == CountBadge(hosts, want) && forall k :: 0 <= k < |r| ==> r[k].badge == want
  {
    if ValidBadge(want) then KeepBadge(hosts, want) else hosts
  }

  /** The filter, applied or not, keeps the response's order. */
  lemma FilterBadgeInOrder(a: seq<Host>, b: seq<Host>, want: string)
    ensures FilterBadge(a + b, want) == FilterBadge(a, want) + FilterBadge(b, want)
  {
    if ValidBadge(want) {
      KeepBadgeInOrder(a, b, want);
    }
  }

  function CountBadge(hosts: seq<Host>, b: string): (n: nat)
    ensures n <= |hosts|
  {
    if |hosts| == 0 then 0
    else CountBadge(hosts[..|hosts| - 1], b) + (if hosts[|hosts| - 1].badge == b then 1 else 0)
  }

  datatype Summary = Summary(count: nat, ok: nat, caution: nat, fail: nat)

  /** The `summary` block. */
  function Summarize(hosts: seq<Host>): Summary
  {
    Summary(|hosts|, CountBadge(hosts, "ok"), CountBadge(hosts, "caution"), CountBadge(hosts, "fail"))
  }

  /** The response body: `{"netbox": summary, "hosts": hosts}`. */
  function ResponseJson(hosts: seq<Host>): Value
  {
    var sm := Summarize(hosts);
    VDict([("netbox", VDict([("count", VInt(sm.count)), ("ok", VInt(sm.ok)), ("caution", VInt(sm.caution)),
                             ("fail", VInt(sm.fail))])),
           ("hosts", VList(HostJsons(hosts)))])
  }

  /** Every host has one of the three badges, so the badge counts add up to the count. */
  lemma {:induction false} SummaryAddsUp(hosts: seq<Host>)
    requires forall k :: 0 <= k < |hosts| ==> ValidBadge(hosts[k].badge)
    ensures var s := Summarize(hosts); s.ok + s.caution + s.fail == s.count
  {
    if |hosts| > 0 {
      SummaryAddsUp(hosts[..|hosts| - 1]);
    }
  }

  /** After filtering on a badge every host carries it: its count is the whole count. */
  lemma {:induction false} KeptCounts(hosts: seq<Host>, want: string)
    requires forall k :: 0 <= k < |hosts| ==> hosts[k].badge == want
    ensures CountBadge(hosts, want) == |hosts|
    ensures forall b :: b != want ==> CountBadge(hosts, b) == 0
  {
    if |hosts| > 0 {
      KeptCounts(hosts[..|hosts| - 1], want);
    }
  }

  /** One more object: its record is appended when it is monitored. */
  lemma EmitStep(hosts0: seq<Host>, objs: seq<HostObj>, i: int, build: HostObj -> Host)
    requires 0 <= i < |objs|
    ensures Monitored(objs[i]) ==> hosts0 + Emit(objs[..i + 1], build) == hosts0 + Emit(objs[..i], build) + [build(objs[i])]
    ensures !Monitored(objs[i]) ==> Emit(objs[..i + 1], build) == Emit(objs[..i], build)
  {
    var done := objs[..i + 1];
    assert done[..i] == objs[..i] && done[i] == objs[i];
  }

  /** The loop's invariant survives one turn: appending the record of a monitored object, or
      nothing, extends `hosts` by what one more object adds to `Emit`. */
  lemma AppendStep(hosts0: seq<Host>, objs: seq<HostObj>, i: int, build: HostObj -> Host, before: seq<Host>, after: seq<Host>)
    requires 0 <= i < |objs|
    requires before == hosts0 + Emit(objs[..i], build)
    requires after == if Monitored(objs[i]) then before + [build(objs[i])] else before
    ensures after == hosts0 + Emit(objs[..i + 1], build)
  {
    EmitStep(hosts0, objs, i, build);
  }

  /** Before and after the loop: no object adds nothing, all of them add `Emit(objs, build)`. */
  lemma AppendEnds(hosts0: seq<Host>, objs: seq<HostObj>, build: HostObj -> Host)
    ensures hosts0 + Emit(objs[..0], build) == hosts0
    ensures hosts0 + Emit(objs[..|objs|], build) == hosts0 + Emit(objs, build)
  {
    assert objs[..0] == [];
    assert objs[..|objs|] == objs;
  }

  /** One pass of `AwxInventoryView.get`: each monitored object's record is appended to
      `hosts`, in order; the others are skipped. */
  method AppendHosts(hosts0: seq<Host>, objs: seq<HostObj>, build: HostObj -> Host) returns (hosts: seq<Host>)
    ensures hosts == hosts0 + Emit(objs, build)
  {
    AppendEnds(hosts0, objs, build);
    hosts := hosts0;
    var i := 0;
    while i < |objs|
      invariant 0 <= i <= |objs|
      invariant hosts == hosts0 + Emit(objs[..i], build)
    {
      var o := objs[i];
      ghost var before := hosts;
      if Monitored(o) {
        hosts := hosts + [build(o)];
      }
      AppendStep(hosts0, objs, i, build, before, hosts);
      i := i + 1;
    }
  }

  /** `AwxInventoryView.get`: the device pass, the virtual-machine pass, the badge filter and
      the summary. */
  method Inventory(devices: seq<HostObj>, vms: seq<HostObj>, priChoices: map<string, Value>,
                   extraChoices: map<string, Value>, badgeParam: Option<string>)
    returns (hosts: seq<Host>, summary: Summary)
    ensures hosts == FilterBadge(Emit(devices, Builder(true, priChoices, extraChoices)) +
                                 Emit(vms, Builder(false, priChoices, extraChoices)), WantBadge(badgeParam))
    ensures summary == Summarize(hosts)
    ensures summary.ok + summary.caution + summary.fail == summary.count
    ensures ValidBadge(WantBadge(badgeParam)) ==>
      summary.count == CountBadge(hosts, WantBadge(badgeParam)) &&
      forall k :: 0 <= k < |hosts| ==> hosts[k].badge == WantBadge(badgeParam)
  {
    EmittedBadges(devices, true, priChoices, extraChoices);
    EmittedBadges(vms, false, priChoices, extraChoices);
    hosts := AppendHosts([], devices, Builder(true, priChoices, extraChoices));
    assert hosts == Emit(devices, Builder(true, priChoices, extraChoices));
    hosts := AppendHosts(hosts, vms, Builder(false, priChoices, extraChoices));
    var want := WantBadge(badgeParam);
    if ValidBadge(want) {
      hosts := KeepBadge(hosts, want);
      KeptCounts(hosts, want);
    }
    summary := Summarize(hosts);
    SummaryAddsUp(hosts);
  }
}
