/**
 * The "Monitoring" tab of a device or virtual machine: fourteen rows of what the object will
 * look like in Zabbix, the captions of the rows that are still empty, and a badge.
 */
module Tab {
  import opened Py
  import opened Utils
  import Api

  /** The interface names by the text of the id, as the tab keys them. */
  const TabIfaceLabels: map<string, string> := map["1" := "Agent", "2" := "SNMP", "3" := "IPMI", "4" := "JMX"]

  /** `_is_empty(v)`: None, whitespace-only text or an empty list. */
  predicate IsEmpty(v: Value)
  {
    v == VNone || (v.VStr? && Strip(v.s) == "") || (v.VList? && |v.items| == 0)
  }

  /** The tab's emptiness is the engine's except on blank text (empty here, not there) and on
      the empty dict (empty there, not here); `0` and `False` are empty for neither. */
  lemma IsEmptyVersusEmptyLike(v: Value)
    ensures IsEmpty(v) && !EmptyLike(v) <==> v.VStr? && v.s != "" && Strip(v.s) == ""
    ensures EmptyLike(v) && !IsEmpty(v) <==> v == VDict([])
    ensures !IsEmpty(VInt(0)) && !IsEmpty(VBool(false))
  {
    if v.VStr? && v.s == "" {
      assert Strip(v.s) == "";
    }
  }

  /** A choice pair for `key`: a list of at least two items whose first item reads as `key`. */
  predicate PairFor(p: Value, key: string)
  {
    p.VList? && |p.items| >= 2 && Str(p.items[0]) == key
  }

  /** The position of the first pair for `key`; `|pairs|` when there is none. */
  function FirstPair(pairs: seq<Value>, key: string): (i: nat)
    ensures i <= |pairs|
    ensures i < |pairs| ==> PairFor(pairs[i], key)
    ensures forall j :: 0 <= j < i ==> !PairFor(pairs[j], key)
  {
    if |pairs| == 0 then 0
    else if PairFor(pairs[0], key) then 0
    else
      var i := FirstPair(pairs[1..], key);
      assert forall j :: 1 <= j < |pairs| ==> pairs[1..][j - 1] == pairs[j];
      i + 1
  }

  /** `_choice_label_from_set(val, "zb_primary_template_list")`: the text of the second item of
      the first pair for `str(val)`. `choiceSet` holds the base and extra choices of that set;
      None when no such set exists. */
  function ChoiceLabelFromSet(choiceSet: Option<seq<Value>>, val: Value): (r: Option<string>)
    ensures r.None? <==> choiceSet.None? || forall i :: 0 <= i < |choiceSet.value| ==> !PairFor(choiceSet.value[i], Str(val))
    ensures r.Some? ==> exists i :: (0 <= i < |choiceSet.value| && PairFor(choiceSet.value[i], Str(val)) &&
      r.value == Str(choiceSet.value[i].items[1]) && forall j :: 0 <= j < i ==> !PairFor(choiceSet.value[j], Str(val)))
  {
    if choiceSet.None? then None
    else
      var pairs := choiceSet.value;
      var i := FirstPair(pairs, Str(val));
      if i < |pairs| then Some(Str(pairs[i].items[1])) else None
  }

  /** The visible name: the `cf_zb_vname` entry, else "name - description" when both are set. */
  function TabVisibleName(cf: CfData, src: Sources): (r: Value)
    ensures Truthy(Get(cf, "cf_zb_vname")) ==> r == Get(cf, "cf_zb_vname")
    ensures !Truthy(Get(cf, "cf_zb_vname")) && Truthy(src.name) && Truthy(src.description) ==>
      r == VStr(Str(src.name) + " - " + Str(src.description))
    ensures !Truthy(Get(cf, "cf_zb_vname")) && !(Truthy(src.name) && Truthy(src.description)) ==> r == VNone
  {
    var descr := Or(src.description, VStr(""));
    Or(Get(cf, "cf_zb_vname"),
       if Truthy(src.name) && Truthy(descr) then VStr(Str(src.name) + " - " + Str(descr)) else VNone)
  }

  /** The interface name: the table entry for the id's text; None for a None id. */
  function TabIfaceName(id: Value): (r: Value)
    ensures id == VNone ==> r == VNone
    ensures r != VNone ==> r.VStr? && Str(id) in TabIfaceLabels && r.s == TabIfaceLabels[Str(id)]
    ensures id != VNone && Str(id) in TabIfaceLabels ==> r == VStr(TabIfaceLabels[Str(id)])
  {
    if id != VNone && Str(id) in TabIfaceLabels then VStr(TabIfaceLabels[Str(id)]) else VNone
  }

  /** The table's keys are the one-character texts "1" to "4". */
  lemma TableKeys(t: string)
    ensures t in TabIfaceLabels <==> |t| == 1 && '1' <= t[0] <= '4'
  {
    if |t| == 1 && '1' <= t[0] <= '4' {
      assert t == "1" || t == "2" || t == "3" || t == "4";
    }
  }

  /** The text of a number from 10 on has at least two digits. */
  lemma NatToStrLong(n: nat)
    requires n >= 10
    ensures |NatToStr(n)| >= 2
  {
    assert |NatToStr(n / 10)| > 0;
  }

  /** On an integer id the tab names the same interface as the engine: 1 to 4, nothing else. */
  lemma {:induction false} TabIfaceNameInt(i: int)
    ensures TabIfaceName(VInt(i)) == (if 1 <= i <= 4 then VStr(IfaceLabels[i]) else VNone)
    ensures IfaceNameFor(VInt(i)).Some? <==> TabIfaceName(VInt(i)) != VNone
  {
    IfaceNameForInt(i);
    var t := IntToStr(i);
    assert Str(VInt(i)) == t;
    TableKeys(t);
    if i < 0 {
      assert t[0] == '-';
    } else if i >= 10 {
      NatToStrLong(i);
    } else {
      assert t == [DigitChar(i)];
      if i == 1 { assert t == "1"; }
      else if i == 2 { assert t == "2"; }
      else if i == 3 { assert t == "3"; }
      else if i == 4 { assert t == "4"; }
    }
  }

  /** `int` reads a digit after a space as the digit. */
  lemma ParsePadded(k: string)
    requires |k| == 1 && IsDigit(k[0])
    ensures ParseInt(" " + k) == Some(DigitValue(k[0]))
  {
    StripFixed(k);
    Api.SpacedStrip(k);
    ParseIntDigits(k);
    assert DigitsValue(k) == DigitValue(k[0]) by { assert k[..0] == ""; }
  }

  /** Text around an id parts the two readings: the engine parses " 2" as an interface id,
      the tab finds no entry for it. */
  lemma PaddedIdDiffers(k: string)
    requires k in TabIfaceLabels
    ensures IfaceNameFor(VStr(" " + k)).Some?
    ensures TabIfaceName(VStr(" " + k)) == VNone
  {
    TableKeys(k);
    TableKeys(" " + k);
    ParsePadded(k);
    var d := DigitValue(k[0]);
    assert 1 <= d <= 4;
    LabelOfInt(d);
    assert Str(VStr(" " + k)) == " " + k;
    assert IfaceNameFor(VStr(" " + k)) == LabelOfParsed(Some(d));
  }

  /** The host IP: the `cf_zb_int_ip` entry, replaced by the primary IPv4 address when empty. */
  function TabIp(cf: CfData, src: Sources): (r: Value)
    ensures !IsEmpty(Get(cf, "cf_zb_int_ip")) ==> r == Get(cf, "cf_zb_int_ip")
    ensures IsEmpty(Get(cf, "cf_zb_int_ip")) && src.primaryIp4.Some? ==> r == VStr(src.primaryIp4.value)
    ensures IsEmpty(Get(cf, "cf_zb_int_ip")) && src.primaryIp4.None? ==> r == Get(cf, "cf_zb_int_ip")
  {
    var ip := Get(cf, "cf_zb_int_ip");
    if IsEmpty(ip) && src.primaryIp4.Some? then VStr(src.primaryIp4.value) else ip
  }

  /** The texts of the items that are not None. */
  function PresentTexts(xs: seq<Value>): (r: seq<string>)
    ensures |r| <= |xs|
    ensures (forall k :: 0 <= k < |xs| ==> xs[k] == VNone) ==> r == []
  {
    if |xs| == 0 then []
    else
      var init := PresentTexts(xs[..|xs| - 1]);
      if xs[|xs| - 1] != VNone then init + [Str(xs[|xs| - 1])] else init
  }

  /** The last item contributes after the others as a single one does. */
  lemma PresentTextsSnoc(xs: seq<Value>)
    requires |xs| > 0
    ensures PresentTexts(xs) == PresentTexts(xs[..|xs| - 1]) + (if xs[|xs| - 1] != VNone then [Str(xs[|xs| - 1])] else [])
  {
  }

  /** The texts keep the items' order: a longer list contributes its parts in turn. */
  lemma {:induction false} PresentTextsInOrder(a: seq<Value>, b: seq<Value>)
    ensures PresentTexts(a + b) == PresentTexts(a) + PresentTexts(b)
    decreases |b|
  {
    if |b| == 0 {
      assert a + b == a;
    } else {
      var n := |b| - 1;
      var ab := a + b;
      var last := if b[n] != VNone then [Str(b[n])] else [];
      assert ab[..|ab| - 1] == a + b[..n] && ab[|ab| - 1] == b[n];
      calc {
        PresentTexts(ab);
        { PresentTextsSnoc(ab); }
        PresentTexts(a + b[..n]) + last;
        { PresentTextsInOrder(a, b[..n]); }
        PresentTexts(a) + PresentTexts(b[..n]) + last;
        { PresentTextsSnoc(b); }
        PresentTexts(a) + PresentTexts(b);
      }
    }
  }

  /** A single item contributes its text exactly when it is not None. */
  lemma PresentTextsOne(x: Value)
    ensures PresentTexts([x]) == if x != VNone then [Str(x)] else []
  {
    assert [x][..0] == [];
  }

  /** `", ".join(parts)` is empty only for no parts or a single empty one. */
  lemma JoinEmpty(parts: seq<string>)
    ensures Join(", ", parts) == "" <==> |parts| == 0 || (|parts| == 1 && parts[0] == "")
  {
    if |parts| > 1 {
      assert |Join(", ", parts)| >= 2;
    }
  }

  /** `", ".join(...) or None` */
  function JoinedOrNone(parts: seq<string>): (r: Value)
    ensures r == VNone || (r.VStr? && r.s != "")
  {
    var t := Join(", ", parts);
    if t == "" then VNone else VStr(t)
  }

  /** The extra templates: a list joined with ", " (None items skipped), text cut at commas
      and newlines, trimmed and re-joined; None when nothing is left; other values as stored. */
  function ExtraDisplay(v: Value): (r: Value)
    ensures v.VList? ==> r == JoinedOrNone(PresentTexts(v.items))
    ensures v.VStr? ==> r == JoinedOrNone(Api.CsvItems(v.s))
    ensures !v.VList? && !v.VStr? ==> r == v
  {
    match v
    case VList(xs) => JoinedOrNone(PresentTexts(xs))
    case VStr(s) => JoinedOrNone(Api.CsvItems(s))
    case _ => v
  }

  /** The displayed list of a text is empty exactly when the text holds no item, and otherwise
      reads back, through the export's `_as_list`, as the same templates. */
  lemma ExtraDisplayText(s: string)
    ensures ExtraDisplay(VStr(s)) == VNone <==> Api.CsvItems(s) == []
    ensures ExtraDisplay(VStr(s)) != VNone ==> Api.AsList(ExtraDisplay(VStr(s))) == Api.AsList(VStr(s))
  {
    var items := Api.CsvItems(s);
    JoinEmpty(items);
    Api.CsvItemsOfJoined(items);
  }

  /** A list shows as None exactly when no item is present or the only one prints as "". */
  lemma ExtraDisplayList(xs: seq<Value>)
    ensures ExtraDisplay(VList(xs)) == VNone <==>
      var ts := PresentTexts(xs); |ts| == 0 || (|ts| == 1 && ts[0] == "")
  {
    JoinEmpty(PresentTexts(xs));
  }

  /** One row of the tab. */
  datatype Row = Row(caption: string, display: Value)

  /** The captions, in the order the tab shows them. */
  const Captions: seq<string> := [
    "Host Name", "Visible Name", "Primary Template ID", "Primary Template", "Template Interface ID",
    "Template Interface", "Host IP", "Extra Templates", "Environment", "OS/Platform", "Site",
    "Zabbix Proxy ID", "Zabbix Hostgroup ID", "SLA Code"]

  /** The captions of the rows whose display is empty, in row order. */
  function MissingCaptions(rows: seq<Row>): (r: seq<string>)
    ensures |r| <= |rows|
    ensures forall c :: c in r ==> exists i :: 0 <= i < |rows| && rows[i].caption == c && IsEmpty(rows[i].display)
    ensures forall i :: 0 <= i < |rows| && IsEmpty(rows[i].display) ==> rows[i].caption in r
    ensures r == [] <==> forall i :: 0 <= i < |rows| ==> !IsEmpty(rows[i].display)
  {
    if |rows| == 0 then []
    else
      var init := MissingCaptions(rows[..|rows| - 1]);
      assert forall i :: 0 <= i < |rows| - 1 ==> rows[..|rows| - 1][i] == rows[i];
      if IsEmpty(rows[|rows| - 1].display) then init + [rows[|rows| - 1].caption] else init
  }

  /** The last row contributes its caption after the others' exactly when it is empty. */
  lemma MissingCaptionsSnoc(rows: seq<Row>)
    requires |rows| > 0
    ensures MissingCaptions(rows) == MissingCaptions(rows[..|rows| - 1]) +
      (if IsEmpty(rows[|rows| - 1].display) then [rows[|rows| - 1].caption] else [])
  {
  }

  /** The missing captions keep the row order: a longer table contributes its parts in turn. */
  lemma {:induction false} MissingCaptionsInOrder(a: seq<Row>, b: seq<Row>)
    ensures MissingCaptions(a + b) == MissingCaptions(a) + MissingCaptions(b)
    decreases |b|
  {
    if |b| == 0 {
      assert a + b == a;
    } else {
      var n := |b| - 1;
      var ab := a + b;
      var last := if IsEmpty(b[n].display) then [b[n].caption] else [];
      assert ab[..|ab| - 1] == a + b[..n] && ab[|ab| - 1] == b[n];
      calc {
        MissingCaptions(ab);
        { MissingCaptionsSnoc(ab); }
        MissingCaptions(a + b[..n]) + last;
        { MissingCaptionsInOrder(a, b[..n]); }
        MissingCaptions(a) + MissingCaptions(b[..n]) + last;
        { MissingCaptionsSnoc(b); }
        MissingCaptions(a) + MissingCaptions(b);
      }
    }
  }

  /** A single row is listed exactly when its display is empty. */
  lemma MissingCaptionsOne(row: Row)
    ensures MissingCaptions([row]) == if IsEmpty(row.display) then [row.caption] else []
  {
    assert [row][..0] == [];
  }

  /** The tab's badge: "ok" with nothing missing, else "caution" when the IP and the primary
      template id are both set, else "fail". */
  function TabBadge(missing: seq<string>, ip: Value, priId: Value): (b: string)
    ensures Api.ValidBadge(b)
    ensures b == "ok" <==> missing == []
    ensures b == "caution" <==> missing != [] && Truthy(ip) && Truthy(priId)
    ensures b == "fail" <==> missing != [] && !(Truthy(ip) && Truthy(priId))
  {
    if missing == [] then "ok" else if Truthy(ip) && Truthy(priId) then "caution" else "fail"
  }

  datatype TabStatus = TabStatus(items: seq<Row>, missing: seq<string>, badge: string)

  /** The primary template row: the platform's label, else the choice set's label for the id,
      else the id. */
  function PrimaryTemplateDisplay(src: Sources, priSet: Option<seq<Value>>): (r: Value)
    ensures var pcf := PlatformCf(src);
      var found := ChoiceLabelFromSet(priSet, Get(pcf, "zb_pri_template_id"));
      && (Truthy(Get(pcf, "zb_pri_template_name")) ==> r == Get(pcf, "zb_pri_template_name"))
      && (!Truthy(Get(pcf, "zb_pri_template_name")) && found.Some? && found.value != "" ==> r == VStr(found.value))
      && (!Truthy(Get(pcf, "zb_pri_template_name")) && (found.None? || found.value == "") ==>
            r == Get(pcf, "zb_pri_template_id"))
  {
    var pcf := PlatformCf(src);
    var priId := Get(pcf, "zb_pri_template_id");
    var found := ChoiceLabelFromSet(priSet, priId);
    Or(Or(Get(pcf, "zb_pri_template_name"), if found.Some? then VStr(found.value) else VNone), priId)
  }

  /** The fourteen displays, in caption order. */
  function Displays(cf: CfData, src: Sources, priSet: Option<seq<Value>>): (d: seq<Value>)
    ensures |d| == |Captions|
  {
    var pcf := PlatformCf(src);
    var intId := Get(pcf, "zb_pri_template_int_id");
    [src.name, TabVisibleName(cf, src), Get(pcf, "zb_pri_template_id"), PrimaryTemplateDisplay(src, priSet),
     intId, TabIfaceName(intId), TabIp(cf, src), ExtraDisplay(Get(cf, "zb_extra_templates")),
     Get(cf, "zb_mon_env"), Get(cf, "zbp_platform"), Get(cf, "zbp_site"), Get(cf, "zbp_proxy_id"),
     Get(cf, "zbp_group_id"), Get(cf, "zbp_sla_code")]
  }

  /** `_collect_items_and_status(obj)` for an object with custom-field data `cf`; `priSet` is
      the primary-template choice set (None when it does not exist). */
  function CollectItemsAndStatus(cf: CfData, src: Sources, priSet: Option<seq<Value>>): (r: TabStatus)
    ensures |r.items| == |Captions|
    ensures forall i :: 0 <= i < |Captions| ==> r.items[i] == Row(Captions[i], Displays(cf, src, priSet)[i])
    ensures r.missing == MissingCaptions(r.items)
    ensures forall c :: c in r.missing <==> exists i :: 0 <= i < |r.items| && r.items[i].caption == c && IsEmpty(r.items[i].display)
    ensures r.badge == "ok" <==> forall i :: 0 <= i < |r.items| ==> !IsEmpty(r.items[i].display)
    ensures r.badge == "caution" <==> r.missing != [] && Truthy(r.items[6].display) && Truthy(r.items[2].display)
    ensures Api.ValidBadge(r.badge)
  {
    var d := Displays(cf, src, priSet);
    var rows := seq(|Captions|, i requires 0 <= i < |Captions| => Row(Captions[i], d[i]));
    var missing := MissingCaptions(rows);
    TabStatus(rows, missing, TabBadge(missing, d[6], d[2]))
  }
}
