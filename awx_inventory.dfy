/**
 * The AWX dynamic-inventory script: it reads its settings from the environment, asks the
 * export for its hosts and turns them into an Ansible inventory, with one `hostvars` entry
 * per named host, the `all` host list, and groups by environment, OS, site and badge whose
 * member lists are sorted.
 */
module AwxInventory {
  import opened Py
  import Api
  import LegacyTab

  // ------------------------------------------------------------------
  // Settings

  /** The process environment. */
  type Env = map<string, string>

  /** `os.getenv(name, dflt)` */
  function GetEnv(env: Env, name: string, dflt: string): string
  {
    if name in env then env[name] else dflt
  }

  const BoolTokens: set<string> := {"1", "true", "yes", "y"}

  /** `env_bool(name, default)`: the variable's text, or `str(default)` when unset, trimmed and
      lower-cased, is one of the four tokens. */
  predicate EnvBool(env: Env, name: string, dflt: bool)
  {
    Lower(Strip(GetEnv(env, name, if dflt then "True" else "False"))) in BoolTokens
  }

  /** An unset variable reads as its default, because `str(True)` is "True"; a set one reads
      as the other module's `truthy` reads the same text. */
  lemma EnvBoolDefault(env: Env, name: string, dflt: bool)
    ensures name !in env ==> (EnvBool(env, name, dflt) <==> dflt)
    ensures name in env ==> (EnvBool(env, name, dflt) <==> LegacyTab.LegacyTruthy(VStr(env[name])))
  {
    if name !in env {
      BoolText(dflt);
    } else {
      assert Str(VStr(env[name])) == env[name];
      assert BoolTokens == LegacyTab.LegacyTokens;
    }
  }

  /** `str(b)` reads back as `b`. */
  lemma BoolText(b: bool)
    ensures Lower(Strip(if b then "True" else "False")) in BoolTokens <==> b
  {
    var t := if b then "True" else "False";
    StripFixed(t);
    if b {
      assert Lower(t) == "true";
    } else {
      assert Lower(t) == "false";
    }
  }

  /** The settings `main` reads: the base URL without trailing slashes, the token, the badge
      (default "caution") trimmed and lower-cased, and whether to verify TLS (default on). */
  datatype Settings = Settings(base: string, token: string, badge: string, verify: bool)

  function ReadSettings(env: Env): (s: Settings)
    ensures s.base == StripRightOf(GetEnv(env, "NETBOX_URL", ""), {'/'})
    ensures s.token == GetEnv(env, "NETBOX_TOKEN", "")
    ensures s.badge == Lower(Strip(GetEnv(env, "NETBOX_BADGE", "caution")))
    ensures s.verify == EnvBool(env, "NETBOX_VERIFY", true)
    ensures "NETBOX_VERIFY" !in env ==> s.verify
  {
    EnvBoolDefault(env, "NETBOX_VERIFY", true);
    Settings(StripRightOf(GetEnv(env, "NETBOX_URL", ""), {'/'}), GetEnv(env, "NETBOX_TOKEN", ""),
             Lower(Strip(GetEnv(env, "NETBOX_BADGE", "caution"))), EnvBool(env, "NETBOX_VERIFY", true))
  }

  const InventoryPath := "/api/plugins/netbox-zabbix/awx-inventory/"

  /** The request URL; None when the base URL or the token is missing, where the script prints
      an empty inventory and stops. The badge goes into the query only when it is one of the
      three badges. */
  function RequestUrl(s: Settings): (r: Option<string>)
    ensures r.None? <==> s.base == "" || s.token == ""
    ensures r.Some? && Api.ValidBadge(s.badge) ==> r.value == s.base + InventoryPath + "?badge=" + s.badge
    ensures r.Some? && !Api.ValidBadge(s.badge) ==> r.value == s.base + InventoryPath
  {
    if s.base == "" || s.token == "" then None
    else if Api.ValidBadge(s.badge) then Some(s.base + InventoryPath + "?badge=" + s.badge)
    else Some(s.base + InventoryPath)
  }

  /** Text with no space at either end and no capital letter is its own normal form. */
  lemma NormalText(t: string)
    requires |t| > 0 ==> !IsSpace(t[0]) && !IsSpace(t[|t| - 1])
    requires forall i :: 0 <= i < |t| ==> !('A' <= t[i] <= 'Z')
    ensures Lower(Strip(t)) == t
  {
    StripFixed(t);
    LowerFixed(t);
  }

  /** Without `NETBOX_BADGE` the script asks for the "caution" hosts. */
  lemma DefaultBadge(env: Env)
    requires "NETBOX_BADGE" !in env
    ensures ReadSettings(env).badge == "caution"
  {
    var t := GetEnv(env, "NETBOX_BADGE", "caution");
    assert t == "caution";
    NormalText(t);
  }

  // ------------------------------------------------------------------
  // Group names

  /** A character `safe` keeps. */
  predicate GroupChar(c: char)
  {
    IsAlnum(c) || c == '_' || c == '-'
  }

  function SafeChar(c: char): (r: char)
    ensures GroupChar(r)
  {
    if GroupChar(c) then c else '_'
  }

  /** Every character mapped through `SafeChar`. */
  function Sanitized(s: string): (r: string)
    ensures |r| == |s| && forall i :: 0 <= i < |s| ==> r[i] == SafeChar(s[i])
  {
    seq(|s|, i requires 0 <= i < |s| => SafeChar(s[i]))
  }

  /** `safe(name)`: None is "unknown"; otherwise the text with every other character replaced
      by '_', trimmed of '_' at both ends, "unknown" when nothing is left. */
  function SafeSpec(v: Value): string
  {
    if v == VNone then "unknown"
    else
      var t := StripOf(Sanitized(Str(v)), {'_'});
      if t == "" then "unknown" else t
  }

  /** Stripping keeps a run of the original characters. */
  lemma StripOfChars(s: string, cs: set<char>)
    ensures forall i :: 0 <= i < |StripOf(s, cs)| ==> StripOf(s, cs)[i] in s
  {
    var l := StripLeftOf(s, cs);
    var r := StripRightOf(l, cs);
    assert StripOf(s, cs) == r;
    forall i | 0 <= i < |r|
      ensures r[i] in s
    {
      assert r[i] == l[i] == s[|s| - |l| + i];
    }
  }

  /** What `safe` promises: a non-empty name of letters, digits, '_' and '-' that neither
      starts nor ends with '_'. */
  lemma SafeShape(v: Value)
    ensures var r := SafeSpec(v);
      r != "" && r[0] != '_' && r[|r| - 1] != '_' && forall i :: 0 <= i < |r| ==> GroupChar(r[i])
  {
    var r := SafeSpec(v);
    if v != VNone {
      var s := Sanitized(Str(v));
      StripOfChars(s, {'_'});
    }
    if r == "unknown" {
      assert forall i :: 0 <= i < |r| ==> 'a' <= r[i] <= 'z';
    }
  }

  /** A word of group characters without '_' at either end is its own safe name. */
  lemma SafeFixed(t: string)
    requires |t| > 0 && t[0] != '_' && t[|t| - 1] != '_'
    requires forall i :: 0 <= i < |t| ==> GroupChar(t[i])
    ensures SafeSpec(VStr(t)) == t
  {
    assert Str(VStr(t)) == t;
    assert Sanitized(t) == t;
    StripOfFixed(t, {'_'});
  }

  /** A safe name is its own safe name. */
  lemma SafeIdempotent(v: Value)
    ensures SafeSpec(VStr(SafeSpec(v))) == SafeSpec(v)
  {
    SafeShape(v);
    SafeFixed(SafeSpec(v));
  }

  /** `safe(name)`, character by character as the script builds it. */
  method Safe(v: Value) returns (r: string)
    ensures r == SafeSpec(v)
  {
    if v == VNone {
      return "unknown";
    }
    var text := Str(v);
    var out: seq<char> := [];
    var i := 0;
    while i < |text|
      invariant 0 <= i <= |text|
      invariant out == Sanitized(text[..i])
    {
      out := out + [SafeChar(text[i])];
      i := i + 1;
    }
    assert text[..i] == text;
    r := StripOf(out, {'_'});
    if r == "" {
      r := "unknown";
    }
  }

  // ------------------------------------------------------------------
  // Sorting group members

  /** Python's `<=` on strings: code point by code point, a prefix first. */
  predicate LexLe(a: string, b: string)
    decreases |a|
  {
    |a| == 0 || (|b| > 0 && (a[0] < b[0] || (a[0] == b[0] && LexLe(a[1..], b[1..]))))
  }

  lemma {:induction false} LexLeTotal(a: string, b: string)
    ensures LexLe(a, b) || LexLe(b, a)
    decreases |a|
  {
    if |a| > 0 && |b| > 0 && a[0] == b[0] {
      LexLeTotal(a[1..], b[1..]);
    }
  }

  lemma {:induction false} LexLeTrans(a: string, b: string, c: string)
    requires LexLe(a, b) && LexLe(b, c)
    ensures LexLe(a, c)
    decreases |a|
  {
    if |a| > 0 && a[0] == b[0] && b[0] == c[0] {
      LexLeTrans(a[1..], b[1..], c[1..]);
    }
  }

  lemma {:induction false} LexLeAntisym(a: string, b: string)
    requires LexLe(a, b) && LexLe(b, a)
    ensures a == b
    decreases |a|
  {
    if |a| > 0 {
      LexLeAntisym(a[1..], b[1..]);
      assert a == [a[0]] + a[1..] && b == [b[0]] + b[1..];
    }
  }

  /** A finite set of strings has a least element. */
  lemma {:induction false} LeastExists(s: set<string>)
    requires s != {}
    ensures exists m :: m in s && forall y :: y in s ==> LexLe(m, y)
    decreases s
  {
    var x :| x in s;
    var rest := s - {x};
    if rest == {} {
      assert s == {x};
      LexLeTotal(x, x);
      assert forall y :: y in s ==> LexLe(x, y);
    } else {
      LeastExists(rest);
      var m :| m in rest && forall y :: y in rest ==> LexLe(m, y);
      LexLeTotal(m, x);
      var least := if LexLe(m, x) then m else x;
      forall y | y in s
        ensures LexLe(least, y)
      {
        if y == x {
          LexLeTotal(x, x);
        } else if least == x {
          assert y in rest;
          LexLeTrans(x, m, y);
        } else {
          assert y in rest;
        }
      }
      assert least in s;
    }
  }

  /** Strictly increasing: sorted and free of duplicates. */
  predicate StrictlySorted(r: seq<string>)
  {
    forall i, j :: 0 <= i < j < |r| ==> LexLe(r[i], r[j]) && r[i] != r[j]
  }

  /** `sorted(members)`: the members of a set in increasing order, each once. */
  method SortMembers(members: set<string>) returns (r: seq<string>)
    ensures StrictlySorted(r)
    ensures forall x :: x in r <==> x in members
  {
    r := [];
    var rest := members;
    while rest != {}
      invariant forall x :: x in members <==> x in r || x in rest
      invariant forall x :: x in r ==> x !in rest
      invariant StrictlySorted(r)
      invariant forall i, y :: 0 <= i < |r| && y in rest ==> LexLe(r[i], y)
      decreases rest
    {
      LeastExists(rest);
      var m :| m in rest && forall y :: y in rest ==> LexLe(m, y);
      r := r + [m];
      rest := rest - {m};
    }
  }

  // ------------------------------------------------------------------
  // Reading the export's JSON

  /** The value of `key` among a JSON object's entries; a repeated key keeps its last value,
      as `json.loads` does. */
  function Lookup(es: seq<(string, Value)>, key: string): Option<Value>
    decreases |es|
  {
    if es == [] then None
    else if es[|es| - 1].0 == key then Some(es[|es| - 1].1)
    else Lookup(es[..|es| - 1], key)
  }

  /** A key is found exactly when some entry has it, and what is found is the value of its
      last entry. */
  lemma {:induction false} LookupSpec(es: seq<(string, Value)>, key: string)
    ensures Lookup(es, key).None? <==> forall i :: 0 <= i < |es| ==> es[i].0 != key
    ensures Lookup(es, key).Some? ==> exists i :: (0 <= i < |es| && es[i] == (key, Lookup(es, key).value) &&
      forall j :: i < j < |es| ==> es[j].0 != key)
    decreases |es|
  {
    if es != [] && es[|es| - 1].0 != key {
      var init := es[..|es| - 1];
      LookupSpec(init, key);
      assert forall i :: 0 <= i < |init| ==> init[i] == es[i];
      if Lookup(init, key).Some? {
        var i :| 0 <= i < |init| && init[i] == (key, Lookup(init, key).value) && forall j :: i < j < |init| ==> init[j].0 != key;
        assert es[i] == (key, Lookup(es, key).value);
      }
    }
  }

  /** `obj.get(key, dflt)`; a value that is not an object reads as an empty one. */
  function GetOr(obj: Value, key: string, dflt: Value): Value
  {
    if obj.VDict? then
      match Lookup(obj.entries, key)
      case Some(v) => v
      case None => dflt
    else dflt
  }

  /** `obj.get(key)` */
  function Field(obj: Value, key: string): Value
  {
    GetOr(obj, key, VNone)
  }

  /** The elements of a list; anything else iterates as nothing. */
  function Items(v: Value): seq<Value>
  {
    if v.VList? then v.items else []
  }

  /** `[t.get(key) for t in ts if t and t.get(key)]` */
  function Picked(ts: seq<Value>, key: string): (r: seq<Value>)
    ensures |r| <= |ts|
    ensures forall k :: 0 <= k < |r| ==> Truthy(r[k])
    decreases |ts|
  {
    if ts == [] then []
    else
      var t := ts[|ts| - 1];
      Picked(ts[..|ts| - 1], key) + (if Truthy(t) && Truthy(Field(t, key)) then [Field(t, key)] else [])
  }

  /** The comprehension keeps exactly the truthy values of the truthy elements (membership). */
  lemma {:induction false} PickedExactly(ts: seq<Value>, key: string)
    ensures forall x :: x in Picked(ts, key) <==>
      exists t :: t in ts && Truthy(t) && Truthy(Field(t, key)) && Field(t, key) == x
    decreases |ts|
  {
    if ts != [] {
      var init := ts[..|ts| - 1];
      PickedExactly(init, key);
      assert ts == init + [ts[|ts| - 1]];
    }
  }

  /** The variables the script records for one host. */
  datatype HostVars = HostVars(
    hostName: Value, visibleName: Value, status: Value, badge: Value, isDevice: bool,
    primaryTemplateId: Value, primaryTemplateName: Value,
    extraTemplateIds: seq<Value>, extraTemplateNames: seq<Value>,
    interfaceTypeId: Value, interfaceTypeLabel: Value, interfaceIp: Value,
    proxyId: Value, groupId: Value,
    tagEnvironment: Value, tagOs: Value, tagSite: Value, tagDevice: Value, tagNbStatus: Value,
    enabled: bool)

  /** `h.get(key, {}) or {}` */
  function Part(h: Value, key: string): Value
  {
    Or(GetOr(h, key, VDict([])), VDict([]))
  }

  /** The host's `hostvars` entry. */
  function VarsOf(h: Value): HostVars
  {
    var tags := Part(h, "tags");
    var iface := Part(h, "interface");
    var pri := Part(h, "primary_template");
    var extra := Items(Or(GetOr(h, "extra_templates", VList([])), VList([])));
    HostVars(
      Field(h, "name"), Field(h, "visible_name"), Field(h, "zabbix_status"), GetOr(h, "badge", VStr("")),
      Field(h, "type") == VStr("device"),
      Field(pri, "id"), Field(pri, "name"), Picked(extra, "id"), Picked(extra, "name"),
      Field(iface, "type_id"), Field(iface, "type_label"), Field(iface, "ip"),
      Field(h, "proxy_id"), Field(h, "group_id"),
      Field(tags, "environment"), Field(tags, "os"), Field(tags, "site"), Field(tags, "device"), Field(tags, "nb_status"),
      true)
  }

  /** The name a host is filed under; None when the name is falsy and the host is skipped. */
  function KeyOf(h: Value): Option<string>
  {
    if Truthy(Field(h, "name")) then Some(Str(Field(h, "name"))) else None
  }

  // ------------------------------------------------------------------
  // Groups

  /** `f"{prefix}{safe(v)}" if v else None` */
  function Prefixed(prefix: string, v: Value): Option<string>
  {
    if Truthy(v) then Some(prefix + SafeSpec(v)) else None
  }

  /** The four candidate group names of a host: environment, OS and site only when the tag is
      set, the badge group always. */
  function GroupNames(h: Value): (r: seq<Option<string>>)
    ensures |r| == 4 && r[3].Some?
  {
    var tags := Part(h, "tags");
    NamesFor(Field(tags, "environment"), Field(tags, "os"), Field(tags, "site"), GetOr(h, "badge", VStr("")))
  }

  /** The candidate group names for the environment, OS and site tags and the badge. */
  function NamesFor(env: Value, os: Value, site: Value, badge: Value): seq<Option<string>>
  {
    [Prefixed("env_", env), Prefixed("os_", os), Prefixed("site_", site), Some("badge_" + SafeSpec(badge))]
  }

  /** `groups.setdefault(g, set()).add(name)` */
  function Joined(groups: map<string, set<string>>, g: string, name: string): map<string, set<string>>
  {
    groups[g := (if g in groups then groups[g] else {}) + {name}]
  }

  /** The name added to every group the list names, in order. */
  function AddToGroups(groups: map<string, set<string>>, names: seq<Option<string>>, name: string): map<string, set<string>>
    decreases |names|
  {
    if names == [] then groups
    else
      var gs := AddToGroups(groups, names[..|names| - 1], name);
      var g := names[|names| - 1];
      if g.Some? then Joined(gs, g.value, name) else gs
  }

  /** After the inner loop a group holds its old members and, when the list names it, the host. */
  lemma {:induction false} AddToGroupsExactly(groups: map<string, set<string>>, names: seq<Option<string>>, name: string)
    ensures forall g :: g in AddToGroups(groups, names, name) <==> g in groups || Some(g) in names
    ensures forall g, x :: g in AddToGroups(groups, names, name) ==>
      (x in AddToGroups(groups, names, name)[g] <==> (g in groups && x in groups[g]) || (x == name && Some(g) in names))
    decreases |names|
  {
    if names != [] {
      var init := names[..|names| - 1];
      AddToGroupsExactly(groups, init, name);
      assert names == init + [names[|names| - 1]];
    }
  }

  /** A prefix of at least three group characters, not starting with '_', followed by a safe
      name gives a name of group characters that is neither `all` nor `_meta`. */
  lemma PrefixedShape(prefix: string, v: Value)
    requires |prefix| >= 3 && prefix[0] != '_'
    requires forall i :: 0 <= i < |prefix| ==> GroupChar(prefix[i])
    ensures var g := prefix + SafeSpec(v);
      g != "all" && g != "_meta" && forall i :: 0 <= i < |g| ==> GroupChar(g[i])
  {
    var g := prefix + SafeSpec(v);
    SafeShape(v);
    assert g[0] == prefix[0] && |g| > 3;
    assert forall i :: |prefix| <= i < |g| ==> g[i] == SafeSpec(v)[i - |prefix|];
  }

  /** The four prefixes are made of lower-case letters and '_', ending in '_'. */
  lemma PrefixChars(p: string)
    requires p == "env_" || p == "os_" || p == "site_" || p == "badge_"
    ensures |p| >= 3 && p[0] != '_' && forall i :: 0 <= i < |p| ==> GroupChar(p[i])
  {
    assert forall i :: 0 <= i < |p| ==> 'a' <= p[i] <= 'z' || p[i] == '_';
  }

  /** A group name is made of the characters `safe` keeps and is neither `all` nor `_meta`, so
      no group overwrites the two fixed entries of the inventory. */
  lemma GroupNameShape(h: Value, g: string)
    requires Some(g) in GroupNames(h)
    ensures g != "all" && g != "_meta"
    ensures forall i :: 0 <= i < |g| ==> GroupChar(g[i])
  {
    var tags := Part(h, "tags");
    NamesForShape(Field(tags, "environment"), Field(tags, "os"), Field(tags, "site"), GetOr(h, "badge", VStr("")), g);
  }

  /** A name made of group characters that is neither `all` nor `_meta`. */
  predicate GroupShaped(g: string)
  {
    g != "all" && g != "_meta" && forall i :: 0 <= i < |g| ==> GroupChar(g[i])
  }

  /** The same, for the names given tag and badge values. */
  lemma NamesForShape(env: Value, os: Value, site: Value, badge: Value, g: string)
    requires Some(g) in NamesFor(env, os, site, badge)
    ensures GroupShaped(g)
  {
    var names := NamesFor(env, os, site, badge);
    NamesShaped(env, os, site, badge);
    var k :| 0 <= k < |names| && names[k] == Some(g);
    assert GroupShaped(names[k].value);
  }

  lemma NamesShaped(env: Value, os: Value, site: Value, badge: Value)
    ensures var names := NamesFor(env, os, site, badge);
      forall k :: 0 <= k < |names| && names[k].Some? ==> GroupShaped(names[k].value)
  {
    var names := NamesFor(env, os, site, badge);
    PrefixedShaped("env_", env);
    PrefixedShaped("os_", os);
    PrefixedShaped("site_", site);
    PrefixedGroup("badge_", badge, "badge_" + SafeSpec(badge));
    forall k | 0 <= k < |names| && names[k].Some?
      ensures GroupShaped(names[k].value)
    {
      if k == 0 {
        assert names[0] == Prefixed("env_", env);
      } else if k == 1 {
        assert names[1] == Prefixed("os_", os);
      } else if k == 2 {
        assert names[2] == Prefixed("site_", site);
      } else {
        assert names[3] == Some("badge_" + SafeSpec(badge));
      }
    }
  }

  lemma PrefixedShaped(prefix: string, v: Value)
    requires prefix == "env_" || prefix == "os_" || prefix == "site_"
    ensures Prefixed(prefix, v).Some? ==> GroupShaped(Prefixed(prefix, v).value)
  {
    if Truthy(v) {
      PrefixedGroup(prefix, v, prefix + SafeSpec(v));
    }
  }

  lemma PrefixedGroup(prefix: string, v: Value, g: string)
    requires prefix == "env_" || prefix == "os_" || prefix == "site_" || prefix == "badge_"
    requires g == prefix + SafeSpec(v)
    ensures GroupShaped(g)
  {
    PrefixChars(prefix);
    PrefixedShape(prefix, v);
  }

  // ------------------------------------------------------------------
  // The loop over hosts

  /** The inventory as the loop builds it: the host variables by name, the `all` host list,
      and each group's members. */
  datatype State = State(hostvars: map<string, HostVars>, allHosts: seq<string>, groups: map<string, set<string>>)

  /** How the loop reads one host: the name it is filed under, its variables and its
      candidate group names. The lemmas about the loop hold for any reader; the script's own
      is `Script()`. */
  datatype Reader = Reader(key: Value -> Option<string>, vars: Value -> HostVars, groupNames: Value -> seq<Option<string>>)

  function Script(): Reader
  {
    Reader(KeyOf, VarsOf, GroupNames)
  }

  /** One turn of the loop: a nameless host is skipped; a named one sets its variables
      (replacing an earlier host of the same name), is appended to `all`, and joins its groups. */
  function Step(st: State, h: Value, rd: Reader): State
  {
    match rd.key(h)
    case None => st
    case Some(n) => State(st.hostvars[n := rd.vars(h)], st.allHosts + [n], AddToGroups(st.groups, rd.groupNames(h), n))
  }

  /** The state after the loop over `hosts`. */
  function Fold(hosts: seq<Value>, rd: Reader): State
    decreases |hosts|
  {
    if hosts == [] then State(map[], [], map[]) else Step(Fold(hosts[..|hosts| - 1], rd), hosts[|hosts| - 1], rd)
  }

  /** `all` lists each named host and `hostvars` has an entry for exactly the
      names `all` lists. */
  lemma {:induction false} AllListed(hosts: seq<Value>, rd: Reader)
    ensures forall n :: n in Fold(hosts, rd).allHosts <==> exists i :: 0 <= i < |hosts| && rd.key(hosts[i]) == Some(n)
    ensures forall n :: n in Fold(hosts, rd).hostvars <==> n in Fold(hosts, rd).allHosts
    decreases |hosts|
  {
    if hosts != [] {
      var init := hosts[..|hosts| - 1];
      AllListed(init, rd);
      assert forall i :: 0 <= i < |init| ==> init[i] == hosts[i];
    }
  }

  /** A host's variables are the ones recorded for it unless a later host has the same name. */
  lemma {:induction false} LastHostWins(hosts: seq<Value>, rd: Reader, i: int)
    requires 0 <= i < |hosts| && rd.key(hosts[i]).Some?
    requires forall j :: i < j < |hosts| ==> rd.key(hosts[j]) != rd.key(hosts[i])
    ensures rd.key(hosts[i]).value in Fold(hosts, rd).hostvars
    ensures Fold(hosts, rd).hostvars[rd.key(hosts[i]).value] == rd.vars(hosts[i])
    decreases |hosts|
  {
    if i < |hosts| - 1 {
      var init := hosts[..|hosts| - 1];
      assert init[i] == hosts[i];
      LastHostWins(init, rd, i);
    }
  }

  /** The host, filed under name `n`, lists group `g`. */
  predicate InGroup(h: Value, rd: Reader, g: string, n: string)
  {
    rd.key(h) == Some(n) && Some(g) in rd.groupNames(h)
  }

  /** Name `n` is a member of group `g`. */
  predicate Member(st: State, g: string, n: string)
  {
    g in st.groups && n in st.groups[g]
  }

  /** A name is in a group exactly when some named host of that name lists the group; every
      group has a member. */
  lemma {:induction false} GroupMembers(hosts: seq<Value>, rd: Reader)
    ensures forall g, n :: Member(Fold(hosts, rd), g, n) <==> exists i :: 0 <= i < |hosts| && InGroup(hosts[i], rd, g, n)
    ensures forall g :: g in Fold(hosts, rd).groups ==> Fold(hosts, rd).groups[g] != {}
    decreases |hosts|
  {
    if hosts != [] {
      var init := hosts[..|hosts| - 1];
      var h := hosts[|hosts| - 1];
      GroupMembers(init, rd);
      if rd.key(h).Some? {
        AddToGroupsExactly(Fold(init, rd).groups, rd.groupNames(h), rd.key(h).value);
      }
      forall g, n | Member(Fold(hosts, rd), g, n)
        ensures exists i :: 0 <= i < |hosts| && InGroup(hosts[i], rd, g, n)
      {
        if Member(Fold(init, rd), g, n) {
          var i :| 0 <= i < |init| && InGroup(init[i], rd, g, n);
          assert hosts[i] == init[i];
          assert InGroup(hosts[i], rd, g, n);
        } else {
          assert InGroup(hosts[|hosts| - 1], rd, g, n);
        }
      }
      forall g, n, i | 0 <= i < |hosts| && InGroup(hosts[i], rd, g, n)
        ensures Member(Fold(hosts, rd), g, n)
      {
        if i < |init| {
          assert init[i] == hosts[i];
          assert Member(Fold(init, rd), g, n);
        }
      }
      forall g | g in Fold(hosts, rd).groups
        ensures Fold(hosts, rd).groups[g] != {}
      {
        if g in Fold(init, rd).groups {
          var x :| x in Fold(init, rd).groups[g];
          assert x in Fold(hosts, rd).groups[g];
        } else {
          assert rd.key(h).value in Fold(hosts, rd).groups[g];
        }
      }
    }
  }

  /** Every named host is in its badge group. */
  lemma BadgeGroupAlways(hosts: seq<Value>, i: int)
    requires 0 <= i < |hosts| && KeyOf(hosts[i]).Some?
    ensures var g := "badge_" + SafeSpec(GetOr(hosts[i], "badge", VStr("")));
      g in Fold(hosts, Script()).groups && KeyOf(hosts[i]).value in Fold(hosts, Script()).groups[g]
  {
    var g := "badge_" + SafeSpec(GetOr(hosts[i], "badge", VStr("")));
    GroupMembers(hosts, Script());
    assert GroupNames(hosts[i])[3] == Some(g);
    assert InGroup(hosts[i], Script(), g, KeyOf(hosts[i]).value);
    assert Member(Fold(hosts, Script()), g, KeyOf(hosts[i]).value);
  }

  // ------------------------------------------------------------------
  // The printed inventory

  /** The printed inventory: the `_meta.hostvars` entries, the `all` host list, and each
      group's member list. */
  datatype Output = Output(hostvars: map<string, HostVars>, allHosts: seq<string>, groups: map<string, seq<string>>)

  /** `out` is what the script prints for the loop's state: the same variables and `all`
      list, one entry per group, each listing the group's members in increasing order. */
  ghost predicate Renders(out: Output, st: State)
  {
    out.hostvars == st.hostvars && out.allHosts == st.allHosts && out.groups.Keys == st.groups.Keys &&
    forall g :: g in out.groups && g in st.groups ==>
      StrictlySorted(out.groups[g]) && forall x :: x in out.groups[g] <==> x in st.groups[g]
  }

  /** Two strictly increasing lists with the same elements are the same list. */
  lemma {:induction false} SortedUnique(a: seq<string>, b: seq<string>)
    requires StrictlySorted(a) && StrictlySorted(b)
    requires forall x :: x in a <==> x in b
    ensures a == b
    decreases |a|
  {
    if a != [] {
      assert a[0] in b;
    }
    if b != [] {
      assert b[0] in a;
    }
    if a != [] {
      var i :| 0 <= i < |a| && a[i] == b[0];
      var j :| 0 <= j < |b| && b[j] == a[0];
      if i > 0 && j > 0 {
        LexLeAntisym(a[0], b[0]);
      }
      assert a[0] == b[0];
      forall x
        ensures x in a[1..] <==> x in b[1..]
      {
        if x in a[1..] {
          var k :| 0 <= k < |a| - 1 && a[1..][k] == x;
          assert a[k + 1] == x && x != a[0];
          assert x in b;
          var m :| 0 <= m < |b| && b[m] == x;
          assert m != 0;
          assert b[1..][m - 1] == x;
        }
        if x in b[1..] {
          var k :| 0 <= k < |b| - 1 && b[1..][k] == x;
          assert b[k + 1] == x && x != b[0];
          assert x in a;
          var m :| 0 <= m < |a| && a[m] == x;
          assert m != 0;
          assert a[1..][m - 1] == x;
        }
      }
      SortedUnique(a[1..], b[1..]);
      assert a == [a[0]] + a[1..] && b == [b[0]] + b[1..];
    }
  }

  /** The printed inventory is determined by the loop's state. */
  lemma RendersUnique(o1: Output, o2: Output, st: State)
    requires Renders(o1, st) && Renders(o2, st)
    ensures o1 == o2
  {
    forall g | g in o1.groups
      ensures o1.groups[g] == o2.groups[g]
    {
      assert g in st.groups && g in o2.groups;
      assert StrictlySorted(o1.groups[g]) && StrictlySorted(o2.groups[g]);
      assert forall x :: x in o1.groups[g] <==> x in st.groups[g];
      assert forall x :: x in o2.groups[g] <==> x in st.groups[g];
      SortedUnique(o1.groups[g], o2.groups[g]);
    }
  }

  /** The script's working state: the inventory dictionary as the loop fills it. */
  class Inventory {
    var hostvars: map<string, HostVars>
    var allHosts: seq<string>
    var groups: map<string, set<string>>

    function Snapshot(): State
      reads this
    {
      State(hostvars, allHosts, groups)
    }

    /** The empty inventory: no host variables, no hosts, no groups. */
    constructor()
      ensures Snapshot() == Fold([], Script())
    {
      hostvars := map[];
      allHosts := [];
      groups := map[];
    }

    /** `f"{prefix}{safe(v)}" if v else None`, with the name built by `safe`. */
    static method Candidate(prefix: string, v: Value) returns (r: Option<string>)
      ensures r == Prefixed(prefix, v)
    {
      if Truthy(v) {
        var s := Safe(v);
        r := Some(prefix + s);
      } else {
        r := None;
      }
    }

    /** The four candidate group names, built with `safe`. */
    static method CandidateGroups(h: Value) returns (names: seq<Option<string>>)
      ensures names == GroupNames(h)
    {
      var tags := Part(h, "tags");
      var envGroup := Candidate("env_", Field(tags, "environment"));
      var osGroup := Candidate("os_", Field(tags, "os"));
      var siteGroup := Candidate("site_", Field(tags, "site"));
      var badge := Safe(GetOr(h, "badge", VStr("")));
      names := [envGroup, osGroup, siteGroup, Some("badge_" + badge)];
    }

    /** The inner loop: `groups.setdefault(g, set()).add(name)` for every name given. */
    static method JoinGroups(groups: map<string, set<string>>, names: seq<Option<string>>, key: string)
      returns (gs: map<string, set<string>>)
      ensures gs == AddToGroups(groups, names, key)
    {
      gs := groups;
      var k := 0;
      while k < |names|
        invariant 0 <= k <= |names|
        invariant gs == AddToGroups(groups, names[..k], key)
      {
        assert names[..k + 1][..k] == names[..k];
        if names[k].Some? {
          var g := names[k].value;
          var members := if g in gs then gs[g] else {};
          gs := gs[g := members + {key}];
        }
        k := k + 1;
      }
      assert names[..k] == names;
    }

    /** One turn of the loop over hosts. */
    method AddHost(h: Value)
      modifies this
      ensures Snapshot() == Step(old(Snapshot()), h, Script())
    {
      var name := Field(h, "name");
      if !Truthy(name) {
        return;
      }
      var key := Str(name);
      hostvars := hostvars[key := VarsOf(h)];
      allHosts := allHosts + [key];
      var names := CandidateGroups(h);
      groups := JoinGroups(groups, names, key);
    }

    /** `inv[g] = {"hosts": sorted(members)}` for every group, with the host variables and
        the `all` list as they stand. */
    method Export() returns (out: Output)
      ensures Renders(out, Snapshot())
    {
      var lists: map<string, seq<string>> := map[];
      var rest := groups.Keys;
      while rest != {}
        invariant rest <= groups.Keys
        invariant lists.Keys == groups.Keys - rest
        invariant forall g :: g in lists && g in groups ==>
          StrictlySorted(lists[g]) && forall x :: x in lists[g] <==> x in groups[g]
        decreases rest
      {
        var g :| g in rest;
        var sorted := SortMembers(groups[g]);
        lists := lists[g := sorted];
        rest := rest - {g};
      }
      out := Output(hostvars, allHosts, lists);
    }
  }

  /** `data.get("hosts", [])` */
  function HostsOf(data: Value): seq<Value>
  {
    Items(GetOr(data, "hosts", VList([])))
  }

  /** The script's work after the fetch: the loop over the export's hosts, then the
      conversion of the groups. */
  method BuildInventory(data: Value) returns (out: Output)
    ensures Renders(out, Fold(HostsOf(data), Script()))
  {
    var hosts := HostsOf(data);
    var inv := new Inventory();
    for i := 0 to |hosts|
      invariant inv.Snapshot() == Fold(hosts[..i], Script())
    {
      assert hosts[..i + 1][..i] == hosts[..i];
      inv.AddHost(hosts[i]);
    }
    assert hosts[..|hosts|] == hosts;
    out := inv.Export();
  }

  // ------------------------------------------------------------------
  // Reading the endpoint's records

  /** The script's host list is the endpoint's host records. */
  lemma HostsOfResponse(hosts: seq<Api.Host>)
    ensures HostsOf(Api.ResponseJson(hosts)) == Api.HostJsons(hosts)
  {
  }

  /** A key's value is the one at its last occurrence. */
  lemma LookupAt(es: seq<(string, Value)>, i: int, dflt: Value)
    requires 0 <= i < |es|
    requires forall j :: i < j < |es| ==> es[j].0 != es[i].0
    ensures GetOr(VDict(es), es[i].0, dflt) == es[i].1
  {
    LookupSpec(es, es[i].0);
    var r := Lookup(es, es[i].0);
    var k :| 0 <= k < |es| && es[k] == (es[i].0, r.value) && forall j :: k < j < |es| ==> es[j].0 != es[i].0;
    assert k == i;
  }

  /** The record's keys are pairwise different. */
  lemma HostKeysDistinct(h: Api.Host)
    ensures var es := Api.HostJson(h).entries;
      forall i, j :: 0 <= i < j < |es| ==> es[i].0 != es[j].0
  {
  }

  /** With pairwise different keys, every key finds its own value. */
  lemma {:induction false} LookupDistinct(es: seq<(string, Value)>)
    requires forall i, j :: 0 <= i < j < |es| ==> es[i].0 != es[j].0
    ensures forall i :: 0 <= i < |es| ==> Lookup(es, es[i].0) == Some(es[i].1)
  {
    forall i | 0 <= i < |es|
      ensures Lookup(es, es[i].0) == Some(es[i].1)
    {
      LookupSpec(es, es[i].0);
      var r := Lookup(es, es[i].0);
      var k :| 0 <= k < |es| && es[k] == (es[i].0, r.value) && forall j :: k < j < |es| ==> es[j].0 != es[i].0;
    }
  }

  /** The record's top-level fields, as the script reads them. */
  lemma ReadTop(h: Api.Host)
    ensures var j := Api.HostJson(h);
      Field(j, "type") == VStr(h.kind) && Field(j, "name") == h.name && Field(j, "visible_name") == h.visibleName &&
      Field(j, "proxy_id") == h.proxyId && Field(j, "group_id") == h.groupId &&
      Field(j, "zabbix_status") == h.zabbixStatus && GetOr(j, "badge", VStr("")) == VStr(h.badge)
  {
    var es := Api.HostJson(h).entries;
    HostKeysDistinct(h);
    LookupDistinct(es);
    assert es[0].0 == "type" && es[2].0 == "name" && es[3].0 == "visible_name" && es[7].0 == "proxy_id" &&
      es[8].0 == "group_id" && es[10].0 == "zabbix_status" && es[13].0 == "badge";
  }

  /** The record's `tags` object, as the script reads it. */
  lemma ReadTags(h: Api.Host)
    ensures var t := Part(Api.HostJson(h), "tags");
      Field(t, "environment") == h.environment && Field(t, "os") == h.os && Field(t, "site") == h.site &&
      Field(t, "device") == h.device && Field(t, "nb_status") == h.nbStatus
  {
    var es := Api.HostJson(h).entries;
    HostKeysDistinct(h);
    LookupDistinct(es);
    assert es[9].0 == "tags";
    var ts := es[9].1.entries;
    assert Part(Api.HostJson(h), "tags") == VDict(ts);
    LookupDistinct(ts);
    assert ts[0].0 == "environment" && ts[1].0 == "os" && ts[2].0 == "site" && ts[3].0 == "device" && ts[4].0 == "nb_status";
  }

  /** The record's `primary_template` and `interface` objects, as the script reads them. */
  lemma ReadTemplateAndInterface(h: Api.Host)
    ensures var p := Part(Api.HostJson(h), "primary_template");
      Field(p, "id") == h.primaryTemplateId && Field(p, "name") == h.primaryTemplateName
    ensures var f := Part(Api.HostJson(h), "interface");
      Field(f, "type_id") == h.interfaceTypeId && Field(f, "type_label") == VStr(h.interfaceTypeLabel) && Field(f, "ip") == h.ip
  {
    var es := Api.HostJson(h).entries;
    HostKeysDistinct(h);
    LookupDistinct(es);
    assert es[4].0 == "primary_template" && es[6].0 == "interface";
    var ps := es[4].1.entries;
    var fs := es[6].1.entries;
    assert Part(Api.HostJson(h), "primary_template") == VDict(ps);
    assert Part(Api.HostJson(h), "interface") == VDict(fs);
    LookupDistinct(ps);
    LookupDistinct(fs);
    assert ps[0].0 == "id" && ps[1].0 == "name";
    assert fs[0].0 == "type_id" && fs[1].0 == "type_label" && fs[2].0 == "ip";
  }

  /** The record's `extra_templates` list, as the script iterates it. */
  lemma ReadExtras(h: Api.Host)
    ensures var j := Api.HostJson(h);
      Items(Or(GetOr(j, "extra_templates", VList([])), VList([]))) == ExtraJsons(h.extraTemplates)
  {
    var es := Api.HostJson(h).entries;
    HostKeysDistinct(h);
    LookupDistinct(es);
    assert es[5].0 == "extra_templates";
  }

  /** Extra templates as the endpoint lists them. */
  function ExtraJsons(ts: seq<Api.ExtraTemplate>): seq<Value>
  {
    seq(|ts|, k requires 0 <= k < |ts| => Api.ExtraJson(ts[k]))
  }

  /** One extra-template object: its id and its name. */
  lemma ReadExtra(t: Api.ExtraTemplate)
    ensures Truthy(Api.ExtraJson(t)) && Field(Api.ExtraJson(t), "id") == VStr(t.id) &&
      Field(Api.ExtraJson(t), "name") == t.name
  {
    var es := Api.ExtraJson(t).entries;
    LookupDistinct(es);
    assert es[0].0 == "id" && es[1].0 == "name";
  }

  /** The ids kept from the endpoint's extra templates are their non-empty ids. */
  lemma PickedIds(ts: seq<Api.ExtraTemplate>)
    ensures forall x :: x in Picked(ExtraJsons(ts), "id") <==> exists t :: t in ts && t.id != "" && x == VStr(t.id)
  {
    var xs := ExtraJsons(ts);
    PickedExactly(xs, "id");
    forall x
      ensures x in Picked(xs, "id") <==> exists t :: t in ts && t.id != "" && x == VStr(t.id)
    {
      if x in Picked(xs, "id") {
        var e :| e in xs && Truthy(e) && Truthy(Field(e, "id")) && Field(e, "id") == x;
        var k :| 0 <= k < |xs| && xs[k] == e;
        ReadExtra(ts[k]);
        assert ts[k] in ts;
      }
      if exists t :: t in ts && t.id != "" && x == VStr(t.id) {
        var t :| t in ts && t.id != "" && x == VStr(t.id);
        var k :| 0 <= k < |ts| && ts[k] == t;
        ReadExtra(t);
        assert xs[k] in xs;
      }
    }
  }

  /** The names kept from the endpoint's extra templates are their set names. */
  lemma PickedNames(ts: seq<Api.ExtraTemplate>)
    ensures forall x :: x in Picked(ExtraJsons(ts), "name") <==> exists t :: t in ts && Truthy(t.name) && x == t.name
  {
    var xs := ExtraJsons(ts);
    PickedExactly(xs, "name");
    forall x
      ensures x in Picked(xs, "name") <==> exists t :: t in ts && Truthy(t.name) && x == t.name
    {
      if x in Picked(xs, "name") {
        var e :| e in xs && Truthy(e) && Truthy(Field(e, "name")) && Field(e, "name") == x;
        var k :| 0 <= k < |xs| && xs[k] == e;
        ReadExtra(ts[k]);
        assert ts[k] in ts;
      }
      if exists t :: t in ts && Truthy(t.name) && x == t.name {
        var t :| t in ts && Truthy(t.name) && x == t.name;
        var k :| 0 <= k < |ts| && ts[k] == t;
        ReadExtra(t);
        assert xs[k] in xs;
      }
    }
  }

  /** The ids of extra templates that are set, in order. */
  function ExtraIds(ts: seq<Api.ExtraTemplate>): (r: seq<Value>)
    ensures |r| <= |ts|
    ensures forall k :: 0 <= k < |r| ==> r[k].VStr? && r[k].s != ""
  {
    if ts == [] then []
    else ExtraIds(ts[..|ts| - 1]) + (if ts[|ts| - 1].id != "" then [VStr(ts[|ts| - 1].id)] else [])
  }

  /** The names of extra templates that are set, in order. */
  function ExtraNames(ts: seq<Api.ExtraTemplate>): (r: seq<Value>)
    ensures |r| <= |ts|
    ensures forall k :: 0 <= k < |r| ==> Truthy(r[k])
  {
    if ts == [] then []
    else ExtraNames(ts[..|ts| - 1]) + (if Truthy(ts[|ts| - 1].name) then [ts[|ts| - 1].name] else [])
  }

  /** The script's comprehension over the listed extra templates keeps, in order, exactly the
      set ids. */
  lemma {:induction false} PickedExtraIds(ts: seq<Api.ExtraTemplate>)
    ensures Picked(ExtraJsons(ts), "id") == ExtraIds(ts)
    decreases |ts|
  {
    if ts != [] {
      var n := |ts| - 1;
      var xs := ExtraJsons(ts);
      ReadExtra(ts[n]);
      calc {
        Picked(xs, "id");
        Picked(xs[..n], "id") + (if Truthy(xs[n]) && Truthy(Field(xs[n], "id")) then [Field(xs[n], "id")] else []);
        { assert xs[..n] == ExtraJsons(ts[..n]); PickedExtraIds(ts[..n]); }
        ExtraIds(ts[..n]) + (if ts[n].id != "" then [VStr(ts[n].id)] else []);
      }
    }
  }

  /** Likewise the set names, in order. */
  lemma {:induction false} PickedExtraNames(ts: seq<Api.ExtraTemplate>)
    ensures Picked(ExtraJsons(ts), "name") == ExtraNames(ts)
    decreases |ts|
  {
    if ts != [] {
      var n := |ts| - 1;
      var xs := ExtraJsons(ts);
      ReadExtra(ts[n]);
      calc {
        Picked(xs, "name");
        Picked(xs[..n], "name") + (if Truthy(xs[n]) && Truthy(Field(xs[n], "name")) then [Field(xs[n], "name")] else []);
        { assert xs[..n] == ExtraJsons(ts[..n]); PickedExtraNames(ts[..n]); }
        ExtraNames(ts[..n]) + (if Truthy(ts[n].name) then [ts[n].name] else []);
      }
    }
  }

  /** What the script records for a host the endpoint sends: the record's own fields, the
      `type` test true exactly for devices, the badge as its text, and `enabled` set. */
  lemma ReadBack(h: Api.Host)
    ensures var v := VarsOf(Api.HostJson(h));
      v.hostName == h.name && v.visibleName == h.visibleName && v.status == h.zabbixStatus &&
      v.badge == VStr(h.badge) && (v.isDevice <==> h.kind == "device") &&
      v.primaryTemplateId == h.primaryTemplateId && v.primaryTemplateName == h.primaryTemplateName &&
      v.interfaceTypeId == h.interfaceTypeId && v.interfaceTypeLabel == VStr(h.interfaceTypeLabel) &&
      v.interfaceIp == h.ip && v.proxyId == h.proxyId && v.groupId == h.groupId &&
      v.tagEnvironment == h.environment && v.tagOs == h.os && v.tagSite == h.site &&
      v.tagDevice == h.device && v.tagNbStatus == h.nbStatus && v.enabled
  {
    ReadTop(h);
    ReadTags(h);
    ReadTemplateAndInterface(h);
  }

  /** The extra-template ids and names the script records are the non-empty ids and the
      set names of the record's extra templates. */
  lemma ReadBackExtras(h: Api.Host)
    ensures var v := VarsOf(Api.HostJson(h));
      (forall x :: x in v.extraTemplateIds <==> exists t :: t in h.extraTemplates && t.id != "" && x == VStr(t.id)) &&
      (forall x :: x in v.extraTemplateNames <==> exists t :: t in h.extraTemplates && Truthy(t.name) && x == t.name)
    ensures var v := VarsOf(Api.HostJson(h));
      v.extraTemplateIds == ExtraIds(h.extraTemplates) && v.extraTemplateNames == ExtraNames(h.extraTemplates)
  {
    ReadExtras(h);
    PickedIds(h.extraTemplates);
    PickedNames(h.extraTemplates);
    PickedExtraIds(h.extraTemplates);
    PickedExtraNames(h.extraTemplates);
  }

  // ------------------------------------------------------------------
  // Script and endpoint together

  /** The three badges are non-empty words of lower-case letters. */
  lemma BadgeLetters(b: string)
    requires Api.ValidBadge(b)
    ensures |b| > 0 && forall i :: 0 <= i < |b| ==> 'a' <= b[i] <= 'z'
  {
  }

  /** The endpoint filters on exactly the badge the script asks for. */
  lemma RequestedBadge(s: Settings)
    requires Api.ValidBadge(s.badge)
    ensures Api.WantBadge(Some(s.badge)) == s.badge
  {
    BadgeLetters(s.badge);
    NormalText(s.badge);
  }

  /** Asking the endpoint for one badge, every named host it returns is in that badge's group
      of the inventory the script prints. */
  lemma RequestedBadgeGroup(emitted: seq<Api.Host>, want: string, i: int)
    requires Api.ValidBadge(want)
    requires 0 <= i < |Api.FilterBadge(emitted, want)| && Truthy(Api.FilterBadge(emitted, want)[i].name)
    ensures var st := Fold(HostsOf(Api.ResponseJson(Api.FilterBadge(emitted, want))), Script());
      "badge_" + want in st.groups && Str(Api.FilterBadge(emitted, want)[i].name) in st.groups["badge_" + want]
  {
    var served := Api.FilterBadge(emitted, want);
    var h := served[i];
    assert h.badge == want;
    var hosts := HostsOf(Api.ResponseJson(served));
    HostsOfResponse(served);
    assert hosts[i] == Api.HostJson(h);
    ReadTop(h);
    assert KeyOf(hosts[i]) == Some(Str(h.name));
    BadgeLetters(want);
    SafeFixed(want);
    BadgeGroupAlways(hosts, i);
  }
}
