/**
 * The vocabulary resolver of netbox_zabbix/utils.py: the (value, label) rows of a
 * custom field's choice set become an ordered lookup table, and raw custom-field
 * values (ids, labels, lists, comma/newline separated text) are resolved through
 * it to canonical choice values.
 */
module Choices {
  import opened Py

  /** A (value, label) row of a choice set. */
  type Choice = (string, string)

  /** An insertion-ordered dict from text to canonical value. */
  type Mapping = seq<(string, string)>

  predicate DistinctKeys(m: Mapping)
  {
    forall i, j :: 0 <= i < j < |m| ==> m[i].0 != m[j].0
  }

  predicate HasKey(m: Mapping, k: string)
  {
    exists i :: 0 <= i < |m| && m[i].0 == k
  }

  /** `v` is the canonical value of some entry. */
  predicate InRange(m: Mapping, v: string)
  {
    exists i :: 0 <= i < |m| && m[i].1 == v
  }

  /** `m.get(k)` */
  function Lookup(m: Mapping, k: string): (r: Option<string>)
    ensures r.None? <==> !HasKey(m, k)
    ensures r.Some? ==> (k, r.value) in m && InRange(m, r.value)
  {
    if |m| == 0 then None
    else if m[0].0 == k then Some(m[0].1)
    else
      var r := Lookup(m[1..], k);
      assert forall i :: 1 <= i < |m| ==> m[i] == m[1..][i - 1];
      assert r.Some? ==> InRange(m, r.value) by {
        if r.Some? {
          var i :| 0 <= i < |m[1..]| && m[1..][i].1 == r.value;
          assert m[i + 1].1 == r.value;
        }
      }
      r
  }

  /** In a table with distinct keys, the entry for `k` is what `m.get(k)` returns. */
  lemma {:induction false} LookupDistinct(m: Mapping, k: string, x: string)
    requires DistinctKeys(m) && (k, x) in m
    ensures Lookup(m, k) == Some(x)
  {
    var j :| 0 <= j < |m| && m[j] == (k, x);
    if m[0].0 != k {
      assert m[1..][j - 1] == (k, x);
      LookupDistinct(m[1..], k, x);
    }
  }

  /** `m[k] = v`: an existing key keeps its place, a new key goes last. */
  function Put(m: Mapping, k: string, v: string): (r: Mapping)
    ensures (k, v) in r
    ensures forall p :: p in r ==> p in m || p == (k, v)
    ensures forall p :: p in m && p.0 != k ==> p in r
    ensures DistinctKeys(m) ==> DistinctKeys(r)
  {
    if |m| == 0 then [(k, v)]
    else if m[0].0 == k then
      var r := [(k, v)] + m[1..];
      assert forall p :: p in m && p.0 != k ==> p in m[1..];
      r
    else
      var t := Put(m[1..], k, v);
      var r := [m[0]] + t;
      assert DistinctKeys(m) ==> DistinctKeys(r) by {
        if DistinctKeys(m) {
          assert DistinctKeys(m[1..]);
          forall j | 0 <= j < |t| ensures t[j].0 != m[0].0 {
            assert t[j] in t;
          }
        }
      }
      r
  }

  lemma PutHasKey(m: Mapping, k: string, v: string, k': string)
    requires HasKey(m, k') || k' == k
    ensures HasKey(Put(m, k, v), k')
  {
    var r := Put(m, k, v);
    if k' != k {
      var i :| 0 <= i < |m| && m[i].0 == k';
      assert m[i] in m;
      assert m[i] in r;
    } else {
      assert (k, v) in r;
    }
  }

  /** One row of `_choice_value_map`: the stripped value maps to itself and
      the stripped label maps to the value; blank texts add no key. */
  function AddChoice(m: Mapping, c: Choice): Mapping
  {
    var v := Strip(c.0);
    var l := Strip(c.1);
    var m1 := if v != "" then Put(m, v, v) else m;
    if l != "" then Put(m1, l, v) else m1
  }

  /** The table `_choice_value_map` builds from the rows of a choice set, in order
      (the rows of its `choices` manager followed by the legacy base/extra pairs). */
  function BuildMapping(pairs: seq<Choice>): Mapping
  {
    if |pairs| == 0 then [] else AddChoice(BuildMapping(pairs[..|pairs| - 1]), pairs[|pairs| - 1])
  }

  /** Entry `p` of the table was made from row `c`. */
  predicate FromRow(p: (string, string), c: Choice)
  {
    p.1 == Strip(c.0) && (p.0 == Strip(c.0) || p.0 == Strip(c.1))
  }

  /** The table has one entry per key, and every entry has a non-blank key and was made
      from some row: its value is the row's stripped value, its key the row's stripped
      value or label. */
  lemma {:induction false} BuildMappingShape(pairs: seq<Choice>)
    ensures DistinctKeys(BuildMapping(pairs))
    ensures forall p :: p in BuildMapping(pairs) ==> p.0 != "" && exists c :: c in pairs && FromRow(p, c)
  {
    if |pairs| > 0 {
      var init := pairs[..|pairs| - 1];
      var c := pairs[|pairs| - 1];
      assert c in pairs;
      BuildMappingShape(init);
      var m := BuildMapping(init);
      var v := Strip(c.0);
      var m1 := if v != "" then Put(m, v, v) else m;
      assert forall p :: p in m1 ==> p.0 != "" && exists d :: d in pairs && FromRow(p, d) by {
        forall p | p in m1 ensures p.0 != "" && exists d :: d in pairs && FromRow(p, d) {
          if p in m {
            var d :| d in init && FromRow(p, d);
            assert d in pairs;
          } else {
            assert FromRow(p, c);
          }
        }
      }
      var l := Strip(c.1);
      var r := if l != "" then Put(m1, l, v) else m1;
      assert BuildMapping(pairs) == r;
      forall p | p in r ensures p.0 != "" && exists d :: d in pairs && FromRow(p, d) {
        if p !in m1 {
          assert p == (l, v) && FromRow(p, c);
        }
      }
    }
  }

  lemma AddChoiceKeys(m: Mapping, c: Choice, k: string)
    requires HasKey(m, k) || (k != "" && (k == Strip(c.0) || k == Strip(c.1)))
    ensures HasKey(AddChoice(m, c), k)
  {
    var v := Strip(c.0);
    var l := Strip(c.1);
    var m1 := if v != "" then Put(m, v, v) else m;
    if v != "" && (HasKey(m, k) || k == v) {
      PutHasKey(m, v, v, k);
    }
    if l != "" && (HasKey(m1, k) || k == l) {
      PutHasKey(m1, l, v, k);
    }
  }

  /** Every non-blank value and label of a row is a key of the table. */
  lemma {:induction false} BuildMappingKeys(pairs: seq<Choice>, c: Choice)
    requires c in pairs
    ensures Strip(c.0) != "" ==> HasKey(BuildMapping(pairs), Strip(c.0))
    ensures Strip(c.1) != "" ==> HasKey(BuildMapping(pairs), Strip(c.1))
    decreases |pairs|
  {
    var init := pairs[..|pairs| - 1];
    var last := pairs[|pairs| - 1];
    if c != last {
      assert c in init;
      BuildMappingKeys(init, c);
    }
    if Strip(c.0) != "" {
      AddChoiceKeys(BuildMapping(init), last, Strip(c.0));
    }
    if Strip(c.1) != "" {
      AddChoiceKeys(BuildMapping(init), last, Strip(c.1));
    }
  }

  // ------------------------------------------------------------------
  // Resolving one token

  /** The first value, in insertion order, whose key equals `s` ignoring case. */
  function CaseInsensitive(m: Mapping, s: string): (r: Option<string>)
    ensures r.Some? <==> exists i :: 0 <= i < |m| && Lower(m[i].0) == Lower(s)
    ensures r.Some? ==> InRange(m, r.value)
  {
    if |m| == 0 then None
    else if Lower(m[0].0) == Lower(s) then Some(m[0].1)
    else
      var r := CaseInsensitive(m[1..], s);
      assert forall i :: 1 <= i < |m| ==> m[i] == m[1..][i - 1];
      assert r.Some? ==> InRange(m, r.value) by {
        if r.Some? {
          var i :| 0 <= i < |m[1..]| && m[1..][i].1 == r.value;
          assert m[i + 1].1 == r.value;
        }
      }
      r
  }

  /** The case-insensitive match is the value of the FIRST key equal to `s` ignoring case. */
  lemma {:induction false} CaseInsensitiveFirst(m: Mapping, s: string)
    requires CaseInsensitive(m, s).Some?
    ensures exists i :: 0 <= i < |m| && Lower(m[i].0) == Lower(s) && m[i].1 == CaseInsensitive(m, s).value &&
                        (forall j :: 0 <= j < i ==> Lower(m[j].0) != Lower(s))
  {
    if Lower(m[0].0) != Lower(s) {
      CaseInsensitiveFirst(m[1..], s);
      var i :| 0 <= i < |m[1..]| && Lower(m[1..][i].0) == Lower(s) && m[1..][i].1 == CaseInsensitive(m, s).value &&
        forall j :: 0 <= j < i ==> Lower(m[1..][j].0) != Lower(s);
      assert forall j :: 1 <= j < i + 1 ==> m[j] == m[1..][j - 1];
      assert Lower(m[i + 1].0) == Lower(s) && m[i + 1].1 == CaseInsensitive(m, s).value &&
        forall j :: 0 <= j < i + 1 ==> Lower(m[j].0) != Lower(s);
    }
  }

  /** The canonical value for a non-blank token: the exact key's value, else the first
      case-insensitive match (utils.py:104-108); "" when there is none. */
  function Canonical(m: Mapping, s: string): (v: string)
    ensures v != "" ==> InRange(m, v)
  {
    match Lookup(m, s)
    case Some(e) => e
    case None => (match CaseInsensitive(m, s) case Some(l) => l case None => "")
  }

  /** How one element fares in `to_vals` (utils.py:101-111): its stripped text is resolved
      and only a non-blank result is kept. */
  function Resolve(m: Mapping, x: Value): (r: Option<string>)
    ensures r.Some? ==> r.value != "" && InRange(m, r.value)
  {
    var s := Strip(Str(x));
    if s == "" then None
    else
      var v := Canonical(m, s);
      if v != "" then Some(v) else None
  }

  /** The list `out` of `to_vals`, before de-duplication. */
  function ResolveAll(m: Mapping, xs: seq<Value>): (out: seq<string>)
    ensures forall v :: v in out ==> v != "" && InRange(m, v)
  {
    if |xs| == 0 then []
    else
      var init := ResolveAll(m, xs[..|xs| - 1]);
      match Resolve(m, xs[|xs| - 1])
      case Some(v) => init + [v]
      case None => init
  }

  /** What `to_vals` keeps: each value once, at its first occurrence. */
  function Dedup(s: seq<string>): seq<string>
  {
    if |s| == 0 then []
    else
      var d := Dedup(s[..|s| - 1]);
      if s[|s| - 1] in d then d else d + [s[|s| - 1]]
  }

  /** `to_vals(seq)` of utils.py:99-118. */
  function ToVals(m: Mapping, xs: seq<Value>): seq<string>
  {
    Dedup(ResolveAll(m, xs))
  }

  predicate NoDup(s: seq<string>)
  {
    forall i, j :: 0 <= i < j < |s| ==> s[i] != s[j]
  }

  /** Index of the first occurrence of `x` in `s`. */
  function FirstIndex(s: seq<string>, x: string): (k: nat)
    requires x in s
    ensures k < |s| && s[k] == x && x !in s[..k]
  {
    if s[0] == x then 0 else 1 + FirstIndex(s[1..], x)
  }

  lemma FirstIndexPrefix(s: seq<string>, n: nat, x: string)
    requires n <= |s| && x in s[..n]
    ensures FirstIndex(s, x) == FirstIndex(s[..n], x)
  {
    var k := FirstIndex(s[..n], x);
    assert s[..n][..k] == s[..k];
  }

  /** De-duplication keeps exactly the values that occur, once each, in the order of their first occurrence. */
  lemma {:induction false} DedupSpec(s: seq<string>)
    ensures NoDup(Dedup(s))
    ensures forall x :: x in Dedup(s) <==> x in s
    ensures forall i, j :: 0 <= i < j < |Dedup(s)| ==> FirstIndex(s, Dedup(s)[i]) < FirstIndex(s, Dedup(s)[j])
  {
    if |s| > 0 {
      var n := |s| - 1;
      var init := s[..n];
      DedupSpec(init);
      var d := Dedup(init);
      var x := s[n];
      assert s == init + [x];
      forall y | y in d ensures FirstIndex(s, y) == FirstIndex(init, y) {
        FirstIndexPrefix(s, n, y);
      }
      if x !in d {
        assert x !in init;
        assert s[..n] == init;
        assert FirstIndex(s, x) == n;
        var r := d + [x];
        forall i, j | 0 <= i < j < |r|
          ensures FirstIndex(s, r[i]) < FirstIndex(s, r[j])
        {
          assert r[i] in d;
          if j < |d| {
            assert r[j] in d;
          }
        }
      }
    }
  }

  /** `to_vals` yields canonical values only, without duplicates, holding every value
      some element resolves to, in first-seen order. */
  lemma ToValsSpec(m: Mapping, xs: seq<Value>)
    ensures NoDup(ToVals(m, xs))
    ensures forall v :: v in ToVals(m, xs) ==> v != "" && InRange(m, v)
    ensures forall v :: v in ToVals(m, xs) <==> v in ResolveAll(m, xs)
    ensures forall i, j :: 0 <= i < j < |ToVals(m, xs)| ==>
      FirstIndex(ResolveAll(m, xs), ToVals(m, xs)[i]) < FirstIndex(ResolveAll(m, xs), ToVals(m, xs)[j])
  {
    DedupSpec(ResolveAll(m, xs));
  }

  // ------------------------------------------------------------------
  // The loops of to_vals

  /** `to_vals` as written: one loop builds `out`, a second keeps first occurrences via `seen`. */
  method ToValsLoop(m: Mapping, xs: seq<Value>) returns (keep: seq<string>)
    ensures keep == ToVals(m, xs)
  {
    var out: seq<string> := [];
    var i := 0;
    while i < |xs|
      invariant 0 <= i <= |xs|
      invariant out == ResolveAll(m, xs[..i])
    {
      assert xs[..i + 1][..i] == xs[..i];
      var s := Strip(Str(xs[i]));
      if s != "" {
        var v := Canonical(m, s);
        if v != "" {
          out := out + [v];
        }
      }
      i := i + 1;
    }
    assert xs[..i] == xs;
    var seen: set<string> := {};
    keep := [];
    var j := 0;
    while j < |out|
      invariant 0 <= j <= |out|
      invariant keep == Dedup(out[..j])
      invariant seen == set v | v in keep
    {
      assert out[..j + 1][..j] == out[..j];
      if out[j] !in seen {
        seen := seen + {out[j]};
        keep := keep + [out[j]];
      }
      j := j + 1;
    }
    assert out[..j] == out;
  }

  // ------------------------------------------------------------------
  // _normalize_choice_field_value

  function StrList(vs: seq<string>): (r: Value)
    ensures r.VList? && |r.items| == |vs| && forall k :: 0 <= k < |vs| ==> r.items[k] == VStr(vs[k])
  {
    VList(seq(|vs|, k requires 0 <= k < |vs| => VStr(vs[k])))
  }

  /** The elements `to_vals` is applied to for a non-list raw value: its text split on commas and newlines. */
  function TokenValues(raw: Value): seq<Value>
  {
    var ts := CsvTokens(Str(raw));
    seq(|ts|, k requires 0 <= k < |ts| => VStr(ts[k]))
  }

  /** `_normalize_choice_field_value(name, raw, expects_list)` with `m` the field's table. */
  function Normalize(m: Mapping, raw: Value, expectsList: bool): Value
  {
    if |m| == 0 then raw
    else if expectsList then
      if raw == VNone then VList([])
      else if raw.VList? then StrList(ToVals(m, raw.items))
      else StrList(ToVals(m, TokenValues(raw)))
    else
      if raw == VNone then VNone
      else if raw.VList? then
        var vals := ToVals(m, raw.items);
        if |vals| > 0 then VStr(vals[0]) else VNone
      else
        var s := Strip(Str(raw));
        if s == "" then VNone
        else match Lookup(m, s)
          case Some(v) =>
            if v != "" then VStr(v)
            else (match CaseInsensitive(m, s) case Some(l) => VStr(l) case None => VNone)
          case None => (match CaseInsensitive(m, s) case Some(l) => VStr(l) case None => VNone)
  }

  /** `_normalize_choice_field_value`, running the loops of `to_vals`. */
  method NormalizeChoice(m: Mapping, raw: Value, expectsList: bool) returns (r: Value)
    ensures r == Normalize(m, raw, expectsList)
  {
    if |m| == 0 {
      return raw;
    }
    if expectsList {
      if raw == VNone {
        return VList([]);
      }
      var xs := if raw.VList? then raw.items else TokenValues(raw);
      var vals := ToValsLoop(m, xs);
      return StrList(vals);
    }
    if raw == VNone {
      return VNone;
    }
    if raw.VList? {
      var vals := ToValsLoop(m, raw.items);
      return if |vals| > 0 then VStr(vals[0]) else VNone;
    }
    var s := Strip(Str(raw));
    if s == "" {
      return VNone;
    }
    var exact := Lookup(m, s);
    if exact.Some? && exact.value != "" {
      return VStr(exact.value);
    }
    var lower := CaseInsensitive(m, s);
    r := if lower.Some? then VStr(lower.value) else VNone;
  }

  /** An empty table leaves the raw value exactly as it was, in both modes. */
  lemma NormalizeEmptyVocabulary(raw: Value, expectsList: bool)
    ensures Normalize([], raw, expectsList) == raw
  {
  }

  /** List mode: `None` gives `[]`, and otherwise the result lists canonical values of the
      table, without duplicates, exactly those the elements (or the comma/newline tokens)
      resolve to, in first-seen order. */
  lemma NormalizeListMode(m: Mapping, raw: Value)
    requires |m| > 0
    ensures raw == VNone ==> Normalize(m, raw, true) == VList([])
    ensures raw != VNone ==>
      var xs := if raw.VList? then raw.items else TokenValues(raw);
      var vals := ToVals(m, xs);
      && Normalize(m, raw, true) == StrList(vals)
      && NoDup(vals)
      && (forall v :: v in vals ==> v != "" && InRange(m, v))
      && (forall v :: v in vals <==> v in ResolveAll(m, xs))
  {
    if raw != VNone {
      ToValsSpec(m, if raw.VList? then raw.items else TokenValues(raw));
    }
  }

  /** Scalar mode: an exact key beats a case-insensitive one; a list gives its first
      resolved value or None; None, blank and unknown text give None. */
  lemma NormalizeScalarMode(m: Mapping, raw: Value)
    requires |m| > 0
    ensures raw == VNone ==> Normalize(m, raw, false) == VNone
    ensures raw.VList? ==>
      Normalize(m, raw, false) == (if |ToVals(m, raw.items)| > 0 then VStr(ToVals(m, raw.items)[0]) else VNone)
    ensures !raw.VList? && raw != VNone ==>
      var s := Strip(Str(raw));
      && (s == "" ==> Normalize(m, raw, false) == VNone)
      && (s != "" && Lookup(m, s).Some? && Lookup(m, s).value != "" ==>
            Normalize(m, raw, false) == VStr(Lookup(m, s).value))
      && (s != "" && !HasKey(m, s) ==>
            Normalize(m, raw, false) == (match CaseInsensitive(m, s) case Some(l) => VStr(l) case None => VNone))
      && ((s != "" && forall i :: 0 <= i < |m| ==> Lower(m[i].0) != Lower(s)) ==> Normalize(m, raw, false) == VNone)
  {
  }

  // ------------------------------------------------------------------
  // Idempotence for a consistent table

  /** Every non-blank canonical value of the table is itself a key mapping to itself. */
  predicate Consistent(m: Mapping)
  {
    forall i :: 0 <= i < |m| && m[i].1 != "" ==> (m[i].1, m[i].1) in m
  }

  predicate Stripped(m: Mapping)
  {
    forall i :: 0 <= i < |m| ==> Strip(m[i].1) == m[i].1
  }

  /** A canonical value resolves to itself. */
  lemma ResolveCanonical(m: Mapping, v: string)
    requires DistinctKeys(m) && (v, v) in m && v != "" && Strip(v) == v
    ensures Resolve(m, VStr(v)) == Some(v)
  {
    LookupDistinct(m, v, v);
    assert Canonical(m, v) == v;
  }

  lemma LastSplit(s: seq<string>)
    requires |s| > 0
    ensures s == s[..|s| - 1] + [s[|s| - 1]]
  {
  }

  lemma {:induction false} ResolveAllOfCanonical(m: Mapping, xs: seq<Value>, vs: seq<string>)
    requires DistinctKeys(m)
    requires |xs| == |vs| && forall k :: 0 <= k < |xs| ==> xs[k] == VStr(vs[k])
    requires forall v :: v in vs ==> v != "" && (v, v) in m && Strip(v) == v
    ensures ResolveAll(m, xs) == vs
  {
    if |vs| > 0 {
      var n := |vs| - 1;
      assert forall v :: v in vs[..n] ==> v in vs;
      ResolveAllOfCanonical(m, xs[..n], vs[..n]);
      var v := vs[n];
      assert v in vs;
      ResolveCanonical(m, v);
      assert xs[n] == VStr(v);
      LastSplit(vs);
    }
  }

  lemma {:induction false} DedupOfNoDup(s: seq<string>)
    requires NoDup(s)
    ensures Dedup(s) == s
  {
    if |s| > 0 {
      var init := s[..|s| - 1];
      DedupOfNoDup(init);
      assert s[|s| - 1] !in init;
      assert s == init + [s[|s| - 1]];
    }
  }

  /** With a consistent table, resolving an already resolved list changes nothing. */
  lemma NormalizeListIdempotent(m: Mapping, raw: Value)
    requires |m| > 0 && DistinctKeys(m) && Consistent(m) && Stripped(m)
    ensures Normalize(m, Normalize(m, raw, true), true) == Normalize(m, raw, true)
  {
    NormalizeListMode(m, raw);
    var once := Normalize(m, raw, true);
    var vals := if raw == VNone then [] else ToVals(m, if raw.VList? then raw.items else TokenValues(raw));
    assert once == StrList(vals);
    forall v | v in vals ensures v != "" && (v, v) in m && Strip(v) == v {
      var i :| 0 <= i < |m| && m[i].1 == v;
    }
    ResolveAllOfCanonical(m, once.items, vals);
    DedupOfNoDup(vals);
  }

  /** No row's label names a different row's value. */
  predicate LabelsDoNotShadow(pairs: seq<Choice>)
  {
    forall c, d :: c in pairs && d in pairs && Strip(d.1) != "" && Strip(d.1) == Strip(c.0) ==> Strip(d.0) == Strip(c.0)
  }

  lemma PutSelfConsistent(m: Mapping, v: string)
    requires Consistent(m) && v != ""
    ensures Consistent(Put(m, v, v))
  {
    var r := Put(m, v, v);
    forall i | 0 <= i < |r| && r[i].1 != "" ensures (r[i].1, r[i].1) in r {
      assert r[i] in r;
      if r[i] != (v, v) {
        var j :| 0 <= j < |m| && m[j] == r[i];
      }
    }
  }

  lemma PutLabelConsistent(m: Mapping, l: string, v: string)
    requires Consistent(m) && l != ""
    requires v != "" ==> (v, v) in m
    requires forall i :: 0 <= i < |m| && m[i].1 != "" && m[i].1 != v ==> m[i].1 != l
    ensures Consistent(Put(m, l, v))
  {
    var r := Put(m, l, v);
    forall i | 0 <= i < |r| && r[i].1 != "" ensures (r[i].1, r[i].1) in r {
      assert r[i] in r;
      if r[i] != (l, v) {
        var j :| 0 <= j < |m| && m[j] == r[i];
      }
    }
  }

  /** The table of a choice set whose labels never name another row's value is consistent. */
  lemma {:induction false} BuildMappingConsistent(pairs: seq<Choice>)
    requires LabelsDoNotShadow(pairs)
    ensures Consistent(BuildMapping(pairs))
  {
    if |pairs| > 0 {
      var init := pairs[..|pairs| - 1];
      var c := pairs[|pairs| - 1];
      assert c in pairs;
      assert LabelsDoNotShadow(init) by {
        forall c, d | c in init && d in init ensures c in pairs && d in pairs {}
      }
      BuildMappingConsistent(init);
      var m0 := BuildMapping(init);
      var v, l := Strip(c.0), Strip(c.1);
      var m1 := if v != "" then Put(m0, v, v) else m0;
      if v != "" {
        PutSelfConsistent(m0, v);
      }
      if l != "" {
        BuildMappingShape(init);
        forall i | 0 <= i < |m1| && m1[i].1 != "" && m1[i].1 != v ensures m1[i].1 != l {
          assert m1[i] in m1;
          assert m1[i] in m0;
          var d :| d in init && FromRow(m1[i], d);
          assert d in pairs;
        }
        PutLabelConsistent(m1, l, v);
      }
    }
  }

  /** Every canonical value of the table is already stripped. */
  lemma BuildMappingStripped(pairs: seq<Choice>)
    ensures Stripped(BuildMapping(pairs))
  {
    BuildMappingShape(pairs);
    var m := BuildMapping(pairs);
    forall i | 0 <= i < |m| ensures Strip(m[i].1) == m[i].1 {
      assert m[i] in m;
      var c :| c in pairs && FromRow(m[i], c);
      StripIdempotent(c.0);
    }
  }

  /** For a choice set whose labels never name another row's value, normalizing a
      list-typed field twice gives what normalizing it once gave. */
  lemma BuildMappingIdempotent(pairs: seq<Choice>, raw: Value)
    requires LabelsDoNotShadow(pairs) && |BuildMapping(pairs)| > 0
    ensures var m := BuildMapping(pairs);
      Normalize(m, Normalize(m, raw, true), true) == Normalize(m, raw, true)
  {
    BuildMappingShape(pairs);
    BuildMappingConsistent(pairs);
    BuildMappingStripped(pairs);
    NormalizeListIdempotent(BuildMapping(pairs), raw);
  }
}
