/** The drift between a live config and the seed it came from: classified key by key, in an order no map
    iteration can change. */
module Drift {
  import opened Common

  // ---- Values ----

  /** A value after a trip through JSON: numbers are what float64 makes of them, maps have no order. */
  datatype Json =
    | Null | Bool(b: bool) | Number(n: real) | Str(s: string)
    | List(items: seq<Json>) | Object(fields: map<string, Json>)

  /** A config value: what JSON makes of it, if JSON can encode it. */
  datatype Value = Encodes(json: Json) | Unencodable

  const KEY_PREFIX := "key_prefix"
  const KV_CACHE_SERVER := "kv_cache_server"

  predicate IsBindings(v: Json) { v.List? && forall i :: 0 <= i < |v.items| ==> v.items[i].Object? }

  function Stripped(o: Json): Json
    requires o.Object?
  {
    Object(o.fields - {KEY_PREFIX})
  }

  function StrippedAll(items: seq<Json>): (r: seq<Json>)
    requires forall i :: 0 <= i < |items| ==> items[i].Object?
    ensures |r| == |items|
    ensures forall i :: 0 <= i < |r| ==> r[i] == Stripped(items[i])
  {
    if items == [] then [] else [Stripped(items[0])] + StrippedAll(items[1..])
  }

  /** A copy of a list of binding objects without their key prefixes; None for anything else. */
  method WithoutKeyPrefix(v: Json) returns (r: Option<seq<Json>>)
    ensures r == if IsBindings(v) then Some(StrippedAll(v.items)) else None
  {
    if !v.List? {
      return None;
    }
    var out: seq<Json> := [];
    for i := 0 to |v.items|
      invariant |out| == i
      invariant forall j :: 0 <= j < i ==> v.items[j].Object? && out[j] == Stripped(v.items[j])
    {
      if !v.items[i].Object? {
        return None;
      }
      out := out + [Object(v.items[i].fields - {KEY_PREFIX})];
    }
    assert out == StrippedAll(v.items);
    return Some(out);
  }

  /** What the comparison of a key looks at: the whole value, or the bindings without their prefixes. */
  datatype Compared = Whole(json: Json) | Bindings(objects: seq<Json>)

  function ComparedAs(key: string, v: Json): Compared {
    if key == KV_CACHE_SERVER && IsBindings(v) then Bindings(StrippedAll(v.items)) else Whole(v)
  }

  predicate SameConfigValue(key: string, a: Value, b: Value) {
    a.Encodes? && b.Encodes? && ComparedAs(key, a.json) == ComparedAs(key, b.json)
  }

  /** The program's comparison, step by step. */
  method CompareValues(key: string, seed: Value, live: Value) returns (same: bool)
    ensures same <==> SameConfigValue(key, seed, live)
  {
    if seed.Unencodable? || live.Unencodable? {
      return false;
    }
    if key != KV_CACHE_SERVER {
      return seed.json == live.json;
    }
    var bs := WithoutKeyPrefix(seed.json);
    if bs.Some? {
      var bl := WithoutKeyPrefix(live.json);
      if bl.Some? {
        return bs.value == bl.value;
      }
    }
    return seed.json == live.json;
  }

  /** For each key the comparison is an equivalence on the values JSON can encode, and never holds of others. */
  lemma SameConfigValueIsAnEquivalence(key: string, a: Value, b: Value, c: Value)
    ensures SameConfigValue(key, a, a) <==> a.Encodes?
    ensures SameConfigValue(key, a, b) <==> SameConfigValue(key, b, a)
    ensures SameConfigValue(key, a, b) && SameConfigValue(key, b, c) ==> SameConfigValue(key, a, c)
  {}

  /** The exception is as narrow as it is meant: only the key prefixes of two lists of objects may differ. */
  lemma OnlyPrefixesMayDiffer(key: string, a: Json, b: Json)
    ensures SameConfigValue(key, Encodes(a), Encodes(b)) <==>
            || a == b
            || (key == KV_CACHE_SERVER && IsBindings(a) && IsBindings(b) && |a.items| == |b.items|
                && forall i :: 0 <= i < |a.items| ==>
                     forall k :: k != KEY_PREFIX ==>
                       (k in a.items[i].fields <==> k in b.items[i].fields)
                       && (k in a.items[i].fields ==> a.items[i].fields[k] == b.items[i].fields[k]))
  {
    if key == KV_CACHE_SERVER && IsBindings(a) && IsBindings(b) && |a.items| == |b.items| {
      var sa, sb := StrippedAll(a.items), StrippedAll(b.items);
      forall i | 0 <= i < |a.items|
        ensures sa[i] == sb[i] <==>
                forall k :: k != KEY_PREFIX ==>
                  (k in a.items[i].fields <==> k in b.items[i].fields)
                  && (k in a.items[i].fields ==> a.items[i].fields[k] == b.items[i].fields[k])
      {
        SamePartIsSame(a.items[i].fields, b.items[i].fields);
      }
      assert sa == sb <==> forall i :: 0 <= i < |a.items| ==> sa[i] == sb[i];
    }
  }

  lemma SamePartIsSame(m: map<string, Json>, n: map<string, Json>)
    ensures m - {KEY_PREFIX} == n - {KEY_PREFIX} <==>
            forall k :: k != KEY_PREFIX ==> (k in m <==> k in n) && (k in m ==> m[k] == n[k])
  {
    var (a, b) := (m - {KEY_PREFIX}, n - {KEY_PREFIX});
    if a == b {
      forall k | k != KEY_PREFIX ensures (k in m <==> k in n) && (k in m ==> m[k] == n[k]) {
        assert k in m <==> k in a;
        assert k in n <==> k in b;
      }
    }
  }

  // ---- Entries and their order ----

  datatype Class = Different | LiveOnly | Unseeded | SeedOnly | Match

  function Rank(c: Class): nat {
    match c
    case Different => 0
    case LiveOnly => 1
    case Unseeded => 2
    case SeedOnly => 3
    case Match => 4
  }

  datatype Entry = Entry(key: string, kind: Class, live: Option<Value>, seed: Option<Value>)

  /** Strings as Go orders them: by their characters, a prefix first. */
  predicate StringLess(a: string, b: string) {
    b != "" && (a == "" || a[0] < b[0] || (a[0] == b[0] && StringLess(a[1..], b[1..])))
  }

  lemma {:induction false} StringsAreOrdered(a: string, b: string)
    ensures StringLess(a, b) || StringLess(b, a) || a == b
    ensures !(StringLess(a, b) && StringLess(b, a))
    ensures !StringLess(a, a)
  {
    if a != "" {
      if b != "" {
        StringsAreOrdered(a[1..], b[1..]);
        assert a == [a[0]] + a[1..] && b == [b[0]] + b[1..];
      } else {
        StringsAreOrdered(a[1..], "");
      }
    }
  }

  lemma {:induction false} StringLessIsTransitive(a: string, b: string, c: string)
    requires StringLess(a, b) && StringLess(b, c)
    ensures StringLess(a, c)
  {
    if a != "" && a[0] == b[0] == c[0] {
      StringLessIsTransitive(a[1..], b[1..], c[1..]);
    }
  }

  predicate Before(d: Entry, e: Entry) {
    Rank(d.kind) < Rank(e.kind) || (d.kind == e.kind && StringLess(d.key, e.key))
  }

  predicate Sorted(s: seq<Entry>) { forall i, j :: 0 <= i < j < |s| ==> Before(s[i], s[j]) }

  // ---- What the report holds ----

  /** What is compared: the keys some seed owns or this seed writes, and how a binding is told. */
  datatype Audit = Audit(seed: map<string, Value>, live: map<string, Value>, owned: set<string>,
                         isBinding: Option<string -> bool>)

  function Keys(a: Audit): set<string> { a.owned + a.seed.Keys }

  predicate IsBinding(a: Audit, k: string) { a.isBinding.Some? && a.isBinding.value(k) }

  /** The entry of a key, if it has one. */
  function EntryOf(a: Audit, k: string): Option<Entry> {
    if k in Keys(a) then
      if k in a.seed && k in a.live then
        var kind := if SameConfigValue(k, a.seed[k], a.live[k]) then Match else Different;
        Some(Entry(k, kind, Some(a.live[k]), Some(a.seed[k])))
      else if k in a.live then Some(Entry(k, LiveOnly, Some(a.live[k]), None))
      else if k in a.seed then Some(Entry(k, SeedOnly, None, Some(a.seed[k])))
      else None
    else if k in a.live && a.live[k] != Encodes(Str("")) && IsBinding(a, k) then
      Some(Entry(k, Unseeded, Some(a.live[k]), None))
    else None
  }

  ghost predicate IsReport(out: seq<Entry>, a: Audit) {
    Sorted(out) && forall d :: d in out <==> EntryOf(a, d.key) == Some(d)
  }

  lemma HasAnElement(s: seq<Entry>)
    ensures s == [] || exists d :: d in s
  {
    if s != [] { assert s[0] in s; }
  }

  lemma {:induction false} SortedListsAgree(r: seq<Entry>, s: seq<Entry>)
    requires Sorted(r) && Sorted(s) && forall d :: d in r <==> d in s
    ensures r == s
    decreases |r|
  {
    if r == [] {
      HasAnElement(s);
    } else {
      assert r[0] in s;
      assert s[0] in r;
      FirstIsFirst(r, s);
      forall d ensures d in r[1..] <==> d in s[1..] {
        RestIsRest(r, d);
        RestIsRest(s, d);
      }
      SortedListsAgree(r[1..], s[1..]);
      assert r == [r[0]] + r[1..] && s == [s[0]] + s[1..];
    }
  }

  lemma FirstIsFirst(r: seq<Entry>, s: seq<Entry>)
    requires Sorted(r) && Sorted(s) && r != [] && s != [] && r[0] in s && s[0] in r
    ensures r[0] == s[0]
  {
    StringsAreOrdered(r[0].key, s[0].key);
  }

  lemma RestIsRest(s: seq<Entry>, d: Entry)
    requires Sorted(s) && s != []
    ensures d in s[1..] <==> d in s && d != s[0]
  {
    StringsAreOrdered(s[0].key, s[0].key);
    if d in s && d != s[0] {
      var i :| 0 <= i < |s| && s[i] == d;
      assert s[1..][i - 1] == d;
    }
    if s[0] in s[1..] {
      var i :| 0 <= i < |s[1..]| && s[1..][i] == s[0];
      assert Before(s[0], s[i + 1]);
    }
  }

  /** A report has one order, and no room for a choice: whatever order the maps were visited in, and however
      the sort works, the list is the same. */
  lemma ReportIsUnique(r: seq<Entry>, s: seq<Entry>, a: Audit)
    requires IsReport(r, a) && IsReport(s, a)
    ensures r == s
  {
    SortedListsAgree(r, s);
  }

  /** No key is reported twice. */
  lemma EachKeyOnce(out: seq<Entry>, a: Audit, i: nat, j: nat)
    requires IsReport(out, a) && i < j < |out|
    ensures out[i].key != out[j].key
  {
    assert out[i] in out && out[j] in out;
    assert Before(out[i], out[j]);
    StringsAreOrdered(out[i].key, out[i].key);
  }

  /** Two values of one key say the same: equal, or for the KV-cache servers lists of bindings that are equal but for
      their key prefixes. */
  ghost predicate SaysTheSame(key: string, a: Value, b: Value) {
    && a.Encodes? && b.Encodes?
    && (|| a.json == b.json
        || (key == "kv_cache_server" && IsBindings(a.json) && IsBindings(b.json) && |a.json.items| == |b.json.items|
            && forall i :: 0 <= i < |a.json.items| ==>
                 a.json.items[i].fields - {"key_prefix"} == b.json.items[i].fields - {"key_prefix"}))
  }

  lemma SameSaysTheSame(key: string, a: Value, b: Value)
    ensures SameConfigValue(key, a, b) <==> SaysTheSame(key, a, b)
  {
    if a.Encodes? && b.Encodes? && key == KV_CACHE_SERVER && IsBindings(a.json) && IsBindings(b.json) {
      var (r, s) := (a.json.items, b.json.items);
      assert StrippedAll(r) == StrippedAll(s) <==>
             |r| == |s| && forall i :: 0 <= i < |r| ==> StrippedAll(r)[i] == StrippedAll(s)[i];
    }
  }

  /** What each class of a report means, by where the key is: in both and the same or not; live only, of a key some seed
      owns; live, of no seed, and a binding that is not empty; seeded only. */
  lemma AReportSays(out: seq<Entry>, a: Audit, k: string)
    requires IsReport(out, a)
    ensures var seeded := k in a.seed;
            var owned := k in a.owned || seeded;
            var live := k in a.live;
            var same := seeded && live && SaysTheSame(k, a.seed[k], a.live[k]);
            && (Has(out, k, Match) <==> same)
            && (Has(out, k, Different) <==> seeded && live && !same)
            && (Has(out, k, LiveOnly) <==> owned && !seeded && live)
            && (Has(out, k, SeedOnly) <==> seeded && !live)
            && (Has(out, k, Unseeded) <==>
                  !owned && live && a.live[k] != Encodes(Str("")) && a.isBinding.Some? && a.isBinding.value(k))
    ensures forall d :: d in out && d.key == k ==>
              && d.live == (if k in a.live then Some(a.live[k]) else None)
              && d.seed == (if k in a.seed then Some(a.seed[k]) else None)
  {
    if k in a.seed && k in a.live { SameSaysTheSame(k, a.seed[k], a.live[k]); }
    if EntryOf(a, k).Some? {
      assert EntryOf(a, k).value in out;
    }
  }

  ghost predicate Has(out: seq<Entry>, k: string, c: Class) { exists d :: d in out && d.key == k && d.kind == c }

  /** The differences lead, then what only the box has, then what only the seed has, then what agrees; within a class
      the keys go by their first difference, a prefix first. */
  lemma AReportIsInOrder(out: seq<Entry>, a: Audit, i: nat, j: nat)
    requires IsReport(out, a) && i < j < |out|
    ensures var (d, e) := (out[i], out[j]);
            && (e.kind == Different ==> d.kind == Different)
            && (e.kind == LiveOnly ==> d.kind in {Different, LiveOnly})
            && (e.kind == Unseeded ==> d.kind in {Different, LiveOnly, Unseeded})
            && (e.kind == SeedOnly ==> d.kind != Match)
            && (d.kind == e.kind ==>
                  exists n: nat ::
                    && n <= |d.key| && n < |e.key| && d.key[..n] == e.key[..n]
                    && (n == |d.key| || d.key[n] < e.key[n]))
  {
    assert Before(out[i], out[j]);
    if out[i].kind == out[j].kind {
      var n := FirstDifference(out[i].key, out[j].key);
    }
  }

  lemma {:induction false} FirstDifference(a: string, b: string) returns (n: nat)
    requires StringLess(a, b)
    ensures n <= |a| && n < |b| && a[..n] == b[..n] && (n == |a| || a[n] < b[n])
  {
    if a == "" || a[0] < b[0] {
      n := 0;
    } else {
      n := FirstDifference(a[1..], b[1..]);
      n := n + 1;
      assert a[..n] == [a[0]] + a[1..][..n - 1] && b[..n] == [b[0]] + b[1..][..n - 1];
    }
  }

  // ---- The classifier ----

  /** Sort by class rank and key. */
  method SortEntries(out: seq<Entry>) returns (sorted: seq<Entry>)
    requires forall i, j :: 0 <= i < j < |out| ==> out[i].key != out[j].key
    ensures Sorted(sorted) && forall d :: d in sorted <==> d in out
  {
    sorted := [];
    for n := 0 to |out|
      invariant Sorted(sorted) && forall d :: d in sorted <==> d in out[..n]
    {
      assert out[..n + 1] == out[..n] + [out[n]];
      forall d | d in sorted ensures d.key != out[n].key {
        var i :| 0 <= i < n && out[..n][i] == d;
      }
      sorted := Insert(sorted, out[n]);
    }
    assert out[..|out|] == out;
  }

  method Insert(s: seq<Entry>, d: Entry) returns (r: seq<Entry>)
    requires Sorted(s) && forall e :: e in s ==> e.key != d.key
    ensures Sorted(r) && forall e :: e in r <==> e in s || e == d
  {
    var i := 0;
    while i < |s| && Before(s[i], d)
      invariant i <= |s| && forall j :: 0 <= j < i ==> Before(s[j], d)
    {
      i := i + 1;
    }
    r := s[..i] + [d] + s[i..];
    forall j | i <= j < |s| ensures Before(d, s[j]) {
      GoesBefore(s, d, i, j);
    }
    assert forall e :: e in s <==> e in s[..i] || e in s[i..] by { assert s == s[..i] + s[i..]; }
  }

  lemma GoesBefore(s: seq<Entry>, d: Entry, i: nat, j: nat)
    requires Sorted(s) && i <= j < |s| && !Before(s[i], d) && s[i].key != d.key
    ensures Before(d, s[j])
  {
    StringsAreOrdered(d.key, s[i].key);
    if i < j && d.kind == s[i].kind == s[j].kind {
      StringLessIsTransitive(d.key, s[i].key, s[j].key);
    }
  }

  /** The entries of the keys visited so far, each once. */
  ghost predicate Holds(found: seq<Entry>, a: Audit, done: set<string>) {
    && (forall d :: d in found <==> d.key in done && EntryOf(a, d.key) == Some(d))
    && forall i, j :: 0 <= i < j < |found| ==> found[i].key != found[j].key
  }

  lemma Visits(found: seq<Entry>, a: Audit, done: set<string>, k: string)
    requires Holds(found, a, done) && k !in done
    ensures Holds(found + Found(EntryOf(a, k)), a, done + {k})
  {
    var d := EntryOf(a, k);
    if d.Some? {
      forall i | 0 <= i < |found| ensures found[i].key != d.value.key {
        assert found[i] in found;
      }
    } else {
      assert found + [] == found;
    }
  }

  /** The entry of one owned or seeded key. */
  method Classify(a: Audit, k: string) returns (d: Option<Entry>)
    requires k in Keys(a)
    ensures d == EntryOf(a, k)
  {
    if k in a.seed && k in a.live {
      var same := CompareValues(k, a.seed[k], a.live[k]);
      return Some(Entry(k, if same then Match else Different, Some(a.live[k]), Some(a.seed[k])));
    } else if k in a.live {
      return Some(Entry(k, LiveOnly, Some(a.live[k]), None));
    } else if k in a.seed {
      return Some(Entry(k, SeedOnly, None, Some(a.seed[k])));
    }
    return None;
  }

  function Found(d: Option<Entry>): seq<Entry> { if d.Some? then [d.value] else [] }

  /** The owned and seeded keys, visited in any order. */
  method ClassifyKeys(a: Audit) returns (found: seq<Entry>)
    ensures Holds(found, a, Keys(a))
  {
    found := [];
    var todo := Keys(a);
    while todo != {}
      invariant todo <= Keys(a) && Holds(found, a, Keys(a) - todo)
      decreases todo
    {
      var k :| k in todo;
      Visits(found, a, Keys(a) - todo, k);
      assert Keys(a) - todo + {k} == Keys(a) - (todo - {k});
      var d := Classify(a, k);
      found := found + Found(d);
      todo := todo - {k};
    }
    assert Keys(a) - todo == Keys(a);
  }

  /** The live bindings no tier seeds, visited in any order. */
  method AddUnseeded(a: Audit, found: seq<Entry>) returns (all: seq<Entry>)
    requires a.isBinding.Some? && Holds(found, a, Keys(a))
    ensures Holds(all, a, Keys(a) + a.live.Keys)
  {
    all := found;
    var todo := a.live.Keys;
    assert Keys(a) + (a.live.Keys - todo) == Keys(a);
    while todo != {}
      invariant todo <= a.live.Keys && Holds(all, a, Keys(a) + (a.live.Keys - todo))
      decreases todo
    {
      var k :| k in todo;
      assert Keys(a) + (a.live.Keys - todo) + {k} == Keys(a) + (a.live.Keys - (todo - {k}));
      if k !in Keys(a) {
        Visits(all, a, Keys(a) + (a.live.Keys - todo), k);
        if a.live[k] != Encodes(Str("")) && a.isBinding.value(k) {
          all := all + [Entry(k, Unseeded, Some(a.live[k]), None)];
        } else {
          assert all + Found(None) == all;
        }
      } else {
        assert Keys(a) + (a.live.Keys - todo) + {k} == Keys(a) + (a.live.Keys - todo);
      }
      todo := todo - {k};
    }
    assert Keys(a) + (a.live.Keys - todo) == Keys(a) + a.live.Keys;
  }

  /** The keys of both maps are visited in any order; the report is the same. */
  method ClassifyConfigDrift(a: Audit) returns (out: seq<Entry>)
    ensures IsReport(out, a)
  {
    var found := ClassifyKeys(a);
    if a.isBinding.Some? {
      found := AddUnseeded(a, found);
    }
    out := SortEntries(found);
  }
}
