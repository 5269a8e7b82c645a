/** The environment interpreted code sees: an overlay on the host's, or a sealed one, that behaves like a plain map. */
module ProcessEnvironment {
  import opened Wrappers
  import opened StringOrder

  type Bindings = map<string, string>

  // ---------- entries ----------

  /** Splits at the first `=`; without one the whole text is the key. */
  function Cut(s: string): (string, string) {
    if s == [] then ([], [])
    else if s[0] == '=' then ([], s[1..])
    else var r := Cut(s[1..]); ([s[0]] + r.0, r.1)
  }

  function EntryOf(k: string, v: string): string {
    k + "=" + v
  }

  /** Cutting an entry gives the binding back exactly when the key holds no `=`. */
  lemma {:induction false} CutEntry(k: string, v: string)
    ensures Cut(EntryOf(k, v)) == (k, v) <==> '=' !in k
    ensures '=' !in Cut(EntryOf(k, v)).0
    decreases |k|
  {
    CutKey(EntryOf(k, v));
    var e := EntryOf(k, v);
    if k == [] {
      assert e == ['='] + v;
    } else {
      assert e[0] == k[0] && e[1..] == EntryOf(k[1..], v);
      CutEntry(k[1..], v);
      assert k == [k[0]] + k[1..];
    }
  }

  lemma {:induction false} CutKey(s: string)
    ensures '=' !in Cut(s).0
  {
    if s != [] && s[0] != '=' {
      CutKey(s[1..]);
    }
  }

  /** The bindings a list of entries spells out. */
  function Read(entries: seq<string>): Bindings {
    if entries == [] then map[]
    else
      var last := Cut(entries[|entries| - 1]);
      Read(entries[..|entries| - 1])[last.0 := last.1]
  }

  // ---------- the view and what operations do to it ----------

  datatype Env = Env(values: Bindings, removed: set<string>, isSealed: bool, hostCleared: bool)

  predicate HostVisible(e: Env) {
    !e.isSealed && !e.hostCleared
  }

  function HostPart(e: Env, host: Bindings): Bindings {
    if HostVisible(e) then map k | k in host && k !in e.removed :: host[k] else map[]
  }

  /** What the program sees. */
  function View(e: Env, host: Bindings): Bindings {
    HostPart(e, host) + e.values
  }

  datatype Op = Set(key: string, value: string) | Unset(key: string) | Clear

  /** The overlay's bookkeeping. */
  function Step(e: Env, op: Op): Env {
    match op
    case Set(k, v) => e.(values := e.values[k := v], removed := e.removed - {k})
    case Unset(k) => e.(values := e.values - {k}, removed := e.removed + {k})
    case Clear => e.(values := map[], hostCleared := true)
  }

  /** The same operation on a plain map. */
  function Apply(m: Bindings, op: Op): Bindings {
    match op
    case Set(k, v) => m[k := v]
    case Unset(k) => m - {k}
    case Clear => map[]
  }

  lemma StepRefines(e: Env, host: Bindings, op: Op)
    ensures View(Step(e, op), host) == Apply(View(e, host), op)
  {
    var before, after := View(e, host), View(Step(e, op), host);
    match op
    case Set(k, v) =>
      forall x ensures (x in after <==> x in before[k := v]) && (x in after ==> after[x] == before[k := v][x]) {
      }
    case Unset(k) =>
      forall x ensures (x in after <==> x in before - {k}) && (x in after ==> after[x] == (before - {k})[x]) {
      }
    case Clear =>
  }

  function RunOps(e: Env, ops: seq<Op>): Env {
    if ops == [] then e else Step(RunOps(e, ops[..|ops| - 1]), ops[|ops| - 1])
  }

  function ApplyAll(m: Bindings, ops: seq<Op>): Bindings {
    if ops == [] then m else Apply(ApplyAll(m, ops[..|ops| - 1]), ops[|ops| - 1])
  }

  /** Over any operations the overlay is indistinguishable from a plain map. */
  lemma {:induction false} OverlayIsAMap(e: Env, host: Bindings, ops: seq<Op>)
    ensures View(RunOps(e, ops), host) == ApplyAll(View(e, host), ops)
  {
    if ops != [] {
      OverlayIsAMap(e, host, ops[..|ops| - 1]);
      StepRefines(RunOps(e, ops[..|ops| - 1]), host, ops[|ops| - 1]);
    }
  }

  // ---------- listings ----------

  ghost predicate Enumerates(ks: seq<string>, m: Bindings) {
    && (forall x :: x in ks <==> x in m)
    && (forall i, j :: 0 <= i < j < |ks| ==> ks[i] != ks[j])
  }

  function Entries(ks: seq<string>, m: Bindings): (r: seq<string>)
    requires forall i :: 0 <= i < |ks| ==> ks[i] in m
    ensures |r| == |ks| && forall i :: 0 <= i < |ks| ==> r[i] == EntryOf(ks[i], m[ks[i]])
  {
    seq(|ks|, i requires 0 <= i < |ks| => EntryOf(ks[i], m[ks[i]]))
  }

  /** One entry for each binding. */
  ghost predicate ListingOf(r: seq<string>, m: Bindings) {
    exists ks :: Enumerates(ks, m) && multiset(r) == multiset(Entries(ks, m))
  }

  ghost predicate Plain(m: Bindings) {
    forall k :: k in m ==> '=' !in k
  }

  lemma ListedBinding(r: seq<string>, m: Bindings, e: string)
    requires ListingOf(r, m)
    ensures e in r <==> exists k :: k in m && e == EntryOf(k, m[k])
  {
    var ks :| Enumerates(ks, m) && multiset(r) == multiset(Entries(ks, m));
    assert e in r <==> e in multiset(r);
    assert e in Entries(ks, m) <==> e in multiset(Entries(ks, m));
    if e in r {
      var i :| 0 <= i < |ks| && Entries(ks, m)[i] == e;
      assert ks[i] in m && e == EntryOf(ks[i], m[ks[i]]);
    }
    if k :| k in m && e == EntryOf(k, m[k]) {
      var i :| 0 <= i < |ks| && ks[i] == k;
      assert Entries(ks, m)[i] == e;
    }
  }

  /** Reading entries gives one of the bindings they spell for each key they spell. */
  lemma {:induction false} ReadIs(entries: seq<string>, k: string)
    ensures k in Read(entries) <==> exists i :: 0 <= i < |entries| && Cut(entries[i]).0 == k
    ensures k in Read(entries) ==> exists i :: 0 <= i < |entries| && Cut(entries[i]) == (k, Read(entries)[k])
  {
    hide Cut;
    if entries != [] {
      var n := |entries| - 1;
      ReadIs(entries[..n], k);
      assert forall i :: 0 <= i < n ==> entries[..n][i] == entries[i];
      if Cut(entries[n]).0 != k && k in Read(entries[..n]) {
        var i :| 0 <= i < n && Cut(entries[..n][i]) == (k, Read(entries[..n])[k]);
        assert Cut(entries[i]) == (k, Read(entries)[k]);
      }
    }
  }

  /** A listing reads back as the bindings exactly when no name holds an `=`. */
  lemma ListingReadsBack(r: seq<string>, m: Bindings)
    requires ListingOf(r, m)
    ensures Read(r) == m <==> Plain(m)
  {
    hide Read, ListingOf, Cut, EntryOf;
    if Plain(m) {
      forall k ensures k in Read(r) <==> k in m {
        ReadIs(r, k);
        if k in Read(r) {
          var i :| 0 <= i < |r| && Cut(r[i]).0 == k;
          PlainEntry(r, m, i);
        } else if k in m {
          PlainBinding(r, m, k);
        }
      }
      forall k | k in m ensures k in Read(r) && Read(r)[k] == m[k] {
        ReadIs(r, k);
        var i :| 0 <= i < |r| && Cut(r[i]) == (k, Read(r)[k]);
        PlainEntry(r, m, i);
      }
    } else {
      var k :| k in m && '=' in k;
      ReadIs(r, k);
      if k in Read(r) {
        var i :| 0 <= i < |r| && Cut(r[i]).0 == k;
        CutKey(r[i]);
      }
    }
  }

  lemma PlainEntry(r: seq<string>, m: Bindings, i: nat)
    requires ListingOf(r, m) && Plain(m) && i < |r|
    ensures Cut(r[i]).0 in m && m[Cut(r[i]).0] == Cut(r[i]).1
  {
    hide ListingOf, Cut, EntryOf;
    ListedBinding(r, m, r[i]);
    var k :| k in m && r[i] == EntryOf(k, m[k]);
    CutEntry(k, m[k]);
  }

  lemma PlainBinding(r: seq<string>, m: Bindings, k: string)
    requires ListingOf(r, m) && Plain(m) && k in m
    ensures exists i :: 0 <= i < |r| && Cut(r[i]).0 == k
  {
    hide ListingOf, Cut, EntryOf;
    var e := EntryOf(k, m[k]);
    ListedBinding(r, m, e);
    CutEntry(k, m[k]);
    var i :| 0 <= i < |r| && r[i] == e;
  }

  // ---------- the object ----------

  class Environment {
    const host: seq<string>
    const isSealed: bool
    var values: Bindings
    var removed: set<string>
    var hostCleared: bool

    /** `host` lists the entries of the process that runs the interpreter. */
    constructor (host: seq<string>, values: Bindings, isSealed: bool)
      ensures this.host == host && Now() == Env(values, {}, isSealed, false)
      ensures View(Now(), Read(host)) == if isSealed then values else Read(host) + values
    {
      this.host, this.isSealed := host, isSealed;
      this.values, removed, hostCleared := values, {}, false;
    }

    function Now(): Env
      reads this
    {
      Env(values, removed, isSealed, hostCleared)
    }

    method Lookup(key: string) returns (value: Option<string>)
      ensures var view := View(Now(), Read(host)); value == if key in view then Some(view[key]) else None
    {
      if key in values {
        return Some(values[key]);
      }
      if key in removed || isSealed || hostCleared {
        return None;
      }
      var bindings := Read(host);
      return if key in bindings then Some(bindings[key]) else None;
    }

    method Getenv(key: string) returns (value: string)
      ensures var view := View(Now(), Read(host)); value == if key in view then view[key] else ""
    {
      var found := Lookup(key);
      return if found.Some? then found.value else "";
    }

    method Setenv(key: string, value: string)
      modifies this
      ensures Now() == Step(old(Now()), Set(key, value))
      ensures View(Now(), Read(host)) == View(old(Now()), Read(host))[key := value]
    {
      StepRefines(Now(), Read(host), Set(key, value));
      values := values[key := value];
      removed := removed - {key};
    }

    method Unsetenv(key: string)
      modifies this
      ensures Now() == Step(old(Now()), Unset(key))
      ensures View(Now(), Read(host)) == View(old(Now()), Read(host)) - {key}
    {
      StepRefines(Now(), Read(host), Unset(key));
      values := values - {key};
      removed := removed + {key};
    }

    method Clearenv()
      modifies this
      ensures Now() == Step(old(Now()), Clear)
      ensures View(Now(), Read(host)) == map[]
    {
      StepRefines(Now(), Read(host), Clear);
      values := map[];
      hostCleared := true;
    }

    /** The host's bindings that are not hidden, with the overlay's on top. */
    method Merge() returns (merged: Bindings)
      ensures merged == View(Now(), Read(host))
    {
      merged := map[];
      if !isSealed && !hostCleared {
        for i := 0 to |host|
          invariant merged == HostPart(Now(), Read(host[..i]))
        {
          assert host[..i + 1][..i] == host[..i];
          var entry := Cut(host[i]);
          ghost var before, after := Read(host[..i]), Read(host[..i + 1]);
          assert after == before[entry.0 := entry.1];
          if entry.0 !in removed {
            merged := merged[entry.0 := entry.1];
          }
        }
        assert host[..|host|] == host;
      }
      merged := merged + values;
    }

    /** The visible bindings as sorted entries. */
    method Environ() returns (result: seq<string>)
      ensures Ascending(result) && ListingOf(result, View(Now(), Read(host)))
    {
      hide View, Read, AtMost;
      var merged := Merge();
      var entries: seq<string> := [];
      ghost var ks: seq<string> := [];
      var rest := merged.Keys;
      while rest != {}
        invariant rest <= merged.Keys && (forall x :: x in ks <==> x in merged.Keys - rest)
        invariant forall i, j :: 0 <= i < j < |ks| ==> ks[i] != ks[j]
        invariant (forall i :: 0 <= i < |ks| ==> ks[i] in merged) && entries == Entries(ks, merged)
        decreases rest
      {
        var k :| k in rest;
        assert k !in ks;
        assert Entries(ks + [k], merged) == Entries(ks, merged) + [EntryOf(k, merged[k])];
        entries := entries + [EntryOf(k, merged[k])];
        ks := ks + [k];
        rest := rest - {k};
      }
      assert Enumerates(ks, merged);
      result := Sort(entries);
    }
  }
}
