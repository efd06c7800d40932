/** `statusbar/statusbar.go`: building a status bar from applets (`New`) and
    running it (`Listen`). The per-applet goroutines of `Listen` are modelled
    as a sequential `Step`, one iteration of one worker: the message its
    runner returned is written to the worker's own slot and, unless it was
    nil, the whole slot array is published. */
module Statusbar {
  import opened Wrappers
  import opened GoLib
  import opened StatusbarApplet

  // ---------------------------------------------------------------------
  // New: flag assignment, then initialisation
  // ---------------------------------------------------------------------

  /** One call `New` makes into an applet: `f.Value.Set(v)` on a flag of
      applet number `applet`, or `runner.Init()` of that applet. */
  datatype Call = SetFlag(applet: nat, flag: string, value: string) | InitRunner(applet: nat)

  /** The part of an applet that `New` reads. */
  datatype Config = Config(name: string, flags: Option<FlagSet>, values: map<string, string>)

  /** The calls made so far and the error, if any, that ended the pass. */
  datatype Pass = Pass(calls: seq<Call>, err: Option<string>)

  /** What `flag.Value.Set(value)` returns for a flag of a named applet:
      nil, or the text of its error. Parsing itself is not modelled. */
  type Setter = (string, string, string) -> Option<string>

  /** What `runner.Init()` of the applet at a position returns. */
  type Initer = nat -> Option<string>

  function Then(prefix: seq<Call>, p: Pass): Pass {
    Pass(prefix + p.calls, p.err)
  }

  /** The error `New` reports for a failed flag assignment, formatted as
      `"%s.%s: %s"`. */
  function FlagError(applet: string, flag: string, err: string): string {
    applet + "." + flag + ": " + err
  }

  /** `VisitAll` over the flag names `fs` of applet `idx`: flags without a
      value are skipped; the first failing `Set` ends the visit, since the
      visitor returns at once for every later flag. */
  function VisitFlags(idx: nat, c: Config, fs: seq<string>, setter: Setter): Pass
    decreases |fs|
  {
    if fs == [] then Pass([], None)
    else if fs[0] !in c.values then VisitFlags(idx, c, fs[1..], setter)
    else
      var v := c.values[fs[0]];
      match setter(c.name, fs[0], v)
      case Some(e) => Pass([SetFlag(idx, fs[0], v)], Some(FlagError(c.name, fs[0], e)))
      case None => Then([SetFlag(idx, fs[0], v)], VisitFlags(idx, c, fs[1..], setter))
  }

  /** The first loop of `New`, from applet `i` on: applets without a flag
      set are skipped; the first error ends the loop. */
  function AssignFrom(cs: seq<Config>, i: nat, setter: Setter): Pass
    requires i <= |cs|
    decreases |cs| - i
  {
    if i == |cs| then Pass([], None)
    else if cs[i].flags.None? then AssignFrom(cs, i + 1, setter)
    else
      var p := VisitFlags(i, cs[i], cs[i].flags.value.names, setter);
      if p.err.Some? then p else Then(p.calls, AssignFrom(cs, i + 1, setter))
  }

  /** The second loop of `New`, from applet `i` on: `Init` in order, the
      first error returned as it is. */
  function InitFrom(n: nat, i: nat, init: Initer): Pass
    requires i <= n
    decreases n - i
  {
    if i == n then Pass([], None)
    else
      match init(i)
      case Some(e) => Pass([InitRunner(i)], Some(e))
      case None => Then([InitRunner(i)], InitFrom(n, i + 1, init))
  }

  /** The calls `New` makes and the error it returns. */
  function NewCalls(cs: seq<Config>, setter: Setter, init: Initer): Pass {
    var a := AssignFrom(cs, 0, setter);
    if a.err.Some? then a else Then(a.calls, InitFrom(|cs|, 0, init))
  }

  function Configs(applets: seq<Applet>): (cs: seq<Config>)
    reads applets
    ensures |cs| == |applets|
    ensures forall i :: 0 <= i < |cs| ==>
      cs[i] == Config(applets[i].name, applets[i].flags, applets[i].values)
  {
    if applets == [] then []
    else [Config(applets[0].name, applets[0].flags, applets[0].values)] + Configs(applets[1..])
  }

  /** A status bar: its applets, in display order, and the capacity of its
      listener channel. */
  class Statusbar {
    const applets: seq<Applet>
    const capacity: nat

    constructor (applets: seq<Applet>)
      ensures this.applets == applets && capacity == |applets|
    {
      this.applets := applets;
      this.capacity := |applets|;
    }

    /** Allocate one empty slot per applet, number the instances of each
        applet name from 1 in order, and start one worker per slot. */
    method Listen() returns (l: Listener)
      ensures fresh(l) && fresh(l.segments) && l.Valid()
      ensures l.names == Names(applets)
      ensures l.instances == InstanceTags(Names(applets))
      ensures l.segments[..] == Empty(|applets|)
      ensures l.published == []
    {
      var ns := Names(applets);
      var tags := Number(ns);
      var segments := new Option<Segment>[|applets|](_ => None);
      l := new Listener(ns, tags, segments);
    }
  }

  /** The numbering loop of `Listen`: a count per applet name, raised for
      each applet in order, gives each its instance tag. */
  method Number(names: seq<string>) returns (tags: seq<string>)
    ensures tags == InstanceTags(names)
  {
    var instances: map<string, int> := map[];
    tags := [];
    var i := 0;
    while i < |names|
      invariant 0 <= i <= |names|
      invariant tags == InstanceTags(names[..i])
      invariant forall n :: n in instances <==> Count(names[..i], n) > 0
      invariant forall n :: n in instances ==> instances[n] == Count(names[..i], n)
    {
      var name := names[i];
      // instances[applet.name]++
      var k := (if name in instances then instances[name] else 0) + 1;
      instances := instances[name := k];
      OrdinalsSnoc(names[..i], name);
      assert names[..i + 1] == names[..i] + [name];
      tags := tags + [Itoa(k)];
      i := i + 1;
    }
    assert names[..i] == names;
  }

  /** `applet.flags.VisitAll` with `New`'s visitor: the closure's captured
      error makes it skip every flag after the first failure. */
  method VisitAll(i: nat, applet: Applet, setter: Setter) returns (calls: seq<Call>, err: Option<string>)
    requires applet.flags.Some?
    ensures Pass(calls, err) ==
      VisitFlags(i, Config(applet.name, applet.flags, applet.values), applet.flags.value.names, setter)
  {
    ghost var c := Config(applet.name, applet.flags, applet.values);
    var names := applet.flags.value.names;
    calls := [];
    err := None;
    var j := 0;
    while j < |names|
      invariant 0 <= j <= |names|
      invariant err.None? ==> VisitFlags(i, c, names, setter) == Then(calls, VisitFlags(i, c, names[j..], setter))
      invariant err.Some? ==> VisitFlags(i, c, names, setter) == Pass(calls, err)
    {
      // Ignore subsequent flags if an error has occurred.
      if err.None? {
        var f := names[j];
        assert names[j..][0] == f && names[j..][1..] == names[j + 1..];
        if f in applet.values {
          var v := applet.values[f];
          calls := calls + [SetFlag(i, f, v)];
          var e := setter(applet.name, f, v);
          if e.Some? {
            err := Some(FlagError(applet.name, f, e.value));
          }
        }
      }
      j := j + 1;
    }
    assert names[j..] == [];
  }

  /** The first loop of `New`: assign the flags of every applet that has a
      flag set, stopping at the first error. */
  method AssignAll(applets: seq<Applet>, setter: Setter) returns (calls: seq<Call>, err: Option<string>)
    ensures Pass(calls, err) == AssignFrom(Configs(applets), 0, setter)
  {
    ghost var cs := Configs(applets);
    calls, err := [], None;
    var i := 0;
    while i < |applets|
      invariant 0 <= i <= |applets|
      invariant AssignFrom(cs, 0, setter) == Then(calls, AssignFrom(cs, i, setter))
    {
      var applet := applets[i];
      assert cs[i] == Config(applet.name, applet.flags, applet.values);
      if applet.flags.Some? {
        var visited, e := VisitAll(i, applet, setter);
        if e.Some? {
          assert AssignFrom(cs, 0, setter) == Pass(calls + visited, e);
          return calls + visited, e;
        }
        assert AssignFrom(cs, 0, setter) == Then(calls + visited, AssignFrom(cs, i + 1, setter)) by {
          ThenThen(calls, visited, AssignFrom(cs, i + 1, setter));
        }
        calls := calls + visited;
      }
      i := i + 1;
    }
    assert calls + [] == calls;
  }

  lemma ThenThen(a: seq<Call>, b: seq<Call>, p: Pass)
    ensures Then(a, Then(b, p)) == Then(a + b, p)
  {
    assert a + (b + p.calls) == (a + b) + p.calls;
  }

  /** The second loop of `New`: `Init` every runner in order, stopping at
      the first error. */
  method InitAll(n: nat, init: Initer) returns (calls: seq<Call>, err: Option<string>)
    ensures Pass(calls, err) == InitFrom(n, 0, init)
  {
    calls, err := [], None;
    var i := 0;
    while i < n
      invariant 0 <= i <= n
      invariant InitFrom(n, 0, init) == Then(calls, InitFrom(n, i, init))
    {
      calls := calls + [InitRunner(i)];
      var e := init(i);
      if e.Some? {
        return calls, e;
      }
      i := i + 1;
    }
  }

  /** `New` (statusbar/statusbar.go): assign each applet's values to its
      flags, then initialise every runner; any error abandons the bar. */
  method New(applets: seq<Applet>, setter: Setter, init: Initer) returns (r: Result<Statusbar>, calls: seq<Call>)
    ensures Pass(calls, if r.Failure? then Some(r.error) else None) == NewCalls(Configs(applets), setter, init)
    ensures r.Success? ==> fresh(r.value) && r.value.applets == applets && r.value.capacity == |applets|
  {
    var err;
    calls, err := AssignAll(applets, setter);
    if err.Some? {
      return Failure(err.value), calls;
    }
    var inits;
    inits, err := InitAll(|applets|, init);
    calls := calls + inits;
    if err.Some? {
      return Failure(err.value), calls;
    }
    var bar := new Statusbar(applets);
    r := Success(bar);
  }

  // ---------------------------------------------------------------------
  // Properties of New
  // ---------------------------------------------------------------------

  /** A flag assignment `New` may make: a flag of an applet that has a flag
      set, with the value the applet holds for it. */
  predicate Sanctioned(cs: seq<Config>, c: Call) {
    c.SetFlag? && c.applet < |cs| && cs[c.applet].flags.Some?
    && c.flag in cs[c.applet].flags.value.names
    && c.flag in cs[c.applet].values && c.value == cs[c.applet].values[c.flag]
  }

  lemma {:induction false} VisitFlagsSanctioned(cs: seq<Config>, idx: nat, fs: seq<string>, setter: Setter)
    requires idx < |cs| && cs[idx].flags.Some?
    requires forall k :: 0 <= k < |fs| ==> fs[k] in cs[idx].flags.value.names
    ensures forall c :: c in VisitFlags(idx, cs[idx], fs, setter).calls ==> Sanctioned(cs, c) && c.applet == idx
    decreases |fs|
  {
    if fs != [] {
      VisitFlagsSanctioned(cs, idx, fs[1..], setter);
    }
  }

  lemma {:induction false} AssignSanctioned(cs: seq<Config>, i: nat, setter: Setter)
    requires i <= |cs|
    ensures forall c :: c in AssignFrom(cs, i, setter).calls ==> Sanctioned(cs, c) && c.applet >= i
    decreases |cs| - i
  {
    if i < |cs| {
      AssignSanctioned(cs, i + 1, setter);
      if cs[i].flags.Some? {
        VisitFlagsSanctioned(cs, i, cs[i].flags.value.names, setter);
      }
    }
  }

  lemma {:induction false} InitOnly(n: nat, i: nat, init: Initer)
    requires i <= n
    ensures forall k :: 0 <= k < |InitFrom(n, i, init).calls| ==>
      InitFrom(n, i, init).calls[k] == InitRunner(i + k)
    ensures InitFrom(n, i, init).err.None? ==> |InitFrom(n, i, init).calls| == n - i
    decreases n - i
  {
    if i < n {
      InitOnly(n, i + 1, init);
    }
  }

  /** Only flags that have a value are set, each to that value; applets
      without a flag set are skipped. Every `Init` call comes after every
      flag assignment, and the `Init` calls run through the applets in
      order from the first. */
  lemma NewCallsShape(cs: seq<Config>, setter: Setter, init: Initer)
    ensures var p := NewCalls(cs, setter, init);
      var m := |AssignFrom(cs, 0, setter).calls|;
      m <= |p.calls|
      && (forall k :: 0 <= k < m ==> Sanctioned(cs, p.calls[k]))
      && (forall k :: m <= k < |p.calls| ==> p.calls[k] == InitRunner(k - m))
  {
    var a := AssignFrom(cs, 0, setter);
    AssignSanctioned(cs, 0, setter);
    var p := NewCalls(cs, setter, init);
    if a.err.None? {
      InitOnly(|cs|, 0, init);
      assert p.calls == a.calls + InitFrom(|cs|, 0, init).calls;
    }
    assert forall k :: 0 <= k < |a.calls| ==> p.calls[k] == a.calls[k] && a.calls[k] in a.calls;
  }

  /** On success, every runner was initialised exactly once, in order,
      after all flag assignments, and every flag that has a value was set. */
  lemma NewSuccess(cs: seq<Config>, setter: Setter, init: Initer)
    requires NewCalls(cs, setter, init).err.None?
    ensures var calls := NewCalls(cs, setter, init).calls;
      |calls| >= |cs|
      && calls[|calls| - |cs|..] == seq(|cs|, k requires 0 <= k < |cs| => InitRunner(k))
      && forall k :: 0 <= k < |calls| - |cs| ==> calls[k].SetFlag?
  {
    var a := AssignFrom(cs, 0, setter);
    AssignSanctioned(cs, 0, setter);
    InitOnly(|cs|, 0, init);
    var calls := NewCalls(cs, setter, init).calls;
    assert calls == a.calls + InitFrom(|cs|, 0, init).calls;
    assert forall k :: 0 <= k < |a.calls| ==> calls[k] == a.calls[k] && calls[k] in a.calls;
  }

  lemma {:induction false} VisitFlagsComplete(idx: nat, c: Config, fs: seq<string>, setter: Setter, f: string)
    requires VisitFlags(idx, c, fs, setter).err.None?
    requires f in fs && f in c.values
    ensures SetFlag(idx, f, c.values[f]) in VisitFlags(idx, c, fs, setter).calls
    decreases |fs|
  {
    if fs[0] != f {
      VisitFlagsComplete(idx, c, fs[1..], setter, f);
    }
  }

  lemma {:induction false} AssignComplete(cs: seq<Config>, i: nat, setter: Setter, j: nat, f: string)
    requires i <= j < |cs| && AssignFrom(cs, i, setter).err.None?
    requires cs[j].flags.Some? && f in cs[j].flags.value.names && f in cs[j].values
    ensures SetFlag(j, f, cs[j].values[f]) in AssignFrom(cs, i, setter).calls
    decreases |cs| - i
  {
    if i == j {
      VisitFlagsComplete(j, cs[j], cs[j].flags.value.names, setter, f);
    } else {
      AssignComplete(cs, i + 1, setter, j, f);
    }
  }

  /** When `New` gets past the flag pass, every flag of a flag set that has a
      value was set to that value. */
  lemma NewSetsEveryValue(cs: seq<Config>, setter: Setter, init: Initer, j: nat, f: string)
    requires j < |cs| && AssignFrom(cs, 0, setter).err.None?
    requires cs[j].flags.Some? && f in cs[j].flags.value.names && f in cs[j].values
    ensures SetFlag(j, f, cs[j].values[f]) in NewCalls(cs, setter, init).calls
  {
    AssignComplete(cs, 0, setter, j, f);
  }

  lemma {:induction false} VisitFlagsError(idx: nat, c: Config, fs: seq<string>, setter: Setter)
    requires VisitFlags(idx, c, fs, setter).err.Some?
    ensures var p := VisitFlags(idx, c, fs, setter);
      |p.calls| > 0 && p.calls[|p.calls| - 1].SetFlag?
      && var last := p.calls[|p.calls| - 1];
      setter(c.name, last.flag, last.value).Some?
      && p.err == Some(FlagError(c.name, last.flag, setter(c.name, last.flag, last.value).value))
      && forall k :: 0 <= k < |p.calls| - 1 ==> p.calls[k].SetFlag? && setter(c.name, p.calls[k].flag, p.calls[k].value).None?
    decreases |fs|
  {
    if fs[0] !in c.values {
      VisitFlagsError(idx, c, fs[1..], setter);
    } else if setter(c.name, fs[0], c.values[fs[0]]).None? {
      VisitFlagsError(idx, c, fs[1..], setter);
    }
  }

  lemma {:induction false} AssignError(cs: seq<Config>, i: nat, setter: Setter)
    requires i <= |cs| && AssignFrom(cs, i, setter).err.Some?
    ensures var p := AssignFrom(cs, i, setter);
      |p.calls| > 0 && p.calls[|p.calls| - 1].SetFlag?
      && var last := p.calls[|p.calls| - 1];
      last.applet < |cs|
      && setter(cs[last.applet].name, last.flag, last.value).Some?
      && p.err == Some(FlagError(cs[last.applet].name, last.flag, setter(cs[last.applet].name, last.flag, last.value).value))
    decreases |cs| - i
  {
    if cs[i].flags.None? {
      AssignError(cs, i + 1, setter);
    } else {
      var p := VisitFlags(i, cs[i], cs[i].flags.value.names, setter);
      VisitFlagsSanctioned(cs, i, cs[i].flags.value.names, setter);
      if p.err.Some? {
        VisitFlagsError(i, cs[i], cs[i].flags.value.names, setter);
      } else {
        AssignError(cs, i + 1, setter);
      }
    }
  }

  /** A failed flag assignment ends `New` at once: it is the last call, no
      runner is initialised, and the error names the applet and the flag. */
  lemma NewFlagFailure(cs: seq<Config>, setter: Setter, init: Initer)
    requires AssignFrom(cs, 0, setter).err.Some?
    ensures var p := NewCalls(cs, setter, init);
      |p.calls| > 0
      && (forall k :: 0 <= k < |p.calls| ==> p.calls[k].SetFlag?)
      && var last := p.calls[|p.calls| - 1];
      last.applet < |cs|
      && setter(cs[last.applet].name, last.flag, last.value).Some?
      && p.err == Some(FlagError(cs[last.applet].name, last.flag, setter(cs[last.applet].name, last.flag, last.value).value))
  {
    AssignError(cs, 0, setter);
    AssignSanctioned(cs, 0, setter);
    var p := NewCalls(cs, setter, init);
    assert forall k :: 0 <= k < |p.calls| ==> p.calls[k] in p.calls;
  }

  lemma {:induction false} InitError(n: nat, i: nat, init: Initer)
    requires i <= n && InitFrom(n, i, init).err.Some?
    ensures var p := InitFrom(n, i, init);
      |p.calls| > 0 && i + |p.calls| <= n
      && p.err == init(i + |p.calls| - 1)
      && forall k :: i <= k < i + |p.calls| - 1 ==> init(k).None?
    decreases n - i
  {
    if init(i).None? {
      InitError(n, i + 1, init);
    }
  }

  /** A failed `Init` ends `New` at once: the runners before it were
      initialised, the ones after it were not, and its error is returned. */
  lemma NewInitFailure(cs: seq<Config>, setter: Setter, init: Initer)
    requires AssignFrom(cs, 0, setter).err.None? && NewCalls(cs, setter, init).err.Some?
    ensures var calls := NewCalls(cs, setter, init).calls;
      exists k :: 0 <= k < |cs|
        && calls[|calls| - 1] == InitRunner(k)
        && NewCalls(cs, setter, init).err == init(k)
        && forall j :: 0 <= j < k ==> init(j).None?
  {
    var a := AssignFrom(cs, 0, setter);
    var q := InitFrom(|cs|, 0, init);
    InitError(|cs|, 0, init);
    InitOnly(|cs|, 0, init);
    var k := |q.calls| - 1;
    assert q.calls[k] == InitRunner(k);
  }

  // ---------------------------------------------------------------------
  // Listen: slots and instance numbers
  // ---------------------------------------------------------------------

  function Names(applets: seq<Applet>): (ns: seq<string>)
    reads applets
    ensures |ns| == |applets|
  {
    if applets == [] then [] else [applets[0].name] + Names(applets[1..])
  }

  /** How often `n` occurs in `names`. */
  function Count(names: seq<string>, n: string): nat {
    if names == [] then 0
    else Count(names[..|names| - 1], n) + (if names[|names| - 1] == n then 1 else 0)
  }

  /** The instance number of each applet: one more than the number of
      earlier applets of the same name. */
  function Ordinals(names: seq<string>): (os: seq<nat>)
    ensures |os| == |names|
  {
    if names == [] then []
    else
      var p := names[..|names| - 1];
      Ordinals(p) + [Count(p, names[|names| - 1]) + 1]
  }

  /** The instance tags the workers carry: the ordinals as text. */
  function InstanceTags(names: seq<string>): (ts: seq<string>)
    ensures |ts| == |names|
  {
    if names == [] then []
    else
      var p := names[..|names| - 1];
      InstanceTags(p) + [Itoa(Count(p, names[|names| - 1]) + 1)]
  }

  /** Each tag is its applet's ordinal as text. */
  lemma {:induction false} InstanceTagsOrdinals(names: seq<string>)
    ensures forall i :: 0 <= i < |names| ==> InstanceTags(names)[i] == Itoa(Ordinals(names)[i])
  {
    if names != [] {
      var p, last := names[..|names| - 1], names[|names| - 1];
      InstanceTagsOrdinals(p);
      var ts, os := InstanceTags(names), Ordinals(names);
      assert ts == InstanceTags(p) + [Itoa(Count(p, last) + 1)];
      assert os == Ordinals(p) + [Count(p, last) + 1];
      forall i | 0 <= i < |names|
        ensures ts[i] == Itoa(os[i])
      {
        if i < |p| {
          assert ts[i] == InstanceTags(p)[i] && os[i] == Ordinals(p)[i];
        }
      }
    }
  }

  lemma OrdinalsSnoc(names: seq<string>, n: string)
    ensures (names + [n])[..|names|] == names
    ensures Ordinals(names + [n]) == Ordinals(names) + [Count(names, n) + 1]
    ensures InstanceTags(names + [n]) == InstanceTags(names) + [Itoa(Count(names, n) + 1)]
    ensures forall m :: Count(names + [n], m) == Count(names, m) + (if m == n then 1 else 0)
  {
    assert (names + [n])[..|names|] == names;
  }

  function Empty(n: nat): (s: Snapshot)
    ensures |s| == n && forall i :: 0 <= i < n ==> s[i].None?
  {
    if n == 0 then [] else Empty(n - 1) + [None]
  }

  /** The values at the positions where `names` holds `n`, in order. */
  function Select(names: seq<string>, vals: seq<nat>, n: string): seq<nat>
    requires |vals| == |names|
  {
    if names == [] then []
    else
      Select(names[..|names| - 1], vals[..|vals| - 1], n)
      + (if names[|names| - 1] == n then [vals[|vals| - 1]] else [])
  }

  /** 1, 2, ..., k. */
  function OneTo(k: nat): (s: seq<nat>)
    ensures |s| == k && forall i :: 0 <= i < k ==> s[i] == i + 1
  {
    if k == 0 then [] else OneTo(k - 1) + [k]
  }

  /** The applets of one name are numbered 1, 2, ..., k in the order they
      were given, k being how many there are. */
  lemma {:induction false} OrdinalsEnumerate(names: seq<string>, n: string)
    ensures Select(names, Ordinals(names), n) == OneTo(Count(names, n))
  {
    if names != [] {
      var p := names[..|names| - 1];
      assert Ordinals(names)[..|names| - 1] == Ordinals(p);
      OrdinalsEnumerate(p, n);
    }
  }

  lemma {:induction false} OrdinalsPrefix(names: seq<string>, i: nat)
    requires i < |names|
    ensures Ordinals(names)[i] == Count(names[..i], names[i]) + 1
    decreases |names|
  {
    var p := names[..|names| - 1];
    if i < |names| - 1 {
      OrdinalsPrefix(p, i);
      assert p[..i] == names[..i];
    }
  }

  // ---------------------------------------------------------------------
  // The workers
  // ---------------------------------------------------------------------

  /** The slot array: one optional segment per applet. */
  type Snapshot = seq<Option<Segment>>

  /** The state the workers share: each worker's identity, the slots, and
      every snapshot published so far, oldest first. */
  datatype Board = Board(names: seq<string>, instances: seq<string>, slots: Snapshot, published: seq<Snapshot>)

  /** A snapshot whose populated slots carry the identity of their worker. */
  predicate Labelled(names: seq<string>, instances: seq<string>, s: Snapshot) {
    |s| == |names| == |instances|
    && forall j :: 0 <= j < |s| && s[j].Some? ==>
         s[j].value.name == names[j] && s[j].value.instance == instances[j]
  }

  /** One worker iteration: the runner of slot `i` returned `msg`. A nil
      message changes nothing; otherwise the worker's segment gets the new
      message and the whole slot array is published. */
  function Deliver(b: Board, i: nat, msg: Option<Message>): Board
    requires i < |b.slots| && i < |b.names| && i < |b.instances|
  {
    match msg
    case None => b
    case Some(m) =>
      var slots := b.slots[i := Some(Segment(b.names[i], b.instances[i], m))];
      b.(slots := slots, published := b.published + [slots])
  }

  /** Well-formedness of the shared state: slot count fixed, every slot and
      every published snapshot labelled with its worker's identity. */
  predicate Good(b: Board) {
    Labelled(b.names, b.instances, b.slots)
    && forall k :: 0 <= k < |b.published| ==> Labelled(b.names, b.instances, b.published[k])
  }

  /** A worker iteration touches only its own slot, never clears a slot,
      publishes the entire array exactly when the message is non-nil, and
      keeps the state well formed. */
  lemma DeliverEffect(b: Board, i: nat, msg: Option<Message>)
    requires Good(b) && i < |b.slots|
    ensures var b' := Deliver(b, i, msg);
      Good(b')
      && b'.names == b.names && b'.instances == b.instances
      && |b'.slots| == |b.slots|
      && (forall j :: 0 <= j < |b.slots| && j != i ==> b'.slots[j] == b.slots[j])
      && (forall j :: 0 <= j < |b.slots| && b.slots[j].Some? ==> b'.slots[j].Some?)
      && (msg.None? ==> b' == b)
      && (msg.Some? ==> b'.slots[i] == Some(Segment(b.names[i], b.instances[i], msg.value))
                        && b'.published == b.published + [b'.slots])
  {
  }

  /** A run of worker iterations, in the order they happened. */
  function Run(b: Board, events: seq<(nat, Option<Message>)>): Board
    requires Good(b)
    requires forall k :: 0 <= k < |events| ==> events[k].0 < |b.slots|
    decreases |events|
  {
    if events == [] then b
    else
      DeliverEffect(b, events[0].0, events[0].1);
      Run(Deliver(b, events[0].0, events[0].1), events[1..])
  }

  function Published(events: seq<(nat, Option<Message>)>): nat {
    if events == [] then 0 else (if events[0].1.Some? then 1 else 0) + Published(events[1..])
  }

  /** Whatever order the workers run in: the slot count never changes, no
      slot is ever cleared, a segment only ever appears at its own slot, and
      one snapshot is published per non-nil message. */
  lemma {:induction false} RunInvariant(b: Board, events: seq<(nat, Option<Message>)>)
    requires Good(b)
    requires forall k :: 0 <= k < |events| ==> events[k].0 < |b.slots|
    ensures var b' := Run(b, events);
      Good(b') && b'.names == b.names && b'.instances == b.instances
      && |b'.slots| == |b.slots|
      && (forall j :: 0 <= j < |b.slots| && b.slots[j].Some? ==> b'.slots[j].Some?)
      && |b'.published| == |b.published| + Published(events)
      && b'.published[..|b.published|] == b.published
    decreases |events|
  {
    if events != [] {
      var b1 := Deliver(b, events[0].0, events[0].1);
      DeliverEffect(b, events[0].0, events[0].1);
      RunInvariant(b1, events[1..]);
      var b' := Run(b1, events[1..]);
      assert b'.published[..|b.published|] == b1.published[..|b1.published|][..|b.published|];
    }
  }

  /** The same message delivered twice in a row publishes the same snapshot
      twice. */
  lemma DeliverRepeat(b: Board, i: nat, m: Message)
    requires Good(b) && i < |b.slots|
    ensures var b1 := Deliver(b, i, Some(m));
      var b2 := Deliver(b1, i, Some(m));
      b2.slots == b1.slots && |b2.published| == |b.published| + 2
      && b2.published[|b2.published| - 1] == b2.published[|b2.published| - 2]
  {
  }

  /** The workers of a listening status bar (`Listen`'s goroutines and the
      slot array they share). */
  class Listener {
    const names: seq<string>
    const instances: seq<string>
    const segments: array<Option<Segment>>
    var published: seq<Snapshot>

    ghost predicate Valid()
      reads this, segments
    {
      Good(State())
    }

    function State(): Board
      reads this, segments
    {
      Board(names, instances, segments[..], published)
    }

    constructor (names: seq<string>, instances: seq<string>, segments: array<Option<Segment>>)
      requires |names| == |instances| == segments.Length
      requires forall j :: 0 <= j < segments.Length ==> segments[j].None?
      ensures this.names == names && this.instances == instances && this.segments == segments
      ensures published == [] && Valid()
    {
      this.names := names;
      this.instances := instances;
      this.segments := segments;
      this.published := [];
    }

    /** One iteration of worker `i` whose runner returned `msg`. */
    method Step(i: nat, msg: Option<Message>)
      requires Valid() && i < segments.Length
      modifies segments, this`published
      ensures Valid()
      ensures State() == Deliver(old(State()), i, msg)
    {
      DeliverEffect(State(), i, msg);
      if msg.Some? {
        // seg.Message = msg; segments[i] = seg; s.listener <- segments
        segments[i] := Some(Segment(names[i], instances[i], msg.value));
        published := published + [segments[..]];
      }
    }
  }
}
