/** The program of `main.go`: it turns each command-line description
    `name[:options]` into a configured applet of a registered kind, and
    writes the i3bar protocol header followed by one JSON array per
    snapshot the status bar publishes. */
module Setup {
  import opened Wrappers
  import opened GoLib
  import Json
  import StatusbarApplet
  import Statusbar
  import Memory
  import Cpu

  // ---------------------------------------------------------------------
  // Character classes of the two regular expressions (ASCII, as RE2's
  // POSIX classes are)
  // ---------------------------------------------------------------------

  predicate IsAlpha(c: char) {
    'A' <= c <= 'Z' || 'a' <= c <= 'z'
  }

  predicate IsAlnum(c: char) {
    IsAlpha(c) || '0' <= c <= '9'
  }

  /** `[[:graph:]]`: printable ASCII other than the blank. */
  predicate IsGraph(c: char) {
    '!' <= c <= '~'
  }

  /** `.`: any character but a newline. */
  predicate NotNewline(c: char) {
    c != '\n'
  }

  /** The length of the longest prefix of `s` whose characters satisfy `p`. */
  function Span(s: string, p: char -> bool): (k: nat)
    ensures k <= |s|
    ensures k < |s| ==> !p(s[k])
  {
    if s == [] || !p(s[0]) then 0 else 1 + Span(s[1..], p)
  }

  /** Every character of the span satisfies `p`. */
  lemma {:induction false} SpanAll(s: string, p: char -> bool)
    ensures forall i :: 0 <= i < Span(s, p) ==> p(s[i])
  {
    if s != [] && p(s[0]) {
      SpanAll(s[1..], p);
    }
  }

  lemma {:induction false} SpanPrefix(w: string, rest: string, p: char -> bool)
    requires forall i :: 0 <= i < |w| ==> p(w[i])
    requires rest == [] || !p(rest[0])
    ensures Span(w + rest, p) == |w|
    decreases |w|
  {
    if w == [] {
      assert w + rest == rest;
    } else {
      assert (w + rest)[0] == w[0];
      assert (w + rest)[1..] == w[1..] + rest;
      SpanPrefix(w[1..], rest, p);
    }
  }

  /** The position of the first letter of `d`. */
  function FirstLetter(d: string): (k: Option<nat>)
    ensures k.Some? ==> k.value < |d| && IsAlpha(d[k.value])
  {
    if d == [] then None
    else if IsAlpha(d[0]) then Some(0)
    else
      match FirstLetter(d[1..])
      case Some(j) => Some(j + 1)
      case None => None
  }

  /** No letter comes before the first one. */
  lemma {:induction false} FirstLetterFirst(d: string)
    ensures FirstLetter(d).None? ==> forall i :: 0 <= i < |d| ==> !IsAlpha(d[i])
    ensures FirstLetter(d).Some? ==> forall i :: 0 <= i < FirstLetter(d).value ==> !IsAlpha(d[i])
  {
    if d != [] && !IsAlpha(d[0]) {
      FirstLetterFirst(d[1..]);
    }
  }

  // ---------------------------------------------------------------------
  // Applet descriptions: ([[:alpha:]]+)(?::(.+))?
  // ---------------------------------------------------------------------

  /** The two submatches of a description: the applet name and its
      (possibly empty) option text. */
  datatype Desc = Desc(name: string, options: string)

  /** `appletDesc.FindStringSubmatch`: the leftmost run of letters, then,
      when a ':' follows it with at least one more character on the line,
      the rest of that line; `None` (a nil match) when there is no letter. */
  function ParseDesc(d: string): Option<Desc> {
    match FirstLetter(d)
    case None => None
    case Some(k) =>
      var t := d[k..];
      var n := Span(t, IsAlpha);
      var rest := t[n..];
      var options :=
        if |rest| >= 2 && rest[0] == ':' && rest[1] != '\n'
        then rest[1..][..Span(rest[1..], NotNewline)]
        else "";
      Some(Desc(t[..n], options))
  }

  /** A description has no match exactly when it has no letter; a match
      has a non-empty name of letters and options on one line. */
  lemma ParseDescShape(d: string)
    ensures ParseDesc(d).None? <==> forall i :: 0 <= i < |d| ==> !IsAlpha(d[i])
    ensures ParseDesc(d).Some? ==> WellFormed(ParseDesc(d).value)
  {
    FirstLetterFirst(d);
    match FirstLetter(d)
    case None =>
    case Some(k) =>
      var t := d[k..];
      var n := Span(t, IsAlpha);
      SpanAll(t, IsAlpha);
      assert t[..n][0] == d[k];
      var rest := t[n..];
      if |rest| >= 2 && rest[0] == ':' && rest[1] != '\n' {
        var o := rest[1..][..Span(rest[1..], NotNewline)];
        SpanAll(rest[1..], NotNewline);
        assert forall i :: 0 <= i < |o| ==> o[i] == rest[1..][i];
      }
  }

  /** A description as a user writes it: letters, then options that fit on
      one line, if any. */
  predicate WellFormed(d: Desc) {
    d.name != [] && (forall i :: 0 <= i < |d.name| ==> IsAlpha(d.name[i]))
    && forall i :: 0 <= i < |d.options| ==> d.options[i] != '\n'
  }

  function DescText(d: Desc): string {
    if d.options == "" then d.name else d.name + ":" + d.options
  }

  /** Parsing reads back the name and options of every well-formed
      description. */
  lemma ParseDescText(d: Desc)
    requires WellFormed(d)
    ensures ParseDesc(DescText(d)) == Some(d)
  {
    var s := DescText(d);
    assert FirstLetter(s) == Some(0);
    assert s[0..] == s;
    if d.options == "" {
      SpanPrefix(d.name, "", IsAlpha);
      assert d.name + "" == d.name;
    } else {
      SpanPrefix(d.name, ":" + d.options, IsAlpha);
      assert s == d.name + (":" + d.options);
      assert s[|d.name|..] == ":" + d.options;
      assert (":" + d.options)[1..] == d.options;
      SpanPrefix(d.options, "", NotNewline);
      assert d.options + "" == d.options;
    }
  }

  // ---------------------------------------------------------------------
  // Options: ([[:alnum:]]+)=([[:graph:]]+), all matches
  // ---------------------------------------------------------------------

  /** The match of the option pattern at the start of `t`, as the ends of
      its key and of its value. */
  function MatchAt(t: string): (m: Option<(nat, nat)>)
    ensures m.Some? ==> 0 < m.value.0 < m.value.1 <= |t|
  {
    if t != [] && IsAlnum(t[0]) then
      var j := Span(t, IsAlnum);
      if j + 1 < |t| && t[j] == '=' && IsGraph(t[j + 1]) then
        Some((j, j + 1 + Span(t[j + 1..], IsGraph)))
      else None
    else None
  }

  /** `FindAllStringSubmatch`: the leftmost match, then the matches after
      it. None of the pattern's parts looks behind, so the search after a
      position depends only on the text from there on. */
  function ConfigPairs(t: string): seq<(string, string)>
    decreases |t|
  {
    if t == [] then []
    else
      match MatchAt(t)
      case Some((j, g)) => [(t[..j], t[j + 1..g])] + ConfigPairs(t[g..])
      case None => ConfigPairs(t[1..])
  }

  /** An option as written: `key=value`. */
  function PairText(p: (string, string)): string {
    p.0 + "=" + p.1
  }

  /** Options separated by blanks. */
  function JoinPairs(ps: seq<(string, string)>): string {
    if ps == [] then ""
    else if |ps| == 1 then PairText(ps[0])
    else PairText(ps[0]) + " " + JoinPairs(ps[1..])
  }

  predicate GoodPair(p: (string, string)) {
    p.0 != "" && p.1 != ""
    && (forall c :: 0 <= c < |p.0| ==> IsAlnum(p.0[c]))
    && (forall c :: 0 <= c < |p.1| ==> IsGraph(p.1[c]))
  }

  /** Every match has a non-empty alphanumeric key and a non-empty
      printable value. */
  lemma {:induction false} ConfigPairsGood(t: string)
    ensures forall k :: 0 <= k < |ConfigPairs(t)| ==> GoodPair(ConfigPairs(t)[k])
    decreases |t|
  {
    if t != [] {
      match MatchAt(t)
      case Some((j, g)) =>
        ConfigPairsGood(t[g..]);
        SpanAll(t, IsAlnum);
        SpanAll(t[j + 1..], IsGraph);
        assert t[j + 1..g] == t[j + 1..][..g - j - 1];
      case None =>
        ConfigPairsGood(t[1..]);
    }
  }

  /** A `key=value` text followed by a blank or the end matches as a whole. */
  lemma MatchPair(p: (string, string), tail: string)
    requires GoodPair(p)
    requires tail == [] || tail[0] == ' '
    ensures MatchAt(PairText(p) + tail) == Some((|p.0|, |p.0| + 1 + |p.1|))
  {
    var t := PairText(p) + tail;
    var after := "=" + p.1 + tail;
    assert t == p.0 + after;
    SpanPrefix(p.0, after, IsAlnum);
    var j := |p.0|;
    assert t[j] == '=' && t[j + 1..] == p.1 + tail by {
      assert t[j..] == after;
    }
    assert t[0] == p.0[0] && t[j + 1] == p.1[0];
    SpanPrefix(p.1, tail, IsGraph);
  }

  /** Such a text is read as that pair, and the matching goes on after it. */
  lemma ConfigPairsPair(p: (string, string), tail: string)
    requires GoodPair(p)
    requires tail == [] || tail[0] == ' '
    ensures ConfigPairs(PairText(p) + tail) == [p] + ConfigPairs(tail)
  {
    var t := PairText(p) + tail;
    MatchPair(p, tail);
    var j := |p.0|;
    var g := j + 1 + |p.1|;
    assert t[..j] == p.0 && t[j + 1..g] == p.1 && t[g..] == tail;
  }

  /** A blank never starts a match. */
  lemma ConfigPairsBlank(rest: string)
    ensures ConfigPairs(" " + rest) == ConfigPairs(rest)
  {
    assert (" " + rest)[1..] == rest;
  }

  /** Every pair of `ps` is a good pair, pair by pair. */
  predicate GoodPairs(ps: seq<(string, string)>) {
    ps == [] || (GoodPair(ps[0]) && GoodPairs(ps[1..]))
  }

  lemma {:induction false} AllGoodPairs(ps: seq<(string, string)>)
    requires forall k :: 0 <= k < |ps| ==> GoodPair(ps[k])
    ensures GoodPairs(ps)
  {
    if ps != [] {
      AllGoodPairs(ps[1..]);
    }
  }

  lemma {:induction false} ConfigPairsJoinGood(ps: seq<(string, string)>)
    requires GoodPairs(ps)
    ensures ConfigPairs(JoinPairs(ps)) == ps
  {
    if ps == [] {
    } else if |ps| == 1 {
      ConfigPairsPair(ps[0], "");
      assert PairText(ps[0]) + "" == PairText(ps[0]);
    } else {
      var rest := JoinPairs(ps[1..]);
      assert JoinPairs(ps) == PairText(ps[0]) + (" " + rest);
      ConfigPairsPair(ps[0], " " + rest);
      ConfigPairsBlank(rest);
      ConfigPairsJoinGood(ps[1..]);
      assert ps == [ps[0]] + ps[1..];
    }
  }

  /** The options read back every list of `key=value` pairs written with
      blanks between them, where keys are alphanumeric and values
      printable. A value runs to the next blank, so it may hold ',' or '='. */
  lemma ConfigPairsJoin(ps: seq<(string, string)>)
    requires forall k :: 0 <= k < |ps| ==> GoodPair(ps[k])
    ensures ConfigPairs(JoinPairs(ps)) == ps
  {
    AllGoodPairs(ps);
    ConfigPairsJoinGood(ps);
  }

  /** The configuration map built from the matches: a later pair overwrites
      an earlier one with the same key. */
  function ConfMap(ps: seq<(string, string)>): map<string, string> {
    if ps == [] then map[] else ConfMap(ps[..|ps| - 1])[ps[|ps| - 1].0 := ps[|ps| - 1].1]
  }

  /** A key is in the map exactly when some pair has it, and it maps to the
      value of the last such pair. */
  lemma {:induction false} ConfMapLast(ps: seq<(string, string)>, key: string)
    ensures key in ConfMap(ps) <==> exists i :: 0 <= i < |ps| && ps[i].0 == key
    ensures forall i ::
      (0 <= i < |ps| && ps[i].0 == key && (forall j :: i < j < |ps| ==> ps[j].0 != key)
       ==> key in ConfMap(ps) && ConfMap(ps)[key] == ps[i].1)
  {
    if ps != [] {
      var init := ps[..|ps| - 1];
      ConfMapLast(init, key);
      if ps[|ps| - 1].0 != key {
        assert forall i :: 0 <= i < |init| ==> init[i] == ps[i];
        if key in ConfMap(ps) {
          var i :| 0 <= i < |init| && init[i].0 == key;
          assert ps[i].0 == key;
        }
      }
    }
  }

  // ---------------------------------------------------------------------
  // Registered applets and set-up
  // ---------------------------------------------------------------------

  /** The applet kinds the program knows. */
  const Registered: set<string> := {"cpu", "date", "memory", "volume"}

  /** The flags each kind defines, in the order `VisitAll` visits them. */
  function FlagsOf(name: string): FlagSet {
    if name == "memory" then Memory.MemoryFlags
    else if name == "date" then FlagSet(["format", "icon"])
    else if name == "volume" then FlagSet(["icon"])
    else Cpu.CpuFlags
  }

  function UnknownApplet(name: string): string {
    "applet with name '" + name + "' does not exist"
  }

  /** The constructor registered for a kind: a fresh applet of that name
      with the kind's flag set and no values yet. */
  method Construct(name: string) returns (applet: StatusbarApplet.Applet)
    requires name in Registered
    ensures fresh(applet)
    ensures applet.name == name && applet.flags == Some(FlagsOf(name)) && applet.values == map[]
  {
    if name == "memory" {
      var mem;
      applet, mem := Memory.New();
    } else {
      var runner := new StatusbarApplet.Producer(name);
      applet := new StatusbarApplet.Applet.NewApplet(name, runner);
      applet.Flags(Some(FlagsOf(name)));
    }
  }

  /** The loop of `setup` that stores the matched pairs in the
      configuration map, in order. */
  method BuildConf(pairs: seq<(string, string)>) returns (conf: map<string, string>)
    ensures conf == ConfMap(pairs)
  {
    conf := map[];
    var j := 0;
    while j < |pairs|
      invariant j <= |pairs| && conf == ConfMap(pairs[..j])
    {
      assert pairs[..j + 1][..j] == pairs[..j];
      conf := conf[pairs[j].0 := pairs[j].1];
      j := j + 1;
    }
    assert pairs[..j] == pairs;
  }

  /** The name, flag set and flag values of an applet. */
  datatype Shape = Shape(name: string, flags: Option<FlagSet>, values: map<string, string>)

  function ShapeOf(applet: StatusbarApplet.Applet): Shape
    reads applet
  {
    Shape(applet.name, applet.flags, applet.values)
  }

  /** What `setup` makes of one description: a panic when it has no letter
      (the nil match is indexed), the error for an unknown name, or else an
      applet with the matched name, the kind's flag set and the values of
      the options. */
  function One(d: string): Exit<Result<Shape>> {
    match ParseDesc(d)
    case None => Panicked
    case Some(p) =>
      if p.name !in Registered then Returned(Failure(UnknownApplet(p.name)))
      else Returned(Success(Shape(p.name, Some(FlagsOf(p.name)), ConfMap(ConfigPairs(p.options)))))
  }

  // ---------------------------------------------------------------------
  // A loop that stops at the first element it cannot use
  // ---------------------------------------------------------------------

  /** The outcomes of `f` over `xs`, in order: all their values when every
      outcome is a value, or else the first outcome that is not. */
  function Collect<T, S>(xs: seq<T>, f: T -> Exit<Result<S>>): Exit<Result<seq<S>>> {
    if xs == [] then Returned(Success([]))
    else
      match f(xs[0])
      case Panicked => Panicked
      case Returned(Failure(e)) => Returned(Failure(e))
      case Returned(Success(v)) => Prepend([v], Collect(xs[1..], f))
  }

  /** `vs` ahead of the values of a successful outcome. */
  function Prepend<S>(vs: seq<S>, p: Exit<Result<seq<S>>>): Exit<Result<seq<S>>> {
    match p
    case Returned(Success(rest)) => Returned(Success(vs + rest))
    case _ => p
  }

  lemma PrependPrepend<S>(a: seq<S>, b: seq<S>, p: Exit<Result<seq<S>>>)
    ensures Prepend(a, Prepend(b, p)) == Prepend(a + b, p)
  {
    if p.Returned? && p.value.Success? {
      assert a + (b + p.value.value) == (a + b) + p.value.value;
    }
  }

  lemma PrependNothing<S>(p: Exit<Result<seq<S>>>)
    ensures Prepend([], p) == p
  {
    if p.Returned? && p.value.Success? {
      assert [] + p.value.value == p.value.value;
    }
  }

  /** The collected outcome from position `i` on, by the outcome at `i`. */
  lemma CollectAt<T, S>(xs: seq<T>, f: T -> Exit<Result<S>>, i: nat)
    requires i < |xs|
    ensures f(xs[i]).Panicked? ==> Collect(xs[i..], f) == Panicked
    ensures f(xs[i]).Returned? && f(xs[i]).value.Failure? ==>
      Collect(xs[i..], f) == Returned(Failure(f(xs[i]).value.error))
    ensures f(xs[i]).Returned? && f(xs[i]).value.Success? ==>
      Collect(xs[i..], f) == Prepend([f(xs[i]).value.value], Collect(xs[i + 1..], f))
  {
    assert xs[i..][0] == xs[i] && xs[i..][1..] == xs[i + 1..];
  }

  /** The position of the first element that `ok` refuses. */
  function FirstRefused<T>(xs: seq<T>, ok: T -> bool): (k: Option<nat>)
    ensures k.Some? ==> k.value < |xs|
  {
    if xs == [] then None
    else if !ok(xs[0]) then Some(0)
    else
      match FirstRefused(xs[1..], ok)
      case Some(j) => Some(j + 1)
      case None => None
  }

  /** The first refused element is refused and every element before it is
      accepted; when none is refused, all are accepted. */
  lemma {:induction false} FirstRefusedFirst<T>(xs: seq<T>, ok: T -> bool)
    ensures FirstRefused(xs, ok).None? ==> forall i :: 0 <= i < |xs| ==> ok(xs[i])
    ensures FirstRefused(xs, ok).Some? ==>
      !ok(xs[FirstRefused(xs, ok).value])
      && forall i :: 0 <= i < FirstRefused(xs, ok).value ==> ok(xs[i])
  {
    if xs != [] && ok(xs[0]) {
      FirstRefusedFirst(xs[1..], ok);
      forall i | 1 <= i < |xs|
        ensures xs[i] == xs[1..][i - 1]
      {
      }
    }
  }

  /** When `ok` accepts exactly the elements whose outcome is a value, the
      collected outcome is that of the first refused element; when none is
      refused, it holds one value per element, in order. */
  lemma {:induction false} CollectOutcome<T, S>(xs: seq<T>, f: T -> Exit<Result<S>>, ok: T -> bool)
    requires forall x :: ok(x) <==> f(x).Returned? && f(x).value.Success?
    ensures FirstRefused(xs, ok).Some? ==>
      var o := f(xs[FirstRefused(xs, ok).value]);
      (o.Panicked? && Collect(xs, f) == Panicked)
      || (o.Returned? && o.value.Failure? && Collect(xs, f) == Returned(Failure(o.value.error)))
    ensures FirstRefused(xs, ok).None? ==>
      Collect(xs, f).Returned? && Collect(xs, f).value.Success? && |Collect(xs, f).value.value| == |xs|
      && forall k :: 0 <= k < |xs| ==> f(xs[k]) == Returned(Success(Collect(xs, f).value.value[k]))
  {
    if xs != [] {
      CollectOutcome(xs[1..], f, ok);
      if ok(xs[0]) && FirstRefused(xs[1..], ok).None? {
        var v := f(xs[0]).value.value;
        var rest := Collect(xs[1..], f).value.value;
        assert Collect(xs, f) == Returned(Success([v] + rest));
        forall k | 0 <= k < |xs|
          ensures f(xs[k]) == Returned(Success(([v] + rest)[k]))
        {
          if k == 0 {
            assert ([v] + rest)[0] == v;
          } else {
            assert xs[k] == xs[1..][k - 1];
            assert ([v] + rest)[k] == rest[k - 1];
          }
        }
      }
    }
  }

  // ---------------------------------------------------------------------
  // The set-up loop
  // ---------------------------------------------------------------------

  /** What `setup` makes of the descriptions: the applets of all of them, in
      order, or the outcome of the first one that stops it. */
  function Plan(desc: seq<string>): Exit<Result<seq<Shape>>> {
    Collect(desc, One)
  }

  /** A description that lets the set-up go on. */
  predicate Accepted(d: string) {
    One(d).Returned? && One(d).value.Success?
  }

  /** A description is accepted exactly when it matches and names a
      registered kind; it panics exactly when it does not match. */
  lemma AcceptedParse(d: string)
    ensures Accepted(d) <==> ParseDesc(d).Some? && ParseDesc(d).value.name in Registered
    ensures One(d).Panicked? <==> ParseDesc(d).None?
  {
  }

  /** The position of the first description that stops the set-up: one
      that does not match, or one naming an unknown kind. */
  function Failing(desc: seq<string>): Option<nat> {
    FirstRefused(desc, Accepted)
  }

  /** The set-up stops at the first description that is not accepted, and
      only there. */
  lemma FailingFirst(desc: seq<string>)
    ensures Failing(desc).None? ==> forall i :: 0 <= i < |desc| ==> Accepted(desc[i])
    ensures Failing(desc).Some? ==>
      Failing(desc).value < |desc| && !Accepted(desc[Failing(desc).value])
      && forall i :: 0 <= i < Failing(desc).value ==> Accepted(desc[i])
  {
    FirstRefusedFirst(desc, Accepted);
  }

  /** The outcome of the set-up is that of the first description that is
      not accepted; when every description is accepted, it has one applet
      per description, in order. */
  lemma PlanOutcome(desc: seq<string>)
    ensures Failing(desc).Some? ==>
      var o := One(desc[Failing(desc).value]);
      (o.Panicked? && Plan(desc) == Panicked)
      || (o.Returned? && o.value.Failure? && Plan(desc) == Returned(Failure(o.value.error)))
    ensures Failing(desc).None? ==>
      Plan(desc).Returned? && Plan(desc).value.Success? && |Plan(desc).value.value| == |desc|
      && forall k :: 0 <= k < |desc| ==> One(desc[k]) == Returned(Success(Plan(desc).value.value[k]))
  {
    CollectOutcome(desc, One, Accepted);
  }

  /** One iteration of `setup`: the outcome of one description, with a fresh
      applet when it is accepted. */
  method SetUpOne(d: string) returns (r: Exit<Result<StatusbarApplet.Applet>>)
    ensures One(d).Panicked? ==> r == Panicked
    ensures One(d).Returned? && One(d).value.Failure? ==> r == Returned(Failure(One(d).value.error))
    ensures One(d).Returned? && One(d).value.Success? ==>
      r.Returned? && r.value.Success? && fresh(r.value.value) && ShapeOf(r.value.value) == One(d).value.value
  {
    var cmd := ParseDesc(d);
    if cmd.None? {
      return Panicked;
    }
    var name := cmd.value.name;
    if name !in Registered {
      return Returned(Failure(UnknownApplet(name)));
    }
    var conf := BuildConf(ConfigPairs(cmd.value.options));
    var applet := Construct(name);
    applet.Set(conf);
    r := Returned(Success(applet));
  }

  /** `setup`: the outcome `Plan` describes, with one fresh applet per
      description when none stops it. */
  method SetUp(desc: seq<string>) returns (r: Exit<Result<seq<StatusbarApplet.Applet>>>)
    ensures Plan(desc).Panicked? ==> r == Panicked
    ensures Plan(desc).Returned? && Plan(desc).value.Failure? ==> r == Returned(Failure(Plan(desc).value.error))
    ensures Plan(desc).Returned? && Plan(desc).value.Success? ==>
      r.Returned? && r.value.Success? && |r.value.value| == |Plan(desc).value.value|
      && (forall k :: 0 <= k < |r.value.value| ==>
            fresh(r.value.value[k]) && ShapeOf(r.value.value[k]) == Plan(desc).value.value[k])
      && Distinct(r.value.value)
  {
    var applets: seq<StatusbarApplet.Applet> := [];
    ghost var shapes: seq<Shape> := [];
    var i := 0;
    assert desc[0..] == desc;
    PrependNothing(Plan(desc));
    while i < |desc|
      invariant i <= |desc| && |applets| == i && |shapes| == i
      invariant forall k :: 0 <= k < i ==> fresh(applets[k])
      invariant forall k :: 0 <= k < i ==> ShapeOf(applets[k]) == shapes[k]
      invariant Distinct(applets)
      invariant Plan(desc) == Prepend(shapes, Plan(desc[i..]))
    {
      var one := SetUpOne(desc[i]);
      if one.Panicked? {
        assert Plan(desc) == Panicked by {
          CollectAt(desc, One, i);
        }
        return Panicked;
      }
      if one.value.Failure? {
        assert Plan(desc) == Returned(Failure(one.value.error)) by {
          CollectAt(desc, One, i);
        }
        return Returned(Failure(one.value.error));
      }
      var applet := one.value.value;
      assert Plan(desc) == Prepend(shapes + [ShapeOf(applet)], Plan(desc[i + 1..])) by {
        CollectAt(desc, One, i);
        PrependPrepend(shapes, [ShapeOf(applet)], Plan(desc[i + 1..]));
      }
      assert Distinct(applets + [applet]) by {
        assert applet !in applets;
        DistinctSnoc(applets, applet);
      }
      applets := applets + [applet];
      shapes := shapes + [ShapeOf(applet)];
      i := i + 1;
    }
    assert shapes + [] == shapes;
    r := Returned(Success(applets));
  }

  /** No object appears twice. */
  predicate Distinct<T(==)>(s: seq<T>) {
    forall k, l :: 0 <= k < l < |s| ==> s[k] != s[l]
  }

  lemma DistinctSnoc<T>(s: seq<T>, x: T)
    requires Distinct(s) && x !in s
    ensures Distinct(s + [x])
  {
  }

  // ---------------------------------------------------------------------
  // Output
  // ---------------------------------------------------------------------

  /** The first line of the i3bar protocol, declaring version 1 with click
      events. */
  const HeaderLine: string := "{\"version\": 1, \"click_events\": true}"

  /** What `main` prints before the first snapshot: the header line and the
      line opening the endless array. */
  const Header: string := HeaderLine + "\n[\n"

  /** The JSON of one slot: `null` for a slot nothing has filled yet. */
  function SlotJson(slot: Option<StatusbarApplet.Segment>): Json.Value {
    match slot
    case None => Json.Null
    case Some(seg) => StatusbarApplet.SegmentJson(seg)
  }

  /** The JSON values of a snapshot's slots, in order. */
  function Slots(snap: Statusbar.Snapshot): (vs: seq<Json.Value>)
    ensures |vs| == |snap|
    ensures forall i :: 0 <= i < |snap| ==> vs[i] == SlotJson(snap[i])
  {
    if snap == [] then [] else [SlotJson(snap[0])] + Slots(snap[1..])
  }

  /** The line printed for one snapshot: its JSON array followed by ','. */
  function SnapshotLine(snap: Statusbar.Snapshot): (line: string)
    ensures '\n' !in line
  {
    Json.RenderArray(Slots(snap)) + ","
  }

  /** The lines printed for the snapshots, in order. */
  function SnapshotLines(snaps: seq<Statusbar.Snapshot>): (ls: seq<string>)
    ensures |ls| == |snaps|
    ensures forall i :: 0 <= i < |snaps| ==> ls[i] == SnapshotLine(snaps[i])
  {
    if snaps == [] then [] else [SnapshotLine(snaps[0])] + SnapshotLines(snaps[1..])
  }

  /** Lines, each ended by a newline. */
  function Terminated(ls: seq<string>): string {
    if ls == [] then "" else ls[0] + "\n" + Terminated(ls[1..])
  }

  /** Everything `main` writes for the snapshots it receives, in order. */
  function Output(snaps: seq<Statusbar.Snapshot>): string {
    Header + Terminated(SnapshotLines(snaps))
  }

  lemma {:induction false} TerminatedSnoc(ls: seq<string>, l: string)
    ensures Terminated(ls + [l]) == Terminated(ls) + (l + "\n")
  {
    if ls == [] {
      assert [] + [l] == [l];
    } else {
      assert (ls + [l])[0] == ls[0] && (ls + [l])[1..] == ls[1..] + [l];
      TerminatedSnoc(ls[1..], l);
    }
  }

  lemma {:induction false} SnapshotLinesSnoc(snaps: seq<Statusbar.Snapshot>, s: Statusbar.Snapshot)
    ensures SnapshotLines(snaps + [s]) == SnapshotLines(snaps) + [SnapshotLine(s)]
  {
    if snaps == [] {
      assert [] + [s] == [s];
    } else {
      assert (snaps + [s])[0] == snaps[0] && (snaps + [s])[1..] == snaps[1..] + [s];
      SnapshotLinesSnoc(snaps[1..], s);
    }
  }

  /** Printing one more snapshot appends its line to the body. */
  lemma EmitStep(snaps: seq<Statusbar.Snapshot>, i: nat)
    requires i < |snaps|
    ensures Terminated(SnapshotLines(snaps[..i + 1]))
      == Terminated(SnapshotLines(snaps[..i])) + (SnapshotLine(snaps[i]) + "\n")
  {
    var prefix, s := snaps[..i], snaps[i];
    assert snaps[..i + 1] == prefix + [s];
    var ls, l := SnapshotLines(prefix), SnapshotLine(s);
    assert SnapshotLines(prefix + [s]) == ls + [l] by { SnapshotLinesSnoc(prefix, s); }
    TerminatedSnoc(ls, l);
  }

  /** The printing loop of `main`, over the snapshots received until it is
      halted. */
  method Emit(snaps: seq<Statusbar.Snapshot>) returns (out: string)
    ensures out == Output(snaps)
  {
    var body := "";
    var i := 0;
    while i < |snaps|
      invariant i <= |snaps| && body == Terminated(SnapshotLines(snaps[..i]))
    {
      var line := SnapshotLine(snaps[i]);
      EmitStep(snaps, i);
      body := body + (line + "\n");
      i := i + 1;
    }
    assert snaps[..i] == snaps;
    out := Header + body;
  }

  /** The lines of a text: the pieces between newlines. */
  function Lines(s: string): seq<string>
    decreases |s|
  {
    var k := Span(s, NotNewline);
    if k == |s| then [s] else [s[..k]] + Lines(s[k + 1..])
  }

  lemma LinesCons(a: string, b: string)
    requires '\n' !in a
    ensures Lines(a + "\n" + b) == [a] + Lines(b)
  {
    SpanPrefix(a, "\n" + b, NotNewline);
    assert a + "\n" + b == a + ("\n" + b);
    assert (a + "\n" + b)[..|a|] == a;
    assert (a + "\n" + b)[|a| + 1..] == b;
  }

  lemma {:induction false} LinesTerminated(ls: seq<string>)
    requires forall i :: 0 <= i < |ls| ==> '\n' !in ls[i]
    ensures Lines(Terminated(ls)) == ls + [""]
  {
    if ls == [] {
      assert Span("", NotNewline) == 0;
    } else {
      LinesCons(ls[0], Terminated(ls[1..]));
      LinesTerminated(ls[1..]);
      assert ls == [ls[0]] + ls[1..];
    }
  }

  /** The header splits into its two lines. */
  lemma HeaderLines(body: string)
    ensures Lines(Header + body) == [HeaderLine, "["] + Lines(body)
  {
    assert '\n' !in HeaderLine;
    assert Header + body == HeaderLine + "\n" + ("[" + "\n" + body);
    LinesCons(HeaderLine, "[" + "\n" + body);
    LinesCons("[", body);
  }

  /** The output is the header line, the line "[", then exactly one line per
      snapshot, in the order received, each a JSON array followed by ','. */
  lemma OutputLines(snaps: seq<Statusbar.Snapshot>)
    ensures Lines(Output(snaps)) == [HeaderLine, "["] + SnapshotLines(snaps) + [""]
  {
    var ls := SnapshotLines(snaps);
    HeaderLines(Terminated(ls));
    LinesTerminated(ls);
  }
}
