/** The registry of `applet/applet.go`: applets register under a unique name
    (with an optional flag set for the configuration file), `Init` checks that
    every requested name is registered, initialises the applets in order and
    starts one worker per name, and each worker forwards its applet's non-nil
    messages as segments tagged with that name. */
module GranolaApplet {
  import opened Wrappers
  import opened GoLib
  import Json
  import StatusbarApplet

  /** One update for a status-bar segment. */
  datatype Message = Message(text: string, short: string)

  /** A segment: the embedded (possibly nil) message, then the name. */
  datatype Segment = Segment(message: Option<Message>, name: string)

  /** The object `encoding/json` writes for a segment: the fields of the
      embedded message first (all of them left out when it is nil, and
      `short_text` left out when empty), then `name`. */
  function SegmentJson(seg: Segment): (v: Json.Value)
    ensures v.Object?
    ensures StatusbarApplet.Lookup(v.members, "name") == Some(seg.name)
    ensures StatusbarApplet.Lookup(v.members, "full_text") ==
      if seg.message.None? then None else Some(seg.message.value.text)
    ensures StatusbarApplet.Lookup(v.members, "short_text") ==
      if seg.message.None? || seg.message.value.short == "" then None
      else Some(seg.message.value.short)
  {
    var text := if seg.message.None? then [] else [("full_text", seg.message.value.text)];
    var short := if seg.message.None? || seg.message.value.short == "" then []
      else [("short_text", seg.message.value.short)];
    var ms := text + short + [("name", seg.name)];
    StatusbarApplet.LookupSkip(text, short + [("name", seg.name)], "name");
    StatusbarApplet.LookupSkip(short, [("name", seg.name)], "name");
    StatusbarApplet.LookupSkip(text, short + [("name", seg.name)], "short_text");
    assert text + short + [("name", seg.name)] == text + (short + [("name", seg.name)]);
    Json.Object(ms)
  }

  /** `json.Marshal` of a segment. Every field is a string, so it never
      fails. */
  function Marshal(seg: Segment): Result<string> {
    Success(Json.Render(SegmentJson(seg)))
  }

  /** `Segment.String`: the marshalled text, or "" when marshalling fails,
      which it never does; the text is one line holding one JSON object. */
  function String(seg: Segment): (s: string)
    ensures s == Json.Render(SegmentJson(seg))
    ensures s != "" && s[0] == '{' && s[|s| - 1] == '}'
    ensures '\n' !in s
  {
    match Marshal(seg)
    case Success(buf) => buf
    case Failure(_) => ""
  }

  // ---------------------------------------------------------------------
  // Registration and start-up
  // ---------------------------------------------------------------------

  function DuplicateError(name: string): string {
    "applet '" + name + "' already registered, refusing to overwrite"
  }

  function MissingError(name: string): string {
    "requested applet '" + name + "' does not exist"
  }

  /** The position of the first requested name that is not registered. */
  function Missing(known: set<string>, names: seq<string>): (k: Option<nat>)
    ensures k.Some? ==>
      (k.value < |names| && names[k.value] !in known
       && forall j :: 0 <= j < k.value ==> names[j] in known)
    ensures k.None? ==> forall j :: 0 <= j < |names| ==> names[j] in known
  {
    if names == [] then None
    else if names[0] !in known then Some(0)
    else
      match Missing(known, names[1..])
      case Some(j) => Some(j + 1)
      case None => None
  }

  /** The outcome of `Init`: its error (if any), how many applets had their
      own `Init` called, and the names whose workers were started, in
      order. */
  datatype Launch = Launch(err: Option<string>, inits: nat, workers: seq<string>)

  /** The outcome of the applet `Init` calls of the requested names from
      position `i` on; `init(j)` is the error the `j`-th call returns. */
  function StartFrom(names: seq<string>, i: nat, init: nat -> Option<string>): Launch
    requires i <= |names|
    decreases |names| - i
  {
    if i == |names| then Launch(None, 0, [])
    else if init(i).Some? then Launch(init(i), 1, [])
    else
      var rest := StartFrom(names, i + 1, init);
      Launch(rest.err, rest.inits + 1, [names[i]] + rest.workers)
  }

  /** `Init` as a function of the registered names: an unknown name is
      refused before any applet is touched; otherwise the applets are
      initialised in order and the first error stops the start-up. */
  function Start(known: set<string>, names: seq<string>, init: nat -> Option<string>): Launch {
    match Missing(known, names)
    case Some(k) => Launch(Some(MissingError(names[k])), 0, [])
    case None => StartFrom(names, 0, init)
  }

  /** When every `Init` from `i` on succeeds, every worker starts, in the
      order requested. */
  lemma {:induction false} StartFromAll(names: seq<string>, i: nat, init: nat -> Option<string>)
    requires i <= |names|
    requires forall j :: i <= j < |names| ==> init(j).None?
    ensures StartFrom(names, i, init) == Launch(None, |names| - i, names[i..])
    decreases |names| - i
  {
    if i < |names| {
      StartFromAll(names, i + 1, init);
      assert [names[i]] + names[i + 1..] == names[i..];
    }
  }

  /** When the first failing `Init` from `i` on is the `k`-th, exactly the
      workers before it start and its error is the result. */
  lemma {:induction false} StartFromFails(names: seq<string>, i: nat, init: nat -> Option<string>, k: nat)
    requires i <= k < |names| && init(k).Some?
    requires forall j :: i <= j < k ==> init(j).None?
    ensures StartFrom(names, i, init) == Launch(init(k), k - i + 1, names[i..k])
    decreases k - i
  {
    if i < k {
      StartFromFails(names, i + 1, init, k);
      assert [names[i]] + names[i + 1..k] == names[i..k];
    }
  }

  /** An unknown name anywhere in the request means no applet is
      initialised and no worker starts, and the error names the first
      unknown name. */
  lemma StartRefusesUnknown(known: set<string>, names: seq<string>, init: nat -> Option<string>, u: nat)
    requires u < |names| && names[u] !in known
    ensures Start(known, names, init).inits == 0 && Start(known, names, init).workers == []
    ensures exists k ::
      (0 <= k <= u && names[k] !in known
       && Start(known, names, init).err == Some(MissingError(names[k])))
  {
    var k := Missing(known, names);
    assert k.Some? && k.value <= u;
  }

  /** A workers' channel, buffered to the number of requested applets. */
  datatype Channel = Channel(capacity: nat)

  /** The table of available applets, and the flag sets registered with the
      configuration file (`globalconf.Register`), in registration order. */
  class Registry<A> {
    var available: map<string, A>
    var configured: seq<(string, FlagSet)>

    constructor ()
      ensures available == map[] && configured == []
    {
      available := map[];
      configured := [];
    }

    /** `Register`: a name already taken is refused and nothing changes;
        otherwise the applet is stored under it and its flag set, when
        given, is registered with the configuration file. */
    method Register(name: string, applet: A, flags: Option<FlagSet>) returns (err: Option<string>)
      modifies this
      ensures name in old(available) ==>
        err == Some(DuplicateError(name)) && available == old(available) && configured == old(configured)
      ensures name !in old(available) ==>
        err == None && available == old(available)[name := applet]
        && configured == old(configured) + (if flags.Some? then [(name, flags.value)] else [])
    {
      if name in available {
        return Some(DuplicateError(name));
      }
      available := available[name := applet];
      if flags.Some? {
        configured := configured + [(name, flags.value)];
      }
      err := None;
    }

    /** `Init`: the requested names are checked first, then each applet's
        own `Init` runs in order (`init(j)` is the error the `j`-th returns)
        and its worker is started. On failure the channel is nil, but the
        workers already started keep running. */
    method Init(names: seq<string>, init: nat -> Option<string>)
      returns (r: Result<Channel>, inits: nat, workers: seq<string>)
      ensures Launch(if r.Failure? then Some(r.error) else None, inits, workers)
        == Start(available.Keys, names, init)
      ensures r.Success? ==> r.value == Channel(|names|)
    {
      var ln := Channel(|names|);
      var i := 0;
      while i < |names|
        invariant i <= |names|
        invariant Missing(available.Keys, names[..i]) == None
      {
        if names[i] !in available {
          assert Missing(available.Keys, names) == Some(i);
          return Failure(MissingError(names[i])), 0, [];
        }
        i := i + 1;
      }
      assert names[..i] == names;
      inits, workers := 0, [];
      i := 0;
      while i < |names|
        invariant i <= |names| && inits == i
        invariant StartFrom(names, 0, init) ==
          Launch(StartFrom(names, i, init).err, i + StartFrom(names, i, init).inits,
                 workers + StartFrom(names, i, init).workers)
      {
        var err := init(i);
        inits := inits + 1;
        if err.Some? {
          return Failure(err.value), inits, workers;
        }
        workers := workers + [names[i]];
        i := i + 1;
      }
      r := Success(ln);
    }
  }

  // ---------------------------------------------------------------------
  // The worker of one applet
  // ---------------------------------------------------------------------

  /** The messages of a run that are not nil, in order. */
  function Present(msgs: seq<Option<Message>>): seq<Message> {
    if msgs == [] then []
    else (if msgs[0].Some? then [msgs[0].value] else []) + Present(msgs[1..])
  }

  /** The segments a worker sends when its applet's `Run` returns `msgs`. */
  function Sent(name: string, msgs: seq<Option<Message>>): (segs: seq<Segment>) {
    if msgs == [] then []
    else (if msgs[0].Some? then [Segment(msgs[0], name)] else []) + Sent(name, msgs[1..])
  }

  /** Every segment sent carries the worker's name and a message, and the
      messages are exactly the non-nil results, in order. */
  lemma {:induction false} SentCarries(name: string, msgs: seq<Option<Message>>)
    ensures |Sent(name, msgs)| == |Present(msgs)|
    ensures forall k :: 0 <= k < |Sent(name, msgs)| ==>
      Sent(name, msgs)[k] == Segment(Some(Present(msgs)[k]), name)
  {
    if msgs != [] {
      SentCarries(name, msgs[1..]);
      if msgs[0].Some? {
        assert Sent(name, msgs) == [Segment(msgs[0], name)] + Sent(name, msgs[1..]);
        assert Present(msgs) == [msgs[0].value] + Present(msgs[1..]);
      } else {
        assert Sent(name, msgs) == Sent(name, msgs[1..]);
        assert Present(msgs) == Present(msgs[1..]);
      }
    }
  }

  lemma {:induction false} SentAppend(name: string, a: seq<Option<Message>>, b: seq<Option<Message>>)
    ensures Sent(name, a + b) == Sent(name, a) + Sent(name, b)
  {
    if a != [] {
      assert (a + b)[0] == a[0] && (a + b)[1..] == a[1..] + b;
      SentAppend(name, a[1..], b);
      var head := if a[0].Some? then [Segment(a[0], name)] else [];
      calc {
        Sent(name, a + b);
        head + Sent(name, a[1..] + b);
        head + (Sent(name, a[1..]) + Sent(name, b));
        (head + Sent(name, a[1..])) + Sent(name, b);
      }
    } else {
      assert a + b == b;
    }
  }

  /** The worker loop over the first `|msgs|` results of `Run`: its segment
      keeps the name it was given, takes each non-nil message and is sent. */
  method Worker(name: string, msgs: seq<Option<Message>>) returns (sent: seq<Segment>)
    ensures sent == Sent(name, msgs)
  {
    var seg := Segment(None, name);
    sent := [];
    var i := 0;
    while i < |msgs|
      invariant i <= |msgs| && seg.name == name
      invariant sent == Sent(name, msgs[..i])
    {
      SentAppend(name, msgs[..i], [msgs[i]]);
      assert msgs[..i + 1] == msgs[..i] + [msgs[i]];
      if msgs[i].Some? {
        seg := seg.(message := msgs[i]);
        sent := sent + [seg];
      }
      i := i + 1;
    }
    assert msgs[..i] == msgs;
  }
}
