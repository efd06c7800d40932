/** The records of `statusbar/applet.go`: the message a runner produces, the
    segment the status bar shows for it, and the applet that pairs a runner
    with its name, flag set and unformatted flag values. */
module StatusbarApplet {
  import opened Wrappers
  import opened GoLib
  import Json

  /** One update for a status-bar segment. */
  datatype Message = Message(text: string, short: string)

  /** A position in the status bar: the runner's type name, its 1-based
      instance number (as text), and the message it last produced. */
  datatype Segment = Segment(name: string, instance: string, message: Message)

  /** The first value stored under `key` in a JSON object's member list. */
  function Lookup(members: seq<(string, string)>, key: string): Option<string> {
    if members == [] then None
    else if members[0].0 == key then Some(members[0].1)
    else Lookup(members[1..], key)
  }

  /** Members whose keys differ from `key` do not affect its lookup. */
  lemma {:induction false} LookupSkip(pre: seq<(string, string)>, rest: seq<(string, string)>, key: string)
    requires forall k :: 0 <= k < |pre| ==> pre[k].0 != key
    ensures Lookup(pre + rest, key) == Lookup(rest, key)
  {
    if pre != [] {
      assert (pre + rest)[1..] == pre[1..] + rest;
      LookupSkip(pre[1..], rest, key);
    } else {
      assert pre + rest == rest;
    }
  }

  /** The object `encoding/json` writes for a segment: fields in declaration
      order, the embedded message's fields promoted in place, and
      `short_text` left out when it is empty (`omitempty`). */
  function SegmentJson(seg: Segment): (v: Json.Value)
    ensures v.Object?
    ensures Lookup(v.members, "name") == Some(seg.name)
    ensures Lookup(v.members, "instance") == Some(seg.instance)
    ensures Lookup(v.members, "full_text") == Some(seg.message.text)
    ensures Lookup(v.members, "short_text") == if seg.message.short == "" then None else Some(seg.message.short)
    ensures |v.members| == if seg.message.short == "" then 3 else 4
  {
    var ms := [("name", seg.name), ("instance", seg.instance), ("full_text", seg.message.text)]
      + (if seg.message.short == "" then [] else [("short_text", seg.message.short)]);
    var tail := if seg.message.short == "" then [] else [("short_text", seg.message.short)];
    assert ms[1..][1..][1..] == tail;
    assert Lookup(ms, "full_text") == Lookup(ms[1..][1..], "full_text") == Some(seg.message.text);
    assert Lookup(ms, "short_text") == Lookup(ms[1..], "short_text")
      == Lookup(ms[1..][1..], "short_text") == Lookup(tail, "short_text");
    Json.Object(ms)
  }

  /** A runner whose own code is not part of this model (the date and volume
      applets, and the constructor main.go expects from the cpu package). */
  class Producer {
    const kind: string

    constructor (kind: string)
      ensures this.kind == kind
    {
      this.kind := kind;
    }
  }

  /** A named runner together with its flag set and the unformatted values
      to assign to those flags. */
  class Applet {
    var name: string
    var runner: object
    var flags: Option<FlagSet>
    var values: map<string, string>

    /** `NewApplet`: the given name and runner, no flag set, no values. */
    constructor NewApplet(name: string, runner: object)
      ensures this.name == name && this.runner == runner
      ensures flags == None && values == map[]
    {
      this.name := name;
      this.runner := runner;
      this.flags := None;
      this.values := map[];
    }

    /** `Flags`: attach a flag set (possibly nil); nothing else changes. */
    method Flags(flags: Option<FlagSet>)
      modifies this`flags
      ensures this.flags == flags
      ensures name == old(name) && runner == old(runner) && values == old(values)
    {
      this.flags := flags;
    }

    /** `Set`: replace the value map wholesale; nothing else changes. */
    method Set(values: map<string, string>)
      modifies this`values
      ensures this.values == values
      ensures name == old(name) && runner == old(runner) && flags == old(flags)
    {
      this.values := values;
    }
  }
}
