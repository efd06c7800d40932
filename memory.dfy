/** The memory applet of `memory/memory.go`: each run scans /proc/meminfo for
    the MemTotal, MemFree, Buffers and Cached lines (kB, reported in MiB),
    stops one line after the fourth match, and shows the share of memory in
    use. */
module Memory {
  import opened Wrappers
  import opened GoLib
  import StatusbarApplet

  /** The running state of the scan: the four values (MiB) and how many of
      the wanted lines have been matched. */
  datatype Tally = Tally(total: int, free: int, buffers: int, cached: int, seen: nat)

  const Blank: Tally := Tally(0, 0, 0, 0, 0)

  /** The flags of the memory applet, in the order `VisitAll` visits them. */
  const MemoryFlags: FlagSet := FlagSet(["icon", "interval"])

  const Limit: int := 0x40_0000_0000_0000

  /** Values a kB count divided by 1024 can take. */
  predicate Bounded(t: Tally) {
    -Limit <= t.total <= Limit && -Limit <= t.free <= Limit
    && -Limit <= t.buffers <= Limit && -Limit <= t.cached <= Limit
  }

  /** A 64-bit kB count in MiB, truncated as Go's division does. */
  function Mebibytes(kb: int): (m: int)
    requires IsInt64(kb)
    ensures -Limit <= m <= Limit
  {
    var q := Quo(kb, 1024);
    QuoRemainder(kb, 1024);
    assert Abs(kb - q * 1024) < 1024;
    q
  }

  /** One line of the scan: a line of fewer than two fields, or whose first
      field is none of the four labels, changes nothing; otherwise its second
      field (0 when it is not a number) in MiB is stored under the label and
      the line counts as seen. */
  function Absorb(t: Tally, line: string): (r: Tally)
    ensures r.seen == t.seen || r.seen == t.seen + 1
  {
    var fs := Fields(line);
    if |fs| < 2 then t else Store(t, fs[0], Mebibytes(Atoi(fs[1]).value))
  }

  /** The tally after a line labelled `key` whose count is `mib` MiB: the
      value is stored under one of the four labels, and any other label
      changes nothing. */
  function Store(t: Tally, key: string, mib: int): Tally {
    if key == "MemTotal:" then t.(total := mib, seen := t.seen + 1)
    else if key == "MemFree:" then t.(free := mib, seen := t.seen + 1)
    else if key == "Buffers:" then t.(buffers := mib, seen := t.seen + 1)
    else if key == "Cached:" then t.(cached := mib, seen := t.seen + 1)
    else t
  }

  /** The scan from `t` over the remaining lines: it stops at the first line
      read once four lines have been seen, and otherwise fails when the
      scanner ends in an error. */
  function ScanFrom(t: Tally, lines: seq<string>, err: bool): (r: Option<Tally>)
    requires t.seen <= 4
    ensures r.Some? ==> r.value.seen <= 4
    decreases lines
  {
    if lines == [] then (if err then None else Some(t))
    else if t.seen == 4 then Some(t)
    else ScanFrom(Absorb(t, lines[0]), lines[1..], err)
  }

  lemma StoreBounded(t: Tally, key: string, mib: int)
    requires Bounded(t) && -Limit <= mib <= Limit
    ensures Bounded(Store(t, key, mib))
  {
  }

  /** Every value the scan stores is a 64-bit kB count in MiB. */
  lemma {:induction false} ScanBounded(t: Tally, lines: seq<string>, err: bool)
    requires t.seen <= 4 && Bounded(t) && ScanFrom(t, lines, err).Some?
    ensures Bounded(ScanFrom(t, lines, err).value)
    decreases lines
  {
    if lines != [] && t.seen < 4 {
      var fs := Fields(lines[0]);
      if 2 <= |fs| {
        StoreBounded(t, fs[0], Mebibytes(Atoi(fs[1]).value));
      }
      ScanBounded(Absorb(t, lines[0]), lines[1..], err);
    }
  }

  /** The scan of a whole /proc/meminfo. */
  function MemScan(f: ScanInput): Option<Tally> {
    ScanFrom(Blank, f.lines, f.err)
  }

  /** Memory in use, in MiB, as `Run` computes it. */
  function Used(t: Tally): int {
    t.total - t.free - t.buffers - t.cached
  }

  /** The scanning loop of `Run`; the tally holds its four counters and
      `seen`, and `Store` is its `switch` on the label. */
  method ScanMeminfo(f: ScanInput) returns (r: Option<Tally>)
    ensures r == MemScan(f)
  {
    var t := Blank;
    var i := 0;
    while i < |f.lines|
      invariant i <= |f.lines| && t.seen <= 4
      invariant MemScan(f) == ScanFrom(t, f.lines[i..], f.err)
    {
      if t.seen == 4 {
        return Some(t);
      }
      ScanNext(t, f.lines[i..], f.err);
      assert f.lines[i..][1..] == f.lines[i + 1..];
      var fields := Fields(f.lines[i]);
      if 2 <= |fields| {
        var num := Atoi(fields[1]).value;
        t := Store(t, fields[0], Quo(num, 1024));
      }
      i := i + 1;
    }
    if f.err {
      return None;
    }
    r := Some(t);
  }

  /** Whatever the file holds, memory in use is a 64-bit integer: the
      subtraction in `Run` never overflows. */
  lemma UsedFits(f: ScanInput)
    requires MemScan(f).Some?
    ensures IsInt64(Used(MemScan(f).value))
    ensures MemScan(f).value.seen <= 4
  {
    assert Bounded(Blank);
    ScanBounded(Blank, f.lines, f.err);
  }

  /** A /proc/meminfo line: label, kB count, unit. */
  function MemLine(key: string, kb: int): string {
    JoinSpace([key, Itoa(kb), "kB"])
  }

  /** A /proc/meminfo line reads as its label and count. */
  lemma MemLineFields(key: string, kb: int)
    requires IsWord(key) && IsInt64(kb)
    ensures |Fields(MemLine(key, kb))| == 3
    ensures Fields(MemLine(key, kb))[0] == key
    ensures Atoi(Fields(MemLine(key, kb))[1]).value == kb
  {
    FieldsJoinSpace([key, Itoa(kb), "kB"]);
    AtoiItoa(kb);
  }

  lemma LabelsAreWords()
    ensures IsWord("MemTotal:") && IsWord("MemFree:") && IsWord("MemAvailable:")
    ensures IsWord("Buffers:") && IsWord("Cached:")
  {
  }

  /** What one /proc/meminfo line does to the tally. */
  lemma AbsorbMemLine(t: Tally, key: string, kb: int)
    requires IsWord(key) && IsInt64(kb)
    ensures Absorb(t, MemLine(key, kb)) == Store(t, key, Quo(kb, 1024))
  {
    MemLineFields(key, kb);
  }

  /** One /proc/meminfo line read before the fourth match. */
  lemma ScanMemLine(t: Tally, key: string, kb: int, tail: seq<string>, err: bool)
    requires t.seen < 4 && IsWord(key) && IsInt64(kb)
    ensures ScanFrom(t, [MemLine(key, kb)] + tail, err) == ScanFrom(Store(t, key, Quo(kb, 1024)), tail, err)
  {
    AbsorbMemLine(t, key, kb);
    ScanStep(t, MemLine(key, kb), tail, err);
  }

  /** The head of /proc/meminfo as the kernel writes it: MemTotal, MemFree,
      MemAvailable, Buffers, Cached. */
  function MemInfo(total: int, free: int, available: int, buffers: int, cached: int): seq<string> {
    [MemLine("MemTotal:", total), MemLine("MemFree:", free), MemLine("MemAvailable:", available),
     MemLine("Buffers:", buffers), MemLine("Cached:", cached)]
  }

  /** Scanning a /proc/meminfo that starts as the kernel writes it reads the
      four counts back in MiB and ignores MemAvailable, provided the scanner
      does not fail right after the Cached line. */
  lemma ReadMemInfo(total: int, free: int, available: int, buffers: int, cached: int,
                    rest: seq<string>, err: bool)
    requires IsInt64(total) && IsInt64(free) && IsInt64(available)
    requires IsInt64(buffers) && IsInt64(cached)
    requires rest != [] || !err
    ensures MemScan(ScanInput(MemInfo(total, free, available, buffers, cached) + rest, err))
      == Some(Tally(Quo(total, 1024), Quo(free, 1024), Quo(buffers, 1024), Quo(cached, 1024), 4))
  {
    var l1, l2, l3 := MemLine("MemTotal:", total), MemLine("MemFree:", free), MemLine("MemAvailable:", available);
    var l4, l5 := MemLine("Buffers:", buffers), MemLine("Cached:", cached);
    assert MemInfo(total, free, available, buffers, cached) + rest
      == [l1] + ([l2] + ([l3] + ([l4] + ([l5] + rest))));
    var t1 := Blank.(total := Quo(total, 1024), seen := 1);
    var t2 := t1.(free := Quo(free, 1024), seen := 2);
    var t4 := t2.(buffers := Quo(buffers, 1024), seen := 3);
    LabelsAreWords();
    ScanMemLine(Blank, "MemTotal:", total, [l2] + ([l3] + ([l4] + ([l5] + rest))), err);
    assert Store(Blank, "MemTotal:", Quo(total, 1024)) == t1;
    ScanMemLine(t1, "MemFree:", free, [l3] + ([l4] + ([l5] + rest)), err);
    assert Store(t1, "MemFree:", Quo(free, 1024)) == t2;
    ScanMemLine(t2, "MemAvailable:", available, [l4] + ([l5] + rest), err);
    assert Store(t2, "MemAvailable:", Quo(available, 1024)) == t2;
    ScanMemLine(t2, "Buffers:", buffers, [l5] + rest, err);
    assert Store(t2, "Buffers:", Quo(buffers, 1024)) == t4;
    ScanMemLine(t4, "Cached:", cached, rest, err);
  }

  /** One step of the scan before the fourth match. */
  lemma ScanStep(t: Tally, line: string, tail: seq<string>, err: bool)
    requires t.seen < 4
    ensures ScanFrom(t, [line] + tail, err) == ScanFrom(Absorb(t, line), tail, err)
  {
    assert ([line] + tail)[1..] == tail;
  }

  /** The scan before the fourth match takes the next line into account. */
  lemma ScanNext(t: Tally, lines: seq<string>, err: bool)
    requires t.seen < 4 && lines != []
    ensures ScanFrom(t, lines, err) == ScanFrom(Absorb(t, lines[0]), lines[1..], err)
  {
  }

  /** The memory applet: its flag values, its message and whether
      /proc/meminfo was opened. */
  class Memory {
    var interval: int
    var icon: string
    var msg: StatusbarApplet.Message
    var isOpen: bool

    constructor ()
      ensures interval == 5 && icon == ""
      ensures msg == StatusbarApplet.Message("", "") && !isOpen
    {
      interval := 5;
      icon := "";
      msg := StatusbarApplet.Message("", "");
      isOpen := false;
    }

    /** `Init`: open /proc/meminfo; `openErr` is the error that fails with. */
    method Init(openErr: Option<string>) returns (err: Option<string>)
      modifies this`isOpen
      ensures err == openErr && isOpen == openErr.None?
    {
      isOpen := openErr.None?;
      err := openErr;
    }

    /** `Run`: scan the file (from its start) and show the share in use;
        `percent` is the float computation `int(used / total * 100)`. Nothing
        is sent when the file was never opened or the scan fails. */
    method Run(f: ScanInput, percent: (int, int) -> int) returns (m: Option<StatusbarApplet.Message>)
      modifies this`msg
      ensures !isOpen || MemScan(f).None? ==> m == None && msg == old(msg)
      ensures isOpen && MemScan(f).Some? ==>
        msg == old(msg).(text := icon + " " + Itoa(percent(Used(MemScan(f).value), MemScan(f).value.total)) + "%")
        && m == Some(msg)
    {
      if !isOpen {
        return None;
      }
      var t := ScanMeminfo(f);
      if t.None? {
        return None;
      }
      var used := t.value.total - t.value.free - t.value.buffers - t.value.cached;
      assert used == Used(MemScan(f).value);
      var perc := percent(used, t.value.total);
      msg := msg.(text := icon + " " + Itoa(perc) + "%");
      m := Some(msg);
    }
  }

  /** `New`: a memory applet with default flags, wrapped as the status bar's
      applet "memory" with its flag set. */
  method New() returns (applet: StatusbarApplet.Applet, mem: Memory)
    ensures fresh(applet) && fresh(mem)
    ensures applet.name == "memory" && applet.runner == mem
    ensures applet.flags == Some(MemoryFlags) && applet.values == map[]
    ensures mem.interval == 5 && mem.icon == "" && !mem.isOpen
  {
    mem := new Memory();
    applet := new StatusbarApplet.Applet.NewApplet("memory", mem);
    applet.Flags(Some(MemoryFlags));
  }
}
