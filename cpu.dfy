/** The CPU applet of `applet/cpu/cpu.go`: it reads the aggregate "cpu" line
    of /proc/stat, turns the difference between two readings into a usage
    percentage, appends the temperature of thermal zone 0 when there is one,
    and registers itself at package initialisation only when /proc/stat can
    be read.

    Two faults of the code as written are modelled next to the intended
    behaviour: the label "cpu" is parsed as a value, which shifts every
    column one place (`StatsAsWritten`, corrected in `StatsOf`), and `Run`
    dereferences the nil reading it gets when /proc/stat cannot be read
    (`RunAsWritten`, corrected in `CPU.Run`). */
module Cpu {
  import opened Wrappers
  import opened GoLib
  import GranolaApplet

  /** A reading of /proc/stat: total idle and total active time. */
  datatype Stats = Stats(idle: int, active: int)

  /** The temperature `temp` reports when there is none. */
  const NoReading: int := -274

  /** The flags of the CPU applet, in the order `VisitAll` visits them. */
  const CpuFlags: FlagSet := FlagSet(["icon-cpu", "icon-temp", "interval", "scale"])

  // ---------------------------------------------------------------------
  // Reading /proc/stat
  // ---------------------------------------------------------------------

  predicate IsCpuLine(line: string) {
    var fs := Fields(line);
    |fs| > 0 && fs[0] == "cpu"
  }

  /** What `strconv.Atoi` makes of each field, its errors ignored. */
  function Numbers(fs: seq<string>): (ns: seq<int>)
    ensures |ns| == |fs|
  {
    if fs == [] then [] else Numbers(fs[..|fs| - 1]) + [Atoi(fs[|fs| - 1]).value]
  }

  /** Each number is the value of the field in its place. */
  lemma {:induction false} NumbersAt(fs: seq<string>)
    ensures forall k :: 0 <= k < |fs| ==> Numbers(fs)[k] == Atoi(fs[k]).value
  {
    if fs != [] {
      var init := fs[..|fs| - 1];
      NumbersAt(init);
      var ns := Numbers(fs);
      assert ns == Numbers(init) + [Atoi(fs[|fs| - 1]).value];
      forall k | 0 <= k < |fs|
        ensures ns[k] == Atoi(fs[k]).value
      {
        if k < |init| {
          assert ns[k] == Numbers(init)[k] && fs[k] == init[k];
        }
      }
    }
  }

  /** The scan of /proc/stat: the numbers on the first line whose first field
      is "cpu" (the label included), and whether the scanner ends in an
      error, which it can only do when no such line was found. */
  function CpuValues(lines: seq<string>, err: bool): (seq<int>, bool) {
    if lines == [] then ([], err)
    else if IsCpuLine(lines[0]) then (Numbers(Fields(lines[0])), false)
    else CpuValues(lines[1..], err)
  }

  /** The loop of `stats` that converts the fields of the "cpu" line. */
  method Convert(fields: seq<string>) returns (s: seq<int>)
    ensures s == Numbers(fields)
  {
    s := [];
    var j := 0;
    while j < |fields|
      invariant j <= |fields| && s == Numbers(fields[..j])
    {
      assert fields[..j + 1][..j] == fields[..j];
      var num := Atoi(fields[j]).value;
      s := s + [num];
      j := j + 1;
    }
    assert fields[..j] == fields;
  }

  /** The scanning loop of `stats`. */
  method Scan(f: ScanInput) returns (s: seq<int>, err: bool)
    ensures (s, err) == CpuValues(f.lines, f.err)
  {
    s := [];
    var i := 0;
    while i < |f.lines|
      invariant i <= |f.lines| && s == []
      invariant CpuValues(f.lines, f.err) == CpuValues(f.lines[i..], f.err)
    {
      var fields := Fields(f.lines[i]);
      if |fields| > 0 && fields[0] == "cpu" {
        s := Convert(fields);
        return s, false;
      }
      assert f.lines[i..][1..] == f.lines[i + 1..];
      i := i + 1;
    }
    err := f.err;
  }

  /** `stats` as written: it indexes the numbers from the label on, so
      "idle" is system + idle and "active" is 0 + user + nice + iowait + irq
      + softirq; steal time is dropped. The sums wrap as Go's `int` does. */
  function StatsAsWritten(s: seq<int>, err: bool): Option<Stats> {
    if err || |s| < 8 then None
    else Some(Stats(Wrap64(s[3] + s[4]), Wrap64(s[0] + s[1] + s[2] + s[5] + s[6] + s[7])))
  }

  /** `stats` as intended: after the label come user, nice, system, idle,
      iowait, irq, softirq and steal; idle time is idle + iowait and active
      time is the other six. */
  function StatsOf(s: seq<int>, err: bool): Option<Stats> {
    if err || |s| < 9 then None
    else Some(Stats(Wrap64(s[4] + s[5]), Wrap64(s[1] + s[2] + s[3] + s[6] + s[7] + s[8])))
  }

  /** The reading of /proc/stat; `None` for a file that cannot be opened. */
  function Reading(stat: Option<ScanInput>): Option<Stats> {
    match stat
    case None => None
    case Some(f) => var (s, err) := CpuValues(f.lines, f.err); StatsOf(s, err)
  }

  function ReadingAsWritten(stat: Option<ScanInput>): Option<Stats> {
    match stat
    case None => None
    case Some(f) => var (s, err) := CpuValues(f.lines, f.err); StatsAsWritten(s, err)
  }

  /** `stats`, with the columns read as intended. */
  method ReadStats(stat: Option<ScanInput>) returns (now: Option<Stats>)
    ensures now == Reading(stat)
  {
    if stat.None? {
      return None;
    }
    var s, err := Scan(stat.value);
    if err || |s| < 9 {
      return None;
    }
    now := Some(Stats(Wrap64(s[4] + s[5]), Wrap64(s[1] + s[2] + s[3] + s[6] + s[7] + s[8])));
  }

  lemma {:induction false} CpuValuesSkip(before: seq<string>, rest: seq<string>, err: bool)
    requires forall k :: 0 <= k < |before| ==> !IsCpuLine(before[k])
    ensures CpuValues(before + rest, err) == CpuValues(rest, err)
  {
    if before != [] {
      assert (before + rest)[0] == before[0];
      assert (before + rest)[1..] == before[1..] + rest;
      CpuValuesSkip(before[1..], rest, err);
    } else {
      assert before + rest == rest;
    }
  }

  /** The words of a "cpu" line: the label, then each time in decimal. */
  function StatWords(times: seq<int>): seq<string> {
    ["cpu"] + Texts(times)
  }

  /** The times in decimal, each in its place. */
  function Texts(times: seq<int>): seq<string> {
    seq(|times|, k requires 0 <= k < |times| => Itoa(times[k]))
  }

  /** The "cpu" line of /proc/stat for the given times (user, nice, system,
      idle, iowait, irq, softirq, steal, and any later columns). */
  function StatLine(times: seq<int>): string {
    GoLib.JoinSpace(StatWords(times))
  }

  /** The label is not a number: `Atoi` gives 0 for it. */
  lemma AtoiLabel()
    ensures Atoi("cpu").value == 0
  {
    var body: string := "cpu";
    assert !IsDigit(body[0]);
  }

  lemma TextReadsBack(times: seq<int>, k: nat)
    requires k < |times| && IsInt64(times[k])
    ensures Atoi(Texts(times)[k]).value == times[k]
  {
    AtoiItoa(times[k]);
  }

  /** The label of a "cpu" line reads as 0. */
  lemma StatNumberOfLabel(times: seq<int>)
    ensures |Numbers(StatWords(times))| == |times| + 1
    ensures Numbers(StatWords(times))[0] == 0
  {
    var words := StatWords(times);
    NumbersAt(words);
    AtoiLabel();
    assert words[0] == "cpu";
  }

  /** The word in place `k + 1` of a "cpu" line reads as the time in place
      `k`. */
  lemma StatNumberAt(times: seq<int>, k: nat)
    requires k < |times| && IsInt64(times[k])
    ensures Numbers(StatWords(times))[k + 1] == times[k]
  {
    var words := StatWords(times);
    var text := Texts(times)[k];
    assert words[k + 1] == text by {
      assert words[1..] == Texts(times);
      assert words[k + 1] == words[1..][k];
    }
    NumbersAt(words);
    TextReadsBack(times, k);
  }

  /** Every 64-bit time on a "cpu" line reads back, after a 0 for the
      label. */
  lemma NumbersOfStatWords(times: seq<int>)
    requires forall k :: 0 <= k < |times| ==> IsInt64(times[k])
    ensures Numbers(StatWords(times)) == [0] + times
  {
    var ns := Numbers(StatWords(times));
    var expected := [0] + times;
    assert expected[0] == 0 && expected[1..] == times;
    StatNumberOfLabel(times);
    forall k | 0 <= k < |ns|
      ensures ns[k] == expected[k]
    {
      if k > 0 {
        StatNumberAt(times, k - 1);
        assert expected[k] == expected[1..][k - 1];
      }
    }
  }

  /** A line the scan takes for the "cpu" line, whose numbers are 0 for the
      label followed by `times`. */
  predicate HoldsTimes(line: string, times: seq<int>) {
    IsCpuLine(line) && Numbers(Fields(line)) == [0] + times
  }

  /** The "cpu" line the kernel writes for 64-bit times holds them. */
  lemma CpuLineOf(times: seq<int>)
    requires forall k :: 0 <= k < |times| ==> IsInt64(times[k])
    ensures HoldsTimes(StatLine(times), times)
  {
    var ws := StatWords(times);
    StatWordsAreWords(times);
    FieldsJoinSpace(ws);
    assert Fields(StatLine(times)) == ws && ws[0] == "cpu";
    NumbersOfStatWords(times);
  }

  lemma StatWordsAreWords(times: seq<int>)
    ensures forall i :: 0 <= i < |StatWords(times)| ==> IsWord(StatWords(times)[i])
  {
    var ws := StatWords(times);
    forall i | 0 <= i < |ws|
      ensures IsWord(ws[i])
    {
      if i > 0 {
        assert ws[i] == Itoa(times[i - 1]);
      }
    }
  }

  /** The scan stops at the first "cpu" line, whatever follows it. */
  lemma ScanFirstCpuLine(before: seq<string>, line: string, after: seq<string>, err: bool)
    requires forall k :: 0 <= k < |before| ==> !IsCpuLine(before[k])
    requires IsCpuLine(line)
    ensures CpuValues(before + [line] + after, err) == (Numbers(Fields(line)), false)
  {
    assert before + [line] + after == before + ([line] + after);
    CpuValuesSkip(before, [line] + after, err);
  }

  /** The scan finds the "cpu" line after any other lines. */
  lemma ScanStatLine(before: seq<string>, times: seq<int>, after: seq<string>, err: bool)
    requires forall k :: 0 <= k < |before| ==> !IsCpuLine(before[k])
    requires forall k :: 0 <= k < |times| ==> IsInt64(times[k])
    ensures CpuValues(before + [StatLine(times)] + after, err) == ([0] + times, false)
  {
    CpuLineOf(times);
    ScanFirstCpuLine(before, StatLine(times), after, err);
  }

  /** Idle time as intended: idle + iowait. */
  function IdleTime(t: seq<int>): int
    requires |t| >= 8
  {
    t[3] + t[4]
  }

  /** Active time as intended: user + nice + system + irq + softirq +
      steal. */
  function BusyTime(t: seq<int>): int
    requires |t| >= 8
  {
    t[0] + t[1] + t[2] + t[5] + t[6] + t[7]
  }

  /** Reading a /proc/stat whose first "cpu" line holds `times`: the
      intended sums, and the shifted sums the code as written computes. */
  lemma ReadTimes(before: seq<string>, line: string, times: seq<int>, after: seq<string>, err: bool)
    requires forall k :: 0 <= k < |before| ==> !IsCpuLine(before[k])
    requires |times| >= 8 && HoldsTimes(line, times)
    ensures Reading(Some(ScanInput(before + [line] + after, err))) ==
      Some(Stats(Wrap64(IdleTime(times)), Wrap64(BusyTime(times))))
    ensures ReadingAsWritten(Some(ScanInput(before + [line] + after, err))) ==
      Some(Stats(Wrap64(times[2] + times[3]),
                 Wrap64(times[0] + times[1] + times[4] + times[5] + times[6])))
  {
    ScanFirstCpuLine(before, line, after, err);
    StatsOfTimes(times);
  }

  /** The sums of the numbers of a "cpu" line, read as intended and as
      written. */
  lemma StatsOfTimes(times: seq<int>)
    requires |times| >= 8
    ensures StatsOf([0] + times, false) == Some(Stats(Wrap64(IdleTime(times)), Wrap64(BusyTime(times))))
    ensures StatsAsWritten([0] + times, false) ==
      Some(Stats(Wrap64(times[2] + times[3]),
                 Wrap64(times[0] + times[1] + times[4] + times[5] + times[6])))
  {
    var s := [0] + times;
    assert s[1..9] == times[..8];
  }

  /** Times that a "cpu" line of a running kernel can hold: the eight named
      counters are below 2^49, so none of the sums overflows, and any later
      column is a 64-bit integer. */
  predicate Counters(t: seq<int>) {
    |t| >= 8
    && (forall k :: 0 <= k < 8 ==> 0 <= t[k] < 0x2_0000_0000_0000)
    && (forall k :: 8 <= k < |t| ==> IsInt64(t[k]))
  }

  /** A /proc/stat of one "cpu" line: the intended sums, and the shifted sums
      of the code as written, none of them wrapped. */
  lemma ReadLine(line: string, t: seq<int>)
    requires HoldsTimes(line, t) && Counters(t)
    ensures Reading(Some(ScanInput([line], false))) == Some(Stats(IdleTime(t), BusyTime(t)))
    ensures ReadingAsWritten(Some(ScanInput([line], false)))
      == Some(Stats(t[2] + t[3], t[0] + t[1] + t[4] + t[5] + t[6]))
  {
    ReadTimes([], line, t, [], false);
    assert [] + [line] + [] == [line];
  }

  // ---------------------------------------------------------------------
  // Usage and temperature
  // ---------------------------------------------------------------------

  /** The usage percentage `Run` computes from two readings, with Go's 64-bit
      wrap-around on every operation and its truncating division; 0 when no
      time has passed. */
  function Usage(prev: Stats, now: Stats): (u: int)
    ensures IsInt64(u)
  {
    var idle := Wrap64(now.idle - prev.idle);
    var total := Wrap64(Wrap64(now.active + now.idle) - Wrap64(prev.active + prev.idle));
    if total != 0 then Wrap64(Quo(Wrap64(100 * Wrap64(total - idle)), total)) else 0
  }

  const Bound: int := 0x80_0000_0000_0000

  /** Two readings of counters that only grow and stay below 2^55. */
  predicate Monotone(prev: Stats, now: Stats) {
    0 <= prev.idle <= now.idle < Bound && 0 <= prev.active <= now.active < Bound
  }

  lemma PercentBound(a: int, t: int)
    requires 0 <= a <= t && t > 0
    ensures 0 <= 100 * a / t <= 100
  {
    assert 100 * a <= 100 * t;
    assert 100 * t / t == 100;
  }

  lemma WholeShare(d: int)
    requires d > 0
    ensures 100 * d / d == 100
  {
    var q := 100 * d / d;
    assert 100 * d == q * d + (100 * d) % d;
    assert 0 <= (100 * d) % d < d;
    assert (100 - q) * d == (100 * d) % d;
  }

  /** Between two monotone readings the usage is the share of the elapsed
      time that was active, in whole percent rounded down, so it lies between
      0 and 100. */
  lemma UsageShare(prev: Stats, now: Stats)
    requires Monotone(prev, now)
    ensures var active := now.active - prev.active;
      var elapsed := active + (now.idle - prev.idle);
      Usage(prev, now) == (if elapsed == 0 then 0 else 100 * active / elapsed)
    ensures 0 <= Usage(prev, now) <= 100
  {
    var active := now.active - prev.active;
    var elapsed := active + (now.idle - prev.idle);
    assert Wrap64(now.active + now.idle) - Wrap64(prev.active + prev.idle) == elapsed;
    if elapsed != 0 {
      assert Wrap64(elapsed - Wrap64(now.idle - prev.idle)) == active;
      assert 100 * active < 100 * Bound;
      QuoNonNegative(100 * active, elapsed);
      PercentBound(active, elapsed);
    }
  }

  /** The part of the thermal-zone file `Temp` reads: at most its first 32
      characters. */
  function ThermalHead(text: string): (head: string)
    ensures |head| <= 32 && head <= text
    ensures |text| >= 32 ==> |head| == 32
  {
    if |text| <= 32 then text else text[..32]
  }

  /** The temperature in degrees Celsius: the first 32 characters of the
      thermal-zone file (`None` when it cannot be opened), trimmed, read as
      millidegrees and truncated toward zero; `NoReading` when the file is
      missing or the text is not a 64-bit integer. */
  function Temp(thermal: Option<string>): (t: int)
    ensures thermal.None? ==> t == NoReading
  {
    if thermal.None? then NoReading
    else
      var num := Atoi(TrimSpace(ThermalHead(thermal.value)));
      if !num.ok then NoReading else Quo(num.value, 1000)
  }

  /** A file holding a 64-bit millidegree count, followed by a little white
      space, reads as that count divided by 1000. */
  lemma TempOfFile(milli: int, pad: string)
    requires IsInt64(milli) && AllSpace(pad) && |pad| <= 12
    ensures Temp(Some(Itoa(milli) + pad)) == Quo(milli, 1000)
  {
    ItoaLength(milli);
    var s := Itoa(milli) + pad;
    assert s == "" + Itoa(milli) + pad;
    TrimSpacePadded("", Itoa(milli), pad);
    AtoiItoa(milli);
  }

  /** A thermal-zone file whose first 32 characters, trimmed, are not an
      optionally signed run of digits (empty, a lone sign, a word, a
      fraction) has no reading. */
  lemma TempNotNumber(text: string)
    requires !SignedDigits(TrimSpace(ThermalHead(text)))
    ensures Temp(Some(text)) == NoReading
  {
    AtoiNotNumber(TrimSpace(ThermalHead(text)));
  }

  /** The text `Run` writes: the CPU icon and the usage, then, when there is
      a temperature, the temperature icon and the temperature in the chosen
      scale (`toFahrenheit` is the float conversion for scale "F"). */
  function CpuText(iconCpu: string, iconTemp: string, scale: string, usage: int, temp: int,
                   toFahrenheit: int -> int): string
  {
    iconCpu + " " + Itoa(usage) + "%"
    + (if temp > NoReading
       then " " + iconTemp + " " + Itoa(if scale == "F" then toFahrenheit(temp) else temp) + "°" + scale
       else "")
  }

  // ---------------------------------------------------------------------
  // The applet
  // ---------------------------------------------------------------------

  /** `Run` as written: a nil reading is dereferenced, and Go panics;
      otherwise the usage against the previous reading. */
  function RunAsWritten(prev: Stats, stat: Option<ScanInput>): Exit<int> {
    match ReadingAsWritten(stat)
    case None => Panicked
    case Some(now) => Returned(Usage(prev, now))
  }

  /** The CPU applet: its flag values, its message and its previous
      reading. */
  class CPU {
    var interval: int
    var scale: string
    var iconCpu: string
    var iconTemp: string
    var msg: GranolaApplet.Message
    var prev: Option<Stats>

    /** The applet with its flags at their defaults. */
    constructor ()
      ensures interval == 5 && scale == "C" && iconCpu == "" && iconTemp == ""
      ensures msg == GranolaApplet.Message("", "") && prev == None
    {
      interval := 5;
      scale := "C";
      iconCpu := "";
      iconTemp := "";
      msg := GranolaApplet.Message("", "");
      prev := None;
    }

    /** `Run`: the usage since the previous reading and, when there is one,
        the temperature; the reading becomes the previous one. When
        /proc/stat cannot be read nothing is sent and nothing changes. */
    method Run(stat: Option<ScanInput>, thermal: Option<string>, toFahrenheit: int -> int)
      returns (m: Option<GranolaApplet.Message>)
      requires prev.Some?
      modifies this`msg, this`prev
      ensures Reading(stat).None? ==> m == None && msg == old(msg) && prev == old(prev)
      ensures Reading(stat).Some? ==>
        prev == Reading(stat)
        && msg == old(msg).(text := CpuText(iconCpu, iconTemp, scale,
                                            Usage(old(prev).value, Reading(stat).value),
                                            Temp(thermal), toFahrenheit))
        && m == Some(msg)
    {
      var now := ReadStats(stat);
      if now.None? {
        return None;
      }
      var usage := Usage(prev.value, now.value);
      msg := msg.(text := iconCpu + " " + Itoa(usage) + "%");
      prev := now;
      var temp := Temp(thermal);
      if temp > NoReading {
        var degrees := if scale == "F" then toFahrenheit(temp) else temp;
        msg := msg.(text := msg.text + (" " + iconTemp + " " + Itoa(degrees) + "°" + scale));
      } else {
        assert msg.text + "" == msg.text;
      }
      assert msg.text == CpuText(iconCpu, iconTemp, scale, usage, temp, toFahrenheit);
      m := Some(msg);
    }
  }

  /** The package's `init`: a CPU applet with default flags takes a first
      reading; only when there is one is it registered as "cpu", with its
      flags. The registration's error is ignored. */
  method Load(reg: GranolaApplet.Registry<CPU>, stat: Option<ScanInput>) returns (cpu: CPU)
    modifies reg
    ensures fresh(cpu) && cpu.prev == Reading(stat)
    ensures cpu.interval == 5 && cpu.scale == "C" && cpu.iconCpu == "" && cpu.iconTemp == ""
    ensures Reading(stat).None? || "cpu" in old(reg.available) ==>
      reg.available == old(reg.available) && reg.configured == old(reg.configured)
    ensures Reading(stat).Some? && "cpu" !in old(reg.available) ==>
      reg.available == old(reg.available)["cpu" := cpu]
      && reg.configured == old(reg.configured) + [("cpu", CpuFlags)]
  {
    cpu := new CPU();
    var first := ReadStats(stat);
    cpu.prev := first;
    if first.None? {
      return;
    }
    var _ := reg.Register("cpu", cpu, Some(CpuFlags));
  }

  // ---------------------------------------------------------------------
  // The two faults
  // ---------------------------------------------------------------------

  /** Two "cpu" lines between which only system time has advanced, by `d`
      ticks (`CpuLineOf` gives the lines the kernel writes): as written, a
      machine that spent the whole interval in the kernel shows 0% usage,
      because system time is counted as idle. */
  lemma SystemTimeMisread(l1: string, l2: string, t: seq<int>, d: int)
    requires |t| == 8 && forall k :: 0 <= k < 8 ==> 0 <= t[k] < 0x1_0000_0000_0000
    requires 0 < d < 0x1_0000_0000_0000
    requires HoldsTimes(l1, t) && HoldsTimes(l2, t[2 := t[2] + d])
    ensures var before := ReadingAsWritten(Some(ScanInput([l1], false)));
      var after := ReadingAsWritten(Some(ScanInput([l2], false)));
      before.Some? && after.Some? && Usage(before.value, after.value) == 0
  {
    MisreadStats(l1, l2, t, d);
    IdleOnly(t[2] + t[3], t[0] + t[1] + t[4] + t[5] + t[6], d);
  }

  /** Between two readings that differ only in idle time, the usage is 0. */
  lemma IdleOnly(idle: int, active: int, d: int)
    requires 0 <= idle < 0x2_0000_0000_0000 && 0 <= active < 0x5_0000_0000_0000
    requires 0 < d < 0x1_0000_0000_0000
    ensures Usage(Stats(idle, active), Stats(idle + d, active)) == 0
  {
    var prev, now := Stats(idle, active), Stats(idle + d, active);
    assert Monotone(prev, now);
    UsageShare(prev, now);
    assert now.active - prev.active == 0 && 0 + (now.idle - prev.idle) == d;
    assert 100 * 0 / d == 0;
  }

  /** The readings, as written, of the two lines of `SystemTimeMisread`. */
  lemma MisreadStats(l1: string, l2: string, t: seq<int>, d: int)
    requires |t| == 8 && forall k :: 0 <= k < 8 ==> 0 <= t[k] < 0x1_0000_0000_0000
    requires 0 < d < 0x1_0000_0000_0000
    requires HoldsTimes(l1, t) && HoldsTimes(l2, t[2 := t[2] + d])
    ensures ReadingAsWritten(Some(ScanInput([l1], false)))
      == Some(Stats(t[2] + t[3], t[0] + t[1] + t[4] + t[5] + t[6]))
    ensures ReadingAsWritten(Some(ScanInput([l2], false)))
      == Some(Stats(t[2] + d + t[3], t[0] + t[1] + t[4] + t[5] + t[6]))
  {
    var u := t[2 := t[2] + d];
    assert Counters(t);
    assert Counters(u) by {
      forall k | 0 <= k < 8
        ensures 0 <= u[k] < 0x2_0000_0000_0000
      {
        assert u[k] == t[k] || u[k] == t[2] + d;
      }
    }
    ReadLine(l1, t);
    ReadLine(l2, u);
    assert u[0] == t[0] && u[1] == t[1] && u[2] == t[2] + d && u[3] == t[3];
    assert u[4] == t[4] && u[5] == t[5] && u[6] == t[6];
  }

  /** Read as intended, the same two lines show 100% usage. */
  lemma SystemTimeCounted(l1: string, l2: string, t: seq<int>, d: int)
    requires |t| == 8 && forall k :: 0 <= k < 8 ==> 0 <= t[k] < 0x1_0000_0000_0000
    requires 0 < d < 0x1_0000_0000_0000
    requires HoldsTimes(l1, t) && HoldsTimes(l2, t[2 := t[2] + d])
    ensures var before := Reading(Some(ScanInput([l1], false)));
      var after := Reading(Some(ScanInput([l2], false)));
      before.Some? && after.Some? && Usage(before.value, after.value) == 100
  {
    var u := t[2 := t[2] + d];
    assert Counters(t) && Counters(u);
    ReadLine(l1, t);
    ReadLine(l2, u);
    var before, after := Stats(IdleTime(t), BusyTime(t)), Stats(IdleTime(u), BusyTime(u));
    assert after.active - before.active == d && after.idle == before.idle;
    UsageShare(before, after);
    WholeShare(d);
  }

  /** Read as intended, the usage between two "cpu" lines is the share of
      the elapsed time spent in user, nice, system, irq, softirq and steal
      time, with idle and iowait time counted as idle. */
  lemma UsageOfTimes(l1: string, l2: string, t1: seq<int>, t2: seq<int>)
    requires Counters(t1) && Counters(t2)
    requires forall k :: 0 <= k < 8 ==> t1[k] <= t2[k]
    requires HoldsTimes(l1, t1) && HoldsTimes(l2, t2)
    ensures var active := BusyTime(t2) - BusyTime(t1);
      var elapsed := active + (IdleTime(t2) - IdleTime(t1));
      var before := Reading(Some(ScanInput([l1], false)));
      var after := Reading(Some(ScanInput([l2], false)));
      before.Some? && after.Some?
      && Usage(before.value, after.value) == (if elapsed == 0 then 0 else 100 * active / elapsed)
  {
    ReadLine(l1, t1);
    ReadLine(l2, t2);
    UsageShare(Stats(IdleTime(t1), BusyTime(t1)), Stats(IdleTime(t2), BusyTime(t2)));
  }

  /** As written, `Run` panics on a tick where /proc/stat cannot be opened;
      the corrected `CPU.Run` sends nothing on such a tick. */
  lemma UnreadableStatPanics(prev: Stats)
    ensures RunAsWritten(prev, None) == Panicked
    ensures ReadingAsWritten(None) == None && Reading(None) == None
  {
  }
}
