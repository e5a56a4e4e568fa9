/**
 * `AvailableInterfaces` (networkInterface.go): the status report of the
 * machine's network interfaces. On Linux each interface is pinged three
 * times and judged from the ping output; elsewhere the lines of
 * `ipconfig` are shown as they are.
 *
 * The interface list, each ping's output and the `ipconfig` output are
 * inputs. Strings are sequences of characters; Go indexes the ping output
 * by byte, which is the same for the ASCII text ping prints.
 */
module NetworkInterface {
  import opened Wrappers
  import opened Text

  /** `numPacketsToSend`. */
  const NumPacketsToSend := 3
  const Transmitted := "transmitted"
  /** The received count is read this many characters after "transmitted"
      (past "transmitted, "). */
  const ReceivedOffset := 13
  const Separator := "------------------"

  /** `strings.Index`: the first index, from `i` on, at which `sub`
      occurs in `s`, or -1. */
  function IndexFrom(s: string, sub: string, i: nat): (r: int)
    ensures r == -1 <==> forall j :: i <= j <= |s| ==> !OccursAt(s, sub, j)
    ensures r != -1 ==> i <= r <= |s| && OccursAt(s, sub, r)
    ensures r != -1 ==> forall j :: i <= j < r ==> !OccursAt(s, sub, j)
    decreases |s| + 1 - i
  {
    if i > |s| then -1
    else if OccursAt(s, sub, i) then i
    else IndexFrom(s, sub, i + 1)
  }

  function Index(s: string, sub: string): (r: int)
  {
    IndexFrom(s, sub, 0)
  }

  /** `strconv.Atoi` of a one-character string, its error ignored: the
      digit's value, or 0 for anything that is not a digit. */
  function DigitValue(c: char): (r: int)
    ensures 0 <= r <= 9
    ensures r > 0 <==> '1' <= c <= '9'
  {
    if '0' <= c <= '9' then c as int - '0' as int else 0
  }

  function TestingLine(name: string): string { "Testing " + name + "..." }
  function SendingLine(): string { "  Sending " + IntToString(NumPacketsToSend) + " packets" }
  function ReceivedLine(received: char): string { "  Received " + [received] + " packets" }
  function UpLine(name: string): string { "\n  " + name + " is UP." }
  function DownLine(name: string): string { "\n  " + name + " is DOWN." }

  /** The lines reported for one interface given its ping output; reading
      the received count past the end of the output panics. */
  function InterfaceReport(name: string, out: string): Panicking<seq<string>>
  {
    var pos := Index(out, Transmitted);
    if pos == -1 then
      Returns([TestingLine(name), SendingLine(), DownLine(name), Separator])
    else if pos + ReceivedOffset >= |out| then
      Panics
    else
      var c := out[pos + ReceivedOffset];
      Returns([TestingLine(name), SendingLine(), ReceivedLine(c),
               if DigitValue(c) > 0 then UpLine(name) else DownLine(name), Separator])
  }

  /** The whole Linux report: the interfaces' reports in order, or a
      panic at the first interface whose report panics. */
  function LinuxReport(names: seq<string>, outs: seq<string>): Panicking<seq<string>>
    requires |names| == |outs|
  {
    if |names| == 0 then Returns([])
    else
      match LinuxReport(names[..|names| - 1], outs[..|outs| - 1])
      case Panics => Panics
      case Returns(lines) =>
        match InterfaceReport(names[|names| - 1], outs[|outs| - 1])
        case Panics => Panics
        case Returns(more) => Returns(lines + more)
  }

  /** An interface is reported UP exactly when its ping output contains
      "transmitted" and the one character 13 places after its first
      occurrence is a digit from 1 to 9; without "transmitted" there is no
      "Received" line and it is DOWN. Every report starts with the
      "Testing" and "Sending" lines and ends with the separator. */
  lemma InterfaceStatus(name: string, out: string)
    ensures InterfaceReport(name, out).Returns? ==>
      var lines := InterfaceReport(name, out).value;
      && |lines| >= 4
      && lines[0] == TestingLine(name) && lines[1] == SendingLine()
      && lines[|lines| - 1] == Separator
      && (lines[|lines| - 2] == UpLine(name) <==>
            exists p :: 0 <= p < |out| - ReceivedOffset && OccursAt(out, Transmitted, p)
                        && (forall j :: 0 <= j < p ==> !OccursAt(out, Transmitted, j))
                        && '1' <= out[p + ReceivedOffset] <= '9')
    ensures (forall j :: 0 <= j <= |out| ==> !OccursAt(out, Transmitted, j)) ==>
      InterfaceReport(name, out) == Returns([TestingLine(name), SendingLine(), DownLine(name), Separator])
  {
    var pos := Index(out, Transmitted);
    assert UpLine(name) != DownLine(name) by {
      assert UpLine(name)[|UpLine(name)| - 3] == 'U';
      assert DownLine(name)[|UpLine(name)| - 3] == 'D';
    }
    if pos != -1 && pos + ReceivedOffset < |out| {
      forall p | 0 <= p < |out| - ReceivedOffset && OccursAt(out, Transmitted, p)
                 && (forall j :: 0 <= j < p ==> !OccursAt(out, Transmitted, j))
        ensures p == pos
      {
      }
    }
  }

  /** Only one character of the received count is read: ten or more
      packets show, and are judged by, the first digit alone. */
  lemma ReadsOneDigit(name: string, out: string, p: nat)
    requires OccursAt(out, Transmitted, p)
    requires forall j :: 0 <= j < p ==> !OccursAt(out, Transmitted, j)
    requires p + ReceivedOffset + 1 < |out|
    requires out[p + ReceivedOffset] == '1' && out[p + ReceivedOffset + 1] == '0'
    ensures InterfaceReport(name, out)
      == Returns([TestingLine(name), SendingLine(), ReceivedLine('1'), UpLine(name), Separator])
  {
    assert Index(out, Transmitted) == p;
  }

  lemma {:induction false} PanicPersists(names: seq<string>, outs: seq<string>, k: nat)
    requires |names| == |outs| && k <= |names|
    requires LinuxReport(names[..k], outs[..k]).Panics?
    ensures LinuxReport(names, outs).Panics?
    decreases |names| - k
  {
    if k < |names| {
      var n := names[..k + 1];
      var o := outs[..k + 1];
      assert n[..k] == names[..k] && o[..k] == outs[..k];
      assert LinuxReport(n, o).Panics?;
      PanicPersists(names, outs, k + 1);
    } else {
      assert names[..k] == names && outs[..k] == outs;
    }
  }

  /** One pass of the loop in `AvailableInterfaces`: the lines reported
      for one interface, with the `interfaceUp` flag. */
  method ReportInterface(name: string, out: string) returns (r: Panicking<seq<string>>)
    ensures r == InterfaceReport(name, out)
  {
    var lines := [TestingLine(name), SendingLine()];
    var interfaceUp := false;
    var pos := Index(out, Transmitted);
    if pos != -1 {
      if pos + ReceivedOffset >= |out| {
        return Panics;
      }
      var received := out[pos + ReceivedOffset];
      lines := lines + [ReceivedLine(received)];
      if DigitValue(received) > 0 {
        interfaceUp := true;
      }
    }
    if interfaceUp {
      lines := lines + [UpLine(name)];
    } else {
      lines := lines + [DownLine(name)];
    }
    lines := lines + [Separator];
    if pos == -1 {
      assert lines == [TestingLine(name), SendingLine(), DownLine(name), Separator];
    } else {
      assert lines == [TestingLine(name), SendingLine(), ReceivedLine(out[pos + ReceivedOffset]),
                       if DigitValue(out[pos + ReceivedOffset]) > 0 then UpLine(name) else DownLine(name),
                       Separator];
    }
    return Returns(lines);
  }

  /** The loop of `AvailableInterfaces` over the interfaces. */
  method ReportInterfaces(names: seq<string>, outs: seq<string>) returns (r: Panicking<seq<string>>)
    requires |names| == |outs|
    ensures r == LinuxReport(names, outs)
  {
    var lines: seq<string> := [];
    var k := 0;
    while k < |names|
      invariant 0 <= k <= |names|
      invariant LinuxReport(names[..k], outs[..k]) == Returns(lines)
    {
      assert names[..k + 1][..k] == names[..k] && outs[..k + 1][..k] == outs[..k];
      var more := ReportInterface(names[k], outs[k]);
      if more.Panics? {
        PanicPersists(names, outs, k + 1);
        return Panics;
      }
      lines := lines + more.value;
      k := k + 1;
    }
    assert names[..k] == names && outs[..k] == outs;
    return Returns(lines);
  }

  /** The non-Linux branch: one entry per "\n"-separated line of the
      `ipconfig` output. */
  method IpconfigLines(out: string) returns (lines: seq<string>)
    ensures lines == Split(out, '\n')
    ensures Join(lines, "\n") == out
  {
    var pieces := Split(out, '\n');
    lines := [];
    for k := 0 to |pieces|
      invariant lines == pieces[..k]
    {
      lines := lines + [pieces[k]];
    }
    assert lines == pieces;
    JoinSplit(out, '\n');
  }

  /** `AvailableInterfaces`: the error when the interfaces cannot be
      listed, the ping report on Linux, the `ipconfig` lines elsewhere. */
  method AvailableInterfaces(linux: bool, interfaces: Result<seq<string>>, pingOutputs: seq<string>,
                             ipconfig: string)
    returns (r: Panicking<Result<seq<string>>>)
    requires interfaces.Ok? ==> |pingOutputs| == |interfaces.value|
    ensures interfaces.Failure? ==> r == Returns(Failure(interfaces.error))
    ensures interfaces.Ok? && linux ==>
      match LinuxReport(interfaces.value, pingOutputs)
      case Panics => r.Panics?
      case Returns(lines) => r == Returns(Ok(lines))
    ensures interfaces.Ok? && !linux ==> r == Returns(Ok(Split(ipconfig, '\n')))
  {
    if interfaces.Failure? {
      return Returns(Failure(interfaces.error));
    }
    if linux {
      var report := ReportInterfaces(interfaces.value, pingOutputs);
      if report.Panics? {
        return Panics;
      }
      return Returns(Ok(report.value));
    }
    var lines := IpconfigLines(ipconfig);
    return Returns(Ok(lines));
  }
}
