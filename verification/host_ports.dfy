/** Serial port choice of `connect_serial` (pc_app/ambilight.py): an
    explicit port is used as given; otherwise the first port whose
    description names a known USB-serial adapter, else the first port, else
    none (the application then exits). Opening the port and the "Ada"
    handshake are I/O and are not modelled. */
module Ports {
  import opened Common

  /** One entry of `serial.tools.list_ports.comports()`. */
  datatype PortInfo = PortInfo(device: string, description: string)

  /** The substrings that identify an Arduino or a common USB-serial chip. */
  const Keywords: seq<string> := ["Arduino", "CH340", "USB-SERIAL", "USB Serial"]

  /** Python's `sub in s` on strings: `sub` occurs somewhere in `s`. */
  predicate Contains(s: string, sub: string)
  {
    exists i :: 0 <= i <= |s| && OccursAt(s, sub, i)
  }

  /** `sub` occurs in `s` starting at index `i`. */
  predicate OccursAt(s: string, sub: string, i: int)
  {
    0 <= i && i + |sub| <= |s| && s[i..i + |sub|] == sub
  }

  /** `any(x in p.description for x in [...])`. */
  predicate Recognised(p: PortInfo)
  {
    exists k :: 0 <= k < |Keywords| && Contains(p.description, Keywords[k])
  }

  /** Index of the first recognised port, or `|ports|` when there is none. */
  function FirstRecognised(ports: seq<PortInfo>): (i: nat)
    ensures i <= |ports|
    ensures i < |ports| ==> Recognised(ports[i])
    ensures forall j :: 0 <= j < i ==> !Recognised(ports[j])
  {
    if ports == [] then 0
    else if Recognised(ports[0]) then 0
    else
      var i := FirstRecognised(ports[1..]);
      assert forall j :: 1 <= j < i + 1 ==> ports[j] == ports[1..][j - 1];
      i + 1
  }

  /** The device chosen when no port was given. None means "No serial ports
      found!" and exit status 1, which happens exactly when the list is
      empty; a recognised port always wins over the first-port fallback. */
  function AutoDetect(ports: seq<PortInfo>): (r: Option<string>)
    ensures r.None? <==> ports == []
    ensures r.Some? ==> exists i :: 0 <= i < |ports| && r.value == ports[i].device
    ensures (exists i :: 0 <= i < |ports| && Recognised(ports[i])) ==>
      exists i :: 0 <= i < |ports| && Recognised(ports[i]) && r == Some(ports[i].device)
        && forall j :: 0 <= j < i ==> !Recognised(ports[j])
    ensures (forall i :: 0 <= i < |ports| ==> !Recognised(ports[i])) && ports != [] ==>
      r == Some(ports[0].device)
  {
    var i := FirstRecognised(ports);
    if i < |ports| then Some(ports[i].device)
    else if ports != [] then Some(ports[0].device)
    else None
  }

  /** The port selection of `connect_serial`, with its search loop. */
  method ChoosePort(port: Option<string>, ports: seq<PortInfo>) returns (r: Option<string>)
    ensures port.Some? ==> r == port
    ensures port.None? ==> r == AutoDetect(ports)
  {
    r := port;
    if r.None? {
      var i := 0;
      while i < |ports|
        invariant 0 <= i <= |ports|
        invariant r.None?
        invariant forall j :: 0 <= j < i ==> !Recognised(ports[j])
      {
        if Recognised(ports[i]) {
          r := Some(ports[i].device);
          assert FirstRecognised(ports) == i;
          return;
        }
        i := i + 1;
      }
      if |ports| > 0 {
        r := Some(ports[0].device);
      }
    }
  }

  /** A CH340 clone is found behind a port that pyserial could not
      describe ("n/a"), and is preferred over it. */
  lemma CloneIsFound()
    ensures AutoDetect([PortInfo("/dev/ttyS0", "n/a"), PortInfo("COM5", "USB-SERIAL CH340 (COM5)")])
      == Some("COM5")
  {
    var ports := [PortInfo("/dev/ttyS0", "n/a"), PortInfo("COM5", "USB-SERIAL CH340 (COM5)")];
    assert OccursAt(ports[1].description, Keywords[2], 0);
    assert Contains(ports[1].description, Keywords[2]);
    assert forall k :: 0 <= k < |Keywords| ==> |ports[0].description| < |Keywords[k]|;
  }
}
