/** The address of the local SCION daemon: the endhost's own IP with the fixed
    daemon port, in the `host:port` text form the daemon service dials. */
module Daemon {
  import opened Results
  import Decimal
  import HostPort

  /** The port the SCION daemon listens on. */
  const DaemonPort: nat := 30255

  /** The daemon address for the local IP text: a literal containing a colon
      (IPv6) is wrapped in brackets, then `:` and the port in decimal follow. */
  function DaemonAddress(local: string): (addr: string)
    ensures |addr| >= |local| + 6
    ensures addr[|addr| - 6..] == ":30255"
  {
    DaemonPortText();
    var host := if ':' in local then "[" + local + "]" else local;
    host + ":" + Decimal.Show(DaemonPort)
  }

  /** The port text is the five digits 30255. */
  lemma DaemonPortText()
    ensures Decimal.Show(DaemonPort) == "30255"
  {
  }

  /** The daemon address is read back, by the `host:port` splitting rules,
      as the local IP text and a port text denoting the daemon port, for
      every IP literal (IP literals never contain brackets). */
  lemma {:induction false} DaemonAddressRoundTrip(local: string)
    requires '[' !in local && ']' !in local
    ensures HostPort.Split(DaemonAddress(local)) == Some((local, Decimal.Show(DaemonPort)))
    ensures Decimal.Value(Decimal.Show(DaemonPort)) == DaemonPort
  {
    var port := Decimal.Show(DaemonPort);
    Decimal.ValueOfShow(DaemonPort);
    assert ':' !in port && '[' !in port && ']' !in port by {
      DaemonPortText();
    }
    if ':' in local {
      assert DaemonAddress(local) == "[" + local + "]:" + port;
      HostPort.SplitBracketed(local, port);
    } else {
      assert DaemonAddress(local) == local + ":" + port;
      HostPort.SplitPlain(local, port);
    }
  }

  /** Whether brackets were added can be read off the address: the address
      starts with `[` exactly when the local IP text contains a colon. */
  lemma BracketsExactlyForIPv6(local: string)
    requires '[' !in local
    ensures |DaemonAddress(local)| > 0
    ensures DaemonAddress(local)[0] == '[' <==> ':' in local
  {
  }
}
