/** Splitting a `host:port` text the way Go's `net.SplitHostPort` accepts it:
    a host containing colons must be bracketed, brackets may appear only
    around the host, and the port is what follows the last colon. It is the
    reading side of the daemon address the client formats. */
module HostPort {
  import opened Results

  /** Index of the first occurrence of `c` in `s`, or -1 when there is none. */
  function FirstIndex(s: string, c: char): (i: int)
    ensures -1 <= i < |s|
    ensures i == -1 <==> c !in s
    ensures 0 <= i ==> s[i] == c && c !in s[..i]
    decreases |s|
  {
    if |s| == 0 then -1
    else if s[0] == c then 0
    else
      var j := FirstIndex(s[1..], c);
      if j < 0 then -1
      else
        assert s[..j + 1] == [s[0]] + s[1..][..j];
        j + 1
  }

  /** Index of the last occurrence of `c` in `s`, or -1 when there is none. */
  function LastIndex(s: string, c: char): (i: int)
    ensures -1 <= i < |s|
    ensures i == -1 <==> c !in s
    ensures 0 <= i ==> s[i] == c && c !in s[i + 1..]
    decreases |s|
  {
    if |s| == 0 then -1
    else if s[|s| - 1] == c then |s| - 1
    else
      var p := s[..|s| - 1];
      assert s == p + [s[|s| - 1]];
      LastIndex(p, c)
  }

  /** The first occurrence of `c` in `a + [c] + b` is the one after `a` when `a` has none. */
  lemma FirstIndexAfter(a: string, c: char, b: string)
    requires c !in a
    ensures FirstIndex(a + [c] + b, c) == |a|
  {
    assert (a + [c] + b)[|a|] == c;
  }

  /** The last occurrence of `c` in `a + [c] + b` is the one after `a` when `b` has none. */
  lemma LastIndexBefore(a: string, c: char, b: string)
    requires c !in b
    ensures LastIndex(a + [c] + b, c) == |a|
  {
    assert (a + [c] + b)[|a|] == c;
  }

  /** `net.SplitHostPort`: the host and port texts, or None when the text is rejected. */
  function Split(hostport: string): (r: Option<(string, string)>)
    ensures r.Some? ==> ':' !in r.value.1 && '[' !in r.value.0 && ']' !in r.value.0
  {
    var i := LastIndex(hostport, ':');
    if i < 0 then None
    else if hostport[0] == '[' then
      var end := FirstIndex(hostport, ']');
      if end < 0 || end + 1 != i then None
      else if '[' in hostport[1..] || ']' in hostport[end + 1..] then None
      else
        assert hostport[1..end] == hostport[1..][..end - 1];
        Some((hostport[1..end], hostport[i + 1..]))
    else
      var host := hostport[..i];
      if ':' in host || '[' in hostport || ']' in hostport then None
      else Some((host, hostport[i + 1..]))
  }

  /** A bracketed host followed by a port is split back into the two. */
  lemma SplitBracketed(host: string, port: string)
    requires '[' !in host && ']' !in host
    requires ':' !in port && '[' !in port && ']' !in port
    ensures Split("[" + host + "]:" + port) == Some((host, port))
  {
    var hp := "[" + host + "]:" + port;
    var end, colon := |host| + 1, |host| + 2;
    assert LastIndex(hp, ':') == colon by {
      assert hp == ("[" + host + "]") + [':'] + port;
      LastIndexBefore("[" + host + "]", ':', port);
    }
    assert FirstIndex(hp, ']') == end by {
      assert hp == ("[" + host) + [']'] + (":" + port);
      FirstIndexAfter("[" + host, ']', ":" + port);
    }
    assert '[' !in hp[1..] by {
      assert hp[1..] == host + "]:" + port;
    }
    assert ']' !in hp[end + 1..] by {
      assert hp[end + 1..] == ":" + port;
    }
    assert hp[0] == '[';
    assert hp[1..end] == host;
    assert hp[colon + 1..] == port;
    SplitAccepted(hp, end, colon);
  }

  /** The bracketed case of `Split` in terms of the positions of `]` and the last `:`. */
  lemma SplitAccepted(hp: string, end: int, colon: int)
    requires |hp| > 0 && hp[0] == '['
    requires LastIndex(hp, ':') == colon && FirstIndex(hp, ']') == end && end + 1 == colon
    requires '[' !in hp[1..] && ']' !in hp[end + 1..]
    ensures 1 <= end < colon < |hp|
    ensures Split(hp) == Some((hp[1..end], hp[colon + 1..]))
  {
  }

  /** A host without colons followed by a port is split back into the two. */
  lemma SplitPlain(host: string, port: string)
    requires ':' !in host && '[' !in host && ']' !in host
    requires ':' !in port && '[' !in port && ']' !in port
    ensures Split(host + ":" + port) == Some((host, port))
  {
    var hp := host + ":" + port;
    assert hp == host + [':'] + port;
    LastIndexBefore(host, ':', port);
    assert hp[..|host|] == host;
    assert hp[|host| + 1..] == port;
    if |host| > 0 {
      assert hp[0] == host[0];
    }
  }
}
