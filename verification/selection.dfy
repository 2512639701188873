/** Choosing the path to the verifier and extending the remote address with it
    (project/main.go, lines 107-116). */
module Selection {
  import opened Results
  import opened Snet

  /** The destination lies in another AS when the first path leaves the local AS.
      The length guard is the source's own; an empty path set is never remote. */
  predicate IsRemoteAS(paths: seq<Path>): (r: bool)
    ensures r ==> |paths| > 0
    ensures |paths| > 0 ==> (r <==> paths[0].source != paths[0].destination)
  {
    |paths| > 0 && paths[0].source != paths[0].destination
  }

  /** The remote address after path selection: for a remote AS its next hop and
      dataplane path are copied from the first path, nil or not; otherwise it is
      left as it was. */
  function ExtendRemote(remote: UDPAddr, paths: seq<Path>): (r: UDPAddr)
    ensures r.ia == remote.ia && r.host == remote.host
    ensures IsRemoteAS(paths) ==> r.nextHop == paths[0].nextHop && r.path == paths[0].dataplane
    ensures !IsRemoteAS(paths) ==> r == remote
  {
    if IsRemoteAS(paths) then
      remote.(nextHop := paths[0].nextHop, path := paths[0].dataplane)
    else
      remote
  }

  /** Starting from an address with neither next hop nor path, the extended
      address carries a next hop exactly when the first path crosses an AS
      boundary and has a non-nil next hop, and a dataplane path exactly when it
      crosses and has a non-nil dataplane path. */
  lemma ExtensionExactlyAcrossAS(remote: UDPAddr, paths: seq<Path>)
    requires remote.nextHop.None? && remote.path.None?
    requires |paths| > 0
    ensures ExtendRemote(remote, paths).nextHop.Some?
        <==> paths[0].source != paths[0].destination && paths[0].nextHop.Some?
    ensures ExtendRemote(remote, paths).path.Some?
        <==> paths[0].source != paths[0].destination && paths[0].dataplane.Some?
  {
  }

  /** Selection always takes the first path: paths after it never matter. */
  lemma OnlyFirstPathMatters(remote: UDPAddr, paths: seq<Path>, rest: seq<Path>)
    requires |paths| > 0
    ensures IsRemoteAS(paths) == IsRemoteAS([paths[0]] + rest)
    ensures ExtendRemote(remote, paths) == ExtendRemote(remote, [paths[0]] + rest)
  {
  }
}
