/**
 * The proxy binding table behind `GET /proxy/<streamer>` (`stream_proxy` in
 * app/twitch_streamlink_proxy.py): the global dict `running_streams` maps a
 * streamer name to the local port its streamlink proxy was started on.
 *
 * The source reads the base port with `os.getenv("BASE_STREAMLINK_PORT", "8888")`,
 * which is a string, and then computes `BASE_STREAMLINK_PORT + len(running_streams)`:
 * in Python that addition raises `TypeError`. `ProxyTable` models the evidently
 * intended integer base; `ResolveAsWritten` models the code as it stands.
 */
module ProxySupervisor {
  import opened Text

  /** The reserved name of the playlist's refresh tile: it never binds a port. */
  const RefreshName: string := "timestream"

  const ForbiddenBody: string := "Update-Stream nicht verfügbar. Jellyfin-Scan wurde ausgelöst."

  /**
   * The HTTP answer: a 302 redirect to port `port` of the host the request
   * came in on, or a 403 with a plain-text body.
   */
  datatype Response = Redirect(scheme: string, hostname: string, port: nat) | Forbidden(body: string)
  {
    function Status(): int {
      if Redirect? then 302 else 403
    }

    /** The `Location` of a redirect: `f"{scheme}://{hostname}:{port}/"`. */
    function Location(): string
      requires Redirect?
    {
      scheme + "://" + hostname + ":" + NatToString(port) + "/"
    }
  }

  /** The redirect ends in `:<digits>/`, and those digits read back as the port. */
  lemma RedirectPortReadsBack(scheme: string, hostname: string, port: nat)
    ensures var url := Redirect(scheme, hostname, port).Location();
            && |url| == |scheme| + 3 + |hostname| + 1 + |NatToString(port)| + 1
            && url[..|scheme|] == scheme && url[|scheme|..|scheme| + 3] == "://"
            && url[|scheme| + 3 .. |scheme| + 3 + |hostname|] == hostname
            && url[|scheme| + 3 + |hostname|] == ':' && url[|url| - 1] == '/'
            && DigitsValue(url[|scheme| + 3 + |hostname| + 1 .. |url| - 1]) == port
  {
    var url := Redirect(scheme, hostname, port).Location();
    assert url[..|scheme|] == scheme;
    assert url[|scheme|..|scheme| + 3] == "://";
    assert url[|scheme| + 3 .. |scheme| + 3 + |hostname|] == hostname;
    assert url[|scheme| + 3 + |hostname| + 1 .. |url| - 1] == NatToString(port);
  }

  /** The ports in use are exactly `[base, base + n)`. */
  ghost predicate IsPortRange(ports: set<nat>, base: nat, n: nat) {
    forall p: nat :: p in ports <==> base <= p < base + n
  }

  /** One request for `name` against the table: an unseen name gets the next port. */
  function Bind(table: map<string, nat>, base: nat, name: string): map<string, nat> {
    if name in table then table else table[name := base + |table|]
  }

  /** The distinct names that have bound a port, in the order of their first request. */
  function FirstSeen(requests: seq<string>): (d: seq<string>)
    ensures RefreshName !in d
    ensures forall i, j :: 0 <= i < j < |d| ==> d[i] != d[j]
    ensures forall n :: n in d <==> n in requests && n != RefreshName
  {
    if requests == [] then []
    else
      var d := FirstSeen(requests[..|requests| - 1]);
      var n := requests[|requests| - 1];
      assert requests == requests[..|requests| - 1] + [n];
      if n == RefreshName || n in d then d else d + [n]
  }

  /** The table after a sequence of requests, starting from the empty dict. */
  function Replay(base: nat, requests: seq<string>): map<string, nat> {
    if requests == [] then map[]
    else
      var t := Replay(base, requests[..|requests| - 1]);
      var n := requests[|requests| - 1];
      if n == RefreshName then t else Bind(t, base, n)
  }

  /** One more request extends the replay by that request alone. */
  lemma ReplaySnoc(base: nat, requests: seq<string>, name: string)
    ensures name == RefreshName || name in Replay(base, requests) ==>
              Replay(base, requests + [name]) == Replay(base, requests)
    ensures name != RefreshName && name !in Replay(base, requests) ==>
              Replay(base, requests + [name]) == Replay(base, requests)[name := base + |Replay(base, requests)|]
  {
    var last := requests + [name];
    assert last[..|last| - 1] == requests;
  }

  /** The refresh name is never bound to a port. */
  lemma RefreshNeverBound(base: nat, requests: seq<string>)
    ensures RefreshName !in Replay(base, requests)
  {
    KthDistinctNameGetsKthPort(base, requests);
  }

  /** The k-th distinct name ever requested is bound to `base + k` (0-based), and only those names are bound. */
  lemma {:induction false} KthDistinctNameGetsKthPort(base: nat, requests: seq<string>)
    ensures forall n :: n in Replay(base, requests) <==> n in FirstSeen(requests)
    ensures |Replay(base, requests)| == |FirstSeen(requests)|
    ensures forall k :: 0 <= k < |FirstSeen(requests)| ==>
              Replay(base, requests)[FirstSeen(requests)[k]] == base + k
  {
    if requests != [] {
      var prefix, n := requests[..|requests| - 1], requests[|requests| - 1];
      KthDistinctNameGetsKthPort(base, prefix);
      var t, d := Replay(base, prefix), FirstSeen(prefix);
      assert Replay(base, requests) == if n == RefreshName then t else Bind(t, base, n);
      assert FirstSeen(requests) == if n == RefreshName || n in d then d else d + [n];
      if n != RefreshName && n !in d {
        var d' := d + [n];
        assert forall k :: 0 <= k < |d| ==> d'[k] == d[k];
        assert forall x :: x in d' <==> x in d || x == n;
      }
    }
  }

  /** No two names share a port, and the ports in use are exactly `[base, base + |table|)`. */
  lemma ReplayPortsAreDense(base: nat, requests: seq<string>)
    ensures forall n, m :: n in Replay(base, requests) && m in Replay(base, requests) && n != m ==>
              Replay(base, requests)[n] != Replay(base, requests)[m]
    ensures IsPortRange(Replay(base, requests).Values, base, |Replay(base, requests)|)
  {
    var t, d := Replay(base, requests), FirstSeen(requests);
    KthDistinctNameGetsKthPort(base, requests);
    forall n | n in t
      ensures exists k :: 0 <= k < |d| && d[k] == n && t[n] == base + k
    {
      assert n in d;
      var k :| 0 <= k < |d| && d[k] == n;
    }
    forall p: nat | base <= p < base + |t|
      ensures p in t.Values
    {
      var k := p - base;
      assert t[d[k]] == p;
    }
  }

  /**
   * The proxy supervisor: `running_streams`, the base port, and the number of
   * media-server scans it has triggered. `requested` is the history of names
   * asked for, from which the table is determined.
   */
  class ProxyTable {
    var runningStreams: map<string, nat>
    const basePort: nat
    var scans: nat
    ghost var requested: seq<string>

    ghost predicate Valid()
      reads this
    {
      runningStreams == Replay(basePort, requested)
    }

    constructor (basePort: nat)
      ensures Valid()
      ensures this.basePort == basePort && runningStreams == map[] && scans == 0 && requested == []
    {
      this.basePort := basePort;
      runningStreams := map[];
      scans := 0;
      requested := [];
    }

    /**
     * `stream_proxy(name)`: the refresh name triggers one scan and is refused
     * with 403; any other name is bound on first use (its proxy process being
     * started in the background) and redirected to its port.
     */
    method Resolve(name: string, scheme: string, hostname: string) returns (resp: Response)
      requires Valid()
      modifies this
      ensures Valid() && requested == old(requested) + [name]
      ensures RefreshName !in runningStreams
      ensures name == RefreshName ==>
                && resp == Forbidden(ForbiddenBody) && resp.Status() == 403
                && runningStreams == old(runningStreams) && scans == old(scans) + 1
      ensures name != RefreshName && name !in old(runningStreams) ==>
                && runningStreams == old(runningStreams)[name := basePort + |old(runningStreams)|]
                && scans == old(scans)
                && resp == Redirect(scheme, hostname, basePort + |old(runningStreams)|)
      ensures name != RefreshName && name in old(runningStreams) ==>
                && runningStreams == old(runningStreams) && scans == old(scans)
                && resp == Redirect(scheme, hostname, old(runningStreams)[name])
    {
      ghost var history := requested;
      var table := runningStreams;
      ReplaySnoc(basePort, history, name);
      RefreshNeverBound(basePort, history + [name]);
      requested := history + [name];
      if name == RefreshName {
        scans := scans + 1;
        resp := Forbidden(ForbiddenBody);
      } else if name !in table {
        var port := basePort + |table|;
        runningStreams := table[name := port];
        resp := Redirect(scheme, hostname, port);
      } else {
        resp := Redirect(scheme, hostname, table[name]);
      }
    }
  }

  /** What a request ends in when the base port is the configured string, as the source has it. */
  datatype Outcome = Answered(response: Response) | TypeError

  /**
   * `stream_proxy` as written: for an unseen name, line 77 adds an `int` to the
   * `str` from the environment, which raises before the binding is recorded.
   * So no call ever changes the table, and only names already bound (none,
   * from an empty start) are redirected, to their stored port. `TypeError`
   * comes exactly where the corrected `Bind` would have added a binding,
   * whatever base port it used. `baseSetting` is the `BASE_STREAMLINK_PORT`
   * string from the environment; it is never read, because whatever it
   * holds, adding an `int` to it raises.
   */
  function ResolveAsWritten(table: map<string, nat>, baseSetting: string, name: string,
                            scheme: string, hostname: string): (r: (Outcome, map<string, nat>))
    ensures r.1 == table
    ensures r.0 == TypeError <==> name != RefreshName && name !in table
    ensures forall base: nat :: r.0 == TypeError <==> name != RefreshName && Bind(table, base, name) != table
    ensures r.0.Answered? && name != RefreshName ==> r.0.response.Redirect? && r.0.response.port == table[name]
  {
    if name == RefreshName then (Answered(Forbidden(ForbiddenBody)), table)
    else if name !in table then (TypeError, table)
    else (Answered(Redirect(scheme, hostname, table[name])), table)
  }

  /** The table reached by a sequence of requests served by `ResolveAsWritten`. */
  function ReplayAsWritten(baseSetting: string, requests: seq<string>, scheme: string, hostname: string): map<string, nat> {
    if requests == [] then map[]
    else
      var t := ReplayAsWritten(baseSetting, requests[..|requests| - 1], scheme, hostname);
      ResolveAsWritten(t, baseSetting, requests[|requests| - 1], scheme, hostname).1
  }

  /** As written, the table never gains an entry, so every request for a streamer fails. */
  lemma {:induction false} AsWrittenNoStreamerIsEverServed(baseSetting: string, requests: seq<string>,
                                                          name: string, scheme: string, hostname: string)
    requires name != RefreshName
    ensures ReplayAsWritten(baseSetting, requests, scheme, hostname) == map[]
    ensures ResolveAsWritten(ReplayAsWritten(baseSetting, requests, scheme, hostname), baseSetting, name, scheme, hostname).0 == TypeError
  {
    if requests != [] {
      AsWrittenNoStreamerIsEverServed(baseSetting, requests[..|requests| - 1], name, scheme, hostname);
    }
  }
}
