/** The redirecting fetch engine for plugins (plugin_network.rs). */
module Fetch {
  import opened Basics
  import Hosts

  const MAX_PLUGIN_NETWORK_URL_BYTES: nat := 2048
  const MAX_PLUGIN_NETWORK_RESPONSE_BYTES: nat := 1024 * 1024
  const MAX_PLUGIN_NETWORK_REDIRECTS: nat := 3
  const MAX_HEADER_BYTES: nat := 8192

  datatype Code =
    | InvalidUrl | HostNotAllowed | MethodNotAllowed | StaleProject | DnsFailed | NonPublicAddress | AuthorizationDenied
    | RedirectMissingLocation | TooManyRedirects | ResponseTooLarge | Timeout | TransportFailed

  datatype FetchError = FetchError(code: Code, uncertain: bool)

  /** A parsed URL, as far as a fetch looks at it. */
  datatype Url = Url(scheme: string, credentials: bool, fragment: bool, port: Option<nat>, host: Option<string>, hostIsIp: bool)

  /** The text of a URL: its size, whether it has control characters, and what it parses to. */
  datatype UrlText = UrlText(bytes: nat, control: bool, parsed: Option<Url>)

  /** An address; which ones are public is not part of this model. */
  datatype Ip = Ip(id: Id, isPublic: bool)

  datatype Request = Request(url: UrlText, verb: string, maxResponseBytes: nat, expectedRevision: nat)

  datatype Policy = Policy(allowedHosts: seq<string>, allowedVerbs: seq<string>, maxResponseBytes: nat, currentRevision: nat)

  /** `headersClean` says that the kept headers are short and free of control characters. */
  datatype Response = Response(status: nat, location: Option<UrlText>, bodyBytes: nat, headersClean: bool)

  datatype Fetched = Fetched(status: nat, origin: string, bytes: nat, redirects: nat)

  function WithUncertain(e: FetchError, uncertain: bool): FetchError { e.(uncertain := e.uncertain || uncertain) }

  predicate IsAllowed(host: string, allowed: seq<string>) { exists p :: p in allowed && Hosts.HostAllowed(p, host) }

  /** HTTPS on its own port to a named host, with nothing smuggled in beside it. */
  predicate IsPlainHttps(url: Url) {
    && url.scheme == "https" && !url.credentials && !url.fragment && url.port == Some(443)
    && url.host.Some? && !url.hostIsIp && Hosts.ValidHost(url.host.value)
  }

  function ValidateUrl(text: UrlText, allowed: seq<string>): (r: Result<string, Code>)
    ensures r.Ok? <==>
      && 0 < text.bytes <= MAX_PLUGIN_NETWORK_URL_BYTES && !text.control && text.parsed.Some? && IsPlainHttps(text.parsed.value)
      && IsAllowed(text.parsed.value.host.value, allowed)
    ensures r.Ok? ==> text.parsed.value.host == Some(r.value)
  {
    if text.bytes == 0 || text.bytes > MAX_PLUGIN_NETWORK_URL_BYTES || text.control || text.parsed.None? then Err(InvalidUrl)
    else
      var url := text.parsed.value;
      if url.scheme != "https" || url.credentials || url.fragment || url.port != Some(443) then Err(InvalidUrl)
      else if url.host.None? || url.hostIsIp || !Hosts.ValidHost(url.host.value) then Err(InvalidUrl)
      else if !IsAllowed(url.host.value, allowed) then Err(HostNotAllowed)
      else Ok(url.host.value)
  }

  /** The checks before anything leaves the machine. */
  function RequestFault(r: Request, p: Policy): Option<Code> {
    if r.expectedRevision != p.currentRevision then Some(StaleProject)
    else if r.maxResponseBytes == 0 || r.maxResponseBytes > p.maxResponseBytes || r.maxResponseBytes > MAX_PLUGIN_NETWORK_RESPONSE_BYTES
    then Some(ResponseTooLarge)
    else if r.verb !in p.allowedVerbs || (r.verb != "GET" && r.verb != "HEAD") then Some(MethodNotAllowed)
    else match ValidateUrl(r.url, p.allowedHosts)
      case Err(code) => Some(code)
      case Ok(_) => None
  }

  predicate IsRedirect(status: nat) { status == 301 || status == 302 || status == 303 || status == 307 || status == 308 }

  // ---------------------------------------------------------------- what happened on the wire

  datatype Event =
    | Authorized(host: string, bytes: nat)
    | Resolved(host: string, addresses: seq<Ip>)
    | Sent(url: UrlText, host: string, addresses: seq<Ip>)
    | Received(response: Response)

  /** The last thing that happened was this response, and the authoriser's word for it. */
  ghost predicate EndsWith(log: seq<Event>, response: Response, host: string, bytes: nat) {
    |log| >= 2 && log[|log|-2] == Received(response) && log[|log|-1] == Authorized(host, bytes)
  }

  /** The result shows the last response, from the host that it names. */
  ghost predicate ShowsLast(log: seq<Event>, f: Fetched, bytes: nat) {
    exists response :: EndsWith(log, response, f.origin, bytes) && f.status == response.status && f.bytes == response.bodyBytes && response.headersClean
  }

  ghost function Sends(log: seq<Event>): nat {
    if log == [] then 0 else Sends(log[..|log|-1]) + if log[|log|-1].Sent? then 1 else 0
  }

  predicate AllPublic(addresses: seq<Ip>) { addresses != [] && forall a :: a in addresses ==> a.isPublic }

  /** A send goes to an allowed host at public addresses, authorised before and again after they were resolved. */
  ghost predicate SentProperly(log: seq<Event>, i: int, allowed: seq<string>) {
    0 <= i < |log| && log[i].Sent? ==>
      && i >= 3 && IsAllowed(log[i].host, allowed) && AllPublic(log[i].addresses)
      && log[i-2] == Resolved(log[i].host, log[i].addresses)
      && log[i-3].Authorized? && log[i-3].host == log[i].host && log[i-1] == log[i-3]
  }

  ghost predicate Proper(log: seq<Event>, allowed: seq<string>) {
    forall i {:trigger SentProperly(log, i, allowed)} :: SentProperly(log, i, allowed)
  }

  /** How a URL and the location of a redirect make the next URL; which text results is not part of this model. */
  type Join = (UrlText, UrlText) -> Option<UrlText>

  /** The response sends the fetch on from one URL to the next. */
  predicate Redirects(join: Join, url: UrlText, response: Response, next: UrlText) {
    IsRedirect(response.status) && response.location.Some? && join(url, response.location.value) == Some(next)
  }

  /** What comes after this record: the URL asked for, or where the last response redirects to. */
  ghost predicate IsNext(join: Join, start: UrlText, log: seq<Event>, url: UrlText) {
    || (log == [] && url == start)
    || (|log| >= 6 && log[|log|-3].Sent? && log[|log|-2].Received? && Redirects(join, log[|log|-3].url, log[|log|-2].response, url))
  }

  ghost predicate SentNext(join: Join, start: UrlText, log: seq<Event>, i: int) {
    0 <= i < |log| && log[i].Sent? ==>
      i >= 3 && log[i].url.parsed.Some? && log[i].url.parsed.value.host == Some(log[i].host) && IsNext(join, start, log[..i-3], log[i].url)
  }

  /** The first send goes to the URL asked for, and every other one to where the response before it redirects. */
  ghost predicate Follows(join: Join, start: UrlText, log: seq<Event>) {
    forall i {:trigger SentNext(join, start, log, i)} :: SentNext(join, start, log, i)
  }

  /** One hop more, with at most one send, in its place. */
  ghost predicate HopExtends(before: seq<Event>, log: seq<Event>, url: UrlText, host: string) {
    && before <= log
    && forall i :: |before| <= i < |log| && log[i].Sent? ==> i == |before| + 3 && log[i].url == url && log[i].host == host
  }

  lemma SentInPlace(before: seq<Event>, ready: seq<Event>, url: UrlText, host: string, addresses: seq<Ip>)
    requires before <= ready && |ready| == |before| + 3 && forall i :: |before| <= i < |ready| ==> !ready[i].Sent?
    ensures HopExtends(before, ready + [Sent(url, host, addresses)], url, host)
  {
  }

  lemma FollowsExtended(join: Join, start: UrlText, before: seq<Event>, log: seq<Event>, url: UrlText, host: string)
    requires Follows(join, start, before) && HopExtends(before, log, url, host) && IsNext(join, start, before, url)
    requires url.parsed.Some? && url.parsed.value.host == Some(host)
    ensures Follows(join, start, log)
  {
    forall i ensures SentNext(join, start, log, i) {
      if 0 <= i < |log| && log[i].Sent? {
        if i < |before| {
          assert SentNext(join, start, before, i) && log[i] == before[i] && log[..i-3] == before[..i-3];
        } else {
          assert log[..i-3] == before;
        }
      }
    }
  }

  lemma ProperExtended(log: seq<Event>, more: seq<Event>, allowed: seq<string>)
    requires Proper(log, allowed) && forall i :: 0 <= i < |more| ==> !more[i].Sent?
    ensures Proper(log + more, allowed) && Sends(log + more) == Sends(log)
  {
    forall i ensures SentProperly(log + more, i, allowed) {
      assert SentProperly(log, i, allowed);
    }
    SendsOfQuiet(log, more);
  }

  /** Nothing was sent since. */
  ghost predicate Quiet(before: seq<Event>, log: seq<Event>, allowed: seq<string>) {
    && before <= log && Proper(log, allowed) && Sends(log) == Sends(before)
    && forall i :: |before| <= i < |log| ==> !log[i].Sent?
  }

  lemma QuietStep(before: seq<Event>, log: seq<Event>, e: Event, allowed: seq<string>)
    requires Quiet(before, log, allowed) && !e.Sent?
    ensures Quiet(before, log + [e], allowed)
  {
    ProperExtended(log, [e], allowed);
  }

  lemma QuietIsHop(before: seq<Event>, log: seq<Event>, url: UrlText, host: string, allowed: seq<string>)
    requires Quiet(before, log, allowed)
    ensures HopExtends(before, log, url, host) && Sends(log) == Sends(before)
  {
  }

  lemma {:induction false} SendsOfQuiet(log: seq<Event>, more: seq<Event>)
    requires forall i :: 0 <= i < |more| ==> !more[i].Sent?
    ensures Sends(log + more) == Sends(log)
  {
    if more == [] {
      assert log + more == log;
    } else {
      assert (log + more)[..|log + more|-1] == log + more[..|more|-1];
      SendsOfQuiet(log, more[..|more|-1]);
    }
  }

  // ---------------------------------------------------------------- the engine

  /** What an awaited call comes to; the deadline of the whole fetch can pass at any of them. */
  datatype Awaited<T> = Done(value: T) | Failed(error: FetchError) | TimedOut

  class NetworkFetchEngine {
    const join: Join
    var dispatched: bool
    ghost var log: seq<Event>
    /** Some authoriser or resolver called its own error uncertain. */
    ghost var tainted: bool

    ghost predicate Valid(allowed: seq<string>)
      reads this
    {
      Proper(log, allowed) && (dispatched <==> Sends(log) > 0)
    }

    /** An error is uncertain once something was sent, and before that only on an outside party's word. */
    ghost predicate Marked(e: FetchError)
      reads this
    {
      (dispatched ==> e.uncertain) && (e.uncertain ==> dispatched || tainted)
    }

    constructor (join: Join)
      ensures !dispatched && log == [] && !tainted && this.join == join
    {
      this.join := join;
      dispatched, log, tainted := false, [], false;
    }

    /** The trusted authoriser, asked before and after every step that matters. */
    method Authorize(host: string, bytes: nat) returns (fault: Option<FetchError>)
      modifies this`log, this`tainted
      ensures fault.None? ==> log == old(log) + [Authorized(host, bytes)] && tainted == old(tainted)
      ensures fault.Some? ==> log == old(log) && tainted == (old(tainted) || fault.value.uncertain)
    {
      fault := *;
      match fault {
        case None => log := log + [Authorized(host, bytes)];
        case Some(error) => tainted := tainted || error.uncertain;
      }
    }

    method Resolve(host: string) returns (r: Awaited<seq<Ip>>)
      modifies this`log, this`tainted
      ensures r.Done? ==> log == old(log) + [Resolved(host, r.value)] && tainted == old(tainted)
      ensures r.Failed? ==> log == old(log) && tainted == (old(tainted) || r.error.uncertain)
      ensures r.TimedOut? ==> log == old(log) && tainted == old(tainted)
    {
      r := *;
      match r {
        case Done(addresses) => log := log + [Resolved(host, addresses)];
        case Failed(error) => tainted := tainted || error.uncertain;
        case TimedOut =>
      }
    }

    method Send(url: UrlText, host: string, addresses: seq<Ip>) returns (r: Awaited<Response>)
      modifies this`log, this`dispatched
      ensures dispatched
      ensures log == if r.Done? then old(log) + [Sent(url, host, addresses)] + [Received(r.value)] else old(log) + [Sent(url, host, addresses)]
    {
      dispatched := true;
      log := log + [Sent(url, host, addresses)];
      r := *;
      if r.Done? {
        log := log + [Received(r.value)];
      }
    }

    /** Everything up to the transport: the addresses to connect to. */
    method Prepare(request: Request, host: string, ghost allowed: seq<string>) returns (r: Awaited<seq<Ip>>)
      requires Valid(allowed)
      modifies this`log, this`tainted
      ensures Valid(allowed) && dispatched == old(dispatched) && Quiet(old(log), log, allowed)
      ensures r.Failed? ==> Marked(r.error)
      ensures r.Done? ==>
        && AllPublic(r.value)
        && log == old(log) + [Authorized(host, request.maxResponseBytes)] + [Resolved(host, r.value)] + [Authorized(host, request.maxResponseBytes)]
    {
      var refused := Authorize(host, request.maxResponseBytes);
      if refused.Some? {
        return Failed(WithUncertain(refused.value, dispatched));
      }
      QuietStep(old(log), old(log), Authorized(host, request.maxResponseBytes), allowed);
      r := Look(host, old(log), allowed);
      if !r.Done? {
        return;
      }
      ghost var resolved := log;
      refused := Authorize(host, request.maxResponseBytes);
      if refused.Some? {
        return Failed(WithUncertain(refused.value, dispatched));
      }
      QuietStep(old(log), resolved, Authorized(host, request.maxResponseBytes), allowed);
    }

    /** The addresses of the host, all of them public. */
    method Look(host: string, ghost before: seq<Event>, ghost allowed: seq<string>) returns (r: Awaited<seq<Ip>>)
      requires Valid(allowed) && Quiet(before, log, allowed)
      modifies this`log, this`tainted
      ensures Valid(allowed) && Quiet(before, log, allowed)
      ensures r.Failed? ==> Marked(r.error)
      ensures r.Done? ==> AllPublic(r.value) && log == old(log) + [Resolved(host, r.value)]
    {
      var addresses := Resolve(host);
      match addresses {
        case TimedOut => return TimedOut;
        case Failed(error) => return Failed(WithUncertain(error, dispatched));
        case Done(found) =>
          QuietStep(before, old(log), Resolved(host, found), allowed);
          if !AllPublic(found) {
            return Failed(FetchError(NonPublicAddress, dispatched));
          }
          return Done(found);
      }
    }

    /** One hop: prepared, sent, and authorised once more when the response is in. */
    method Hop(request: Request, url: UrlText, host: string, ghost allowed: seq<string>) returns (r: Awaited<Response>)
      requires Valid(allowed) && IsAllowed(host, allowed)
      modifies this`log, this`tainted, this`dispatched
      ensures Valid(allowed) && Sends(log) <= Sends(old(log)) + 1 && (old(dispatched) ==> dispatched)
      ensures r.Failed? ==> Marked(r.error)
      ensures HopExtends(old(log), log, url, host)
      ensures r.Done? ==> dispatched && Sends(log) == Sends(old(log)) + 1
      ensures r.Done? ==> EndsWith(log, r.value, host, request.maxResponseBytes)
      ensures r.Done? ==> |log| >= 6 && log[|log|-3].Sent? && log[|log|-3].url == url
    {
      var prepared := Prepare(request, host, allowed);
      QuietIsHop(old(log), log, url, host, allowed);
      match prepared {
        case TimedOut => return TimedOut;
        case Failed(error) => return Failed(error);
        case Done(addresses) => r := Deliver(url, host, addresses, request.maxResponseBytes, old(log), allowed);
      }
    }

    /** The send itself, and what the authoriser says of the response. */
    method Deliver(url: UrlText, host: string, addresses: seq<Ip>, bytes: nat, ghost before: seq<Event>, ghost allowed: seq<string>)
      returns (r: Awaited<Response>)
      requires Valid(allowed) && IsAllowed(host, allowed) && AllPublic(addresses) && Sends(log) == Sends(before)
      requires log == before + [Authorized(host, bytes)] + [Resolved(host, addresses)] + [Authorized(host, bytes)]
      modifies this`log, this`tainted, this`dispatched
      ensures Valid(allowed) && dispatched && Sends(log) == Sends(before) + 1 && HopExtends(before, log, url, host)
      ensures r.Failed? ==> Marked(r.error)
      ensures r.Done? ==> EndsWith(log, r.value, host, bytes) && |log| >= 6 && log[|log|-3].Sent? && log[|log|-3].url == url
    {
      ghost var sent := log + [Sent(url, host, addresses)];
      SentExtended(log, url, host, addresses, bytes, allowed);
      SentInPlace(before, log, url, host, addresses);
      r := Send(url, host, addresses);
      match r {
        case TimedOut => return TimedOut;
        case Failed(error) => return Failed(WithUncertain(error, true));
        case Done(response) => r := Confirm(response, url, host, bytes, before, sent, allowed);
      }
    }

    /** The authoriser's word on a response that has come in. */
    method Confirm(response: Response, url: UrlText, host: string, bytes: nat,
      ghost before: seq<Event>, ghost sent: seq<Event>, ghost allowed: seq<string>)
      returns (r: Awaited<Response>)
      requires log == sent + [Received(response)] && dispatched && Proper(sent, allowed) && Sends(sent) > 0
      requires HopExtends(before, sent, url, host) && |sent| == |before| + 4 && sent[|before|+3].Sent?
      modifies this`log, this`tainted
      ensures Valid(allowed) && Sends(log) == Sends(sent) && HopExtends(before, log, url, host) && !r.TimedOut?
      ensures r.Failed? ==> Marked(r.error)
      ensures r.Done? ==> EndsWith(log, response, host, bytes) && r.value == response && |log| == |sent| + 2 && log[|log|-3] == sent[|sent|-1]
    {
      var refused := Authorize(host, bytes);
      match refused {
        case Some(error) =>
          ProperExtended(sent, [Received(response)], allowed);
          return Failed(WithUncertain(error, true));
        case None =>
          ProperExtended(sent, [Received(response), Authorized(host, bytes)], allowed);
          assert log == sent + [Received(response), Authorized(host, bytes)];
          return Done(response);
      }
    }

    /** Follows at most three redirects, each as carefully as the first request. */
    method FetchInner(request: Request, policy: Policy) returns (r: Awaited<Fetched>)
      requires log == [] && !dispatched
      modifies this
      ensures Valid(policy.allowedHosts) && Sends(log) <= MAX_PLUGIN_NETWORK_REDIRECTS + 1
      ensures Follows(join, request.url, log)
      ensures r.Failed? ==> Marked(r.error)
      ensures RequestFault(request, policy).Some? ==> r == Failed(FetchError(RequestFault(request, policy).value, false)) && log == []
      ensures r.Done? ==>
        && RequestFault(request, policy).None? && Sends(log) == r.value.redirects + 1
        && IsAllowed(r.value.origin, policy.allowedHosts) && ShowsLast(log, r.value, request.maxResponseBytes)
        && r.value.bytes <= request.maxResponseBytes <= MAX_PLUGIN_NETWORK_RESPONSE_BYTES && !IsRedirect(r.value.status)
    {
      var fault := RequestFault(request, policy);
      if fault.Some? {
        return Failed(FetchError(fault.value, false));
      }
      var current, redirects := request.url, 0;
      while true
        invariant Valid(policy.allowedHosts) && redirects <= MAX_PLUGIN_NETWORK_REDIRECTS && Sends(log) == redirects
        invariant Follows(join, request.url, log) && IsNext(join, request.url, log, current)
        decreases MAX_PLUGIN_NETWORK_REDIRECTS - redirects
      {
        var url := ValidateUrl(current, policy.allowedHosts);
        if url.Err? {
          return Failed(FetchError(url.error, dispatched));
        }
        var host := url.value;
        ghost var before := log;
        var hop := Hop(request, current, host, policy.allowedHosts);
        FollowsExtended(join, request.url, before, log, current, host);
        match hop {
          case TimedOut => return TimedOut;
          case Failed(error) => return Failed(error);
          case Done(response) =>
            if !(100 <= response.status <= 999) {
              return Failed(FetchError(TransportFailed, true));
            }
            if !IsRedirect(response.status) {
              if response.bodyBytes > request.maxResponseBytes {
                return Failed(FetchError(ResponseTooLarge, true));
              }
              if !response.headersClean {
                return Failed(FetchError(TransportFailed, true));
              }
              assert EndsWith(log, response, host, request.maxResponseBytes);
              return Done(Fetched(response.status, host, response.bodyBytes, redirects));
            }
            if redirects >= MAX_PLUGIN_NETWORK_REDIRECTS {
              return Failed(FetchError(TooManyRedirects, true));
            }
            if response.location.None? {
              return Failed(FetchError(RedirectMissingLocation, true));
            }
            if response.location.value.bytes > MAX_PLUGIN_NETWORK_URL_BYTES || response.location.value.control {
              return Failed(FetchError(InvalidUrl, true));
            }
            var joined := join(current, response.location.value);
            match joined {
              case None => return Failed(FetchError(InvalidUrl, true));
              case Some(text) => current := text;
            }
            redirects := redirects + 1;
        }
      }
    }

    /** The whole fetch under its deadline. */
    method Fetch(request: Request, policy: Policy) returns (r: Result<Fetched, FetchError>)
      requires log == [] && !dispatched
      modifies this
      ensures Proper(log, policy.allowedHosts) && Sends(log) <= MAX_PLUGIN_NETWORK_REDIRECTS + 1
      ensures Follows(join, request.url, log)
      ensures r.Err? ==> (Sends(log) > 0 ==> r.error.uncertain) && (r.error.uncertain ==> Sends(log) > 0 || tainted)
      ensures RequestFault(request, policy).Some? ==> r == Err(FetchError(RequestFault(request, policy).value, false)) && log == []
      ensures r.Ok? ==>
        && RequestFault(request, policy).None? && Sends(log) == r.value.redirects + 1
        && IsAllowed(r.value.origin, policy.allowedHosts) && ShowsLast(log, r.value, request.maxResponseBytes)
        && r.value.bytes <= request.maxResponseBytes <= MAX_PLUGIN_NETWORK_RESPONSE_BYTES && !IsRedirect(r.value.status)
    {
      var inner := FetchInner(request, policy);
      match inner {
        case Done(fetched) => return Ok(fetched);
        case Failed(error) => return Err(error);
        case TimedOut => return Err(FetchError(Timeout, dispatched));
      }
    }
  }

  lemma SentExtended(log: seq<Event>, url: UrlText, host: string, addresses: seq<Ip>, bytes: nat, allowed: seq<string>)
    requires Proper(log, allowed) && IsAllowed(host, allowed) && AllPublic(addresses)
    requires |log| >= 3 && log[|log|-3] == log[|log|-1] == Authorized(host, bytes) && log[|log|-2] == Resolved(host, addresses)
    ensures Proper(log + [Sent(url, host, addresses)], allowed) && Sends(log + [Sent(url, host, addresses)]) == Sends(log) + 1
  {
    var next := log + [Sent(url, host, addresses)];
    var n := |log|;
    assert next[..n] == log;
    forall i ensures SentProperly(next, i, allowed) {
      if i < n {
        StillProper(log, next, i, allowed);
      } else if i == n {
        LastIsProper(log, url, host, addresses, bytes, allowed);
      }
    }
  }

  lemma LastIsProper(log: seq<Event>, url: UrlText, host: string, addresses: seq<Ip>, bytes: nat, allowed: seq<string>)
    requires IsAllowed(host, allowed) && AllPublic(addresses)
    requires |log| >= 3 && log[|log|-3] == log[|log|-1] == Authorized(host, bytes) && log[|log|-2] == Resolved(host, addresses)
    ensures SentProperly(log + [Sent(url, host, addresses)], |log|, allowed)
  {
  }

  lemma StillProper(log: seq<Event>, next: seq<Event>, i: int, allowed: seq<string>)
    requires SentProperly(log, i, allowed) && i < |log| <= |next| && log == next[..|log|]
    ensures SentProperly(next, i, allowed)
  {
  }
}
