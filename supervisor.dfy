/** The reconnect decision (index.js:197-211): after a status lookup of the game
    server, a session is created only when somebody is online; otherwise, or when
    the lookup fails, the lookup is tried again after ten seconds, forever. */
module Supervisor {
  import opened Options

  /** The outcome of the server status lookup: an error, or the reported occupant count. */
  datatype Probe = Failed | Answered(online: int)

  datatype Decision = Connect | RetryAfter(delay: nat)

  const RetryDelay: nat := 10000

  function Decide(p: Probe): (d: Decision)
    ensures d == Connect <==> p.Answered? && p.online > 0
    ensures d != Connect ==> d == RetryAfter(RetryDelay)
  {
    if p.Answered? && p.online > 0 then Connect else RetryAfter(RetryDelay)
  }

  /** The retry loop fed the outcomes of successive lookups, which it starts
      `RetryDelay` apart: the index of the lookup after which a session is created
      (every earlier one scheduled a retry), or `None` if none of them leads to one. */
  function FirstConnect(probes: seq<Probe>): (k: Option<nat>)
    ensures k.Some? ==> k.value < |probes| && Decide(probes[k.value]) == Connect
    ensures k.Some? ==> forall j :: 0 <= j < k.value ==> Decide(probes[j]) == RetryAfter(RetryDelay)
    ensures k.None? ==> forall j :: 0 <= j < |probes| ==> Decide(probes[j]) == RetryAfter(RetryDelay)
  {
    if probes == [] then None
    else if Decide(probes[0]) == Connect then Some(0)
    else
      match FirstConnect(probes[1..])
      case None => None
      case Some(k) => Some(k + 1)
  }
}
