/** Host names and host patterns (grant.rs and plugin_network.rs, `valid_host` and `host_matches`). */
module Hosts {
  import opened Basics

  predicate IsHostChar(c: char) { 'a' <= c <= 'z' || '0' <= c <= '9' || c == '.' || c == '-' }

  predicate ValidDomain(s: string) {
    s != "" && '.' in s && s[0] != '.' && s[|s|-1] != '.' && '*' !in s && forall i :: 0 <= i < |s| ==> IsHostChar(s[i])
  }

  predicate IsWildcard(s: string) { "*." <= s }

  predicate ValidHostPattern(s: string) { ValidDomain(if IsWildcard(s) then s[2..] else s) }

  /** As the code decides it: on the length, the ending and the byte before the ending. */
  predicate HostMatches(pattern: string, host: string) {
    if !ValidHostPattern(pattern) || !ValidHostPattern(host) || IsWildcard(host) then false
    else if IsWildcard(pattern) then
      var suffix := pattern[2..];
      |host| > |suffix| && host[|host|-|suffix|..] == suffix && host[|host|-|suffix|-1] == '.'
    else pattern == host
  }

  /** Some name and a dot before the suffix. */
  ghost predicate Subdomain(host: string, suffix: string) {
    exists name :: name != "" && host == name + "." + suffix
  }

  lemma SubdomainByEnding(host: string, suffix: string)
    requires host != "" && host[0] != '.'
    ensures Subdomain(host, suffix) <==>
      |host| > |suffix| && host[|host|-|suffix|..] == suffix && host[|host|-|suffix|-1] == '.'
  {
    if Subdomain(host, suffix) {
      var name :| name != "" && host == name + "." + suffix;
      assert host[|name|] == '.';
    }
    if |host| > |suffix| && host[|host|-|suffix|..] == suffix && host[|host|-|suffix|-1] == '.' {
      var n := |host| - |suffix| - 1;
      assert host == host[..n] + "." + suffix && n > 0;
    }
  }

  /** A host matches a plain pattern by being it, and `*.domain` by being a proper subdomain of it. */
  lemma HostMatchesMeans(pattern: string, host: string)
    ensures HostMatches(pattern, host) <==>
      && ValidHostPattern(pattern) && ValidDomain(host)
      && if IsWildcard(pattern) then Subdomain(host, pattern[2..]) else host == pattern
  {
    if ValidDomain(host) {
      assert host[0] != '*' && !IsWildcard(host);
      SubdomainByEnding(host, if IsWildcard(pattern) then pattern[2..] else "");
    }
  }

  /** A wildcard never matches the bare domain, and a matched host never smuggles in a wildcard. */
  lemma WildcardIsProper(domain: string, host: string)
    requires HostMatches("*." + domain, host)
    ensures host != domain && |host| > |domain| + 1 && !IsWildcard(host)
  {
    assert ("*." + domain)[2..] == domain;
    assert host[0] != '.';
  }

  // ---------------------------------------------------------------- the stricter names of network requests

  const MAX_HOST_BYTES: nat := 253
  const MAX_LABEL_BYTES: nat := 63

  /** The labels between the dots. */
  function Labels(s: string): (r: seq<string>)
    ensures r != []
  {
    if s == "" then [""]
    else
      var rest := Labels(s[1..]);
      if s[0] == '.' then [""] + rest else [[s[0]] + rest[0]] + rest[1..]
  }

  predicate ValidLabel(l: string) { l != "" && |l| <= MAX_LABEL_BYTES && l[0] != '-' && l[|l|-1] != '-' }

  predicate ValidHost(s: string) {
    && s != "" && |s| <= MAX_HOST_BYTES && '.' in s && s[0] != '.' && s[|s|-1] != '.'
    && (forall i :: 0 <= i < |s| ==> IsHostChar(s[i]))
    && forall l :: l in Labels(s) ==> ValidLabel(l)
  }

  predicate HostAllowed(pattern: string, host: string) {
    if !ValidHost(if IsWildcard(pattern) then pattern[2..] else pattern) || !ValidHost(host) then false
    else if IsWildcard(pattern) then
      var suffix := pattern[2..];
      |host| > |suffix| && host[|host|-|suffix|..] == suffix && host[|host|-|suffix|-1] == '.'
    else pattern == host
  }

  /** The allow list of a fetch means the same as that of a grant, on the stricter names. */
  lemma HostAllowedMeans(pattern: string, host: string)
    ensures HostAllowed(pattern, host) <==>
      && ValidHost(if IsWildcard(pattern) then pattern[2..] else pattern) && ValidHost(host)
      && if IsWildcard(pattern) then Subdomain(host, pattern[2..]) else host == pattern
    ensures HostAllowed(pattern, host) ==> HostMatches(pattern, host)
  {
    if ValidHost(host) {
      SubdomainByEnding(host, if IsWildcard(pattern) then pattern[2..] else "");
      assert host[0] != '*';
    }
  }
}
