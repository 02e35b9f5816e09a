/**
 * The IPv6 helpers of utils.py: the public-address test, the parsing of the address
 * listing printed by `ip -6 addr show` (Linux) or `netsh interface ipv6 show addresses`
 * (Windows), and the addresses `configure_ipv6_addresses` generates.
 *
 * The command output and the random GUIDs are inputs; the commands themselves are returned
 * as argument lists instead of being run.
 */
module NetUtils {
  import opened Wrappers
  import opened PySemantics
  import opened Collections

  /** `is_public_ipv6`: a textual, case-sensitive prefix test. */
  predicate IsPublicIpv6(a: string) {
    !(StartsWith(a, "fe80") || StartsWith(a, "fc00") || StartsWith(a, "fd00"))
  }

  /** Only the three literal prefixes are rejected: upper-case link-local text and other unique-local blocks pass. */
  lemma PublicTestIsTextual()
    ensures !IsPublicIpv6("fe80::1") && !IsPublicIpv6("fc00::1") && !IsPublicIpv6("fd00::1")
    ensures IsPublicIpv6("FE80::1") && IsPublicIpv6("fd12::1") && IsPublicIpv6("2001:db8::1")
  {
    assert "FE80::1"[0] == 'F';
    assert "fd12::1"[1] == 'd' && "fd12::1"[2] == '1';
    assert "2001:db8::1"[0] == '2';
  }

  /** The text before the first '/' (`s.split("/")[0]`). */
  function BeforeSlash(s: string): (r: string)
    ensures '/' !in r
  {
    SplitSpec(s, '/');
    Split(s, '/')[0]
  }

  /**
   * The address a Linux listing line contributes: on a line mentioning both "inet6" and
   * "scope global", the second word cut at '/', if public. A line with fewer than two words
   * raises `IndexError`, which the loop skips.
   */
  function LinuxCandidate(line: string): Option<string> {
    var t := Strip(line);
    if Contains(t, "inet6") && Contains(t, "scope global") then
      var ws := Words(t);
      if |ws| < 2 then None
      else
        var c := BeforeSlash(ws[1]);
        if IsPublicIpv6(c) then Some(c) else None
    else None
  }

  predicate HasWindowsKeyword(t: string) {
    Contains(t, "公用") || Contains(t, "手动") || Contains(t, "Public") || Contains(t, "Manual")
  }

  /**
   * The address a Windows listing line contributes: on a line with one of the keywords and
   * a ':', the last word cut at '/', if it still holds a ':' and is public.
   */
  function WindowsCandidate(line: string): Option<string> {
    var t := Strip(line);
    if HasWindowsKeyword(t) && Contains(t, ":") then
      ContainsChar(t, ':');
      var ws := Words(t);
      var c := BeforeSlash(ws[|ws| - 1]);
      if Contains(c, ":") && IsPublicIpv6(c) then Some(c) else None
    else None
  }

  function Candidate(isWindows: bool, line: string): Option<string> {
    if isWindows then WindowsCandidate(line) else LinuxCandidate(line)
  }

  /** The addresses of all lines, in line order, duplicates included. */
  function Candidates(isWindows: bool, lines: seq<string>): (r: seq<string>)
    ensures |r| <= |lines|
  {
    if |lines| == 0 then []
    else
      var last := Candidate(isWindows, lines[|lines| - 1]);
      Candidates(isWindows, lines[..|lines| - 1]) + (if last.Some? then [last.value] else [])
  }

  /** What a line contributes is public and free of '/', and it comes from a line of the right kind. */
  lemma CandidateSpec(isWindows: bool, line: string)
    ensures Candidate(isWindows, line).Some? ==>
      var c := Candidate(isWindows, line).value;
      var t := Strip(line);
      && IsPublicIpv6(c)
      && '/' !in c
      && (isWindows ==> HasWindowsKeyword(t) && Contains(t, ":") && ':' in c)
      && (!isWindows ==> Contains(t, "inet6") && Contains(t, "scope global"))
  {
    if isWindows && Candidate(isWindows, line).Some? {
      ContainsChar(Candidate(isWindows, line).value, ':');
    }
  }

  /** Every collected address satisfies what `CandidateSpec` states of one line. */
  lemma {:induction false} CandidatesSpec(isWindows: bool, lines: seq<string>)
    ensures forall a :: a in Candidates(isWindows, lines) ==>
      IsPublicIpv6(a) && '/' !in a && (isWindows ==> ':' in a)
  {
    if |lines| > 0 {
      CandidatesSpec(isWindows, lines[..|lines| - 1]);
      CandidateSpec(isWindows, lines[|lines| - 1]);
    }
  }

  /**
   * `get_local_ipv6_addresses` on the captured command output: the addresses of the
   * qualifying lines, each once, in order of first appearance; no output, no addresses.
   */
  method GetLocalIpv6Addresses(isWindows: bool, output: string) returns (addrs: seq<string>)
    ensures output == "" ==> addrs == []
    ensures addrs == Dedup(Candidates(isWindows, SplitLines(output)))
    ensures Distinct(addrs)
    ensures forall a :: a in addrs ==> IsPublicIpv6(a) && '/' !in a && (isWindows ==> ':' in a)
  {
    if output == "" {
      return [];
    }
    var lines := SplitLines(output);
    var found: seq<string> := [];
    var i := 0;
    while i < |lines|
      invariant 0 <= i <= |lines|
      invariant found == Candidates(isWindows, lines[..i])
    {
      assert lines[..i + 1][..i] == lines[..i];
      var c := Candidate(isWindows, lines[i]);
      if c.Some? {
        found := found + [c.value];
      }
      i := i + 1;
    }
    assert lines[..i] == lines;
    CandidatesSpec(isWindows, lines);
    addrs := Dedup(found);
    DedupSpec(found);
  }

  /** `uuid.uuid4().hex`: 32 lower-case hexadecimal digits. */
  predicate IsGuidHex(g: string) {
    |g| == 32 && forall i :: 0 <= i < |g| ==> g[i] in "0123456789abcdef"
  }

  /** The four interface-identifier groups `g[0:4]`, `g[4:8]`, `g[8:12]`, `g[12:16]`. */
  function GuidGroups(g: string): (r: seq<string>)
    requires IsGuidHex(g)
    ensures |r| == 4 && forall i :: 0 <= i < 4 ==> |r[i]| == 4 && ':' !in r[i]
  {
    [g[0..4], g[4..8], g[8..12], g[12..16]]
  }

  /** `f"{prefix}:{g[:4]}:{g[4:8]}:{g[8:12]}:{g[12:16]}"`. */
  function GeneratedAddress(prefix: string, g: string): string
    requires IsGuidHex(g)
  {
    var q := GuidGroups(g);
    prefix + ":" + q[0] + ":" + q[1] + ":" + q[2] + ":" + q[3]
  }

  /** The ':'-fields of a generated address are the fields of the prefix followed by the four groups. */
  lemma GeneratedAddressFields(prefix: string, g: string)
    requires IsGuidHex(g)
    ensures Split(GeneratedAddress(prefix, g), ':') == Split(prefix, ':') + GuidGroups(g)
  {
    var q := GuidGroups(g);
    var tail := q[0] + ":" + q[1] + ":" + q[2] + ":" + q[3];
    assert GeneratedAddress(prefix, g) == prefix + [':'] + tail;
    SplitJoin(q, ':');
    assert Join(q, [':']) == tail by {
      assert Join(q[3..], [':']) == q[3];
      assert Join(q[2..], [':']) == q[2] + ":" + q[3];
      assert Join(q[1..], [':']) == q[1] + ":" + q[2] + ":" + q[3];
    }
    SplitAppend(prefix, ':', tail);
  }

  /** The command that adds one address to the adapter. */
  function AddAddressCommand(isWindows: bool, adapter: string, address: string): seq<string> {
    if isWindows then
      ["netsh", "interface", "ipv6", "add", "address", adapter, address, "store=active", "skipassource=true"]
    else
      ["ip", "-6", "addr", "add", address, "dev", adapter]
  }

  /** The commands of `n` consecutive additions, the k-th using the k-th GUID. */
  function AddCommands(isWindows: bool, adapter: string, prefix: string, guid: nat -> string, n: nat): seq<seq<string>>
    requires forall k :: IsGuidHex(guid(k))
  {
    if n == 0 then []
    else AddCommands(isWindows, adapter, prefix, guid, n - 1) + [AddAddressCommand(isWindows, adapter, GeneratedAddress(prefix, guid(n - 1)))]
  }

  /** The k-th of the commands adds the address built from the k-th GUID. */
  lemma {:induction false} AddCommandsSpec(isWindows: bool, adapter: string, prefix: string, guid: nat -> string, n: nat)
    requires forall k :: IsGuidHex(guid(k))
    ensures |AddCommands(isWindows, adapter, prefix, guid, n)| == n
    ensures forall k :: 0 <= k < n ==>
      AddCommands(isWindows, adapter, prefix, guid, n)[k] == AddAddressCommand(isWindows, adapter, GeneratedAddress(prefix, guid(k)))
  {
    if n > 0 {
      AddCommandsSpec(isWindows, adapter, prefix, guid, n - 1);
    }
  }

  /**
   * `configure_ipv6_addresses`: one command per iteration of `range(count)`, the k-th adding
   * the address built from the k-th fresh GUID.
   */
  method ConfigureIpv6Addresses(prefix: string, count: int, adapter: string, isWindows: bool, guid: nat -> string)
    returns (commands: seq<seq<string>>)
    requires forall k :: IsGuidHex(guid(k))
    ensures commands == AddCommands(isWindows, adapter, prefix, guid, if count < 0 then 0 else count)
    ensures |commands| == if count < 0 then 0 else count
    ensures forall k :: 0 <= k < |commands| ==>
      commands[k] == AddAddressCommand(isWindows, adapter, GeneratedAddress(prefix, guid(k)))
  {
    commands := [];
    var k := 0;
    while k < count
      invariant 0 <= k && (count >= 0 ==> k <= count) && (count < 0 ==> k == 0)
      invariant commands == AddCommands(isWindows, adapter, prefix, guid, k)
    {
      var address := GeneratedAddress(prefix, guid(k));
      commands := commands + [AddAddressCommand(isWindows, adapter, address)];
      k := k + 1;
    }
    AddCommandsSpec(isWindows, adapter, prefix, guid, k);
  }
}
