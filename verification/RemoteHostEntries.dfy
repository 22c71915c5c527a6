/**
 Saved entries for remote hosts (desktop/remote_hosts.go): the checks an entry must pass,
 and the key that says which connection it makes.  Keys are proved to tell connections
 apart.

 Only what the checks say of texts is modelled here; the store that applies them is
 RemoteHosts.
 */
module RemoteHostEntries {
  import opened Wrappers
  import opened Strings
  import opened RemoteHostNames

  const DIRECT := "direct"
  const CONFIG := "config"

  datatype Entry = Entry(
    id: string, mode: string, destination: string, port: int, alias: string, shown: string, configPath: string,
    clientId: string, leaseId: string, layoutRef: string)

  // ---- Entries ----

  /** Bytes of a text in UTF-8. */
  function Utf8Length(s: string): nat
  {
    if s == "" then 0
    else
      Utf8Length(s[1..])
      + if s[0] < '\U{80}' then 1 else if s[0] < '\U{800}' then 2 else if s[0] < '\U{10000}' then 3 else 4
  }

  predicate IsControl(c: char)
  {
    c < ' ' || c == '\U{7f}'
  }

  /** validateRemoteHostText. */
  predicate ValidText(value: string, maxBytes: nat, allowEmpty: bool)
  {
    if value == "" then allowEmpty
    else
      && Utf8Length(value) <= maxBytes && TrimSpace(value) == value
      && forall k :: 0 <= k < |value| ==> !IsControl(value[k])
  }

  predicate IsHex(s: string)
  {
    |s| == 64 && forall k :: 0 <= k < |s| ==> '0' <= s[k] <= '9' || 'a' <= s[k] <= 'f'
  }

  /** remoteHostIDPattern. */
  predicate IsId(id: string)
  {
    HasPrefix(id, "host_") && IsHex(id[5..])
  }

  /** remoteClientIDPattern. */
  predicate IsClientId(id: string)
  {
    HasPrefix(id, "desktop_") && IsHex(id[8..])
  }

  /** remoteHostAliasPattern. */
  predicate IsAlias(s: string)
  {
    && 0 < |s| <= 255 && IsWord(s[0])
    && forall k :: 0 <= k < |s| ==> IsWord(s[k]) || s[k] == '.' || s[k] == '_' || s[k] == '-'
  }

  /** An absolute path that cleaning leaves as it is. */
  predicate IsCleanPath(path: string)
  {
    && HasPrefix(path, "/")
    && (path == "/" || forall k :: 0 <= k < |Split(path[1..], '/')| ==> Split(path[1..], '/')[k] !in {"", ".", ".."})
  }

  /** validateRemoteSSHConfigPath. */
  predicate IsConfigPath(path: string)
  {
    path == "" || ((forall k :: 0 <= k < |path| ==> !IsControl(path[k])) && IsCleanPath(path))
  }

  predicate ValidDirect(e: Entry, parseIp: ParseIp)
  {
    && Parse(e.destination, parseIp).Some? && Parse(e.destination, parseIp).value.Destination() == e.destination
    && 1 <= e.port <= 65535 && e.alias == "" && e.configPath == ""
  }

  predicate ValidConfig(e: Entry)
  {
    IsAlias(e.alias) && IsConfigPath(e.configPath) && e.destination == "" && e.port == 0
  }

  /** validateRemoteHostEntry. */
  predicate ValidEntry(e: Entry, parseIp: ParseIp)
  {
    && IsId(e.id)
    && (if e.mode == DIRECT then ValidDirect(e, parseIp) else e.mode == CONFIG && ValidConfig(e))
    && ValidText(e.shown, 256, false) && IsClientId(e.clientId)
    && ValidText(e.leaseId, 512, true) && ValidText(e.layoutRef, 512, true)
  }

  // ---- Connection keys ----

  /** strconv.Itoa. */
  function Itoa(n: int): string
    decreases if n < 0 then 1 - n else n
  {
    if n < 0 then "-" + Itoa(-n)
    else if n < 10 then ['0' + n as char]
    else Itoa(n / 10) + ['0' + (n % 10) as char]
  }

  /** remoteHostConnectionKey. */
  function ConnectionKey(e: Entry): string
  {
    if e.mode == DIRECT then e.mode + "\0" + e.destination + "\0" + Itoa(e.port)
    else if e.mode == CONFIG then e.mode + "\0" + e.configPath + "\0" + e.alias
    else e.mode
  }

  /** Two entries connect to the same place in the same way. */
  predicate SameConnection(e: Entry, f: Entry)
  {
    e.mode == f.mode && if e.mode == DIRECT then e.destination == f.destination && e.port == f.port
                        else e.configPath == f.configPath && e.alias == f.alias
  }

  lemma {:induction false} ItoaIsInjective(m: nat, n: nat)
    requires Itoa(m) == Itoa(n)
    ensures m == n
  {
    ItoaLength(m);
    ItoaLength(n);
    if m >= 10 && n >= 10 {
      var a, b := Itoa(m / 10), Itoa(n / 10);
      assert Itoa(m)[..|a|] == a && Itoa(n)[..|b|] == b;
      ItoaIsInjective(m / 10, n / 10);
      assert Itoa(m)[|a|] == Itoa(n)[|b|];
      LastDigit(m % 10, n % 10);
    } else if m < 10 && n < 10 {
      assert Itoa(m)[0] == Itoa(n)[0];
      LastDigit(m, n);
    }
  }

  lemma LastDigit(m: nat, n: nat)
    requires m < 10 && n < 10 && '0' + m as char == '0' + n as char
    ensures m == n
  {
    assert ('0' + m as char) as int == 48 + m;
  }

  lemma {:induction false} ItoaLength(n: nat)
    ensures |Itoa(n)| >= 1 && (n >= 10 ==> |Itoa(n)| >= 2)
  {
    if n >= 10 {
      ItoaLength(n / 10);
    }
  }

  /** A separator that occurs in neither first part splits equal texts alike. */
  lemma {:induction false} SplitsAlike(a: string, b: string, x: string, y: string, c: char)
    requires c !in a && c !in x && a + [c] + b == x + [c] + y
    ensures a == x && b == y
  {
    BeforeFirst(a, c, b);
    BeforeFirst(x, c, y);
    assert (a + [c] + b)[|a| + 1..] == b;
    assert (x + [c] + y)[|x| + 1..] == y;
  }

  lemma {:induction false} NoNull(s: string)
    requires (forall k :: 0 <= k < |s| ==> !IsControl(s[k]))
    ensures '\0' !in s
  {
  }

  lemma DestinationHasNoNull(e: Entry, parseIp: ParseIp)
    requires WellBehaved(parseIp) && Parse(e.destination, parseIp).Some?
    requires Parse(e.destination, parseIp).value.Destination() == e.destination
    ensures '\0' !in e.destination
  {
    var t := Parse(e.destination, parseIp).value;
    var host := ParsedParts(e.destination, parseIp);
    HostHasNoNull(host, parseIp);
    assert e.destination == t.username + "@" + t.HostText();
  }

  lemma HostHasNoNull(host: string, parseIp: ParseIp)
    requires WellBehaved(parseIp) && CanonicalHost(host, parseIp).Some?
    ensures '\0' !in CanonicalHost(host, parseIp).value
  {
    var c := CanonicalHost(host, parseIp).value;
    if host[0] == '[' {
      assert IsAddressText(c);
    } else if parseIp(host).Some? {
      assert IsAddressText(c);
    } else {
      LowerDnsName(WithoutDot(host));
      DnsNameShape(c);
    }
  }

  /** Valid entries have the same key if and only if they make the same connection. */
  lemma KeyTellsConnections(e: Entry, f: Entry, parseIp: ParseIp)
    requires WellBehaved(parseIp) && ValidEntry(e, parseIp) && ValidEntry(f, parseIp)
    ensures ConnectionKey(e) == ConnectionKey(f) <==> SameConnection(e, f)
  {
    if ConnectionKey(e) == ConnectionKey(f) {
      NoNull(DIRECT);
      NoNull(CONFIG);
      MiddleHasNoNull(e, parseIp);
      MiddleHasNoNull(f, parseIp);
      var p, q := Middle(e), Middle(f);
      assert ConnectionKey(e) == e.mode + ['\0'] + (p + ['\0'] + Last(e)) by {
        KeyShape(e);
      }
      assert ConnectionKey(f) == f.mode + ['\0'] + (q + ['\0'] + Last(f)) by {
        KeyShape(f);
      }
      SplitsAlike(e.mode, p + ['\0'] + Last(e), f.mode, q + ['\0'] + Last(f), '\0');
      SplitsAlike(p, Last(e), q, Last(f), '\0');
      if e.mode == DIRECT {
        ItoaIsInjective(e.port, f.port);
      }
    }
  }

  function Middle(e: Entry): string
  {
    if e.mode == DIRECT then e.destination else e.configPath
  }

  function Last(e: Entry): string
  {
    if e.mode == DIRECT then Itoa(e.port) else e.alias
  }

  lemma KeyShape(e: Entry)
    requires e.mode == DIRECT || e.mode == CONFIG
    ensures ConnectionKey(e) == e.mode + ['\0'] + (Middle(e) + ['\0'] + Last(e))
  {
  }

  lemma MiddleHasNoNull(e: Entry, parseIp: ParseIp)
    requires WellBehaved(parseIp) && ValidEntry(e, parseIp)
    ensures '\0' !in Middle(e)
  {
    if e.mode == DIRECT {
      DestinationHasNoNull(e, parseIp);
    } else {
      NoNull(e.configPath);
    }
  }

  /** NewRemoteDirectHostEntry: an accepted destination, port and label make a valid
      entry, whose destination parses to the same target. */
  lemma NewDirectEntryIsValid(destination: string, port: int, shown: string, id: string, clientId: string,
                              parseIp: ParseIp)
    requires WellBehaved(parseIp) && Parse(destination, parseIp).Some?
    requires 1 <= port <= 65535 && ValidText(shown, 256, false) && IsId(id) && IsClientId(clientId)
    ensures var t := Parse(destination, parseIp).value;
            var e := Entry(id, DIRECT, t.Destination(), port, "", shown, "", clientId, "", "");
            ValidEntry(e, parseIp) && Parse(e.destination, parseIp) == Some(t)
  {
    ParseRoundTrip(destination, parseIp);
  }
}
