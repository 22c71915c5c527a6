/**
 Names of remote hosts (desktop/remote_hosts.go).

 Parsing of username@host into its canonical form, the checks on a saved entry, and the
 key that says which connection an entry makes.  The module proves that canonical forms
 parse to themselves and that keys tell connections apart.
 */
module RemoteHostNames {
  import opened Wrappers
  import opened Strings

  /** What net.ParseIP finds: whether it has a four-byte form, and its String(). */
  datatype Ip = Ip(v4: bool, text: string)

  type ParseIp = string -> Option<Ip>

  predicate IsNumeric(s: string)
  {
    s != "" && forall k :: 0 <= k < |s| ==> '0' <= s[k] <= '9' || s[k] == '.'
  }

  predicate IsAddressText(s: string)
  {
    0 < |s| <= 45 && forall k :: 0 <= k < |s| ==> '0' <= s[k] <= '9' || 'a' <= s[k] <= 'f' || s[k] == ':' || s[k] == '.'
  }

  /** Facts of net.ParseIP: printing is canonical, addresses without a four-byte
      form print with colons, and a text without colons is an address only if it is numeric. */
  ghost predicate WellBehaved(parseIp: ParseIp)
  {
    forall s :: parseIp(s).Some? ==>
      var ip := parseIp(s).value;
      && IsAddressText(ip.text) && parseIp(ip.text) == Some(ip)
      && (ip.v4 <==> ':' !in ip.text)
      && (':' !in s ==> IsNumeric(s))
  }

  datatype Target = Target(username: string, host: string)
  {
    function HostText(): string
    {
      if ':' in host then "[" + host + "]" else host
    }

    /** RemoteSSHDirectTarget.Destination. */
    function Destination(): string
    {
      username + "@" + HostText()
    }
  }

  // ---- Characters and labels ----

  predicate IsLetter(c: char)
  {
    'A' <= c <= 'Z' || 'a' <= c <= 'z'
  }

  predicate IsWord(c: char)
  {
    IsLetter(c) || '0' <= c <= '9'
  }

  function Lower(c: char): char
  {
    if 'A' <= c <= 'Z' then c - 'A' + 'a' else c
  }

  /** remoteSSHUsernamePattern. */
  predicate IsUsername(s: string)
  {
    && 0 < |s| <= 64 && (IsWord(s[0]) || s[0] == '_')
    && forall k :: 0 <= k < |s| ==> IsWord(s[k]) || s[k] == '.' || s[k] == '_' || s[k] == '-'
  }

  /** remoteDNSLabelPattern. */
  predicate IsDnsLabel(s: string)
  {
    && 0 < |s| <= 63 && IsWord(s[0]) && IsWord(s[|s| - 1])
    && forall k :: 0 <= k < |s| ==> IsWord(s[k]) || s[k] == '-'
  }

  /** strings.Split by one character. */
  function Split(s: string, c: char): (r: seq<string>)
    ensures r != []
  {
    if s == "" then [""]
    else if s[0] == c then [""] + Split(s[1..], c)
    else var rest := Split(s[1..], c); [[s[0]] + rest[0]] + rest[1..]
  }

  predicate IsDnsName(s: string)
  {
    forall k :: 0 <= k < |Split(s, '.')| ==> IsDnsLabel(Split(s, '.')[k])
  }

  function WithoutDot(host: string): string
  {
    if host != "" && host[|host| - 1] == '.' then host[..|host| - 1] else host
  }

  /** canonicalRemoteSSHHost. */
  function CanonicalHost(host: string, parseIp: ParseIp): Option<string>
  {
    if host == "" || host[0] == '-' then None
    else if host[0] == '[' || host[|host| - 1] == ']' then
      if |host| < 3 || host[0] != '[' || host[|host| - 1] != ']' then None
      else
        var ip := parseIp(host[1..|host| - 1]);
        if ip.None? || ip.value.v4 then None else Some(ip.value.text)
    else if parseIp(host).Some? then
      var ip := parseIp(host).value;
      if !ip.v4 then None else Some(ip.text)
    else if ':' in host then None
    else if |host| > 253 || IsNumeric(host) then None
    else
      var trimmed := WithoutDot(host);
      if trimmed == "" || |trimmed| > 253 || !IsDnsName(trimmed) then None
      else Some(Folded(trimmed, Lower))
  }

  function Count(s: string, c: char): nat
  {
    if s == "" then 0 else Count(s[1..], c) + if s[0] == c then 1 else 0
  }

  /** strings.Cut by one character that occurs. */
  function Before(s: string, c: char): (r: string)
    requires c in s
    ensures |r| < |s| && s[|r|] == c && s[..|r|] == r && c !in r
  {
    if s[0] == c then "" else [s[0]] + Before(s[1..], c)
  }

  /** ParseRemoteSSHDirectDestination. */
  function Parse(destination: string, parseIp: ParseIp): Option<Target>
  {
    if |destination| > 384 || TrimSpace(destination) != destination || Count(destination, '@') != 1 then None
    else
      CountZero(destination, '@');
      var username := Before(destination, '@');
      if !IsUsername(username) then None
      else
        match CanonicalHost(destination[|username| + 1..], parseIp)
        case None => None
        case Some(host) => Some(Target(username, host))
  }

  // ---- Canonical forms parse to themselves ----

  lemma {:induction false} CountZero(s: string, c: char)
    ensures Count(s, c) == 0 <==> c !in s
  {
    if s != "" {
      CountZero(s[1..], c);
      assert s == [s[0]] + s[1..];
    }
  }

  lemma {:induction false} CountConcat(a: string, b: string, c: char)
    ensures Count(a + b, c) == Count(a, c) + Count(b, c)
  {
    if a == "" {
      assert a + b == b;
    } else {
      CountConcat(a[1..], b, c);
      assert (a + b)[1..] == a[1..] + b;
    }
  }

  /** Every character of s but the separators lies in a part. */
  lemma {:induction false} SplitChars(s: string, c: char, k: nat)
    requires k < |s| && s[k] != c
    ensures exists j :: 0 <= j < |Split(s, c)| && s[k] in Split(s, c)[j]
  {
    var parts, rest := Split(s, c), Split(s[1..], c);
    if k == 0 {
      assert s[0] in parts[0];
    } else {
      SplitChars(s[1..], c, k - 1);
      var j :| 0 <= j < |rest| && s[k] in rest[j];
      if s[0] == c {
        assert parts[j + 1] == rest[j];
      } else if j > 0 {
        assert parts[j] == rest[j];
      } else {
        assert parts[0] == [s[0]] + rest[0];
      }
    }
  }

  /** Behind a trailing separator lies an empty part. */
  lemma {:induction false} SplitTrailing(s: string, c: char)
    requires s != "" && s[|s| - 1] == c
    ensures exists k :: 1 <= k < |Split(s, c)| && Split(s, c)[k] == ""
  {
    var parts, rest := Split(s, c), Split(s[1..], c);
    if |s| == 1 {
      assert s[1..] == "" && rest == [""];
      assert parts[1] == "";
    } else {
      SplitTrailing(s[1..], c);
      var k :| 1 <= k < |rest| && rest[k] == "";
      assert parts[if s[0] == c then k + 1 else k] == "";
    }
  }

  ghost predicate LoweredParts(parts: seq<string>, lowered: seq<string>)
  {
    |lowered| == |parts| && forall k :: 0 <= k < |parts| ==> lowered[k] == Folded(parts[k], Lower)
  }

  /** Lowering keeps the parts of a name. */
  lemma {:induction false} SplitLower(s: string)
    ensures LoweredParts(Split(s, '.'), Split(Folded(s, Lower), '.'))
  {
    var t := Folded(s, Lower);
    if s == "" {
      assert Folded("", Lower) == "";
    } else {
      var rest, lowered := Split(s[1..], '.'), Split(t[1..], '.');
      assert t[1..] == Folded(s[1..], Lower);
      SplitLower(s[1..]);
      assert t[0] == Lower(s[0]) && (t[0] == '.' <==> s[0] == '.');
      if s[0] == '.' {
        assert Folded("", Lower) == "";
        assert Split(s, '.') == [""] + rest && Split(t, '.') == [""] + lowered;
      } else {
        assert Folded([s[0]] + rest[0], Lower) == [t[0]] + lowered[0];
        assert Split(s, '.') == [[s[0]] + rest[0]] + rest[1..] && Split(t, '.') == [[t[0]] + lowered[0]] + lowered[1..];
      }
    }
  }

  lemma LowerDnsName(s: string)
    requires IsDnsName(s)
    ensures IsDnsName(Folded(s, Lower))
  {
    SplitLower(s);
    var parts, lowered := Split(s, '.'), Split(Folded(s, Lower), '.');
    forall k | 0 <= k < |lowered| ensures IsDnsLabel(lowered[k]) {
      assert lowered[k] == Folded(parts[k], Lower);
      LowerDnsLabel(parts[k]);
    }
  }

  lemma LowerDnsLabel(part: string)
    requires IsDnsLabel(part)
    ensures IsDnsLabel(Folded(part, Lower))
  {
    var lowered := Folded(part, Lower);
    assert forall k :: 0 <= k < |lowered| ==> lowered[k] == Lower(part[k]);
  }

  /** A DNS name is words and hyphens between dots, with a word at either end. */
  lemma DnsNameShape(s: string)
    requires IsDnsName(s)
    ensures s != "" && IsWord(s[0]) && s[|s| - 1] != '.'
    ensures forall k :: 0 <= k < |s| ==> IsWord(s[k]) || s[k] == '-' || s[k] == '.'
  {
    var parts := Split(s, '.');
    assert forall k :: 0 <= k < |parts| ==> IsDnsLabel(parts[k]);
    assert IsDnsLabel(parts[0]);
    FirstPart(s, '.');
    if s != "" && s[|s| - 1] == '.' {
      SplitTrailing(s, '.');
    }
    forall k | 0 <= k < |s| && s[k] != '.' ensures IsWord(s[k]) || s[k] == '-' {
      SplitChars(s, '.', k);
    }
  }

  lemma FirstPart(s: string, c: char)
    ensures Split(s, c)[0] != "" ==> s != "" && Split(s, c)[0][0] == s[0]
  {
  }

  /** What a canonical host looks like, and that it is canonical again. */
  lemma CanonicalHostAgain(host: string, parseIp: ParseIp)
    requires WellBehaved(parseIp) && CanonicalHost(host, parseIp).Some?
    ensures var text := Target("", CanonicalHost(host, parseIp).value).HostText();
            && CanonicalHost(text, parseIp) == CanonicalHost(host, parseIp)
            && 0 < |text| <= 253 && '@' !in text && !IsSpace(text[|text| - 1])
  {
    var c := CanonicalHost(host, parseIp).value;
    if host[0] == '[' {
      assert parseIp(host[1..|host| - 1]).Some?;
      BracketedAgain(c, parseIp, parseIp(host[1..|host| - 1]).value);
    } else if parseIp(host).Some? {
      assert c == parseIp(host).value.text;
    } else {
      DnsAgain(host, parseIp);
    }
  }

  lemma BracketedAgain(c: string, parseIp: ParseIp, ip: Ip)
    requires IsAddressText(c) && !ip.v4 && ip.text == c && ':' in c && parseIp(c) == Some(ip)
    ensures CanonicalHost("[" + c + "]", parseIp) == Some(c)
    ensures var text := "[" + c + "]"; 0 < |text| <= 253 && '@' !in text && !IsSpace(text[|text| - 1])
  {
    assert ("[" + c + "]")[1..|c| + 1] == c;
  }

  lemma LowerTwice(s: string)
    ensures Folded(Folded(s, Lower), Lower) == Folded(s, Lower)
  {
    var c := Folded(s, Lower);
    forall k | 0 <= k < |s| ensures Lower(c[k]) == c[k] {
      assert c[k] == Lower(s[k]);
    }
    assert Folded(c, Lower) == c;
  }

  lemma DnsAgain(host: string, parseIp: ParseIp)
    requires WellBehaved(parseIp) && CanonicalHost(host, parseIp).Some? && parseIp(host).None? && host[0] != '['
    ensures var c := CanonicalHost(host, parseIp).value;
            CanonicalHost(c, parseIp) == Some(c) && ':' !in c && '@' !in c && 0 < |c| <= 253 && !IsSpace(c[|c| - 1])
  {
    var trimmed := WithoutDot(host);
    var c := Folded(trimmed, Lower);
    DnsNameShape(trimmed);
    LowerDnsName(trimmed);
    DnsNameShape(c);
    assert !IsNumeric(c) by {
      var k :| 0 <= k < |host| && !('0' <= host[k] <= '9') && host[k] != '.';
      assert k < |trimmed| && trimmed[k] == host[k];
      assert c[k] == Lower(host[k]);
    }
    assert parseIp(c).None?;
    LowerTwice(trimmed);
  }

  /** The text the canonical host was read from. */
  lemma ParsedParts(destination: string, parseIp: ParseIp) returns (host: string)
    requires Parse(destination, parseIp).Some?
    ensures var t := Parse(destination, parseIp).value;
            IsUsername(t.username) && CanonicalHost(host, parseIp) == Some(t.host)
  {
    CountZero(destination, '@');
    host := destination[|Before(destination, '@')| + 1..];
  }

  /** Parsing a parsed target's Destination gives that target back. */
  lemma ParseRoundTrip(destination: string, parseIp: ParseIp)
    requires WellBehaved(parseIp) && Parse(destination, parseIp).Some?
    ensures Parse(Parse(destination, parseIp).value.Destination(), parseIp) == Parse(destination, parseIp)
  {
    var t := Parse(destination, parseIp).value;
    var host := ParsedParts(destination, parseIp);
    CanonicalHostAgain(host, parseIp);
    ParseCanonical(t.username, t.HostText(), t.host, parseIp);
  }

  lemma {:induction false} BeforeFirst(a: string, c: char, b: string)
    requires c !in a
    ensures c in a + [c] + b && Before(a + [c] + b, c) == a
  {
    assert (a + [c] + b)[|a|] == c;
    if a != "" {
      BeforeFirst(a[1..], c, b);
      assert (a + [c] + b)[1..] == a[1..] + [c] + b;
    }
  }

  lemma ParseCanonical(username: string, text: string, host: string, parseIp: ParseIp)
    requires IsUsername(username) && CanonicalHost(text, parseIp) == Some(host)
    requires 0 < |text| <= 253 && '@' !in text && !IsSpace(text[|text| - 1])
    ensures Parse(username + "@" + text, parseIp) == Some(Target(username, host))
  {
    var d := username + "@" + text;
    CountZero(username, '@');
    CountZero(text, '@');
    CountConcat(username + "@", text, '@');
    CountConcat(username, "@", '@');
    assert TrimSpace(d) == d by {
      assert d[0] == username[0] && d[|d| - 1] == text[|text| - 1];
    }
    CountZero(d, '@');
    BeforeFirst(username, '@', text);
    assert d[|username| + 1..] == text;
  }

  /** Different targets have different destinations. */
  lemma DestinationIsInjective(d: string, e: string, parseIp: ParseIp)
    requires WellBehaved(parseIp) && Parse(d, parseIp).Some? && Parse(e, parseIp).Some?
    ensures Parse(d, parseIp).value.Destination() == Parse(e, parseIp).value.Destination()
            <==> Parse(d, parseIp) == Parse(e, parseIp)
  {
    ParseRoundTrip(d, parseIp);
    ParseRoundTrip(e, parseIp);
  }
}
