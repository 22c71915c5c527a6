/**
 Which names and entries of remote hosts are accepted (desktop/remote_hosts.go).

 The accepted texts are spelled out here as what they are put together from, and parsing
 and the checks on entries are proved to accept exactly those.
 */
module RemoteHostRules {
  import opened Wrappers
  import opened Strings
  import opened RemoteHostNames
  import opened RemoteHostEntries
  import opened RemoteHosts

  // ---- Parts and separators ----

  function Join(parts: seq<string>, c: char): string
    requires parts != []
  {
    if |parts| == 1 then parts[0] else parts[0] + [c] + Join(parts[1..], c)
  }

  lemma {:induction false} SplitOfPart(part: string, c: char)
    requires c !in part
    ensures Split(part, c) == [part]
  {
    if part != "" {
      SplitOfPart(part[1..], c);
      assert [part[1..]][1..] == [] && [part[0]] + part[1..] == part;
    }
  }

  lemma {:induction false} SplitOfTwo(part: string, c: char, rest: string)
    requires c !in part
    ensures Split(part + [c] + rest, c) == [part] + Split(rest, c)
  {
    var s := part + [c] + rest;
    if part == "" {
      assert s[1..] == rest;
    } else {
      assert s[1..] == part[1..] + [c] + rest;
      SplitOfTwo(part[1..], c, rest);
      assert ([part[1..]] + Split(rest, c))[1..] == Split(rest, c) && [part[0]] + part[1..] == part;
    }
  }

  lemma {:induction false} SplitOfJoin(parts: seq<string>, c: char)
    requires parts != [] && forall k :: 0 <= k < |parts| ==> c !in parts[k]
    ensures Split(Join(parts, c), c) == parts
  {
    if |parts| == 1 {
      SplitOfPart(parts[0], c);
    } else {
      SplitOfTwo(parts[0], c, Join(parts[1..], c));
      SplitOfJoin(parts[1..], c);
    }
  }

  lemma {:induction false} JoinOfSplit(s: string, c: char)
    ensures Join(Split(s, c), c) == s && forall k :: 0 <= k < |Split(s, c)| ==> c !in Split(s, c)[k]
  {
    if s != "" {
      JoinOfSplit(s[1..], c);
      var rest := Split(s[1..], c);
      if s[0] == c {
        assert ([""] + rest)[1..] == rest;
        assert "" + [c] + s[1..] == s;
      } else {
        var parts := [[s[0]] + rest[0]] + rest[1..];
        assert parts[1..] == rest[1..];
        assert s == [s[0]] + s[1..];
      }
    }
  }

  // ---- Destinations ----

  predicate Alnum(c: char)
  {
    '0' <= c <= '9' || 'A' <= c <= 'Z' || 'a' <= c <= 'z'
  }

  predicate UserName(s: string)
  {
    && 1 <= |s| <= 64 && (Alnum(s[0]) || s[0] == '_')
    && forall k :: 0 <= k < |s| ==> Alnum(s[k]) || s[k] in "._-"
  }

  predicate HostLabel(s: string)
  {
    && 1 <= |s| <= 63 && s[0] != '-' && s[|s| - 1] != '-'
    && forall k :: 0 <= k < |s| ==> Alnum(s[k]) || s[k] == '-'
  }

  /** The same text with small letters for the capital ones of ASCII. */
  predicate Lowered(text: string, lower: string)
  {
    && |text| == |lower|
    && forall k :: 0 <= k < |text| ==>
         lower[k] as int == text[k] as int + if 'A' <= text[k] <= 'Z' then 32 else 0
  }

  /** A name of labels between dots, with or without a dot behind it. */
  ghost predicate HostName(text: string, canonical: string, labels: seq<string>)
  {
    && labels != [] && (forall k :: 0 <= k < |labels| ==> HostLabel(labels[k]))
    && (text == Join(labels, '.') || text == Join(labels, '.') + ".")
    && Lowered(Join(labels, '.'), canonical)
  }

  predicate DigitsAndDots(text: string)
  {
    forall k :: 0 <= k < |text| ==> '0' <= text[k] <= '9' || text[k] == '.'
  }

  /** A host and its canonical form: an address with colons between brackets, a four-byte
      address, or a name that is not all digits and dots. */
  ghost predicate IsHost(text: string, canonical: string, parseIp: ParseIp)
  {
    || (exists inner :: inner != "" && text == "[" + inner + "]" && parseIp(inner) == Some(Ip(false, canonical)))
    || (&& text != "" && text[0] !in "-[" && text[|text| - 1] != ']' && parseIp(text) == Some(Ip(true, canonical)))
    || (&& |text| <= 253 && parseIp(text).None? && !DigitsAndDots(text)
        && exists labels :: HostName(text, canonical, labels))
  }

  lemma LabelMeans(s: string)
    ensures IsDnsLabel(s) <==> HostLabel(s)
  {
  }

  lemma LowerChar(c: char)
    ensures Lower(c) as int == c as int + if 'A' <= c <= 'Z' then 32 else 0
  {
  }

  lemma LowerMeans(text: string, lower: string)
    ensures Folded(text, Lower) == lower <==> Lowered(text, lower)
  {
    forall k | 0 <= k < |text|
      ensures Folded(text, Lower)[k] as int == text[k] as int + if 'A' <= text[k] <= 'Z' then 32 else 0
    {
      LowerChar(text[k]);
    }
    if Lowered(text, lower) {
      forall k | 0 <= k < |text| ensures Folded(text, Lower)[k] == lower[k] {
        assert Folded(text, Lower)[k] as int == lower[k] as int;
      }
    }
  }

  ghost predicate Labelled(s: string, labels: seq<string>)
  {
    labels != [] && s == Join(labels, '.') && forall k :: 0 <= k < |labels| ==> HostLabel(labels[k])
  }

  /** A DNS name is its labels, joined. */
  lemma NameHasLabels(s: string)
    requires IsDnsName(s)
    ensures Labelled(s, Split(s, '.'))
  {
    JoinOfSplit(s, '.');
    var parts := Split(s, '.');
    forall k | 0 <= k < |parts| ensures HostLabel(parts[k]) {
      LabelMeans(parts[k]);
    }
  }

  lemma LabelsMakeName(s: string, labels: seq<string>)
    requires Labelled(s, labels)
    ensures IsDnsName(s)
  {
    SplitOfJoin(labels, '.');
    forall k | 0 <= k < |labels| ensures IsDnsLabel(labels[k]) {
      LabelMeans(labels[k]);
    }
  }

  /** What CanonicalHost does with a text that is no address. */
  lemma CanonicalName(text: string, canonical: string, parseIp: ParseIp)
    requires parseIp(text).None? && text != "" && text[0] != '[' && text[|text| - 1] != ']' && text[0] != '-'
    requires CanonicalHost(text, parseIp) == Some(canonical)
    ensures |text| <= 253 && !DigitsAndDots(text) && HostName(text, canonical, Split(WithoutDot(text), '.'))
  {
    var trimmed := WithoutDot(text);
    CanonicalIsLowered(text, canonical, parseIp);
    NameHasLabels(trimmed);
    LowerMeans(trimmed, canonical);
    assert text == trimmed || text == trimmed + ".";
  }

  lemma CanonicalIsLowered(text: string, canonical: string, parseIp: ParseIp)
    requires parseIp(text).None? && text != "" && text[0] != '[' && text[|text| - 1] != ']' && text[0] != '-'
    requires CanonicalHost(text, parseIp) == Some(canonical)
    ensures |text| <= 253 && !IsNumeric(text) && IsDnsName(WithoutDot(text))
    ensures Folded(WithoutDot(text), Lower) == canonical
  {
  }

  lemma NameIsCanonical(text: string, canonical: string, labels: seq<string>, parseIp: ParseIp)
    requires parseIp(text).None? && |text| <= 253 && !DigitsAndDots(text) && HostName(text, canonical, labels)
    ensures CanonicalHost(text, parseIp) == Some(canonical)
  {
    NameTrims(text, canonical, labels);
  }

  lemma {:induction false} JoinEnds(labels: seq<string>)
    requires labels != [] && forall k :: 0 <= k < |labels| ==> HostLabel(labels[k])
    ensures var s := Join(labels, '.');
            s != "" && Alnum(s[0]) && Alnum(s[|s| - 1]) && forall k :: 0 <= k < |s| ==> Alnum(s[k]) || s[k] in "-."
  {
    assert HostLabel(labels[0]);
    if |labels| > 1 {
      JoinEnds(labels[1..]);
    }
  }

  lemma NameTrims(text: string, canonical: string, labels: seq<string>)
    requires HostName(text, canonical, labels)
    ensures WithoutDot(text) == Join(labels, '.') && ':' !in text && text != ""
    ensures text[0] !in "-[" && text[|text| - 1] != ']'
    ensures IsDnsName(WithoutDot(text)) && Folded(WithoutDot(text), Lower) == canonical
  {
    var name := Join(labels, '.');
    JoinEnds(labels);
    assert (name + ".")[..|name|] == name;
    LabelsMakeName(name, labels);
    LowerMeans(name, canonical);
  }

  /** Exactly which hosts are accepted, and what their canonical form is. */
  lemma HostExactly(text: string, canonical: string, parseIp: ParseIp)
    ensures CanonicalHost(text, parseIp) == Some(canonical) <==> IsHost(text, canonical, parseIp)
  {
    forall labels | HostName(text, canonical, labels)
      ensures text != "" && text[0] !in "-[" && text[|text| - 1] != ']' && ':' !in text
    {
      NameTrims(text, canonical, labels);
    }
    if text != "" && text[0] != '-' {
      if text[0] == '[' || text[|text| - 1] == ']' {
        BracketsExactly(text, canonical, parseIp);
      } else if parseIp(text).None? {
        NameExactly(text, canonical, parseIp);
      }
    }
  }

  lemma NameExactly(text: string, canonical: string, parseIp: ParseIp)
    requires parseIp(text).None? && text != "" && text[0] != '[' && text[|text| - 1] != ']' && text[0] != '-'
    ensures CanonicalHost(text, parseIp) == Some(canonical)
       <==> |text| <= 253 && !DigitsAndDots(text) && exists labels :: HostName(text, canonical, labels)
  {
    if CanonicalHost(text, parseIp) == Some(canonical) {
      CanonicalName(text, canonical, parseIp);
    }
    if |text| <= 253 && !DigitsAndDots(text) && exists labels :: HostName(text, canonical, labels) {
      var labels :| HostName(text, canonical, labels);
      NameIsCanonical(text, canonical, labels, parseIp);
    }
  }

  lemma BracketsExactly(text: string, canonical: string, parseIp: ParseIp)
    requires text != "" && text[0] != '-' && (text[0] == '[' || text[|text| - 1] == ']')
    ensures CanonicalHost(text, parseIp) == Some(canonical)
       <==> exists inner :: inner != "" && text == "[" + inner + "]" && parseIp(inner) == Some(Ip(false, canonical))
  {
    if CanonicalHost(text, parseIp) == Some(canonical) {
      var inner := text[1..|text| - 1];
      assert text == "[" + inner + "]";
    }
    if inner :| inner != "" && text == "[" + inner + "]" && parseIp(inner) == Some(Ip(false, canonical)) {
      assert text[1..|text| - 1] == inner;
    }
  }

  /** A destination of t, whose host part is given. */
  ghost predicate Addresses(destination: string, t: Target, host: string, parseIp: ParseIp)
  {
    '@' !in host && destination == t.username + "@" + host && IsHost(host, t.host, parseIp)
  }

  ghost predicate IsDestination(destination: string, t: Target, parseIp: ParseIp)
  {
    && |destination| <= 384 && TrimSpace(destination) == destination && UserName(t.username)
    && exists host :: Addresses(destination, t, host, parseIp)
  }

  /** Exactly which texts are destinations, and of whom at which host. */
  lemma ParsesExactly(destination: string, t: Target, parseIp: ParseIp)
    ensures Parse(destination, parseIp) == Some(t) <==> IsDestination(destination, t, parseIp)
  {
    ParsedIsDestination(destination, t, parseIp);
    DestinationParses(destination, t, parseIp);
  }

  lemma ParsedIsDestination(destination: string, t: Target, parseIp: ParseIp)
    ensures Parse(destination, parseIp) == Some(t) ==> IsDestination(destination, t, parseIp)
  {
    if Parse(destination, parseIp) == Some(t) {
      ParsedAddresses(destination, t, parseIp);
      ParsedIsShort(destination, t, parseIp);
    }
  }

  lemma ParsedIsShort(destination: string, t: Target, parseIp: ParseIp)
    requires Parse(destination, parseIp) == Some(t)
    ensures |destination| <= 384 && TrimSpace(destination) == destination
  {
  }

  lemma DestinationParses(destination: string, t: Target, parseIp: ParseIp)
    ensures IsDestination(destination, t, parseIp) ==> Parse(destination, parseIp) == Some(t)
  {
    if IsDestination(destination, t, parseIp) {
      var host :| Addresses(destination, t, host, parseIp);
      AddressParses(destination, t, host, parseIp);
    }
  }

  lemma ParsedAddresses(destination: string, t: Target, parseIp: ParseIp)
    requires Parse(destination, parseIp) == Some(t)
    ensures UserName(t.username) && |t.username| < |destination|
    ensures Addresses(destination, t, destination[|t.username| + 1..], parseIp)
  {
    CountZero(destination, '@');
    var host := destination[|t.username| + 1..];
    assert destination == t.username + "@" + host;
    OneAt(t.username, host);
    HostExactly(host, t.host, parseIp);
  }

  lemma AddressParses(destination: string, t: Target, host: string, parseIp: ParseIp)
    requires |destination| <= 384 && TrimSpace(destination) == destination && UserName(t.username)
    requires Addresses(destination, t, host, parseIp)
    ensures Parse(destination, parseIp) == Some(t)
  {
    NoSignInName(t.username);
    CutAtSign(destination, t.username, host);
    HostExactly(host, t.host, parseIp);
    PartsParse(destination, t.username, host, t.host, parseIp);
  }

  lemma NoSignInName(username: string)
    ensures UserName(username) ==> '@' !in username && IsUsername(username)
  {
  }

  lemma PartsParse(destination: string, username: string, host: string, canonical: string, parseIp: ParseIp)
    requires |destination| <= 384 && TrimSpace(destination) == destination && Count(destination, '@') == 1
    requires '@' in destination && Before(destination, '@') == username && IsUsername(username)
    requires destination[|username| + 1..] == host && CanonicalHost(host, parseIp) == Some(canonical)
    ensures Parse(destination, parseIp) == Some(Target(username, canonical))
  {
  }

  lemma CutAtSign(destination: string, username: string, host: string)
    requires '@' !in username && '@' !in host && destination == username + "@" + host
    ensures Count(destination, '@') == 1 && '@' in destination
    ensures Before(destination, '@') == username && destination[|username| + 1..] == host
  {
    OneAt(username, host);
    CountZero(destination, '@');
    BeforeFirst(username, '@', host);
    assert destination == username + ['@'] + host;
  }

  lemma OneAt(username: string, host: string)
    requires '@' !in username
    ensures Count(username + "@" + host, '@') == 1 <==> '@' !in host
  {
    CountZero(username, '@');
    CountZero(host, '@');
    assert "@"[1..] == "";
    CountConcat(username + "@", host, '@');
    CountConcat(username, "@", '@');
  }

  // ---- Entries ----

  predicate HexDigits(s: string)
  {
    |s| == 64 && forall k :: 0 <= k < |s| ==> s[k] in "0123456789abcdef"
  }

  /** Some text of at most `max` bytes without control characters and outer space. */
  predicate ShortText(value: string, max: nat)
  {
    && value != "" && Utf8Length(value) <= max && !IsSpace(value[0]) && !IsSpace(value[|value| - 1])
    && forall k :: 0 <= k < |value| ==> value[k] >= '\U{20}' && value[k] != '\U{7f}'
  }

  /** The root, or names behind slashes, none of them empty or pointing here or up. */
  ghost predicate CleanPath(path: string)
  {
    || path == "/"
    || exists names :: Names(names) && path == "/" + Join(names, '/')
  }

  ghost predicate Names(names: seq<string>)
  {
    names != [] && forall k :: 0 <= k < |names| ==> '/' !in names[k] && names[k] !in {"", ".", ".."}
  }

  /** Nothing, or a clean path without control characters. */
  ghost predicate PathText(path: string)
  {
    && (forall k :: 0 <= k < |path| ==> path[k] >= '\U{20}' && path[k] != '\U{7f}')
    && (path == "" || CleanPath(path))
  }

  predicate AliasText(s: string)
  {
    && 1 <= |s| <= 255 && Alnum(s[0])
    && forall k :: 0 <= k < |s| ==> Alnum(s[k]) || s[k] in "._-"
  }

  ghost predicate DirectFields(e: Entry, parseIp: ParseIp)
  {
    && e.alias == "" && e.configPath == "" && 1 <= e.port <= 65535
    && exists t: Target :: Parse(e.destination, parseIp) == Some(t)
         && e.destination == t.username + "@" + (if ':' in t.host then "[" + t.host + "]" else t.host)
  }

  ghost predicate ConfigFields(e: Entry)
  {
    e.destination == "" && e.port == 0 && AliasText(e.alias) && PathText(e.configPath)
  }

  ghost predicate Identified(e: Entry)
  {
    && (exists digits :: HexDigits(digits) && e.id == "host_" + digits)
    && exists digits :: HexDigits(digits) && e.clientId == "desktop_" + digits
  }

  lemma TextMeans(value: string, max: nat, allowEmpty: bool)
    ensures ValidText(value, max, allowEmpty) <==> if value == "" then allowEmpty else ShortText(value, max)
  {
  }

  lemma HexMeans(s: string)
    ensures IsHex(s) <==> HexDigits(s)
  {
  }

  lemma IdentityMeans(e: Entry)
    ensures IsId(e.id) && IsClientId(e.clientId) <==> Identified(e)
  {
    forall s ensures IsHex(s) <==> HexDigits(s) {
      HexMeans(s);
    }
    if IsId(e.id) && IsClientId(e.clientId) {
      assert e.id == "host_" + e.id[5..] && e.clientId == "desktop_" + e.clientId[8..];
    }
    if Identified(e) {
      var a :| HexDigits(a) && e.id == "host_" + a;
      var b :| HexDigits(b) && e.clientId == "desktop_" + b;
      assert e.id[5..] == a && e.clientId[8..] == b;
    }
  }

  lemma CleanPathMeans(path: string)
    ensures IsCleanPath(path) <==> CleanPath(path)
  {
    if IsCleanPath(path) && path != "/" {
      JoinOfSplit(path[1..], '/');
      assert path == "/" + path[1..];
      assert Names(Split(path[1..], '/'));
    }
    if CleanPath(path) && path != "/" {
      var names :| Names(names) && path == "/" + Join(names, '/');
      SplitOfJoin(names, '/');
      assert path[1..] == Join(names, '/');
    }
  }

  lemma ConfigMeans(e: Entry)
    ensures ValidConfig(e) <==> ConfigFields(e)
  {
    AliasMeans(e.alias);
    PathMeans(e.configPath);
  }

  lemma AliasMeans(s: string)
    ensures IsAlias(s) <==> AliasText(s)
  {
  }

  lemma PathMeans(path: string)
    ensures IsConfigPath(path) <==> PathText(path)
  {
    CleanPathMeans(path);
  }

  lemma DirectMeans(e: Entry, parseIp: ParseIp)
    ensures ValidDirect(e, parseIp) <==> DirectFields(e, parseIp)
  {
  }

  /** Exactly which entries the store accepts. */
  lemma EntryExactly(e: Entry, parseIp: ParseIp)
    ensures ValidEntry(e, parseIp)
       <==> && Identified(e) && ShortText(e.shown, 256)
            && (e.leaseId == "" || ShortText(e.leaseId, 512)) && (e.layoutRef == "" || ShortText(e.layoutRef, 512))
            && (e.mode == "direct" || e.mode == "config")
            && (e.mode == "direct" ==> DirectFields(e, parseIp)) && (e.mode == "config" ==> ConfigFields(e))
  {
    IdentityMeans(e);
    TextMeans(e.shown, 256, false);
    TextMeans(e.leaseId, 512, true);
    TextMeans(e.layoutRef, 512, true);
    ConfigMeans(e);
    DirectMeans(e, parseIp);
  }

  /** The length in bytes: one per ASCII character, up to four for others. */
  lemma {:induction false} Utf8OfConcat(a: string, b: string)
    ensures Utf8Length(a + b) == Utf8Length(a) + Utf8Length(b)
  {
    if a == "" {
      assert a + b == b;
    } else {
      assert (a + b)[1..] == a[1..] + b;
      Utf8OfConcat(a[1..], b);
    }
  }

  lemma Utf8OfChar(c: char)
    ensures Utf8Length([c])
         == if c as int < 0x80 then 1 else if c as int < 0x800 then 2 else if c as int < 0x1_0000 then 3 else 4
  {
    assert [c][1..] == "";
  }

  // ---- The store ----

  /** A file of version 1 loads with all its hosts, in order, each as it is but for the mode,
      which becomes that of an OpenSSH alias; one of version 2 loads as it is. */
  lemma FileLoads(document: Document, w: World)
    requires document.version in {1, 2} && w.size(document) <= 1024 * 1024
    requires Accepted(if document.version == 1 then InConfigMode(document.hosts) else document.hosts, w.parseIp)
    ensures document.version == 2 ==> Loaded(Stored(document), w) == Ok(document.hosts)
    ensures document.version == 1 ==> Loaded(Stored(document), w) == Ok(InConfigMode(document.hosts))
  {
    assert document.version == 1 ==> Migrated(document) == InConfigMode(document.hosts);
  }

  function InConfigMode(hosts: seq<Entry>): (r: seq<Entry>)
    ensures |r| == |hosts|
    ensures forall i :: 0 <= i < |hosts| ==> r[i] == hosts[i].(mode := "config")
  {
    if hosts == [] then [] else InConfigMode(hosts[..|hosts| - 1]) + [hosts[|hosts| - 1].(mode := "config")]
  }

  /** A list is accepted if and only if it has at most 256 hosts, all valid, and no two
      share an id or connect to the same place in the same way. */
  lemma ListAcceptedExactly(hosts: seq<Entry>, parseIp: ParseIp)
    requires WellBehaved(parseIp)
    ensures Accepted(hosts, parseIp)
       <==> |hosts| <= 256 && (forall e :: e in hosts ==> ValidEntry(e, parseIp))
            && forall i, j :: 0 <= i < j < |hosts| ==>
                 hosts[i].id != hosts[j].id && !SameConnection(hosts[i], hosts[j])
  {
    if forall e :: e in hosts ==> ValidEntry(e, parseIp) {
      forall i, j | 0 <= i < j < |hosts|
        ensures ConnectionKey(hosts[i]) == ConnectionKey(hosts[j]) <==> SameConnection(hosts[i], hosts[j])
      {
        KeyTellsConnections(hosts[i], hosts[j], parseIp);
      }
      assert forall i, j :: 0 <= i < j < |hosts| ==>
        (Clash(hosts[i], hosts[j]) <==> hosts[i].id == hosts[j].id || SameConnection(hosts[i], hosts[j]));
    }
  }
}
