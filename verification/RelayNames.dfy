/** Relay host names, and the relay and region descriptions the service sends
    (crates/hub/src/cloud.rs). */
module RelayNames {
  import opened Wrappers
  import opened Strings

  const RELAY_DOMAIN := "relay.offdesk.cloud"

  predicate IsLower(c: char) { 'a' <= c <= 'z' }

  predicate HasPair(s: string, c: char) { exists i :: 0 <= i < |s| - 1 && s[i] == c && s[i + 1] == c }

  predicate ValidSlug(slug: string) {
    && 3 <= |slug| <= 40
    && (forall c <- slug :: IsLower(c) || IsDigit(c) || c == '-')
    && slug[0] != '-' && slug[|slug| - 1] != '-' && !HasPair(slug, '-')
  }

  predicate Letters(s: string) { forall c <- s :: IsLower(c) }

  predicate ValidRegion(code: string) {
    match SplitOnce(code, '-')
    case None => |code| == 2 && Letters(code)
    case Some((head, tail)) => |head| == 2 && Letters(head) && 1 <= |tail| <= 16 && Letters(tail)
  }

  /** A region code is two letters, or two letters, a dash and up to sixteen more. */
  lemma RegionIff(code: string)
    ensures ValidRegion(code) <==>
              && 2 <= |code| && IsLower(code[0]) && IsLower(code[1])
              && (|code| == 2 ||
                  (4 <= |code| <= 19 && code[2] == '-' && forall k :: 3 <= k < |code| ==> IsLower(code[k])))
  {
    SplitOnceIs(code, '-');
    if |code| >= 4 && IsLower(code[0]) && IsLower(code[1]) && code[2] == '-' {
      SplitOnceFindsFirst(code[..2], code[3..], '-');
      assert code == code[..2] + ['-'] + code[3..];
    }
  }

  predicate IsWord(w: string) { w != "" && forall c <- w :: IsLower(c) || IsDigit(c) }

  function Dashed(words: seq<string>): string
    requires words != []
  {
    if |words| == 1 then words[0] else words[0] + "-" + Dashed(words[1..])
  }

  /** What a slug is made of: words with one dash between two of them. */
  ghost predicate IsDashed(s: string, words: seq<string>) {
    words != [] && (forall w <- words :: IsWord(w)) && s == Dashed(words)
  }

  predicate Dashable(s: string) {
    && s != "" && (forall c <- s :: IsLower(c) || IsDigit(c) || c == '-')
    && s[0] != '-' && s[|s| - 1] != '-' && !HasPair(s, '-')
  }

  lemma DashedOne(w: string, rest: string)
    requires IsWord(w) && Dashable(rest)
    ensures Dashable(w + "-" + rest)
  {
    var s := w + "-" + rest;
    forall i | 0 <= i < |s| - 1 ensures s[i] != '-' || s[i + 1] != '-' {
      if i < |w| {
        assert s[i] == w[i] && w[i] in w;
      } else if i > |w| {
        assert s[i] == rest[i - |w| - 1] && s[i + 1] == rest[i - |w|];
      }
    }
    assert s[0] == w[0] && w[0] in w && s[|s| - 1] == rest[|rest| - 1];
  }

  lemma {:induction false} DashedIsDashable(words: seq<string>)
    requires words != [] && forall w <- words :: IsWord(w)
    ensures Dashable(Dashed(words))
    decreases |words|
  {
    assert IsWord(words[0]);
    if |words| == 1 {
      var w := words[0];
      assert w[0] in w && w[|w| - 1] in w && forall i :: 0 <= i < |w| ==> w[i] in w;
    } else {
      DashedIsDashable(words[1..]);
      DashedOne(words[0], Dashed(words[1..]));
    }
  }

  lemma {:induction false} DashableIsDashed(s: string) returns (words: seq<string>)
    requires Dashable(s)
    ensures IsDashed(s, words)
    decreases |s|
  {
    SplitOnceIs(s, '-');
    if SplitOnce(s, '-') == None {
      words := [s];
    } else {
      var (w, rest) := SplitOnce(s, '-').value;
      CutIsDashable(s, w, rest);
      var more := DashableIsDashed(rest);
      words := [w] + more;
      assert words[1..] == more;
    }
  }

  lemma CutIsDashable(s: string, w: string, rest: string)
    requires Dashable(s) && s == w + "-" + rest && '-' !in w
    ensures IsWord(w) && Dashable(rest)
  {
    assert s[|w|] == '-';
    assert forall c <- w :: c in s;
    assert forall c <- rest :: c in s;
    assert s[|s| - 1] != '-';
    assert |w| + 1 < |s|;
    assert rest[0] == s[|w| + 1] && rest[|rest| - 1] == s[|s| - 1];
    forall i | 0 <= i < |rest| - 1 ensures rest[i] != '-' || rest[i + 1] != '-' {
      assert rest[i] == s[|w| + 1 + i] && rest[i + 1] == s[|w| + 2 + i];
    }
  }

  /** A slug is words of small letters and digits with single dashes between them, 3 to 40 characters in all. */
  lemma SlugIff(slug: string)
    ensures ValidSlug(slug) <==> 3 <= |slug| <= 40 && exists words :: IsDashed(slug, words)
  {
    if ValidSlug(slug) {
      var words := DashableIsDashed(slug);
    }
    forall words | IsDashed(slug, words) ensures Dashable(slug) {
      DashedIsDashable(words);
    }
  }

  function StripSuffix(s: string, suffix: string): Option<string> {
    if |s| >= |suffix| && s[|s| - |suffix|..] == suffix then Some(s[..|s| - |suffix|]) else None
  }

  datatype Host = Host(slug: string, region: Option<string>)

  function HostOf(rest: string): Option<Host> {
    match SplitOnce(rest, '.')
    case None => if ValidSlug(rest) then Some(Host(rest, None)) else None
    case Some((slug, region)) => if ValidSlug(slug) && ValidRegion(region) then Some(Host(slug, Some(region))) else None
  }

  function RelayHost(host: string, domain: string): Option<Host> {
    match StripSuffix(host, domain)
    case None => None
    case Some(dotted) =>
      match StripSuffix(dotted, ".")
      case None => None
      case Some(rest) => HostOf(rest)
  }

  /** How a host is written. */
  function Format(h: Host, domain: string): string {
    if h.region == None then h.slug + "." + domain else h.slug + "." + h.region.value + "." + domain
  }

  predicate ValidParts(h: Host) { ValidSlug(h.slug) && (h.region.Some? ==> ValidRegion(h.region.value)) }

  lemma RegionHasNoDot(code: string)
    requires ValidRegion(code)
    ensures '.' !in code
  {
    SplitOnceIs(code, '-');
  }

  function Rest(h: Host): string { if h.region == None then h.slug else h.slug + "." + h.region.value }

  lemma HostOfRest(h: Host)
    requires ValidParts(h)
    ensures HostOf(Rest(h)) == Some(h)
  {
    if h.region == None {
      SplitOnceFindsNone(h.slug, '.');
    } else {
      RegionHasNoDot(h.region.value);
      SplitOnceFindsFirst(h.slug, h.region.value, '.');
    }
  }

  lemma HostOfOnlyRest(rest: string)
    requires HostOf(rest).Some?
    ensures ValidParts(HostOf(rest).value) && rest == Rest(HostOf(rest).value)
  {
    SplitOnceIs(rest, '.');
  }

  /** A host is accepted exactly when it is written from valid parts, and reading undoes the writing;
      so two valid hosts are written alike only if they are the same. */
  lemma RelayHostIff(host: string, domain: string, h: Host)
    ensures RelayHost(host, domain) == Some(h) <==> ValidParts(h) && host == Format(h, domain)
  {
    if RelayHost(host, domain) == Some(h) {
      var dotted := StripSuffix(host, domain).value;
      var rest := StripSuffix(dotted, ".").value;
      assert host == dotted + domain && dotted == rest + ".";
      HostOfOnlyRest(rest);
    }
    if ValidParts(h) {
      var text := Format(h, domain);
      HostOfRest(h);
      assert text == Rest(h) + "." + domain;
      assert text[..|text| - |domain|] == Rest(h) + ".";
      assert (Rest(h) + ".")[..|Rest(h)|] == Rest(h);
    }
  }

  datatype Route = Route(region: string, hostname: string, url: string)

  datatype Relay = Relay(
    slug: string, hostname: string, url: string, home: string, backup: Option<string>, connect: seq<Route>)

  const HTTPS := "https://"

  /** Where control connections are kept: home, then backup. */
  function RegionsOf(r: Relay): seq<string> { [r.home] + if r.backup.Some? then [r.backup.value] else [] }

  predicate RouteOk(r: Relay, route: Route, region: string) {
    && route.region == region
    && route.hostname == r.slug + "." + region + "." + RELAY_DOMAIN
    && route.url == HTTPS + route.hostname
  }

  predicate Validates(r: Relay) {
    var regions := RegionsOf(r);
    && ValidSlug(r.slug)
    && r.hostname == r.slug + "." + RELAY_DOMAIN
    && r.url == HTTPS + r.hostname
    && (forall code <- regions :: ValidRegion(code))
    && r.backup != Some(r.home)
    && |r.connect| == |regions|
    && (forall k :: 0 <= k < |regions| ==> RouteOk(r, r.connect[k], regions[k]))
  }

  /** Every address of a validated relay is a relay host of its own slug: the public one without a
      region, the routes with home, then backup, which differ. */
  lemma ValidatedRelayIsItsOwn(r: Relay)
    requires Validates(r)
    ensures RelayHost(r.hostname, RELAY_DOMAIN) == Some(Host(r.slug, None)) && r.url == HTTPS + r.hostname
    ensures |r.connect| == |RegionsOf(r)|
    ensures forall k :: 0 <= k < |r.connect| ==>
              && RelayHost(r.connect[k].hostname, RELAY_DOMAIN) == Some(Host(r.slug, Some(RegionsOf(r)[k])))
              && r.connect[k].url == HTTPS + r.connect[k].hostname
    ensures forall j, k :: 0 <= j < k < |r.connect| ==> r.connect[j].hostname != r.connect[k].hostname
  {
    RelayHostIff(r.hostname, RELAY_DOMAIN, Host(r.slug, None));
    forall k | 0 <= k < |r.connect|
      ensures RelayHost(r.connect[k].hostname, RELAY_DOMAIN) == Some(Host(r.slug, Some(RegionsOf(r)[k])))
    {
      assert RouteOk(r, r.connect[k], RegionsOf(r)[k]) && ValidRegion(RegionsOf(r)[k]);
      RelayHostIff(r.connect[k].hostname, RELAY_DOMAIN, Host(r.slug, Some(RegionsOf(r)[k])));
    }
  }

  /** Only what reads back as its own addresses validates. */
  lemma OnlyItsOwnValidates(r: Relay)
    ensures Validates(r) <==>
              && RelayHost(r.hostname, RELAY_DOMAIN) == Some(Host(r.slug, None)) && r.url == HTTPS + r.hostname
              && r.backup != Some(r.home) && |r.connect| == |RegionsOf(r)|
              && forall k :: 0 <= k < |r.connect| ==>
                   && r.connect[k].region == RegionsOf(r)[k]
                   && RelayHost(r.connect[k].hostname, RELAY_DOMAIN) == Some(Host(r.slug, Some(RegionsOf(r)[k])))
                   && r.connect[k].url == HTTPS + r.connect[k].hostname
  {
    RelayHostIff(r.hostname, RELAY_DOMAIN, Host(r.slug, None));
    if |r.connect| == |RegionsOf(r)| {
      forall k | 0 <= k < |r.connect|
        ensures RelayHost(r.connect[k].hostname, RELAY_DOMAIN) == Some(Host(r.slug, Some(RegionsOf(r)[k]))) <==>
                && ValidSlug(r.slug) && ValidRegion(RegionsOf(r)[k])
                && r.connect[k].hostname == r.slug + "." + RegionsOf(r)[k] + "." + RELAY_DOMAIN
      {
        RelayHostIff(r.connect[k].hostname, RELAY_DOMAIN, Host(r.slug, Some(RegionsOf(r)[k])));
      }
    }
  }
}
