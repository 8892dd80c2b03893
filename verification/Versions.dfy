/**
  Which release is newest (crates/hub/src/versions.rs): reading a version, comparing two, and taking
  the highest of a listing and of several feeds.
*/
module Versions {
  import opened Wrappers
  import opened Strings

  const U64_MAX: nat := 0xffff_ffff_ffff_ffff

  datatype Order = Less | Equal | Greater

  function Reversed(o: Order): Order {
    match o
    case Less => Greater
    case Equal => Equal
    case Greater => Less
  }

  function Then(o: Order, next: Order): Order { if o == Equal then next else o }

  function DigitOf(c: char): nat
    requires IsDigit(c)
  {
    c as int - '0' as int
  }

  predicate AllDigits(s: string) { forall c <- s :: IsDigit(c) }

  function ValueOf(s: string): nat
    requires AllDigits(s)
  {
    if s == "" then 0 else 10 * ValueOf(s[..|s| - 1]) + DigitOf(s[|s| - 1])
  }

  /** A decimal number that fits in 64 bits. The plus sign that it might start with elsewhere was split
      off with the build metadata. */
  function ParseU64(s: string): Option<nat> {
    if s != "" && AllDigits(s) && ValueOf(s) <= U64_MAX then Some(ValueOf(s)) else None
  }

  function Split(s: string, c: char): (parts: seq<string>)
    ensures parts != []
    decreases |s|
  {
    if s == "" then [""]
    else
      var rest := Split(s[1..], c);
      if s[0] == c then [""] + rest else [[s[0]] + rest[0]] + rest[1..]
  }

  datatype Version = Version(major: nat, minor: nat, patch: nat, pre: seq<string>)

  function ParseCore(core: string, pre: seq<string>): Option<Version> {
    var parts := Split(core, '.');
    if |parts| != 3 then None
    else
      var major, minor, patch := ParseU64(parts[0]), ParseU64(parts[1]), ParseU64(parts[2]);
      if major.Some? && minor.Some? && patch.Some? then Some(Version(major.value, minor.value, patch.value, pre))
      else None
  }

  function WithoutBuild(version: string): string {
    match SplitOnce(version, '+')
    case Some((before, _)) => before
    case None => version
  }

  function Parse(version: string): Option<Version> {
    match SplitOnce(WithoutBuild(version), '-')
    case Some((core, pre)) => ParseCore(core, Split(pre, '.'))
    case None => ParseCore(WithoutBuild(version), [])
  }

  function NumberOrder(a: nat, b: nat): Order { if a < b then Less else if a == b then Equal else Greater }

  function TextOrder(s: string, t: string): Order
    decreases |s|
  {
    if s == "" || t == "" then NumberOrder(|s|, |t|)
    else if s[0] != t[0] then (if s[0] < t[0] then Less else Greater)
    else TextOrder(s[1..], t[1..])
  }

  function IdentifierOrder(x: string, y: string): Order {
    match (ParseU64(x), ParseU64(y))
    case (Some(m), Some(n)) => NumberOrder(m, n)
    case (Some(_), None) => Less
    case (None, Some(_)) => Greater
    case (None, None) => TextOrder(x, y)
  }

  /** Identifier by identifier, then by their number. */
  function FieldsOrder(a: seq<string>, b: seq<string>): Order
    decreases |a|
  {
    if a == [] || b == [] then NumberOrder(|a|, |b|)
    else Then(IdentifierOrder(a[0], b[0]), FieldsOrder(a[1..], b[1..]))
  }

  function CoreOrder(a: Version, b: Version): Order {
    Then(NumberOrder(a.major, b.major), Then(NumberOrder(a.minor, b.minor), NumberOrder(a.patch, b.patch)))
  }

  /** A pre-release sorts before its release. */
  function PreOrder(a: seq<string>, b: seq<string>): Order {
    if a == [] || b == [] then NumberOrder(if a == [] then 1 else 0, if b == [] then 1 else 0)
    else FieldsOrder(a, b)
  }

  function VersionOrder(a: Version, b: Version): Order { Then(CoreOrder(a, b), PreOrder(a.pre, b.pre)) }

  method Compare(a: Version, b: Version) returns (order: Order)
    ensures order == VersionOrder(a, b)
  {
    order := CoreOrder(a, b);
    if order != Equal {
      return;
    }
    if a.pre == [] && b.pre == [] {
      return Equal;
    }
    if a.pre == [] {
      return Greater;
    }
    if b.pre == [] {
      return Less;
    }
    var i := 0;
    while i < |a.pre| && i < |b.pre|
      invariant i <= |a.pre| && i <= |b.pre|
      invariant FieldsOrder(a.pre[i..], b.pre[i..]) == FieldsOrder(a.pre, b.pre)
    {
      order := IdentifierOrder(a.pre[i], b.pre[i]);
      if order != Equal {
        return;
      }
      i := i + 1;
    }
    order := NumberOrder(|a.pre|, |b.pre|);
  }

  predicate IsNewer(candidate: string, current: string) {
    match (Parse(candidate), Parse(current))
    case (Some(a), Some(b)) => VersionOrder(a, b) == Greater
    case _ => false
  }

  function ReleaseVersion(tag: string): Option<string> {
    if tag != "" && tag[0] == 'v' && Parse(tag[1..]).Some? then Some(tag[1..]) else None
  }

  /** A release of a listing; a flag that is missing or not a boolean reads as false. */
  datatype Release = Release(tag: Option<string>, draft: bool, prerelease: bool)

  function Named(r: Release): Option<string> {
    if r.draft || r.prerelease || r.tag == None then None else ReleaseVersion(r.tag.value)
  }

  function Best(best: Option<string>, version: string): string {
    if best == None || IsNewer(version, best.value) then version else best.value
  }

  /** The listing, if it is one. */
  function NewestRelease(releases: Option<seq<Release>>): Option<string> {
    if releases == None then None else NewestIn(releases.value)
  }

  function NewestIn(releases: seq<Release>): Option<string> {
    if releases == [] then None
    else
      var best := NewestIn(releases[..|releases| - 1]);
      match Named(releases[|releases| - 1])
      case None => best
      case Some(version) => Some(Best(best, version))
  }

  lemma {:induction false} TextOrderReverses(s: string, t: string)
    ensures TextOrder(t, s) == Reversed(TextOrder(s, t))
    ensures TextOrder(s, t) == Equal <==> s == t
    decreases |s|
  {
    if s != "" && t != "" && s[0] == t[0] {
      TextOrderReverses(s[1..], t[1..]);
      assert s == [s[0]] + s[1..] && t == [t[0]] + t[1..];
    }
  }

  /** At most, and equal only if all three are. */
  ghost predicate Chains(ab: Order, bc: Order, ac: Order) {
    ab != Greater && bc != Greater ==> ac != Greater && (ac == Equal ==> ab == Equal && bc == Equal)
  }

  lemma {:induction false} TextOrderChains(s: string, t: string, u: string)
    ensures Chains(TextOrder(s, t), TextOrder(t, u), TextOrder(s, u))
    decreases |s|
  {
    if s != "" && t != "" && u != "" && s[0] == t[0] == u[0] {
      TextOrderChains(s[1..], t[1..], u[1..]);
    }
  }

  lemma IdentifierOrderChains(x: string, y: string, z: string)
    ensures Chains(IdentifierOrder(x, y), IdentifierOrder(y, z), IdentifierOrder(x, z))
    ensures IdentifierOrder(y, x) == Reversed(IdentifierOrder(x, y))
    ensures IdentifierOrder(x, x) == Equal
  {
    TextOrderChains(x, y, z);
    TextOrderReverses(x, y);
    TextOrderReverses(x, x);
  }

  lemma {:induction false} FieldsOrderChains(a: seq<string>, b: seq<string>, c: seq<string>)
    ensures Chains(FieldsOrder(a, b), FieldsOrder(b, c), FieldsOrder(a, c))
    decreases |a|
  {
    if a != [] && b != [] && c != [] {
      IdentifierOrderChains(a[0], b[0], c[0]);
      IdentifierOrderChains(b[0], c[0], a[0]);
      FieldsOrderChains(a[1..], b[1..], c[1..]);
    }
  }

  lemma {:induction false} FieldsOrderReverses(a: seq<string>, b: seq<string>)
    ensures FieldsOrder(b, a) == Reversed(FieldsOrder(a, b))
    ensures FieldsOrder(a, a) == Equal
    decreases |a|
  {
    if a != [] {
      IdentifierOrderChains(a[0], a[0], a[0]);
      FieldsOrderReverses(a[1..], if b == [] then [] else b[1..]);
      if b != [] {
        IdentifierOrderChains(a[0], b[0], a[0]);
      }
    }
  }

  /** Comparing is a total preorder. */
  lemma OrderIsTotalPreorder(a: Version, b: Version, c: Version)
    ensures VersionOrder(a, a) == Equal
    ensures VersionOrder(b, a) == Reversed(VersionOrder(a, b))
    ensures Chains(VersionOrder(a, b), VersionOrder(b, c), VersionOrder(a, c))
  {
    FieldsOrderReverses(a.pre, b.pre);
    FieldsOrderChains(a.pre, b.pre, c.pre);
  }

  lemma GreaterIsStrict(a: Version, b: Version, c: Version)
    ensures VersionOrder(a, a) != Greater
    ensures VersionOrder(a, b) == Greater ==> VersionOrder(b, a) != Greater
    ensures VersionOrder(a, b) == Greater && VersionOrder(b, c) == Greater ==> VersionOrder(a, c) == Greater
    ensures VersionOrder(a, c) == Greater ==> VersionOrder(a, b) == Greater || VersionOrder(b, c) == Greater
  {
    OrderIsTotalPreorder(a, b, c);
    OrderIsTotalPreorder(c, b, a);
    OrderIsTotalPreorder(b, c, a);
    OrderIsTotalPreorder(a, c, b);
  }

  /** Being newer is a strict order on everything, readable or not. */
  lemma NewerIsStrictOrder(a: string, b: string, c: string)
    ensures !IsNewer(a, a)
    ensures IsNewer(a, b) ==> !IsNewer(b, a)
    ensures IsNewer(a, b) && IsNewer(b, c) ==> IsNewer(a, c)
    ensures IsNewer(a, c) && Parse(b).Some? ==> IsNewer(a, b) || IsNewer(b, c)
  {
    var x, y, z := Parse(a), Parse(b), Parse(c);
    if x.Some? {
      GreaterIsStrict(x.value, x.value, x.value);
      if y.Some? {
        GreaterIsStrict(x.value, y.value, x.value);
        if z.Some? {
          GreaterIsStrict(x.value, y.value, z.value);
        }
      }
    }
  }

  lemma {:induction false} NewestInIsNewest(releases: seq<Release>)
    ensures NewestIn(releases) == None <==> forall r <- releases :: Named(r) == None
    ensures NewestIn(releases).Some? ==>
              && Parse(NewestIn(releases).value).Some?
              && (exists r <- releases :: Named(r) == NewestIn(releases))
              && forall r <- releases :: Named(r).Some? ==> !IsNewer(Named(r).value, NewestIn(releases).value)
    decreases |releases|
  {
    if releases != [] {
      var n := |releases| - 1;
      var before := releases[..n];
      NewestInIsNewest(before);
      assert releases == before + [releases[n]];
      if Named(releases[n]).Some? {
        var version := Named(releases[n]).value;
        NewerIsStrictOrder(version, version, version);
        if NewestIn(before).Some? {
          var best := NewestIn(before).value;
          forall r <- before | Named(r).Some? ensures !IsNewer(Named(r).value, Best(Some(best), version)) {
            NewerIsStrictOrder(Named(r).value, version, best);
          }
        }
      }
    }
  }

  /** The newest of a listing is one of its eligible releases, and none of them is newer; a listing that
      is no list has none. */
  lemma NewestIsNewest(listing: Option<seq<Release>>)
    ensures NewestRelease(listing) == None <==> listing == None || forall r <- listing.value :: Named(r) == None
    ensures NewestRelease(listing).Some? ==>
              var newest := NewestRelease(listing).value;
              && Parse(newest).Some?
              && (exists r <- listing.value :: Named(r) == Some(newest))
              && forall r <- listing.value :: Named(r).Some? ==> !IsNewer(Named(r).value, newest)
  {
    if listing.Some? {
      NewestInIsNewest(listing.value);
    }
  }

  /** Joined with "; ". */
  function Joined(errors: seq<string>): string {
    if errors == [] then ""
    else if |errors| == 1 then errors[0]
    else Joined(errors[..|errors| - 1]) + "; " + errors[|errors| - 1]
  }

  function ErrorsIn(answers: seq<Result<string, string>>): seq<string> {
    if answers == [] then []
    else
      var last := answers[|answers| - 1];
      ErrorsIn(answers[..|answers| - 1]) + if last.Err? then [last.error] else []
  }

  ghost predicate NoneNewer(answers: seq<Result<string, string>>, best: string) {
    Ok(best) in answers && forall a <- answers :: a.Ok? ==> !IsNewer(a.value, best)
  }

  ghost predicate AllFailed(answers: seq<Result<string, string>>) { forall a <- answers :: a.Err? }

  /** `newest` is what the answers so far come to, if there was one. */
  ghost predicate Known(answers: seq<Result<string, string>>, newest: Option<string>) {
    if newest.Some? then NoneNewer(answers, newest.value) else AllFailed(answers)
  }

  lemma KnownWithNext(answers: seq<Result<string, string>>, newest: Option<string>, next: string)
    requires Known(answers, newest)
    ensures Known(answers + [Ok(next)], Some(Best(newest, next)))
  {
    NewerIsStrictOrder(next, next, next);
    forall a <- answers | a.Ok? ensures !IsNewer(a.value, Best(newest, next)) {
      NewerIsStrictOrder(a.value, next, newest.value);
    }
  }

  lemma OneMoreAnswer(answers: seq<Result<string, string>>, newest: Option<string>, i: nat)
    requires i < |answers| && Known(answers[..i], newest)
    ensures Known(answers[..i + 1], if answers[i].Ok? then Some(Best(newest, answers[i].value)) else newest)
    ensures ErrorsIn(answers[..i + 1]) ==
            if answers[i].Ok? then ErrorsIn(answers[..i]) else ErrorsIn(answers[..i]) + [answers[i].error]
  {
    assert answers[..i + 1] == answers[..i] + [answers[i]];
    assert answers[..i + 1][..i] == answers[..i];
    if answers[i].Ok? {
      KnownWithNext(answers[..i], newest, answers[i].value);
    }
  }

  /** Asks every feed; one that fails is skipped, and only when all do it is an error. */
  method NewestOf(answers: seq<Result<string, string>>) returns (r: Result<string, string>)
    ensures r.Ok? ==> NoneNewer(answers, r.value)
    ensures r.Err? <==> AllFailed(answers)
    ensures r.Err? ==> r.error == Joined(ErrorsIn(answers))
  {
    var newest: Option<string> := None;
    var errors: seq<string> := [];
    var i := 0;
    while i < |answers|
      invariant i <= |answers| && Known(answers[..i], newest) && errors == ErrorsIn(answers[..i])
    {
      OneMoreAnswer(answers, newest, i);
      match answers[i] {
        case Ok(version) =>
          if newest == None || IsNewer(version, newest.value) {
            newest := Some(version);
          }
        case Err(error) =>
          errors := errors + [error];
      }
      i := i + 1;
    }
    assert answers[..i] == answers;
    if newest.Some? {
      return Ok(newest.value);
    }
    return Err(Joined(errors));
  }

  /** What is eligible: a release that is neither a draft nor a pre-release, and is tagged `v` and a version. */
  lemma NamedIff(r: Release, version: string)
    ensures Named(r) == Some(version) <==>
              !r.draft && !r.prerelease && r.tag == Some("v" + version) && Parse(version).Some?
  {
    if r.tag.Some? && r.tag.value != "" {
      assert r.tag.value == [r.tag.value[0]] + r.tag.value[1..];
    }
    assert ("v" + version)[1..] == version;
  }
}
