/** The regions the service offers, and which two a hub uses (crates/hub/src/cloud.rs). */
module RelayRegions {
  import opened Wrappers
  import opened Strings
  import opened RelayNames

  datatype RegionInfo = RegionInfo(code: string, title: string, host: string)

  datatype Regions = Regions(regions: seq<RegionInfo>, default: string)

  predicate IsControl(c: char) { c < ' ' || '\U{007f}' <= c <= '\U{009f}' }

  predicate InfoOk(r: RegionInfo) {
    && ValidRegion(r.code)
    && r.host == r.code + "." + RELAY_DOMAIN
    && 1 <= |r.title| <= 40
    && forall c <- r.title :: !IsControl(c)
  }

  predicate Known(regions: seq<RegionInfo>, code: string) { exists r <- regions :: r.code == code }

  /** Up to 16 well-formed regions, no two alike, the default among them. */
  ghost predicate WellFormed(rs: Regions) {
    && 1 <= |rs.regions| <= 16
    && (forall r <- rs.regions :: InfoOk(r))
    && (forall i, j :: 0 <= i < j < |rs.regions| ==> rs.regions[i].code != rs.regions[j].code)
    && Known(rs.regions, rs.default)
  }

  method ValidateRegions(rs: Regions) returns (ok: bool)
    ensures ok <==> WellFormed(rs)
  {
    var codes: set<string> := {};
    if rs.regions == [] || |rs.regions| > 16 {
      return false;
    }
    var i := 0;
    while i < |rs.regions|
      invariant i <= |rs.regions|
      invariant forall code :: code in codes <==> exists k :: 0 <= k < i && rs.regions[k].code == code
      invariant forall k :: 0 <= k < i ==> InfoOk(rs.regions[k])
      invariant forall j, k :: 0 <= j < k < i ==> rs.regions[j].code != rs.regions[k].code
    {
      var r := rs.regions[i];
      if !ValidRegion(r.code) || r.code in codes || !InfoOk(r) {
        assert r in rs.regions;
        return false;
      }
      codes := codes + {r.code};
      i := i + 1;
    }
    ok := rs.default in codes;
  }

  /** `auto` and `none` on the command line are never region codes. */
  lemma FlagsAreNoRegions(code: string)
    requires ValidRegion(code)
    ensures code != "auto" && code != "none"
  {
    SplitOnceIs(code, '-');
  }

  /** Every host of a listing is that of its own region: a slug in front of it makes a relay there. */
  lemma HostsAreTheirRegions(rs: Regions, r: RegionInfo, slug: string)
    requires WellFormed(rs) && r in rs.regions && ValidSlug(slug)
    ensures RelayHost(slug + "." + r.host, RELAY_DOMAIN) == Some(Host(slug, Some(r.code)))
  {
    assert InfoOk(r);
    assert slug + "." + r.host == Format(Host(slug, Some(r.code)), RELAY_DOMAIN);
    RelayHostIff(slug + "." + r.host, RELAY_DOMAIN, Host(slug, Some(r.code)));
  }

  datatype Entry = Entry(ms: nat, code: string)

  /** The regions that answered, in the order of the listing. */
  function Measured(regions: seq<RegionInfo>, latency: seq<Option<nat>>): seq<Entry>
    decreases |regions|
  {
    if regions == [] || latency == [] then []
    else if latency[0].Some? then [Entry(latency[0].value, regions[0].code)] + Measured(regions[1..], latency[1..])
    else Measured(regions[1..], latency[1..])
  }

  /** A stable sort by time. */
  function Sorted(entries: seq<Entry>): seq<Entry>
    decreases |entries|
  {
    if entries == [] then [] else Placed(entries[0], Sorted(entries[1..]))
  }

  function Placed(e: Entry, sorted: seq<Entry>): seq<Entry>
    decreases |sorted|
  {
    if sorted == [] || e.ms <= sorted[0].ms then [e] + sorted else [sorted[0]] + Placed(e, sorted[1..])
  }

  function FirstOther(ranked: seq<Entry>, skip: Option<string>): Option<string>
    decreases |ranked|
  {
    if ranked == [] then None
    else if skip != Some(ranked[0].code) then Some(ranked[0].code)
    else FirstOther(ranked[1..], skip)
  }

  /** The regions used now. */
  datatype Pair = Pair(home: string, backup: Option<string>)

  datatype Failure = UnknownRegion | SameRegion

  function UsableCurrent(rs: Regions, current: Option<Pair>): Option<Pair> {
    if current.Some? && Known(rs.regions, current.value.home) then current else None
  }

  predicate IsAuto(rs: Regions, current: Option<Pair>, home: Option<string>) {
    home == Some("auto") || (home == None && UsableCurrent(rs, current) == None)
  }

  method Choose(rs: Regions, latency: seq<Option<nat>>, current: Option<Pair>, home: Option<string>,
      backup: Option<string>)
    returns (r: Result<Pair, Failure>)
    ensures r == Chosen(rs, Measured(rs.regions, latency), current, home, backup)
  {
    var ranked: seq<Entry> := [];
    var i := 0;
    while i < |rs.regions| && i < |latency|
      invariant i <= |rs.regions| && i <= |latency|
      invariant ranked + Measured(rs.regions[i..], latency[i..]) == Measured(rs.regions, latency)
    {
      MeasuredOneMore(rs.regions, latency, i, ranked);
      if latency[i].Some? {
        ranked := ranked + [Entry(latency[i].value, rs.regions[i].code)];
      }
      i := i + 1;
    }
    assert Measured(rs.regions[i..], latency[i..]) == [];
    assert ranked == Measured(rs.regions, latency);
    ranked := Sorted(ranked);
    var usable := UsableCurrent(rs, current);
    var auto := home == Some("auto") || (home == None && usable == None);
    var newHome :=
      if auto then FirstOther(ranked, None).GetOr(rs.default)
      else if home.Some? then home.value
      else usable.value.home;
    if !Known(rs.regions, newHome) {
      return Err(UnknownRegion);
    }
    if backup.Some? {
      if backup.value == "none" {
        return Ok(Pair(newHome, None));
      } else if backup.value == newHome {
        return Err(SameRegion);
      } else if Known(rs.regions, backup.value) {
        return Ok(Pair(newHome, backup));
      }
      return Err(UnknownRegion);
    }
    if auto || usable == None {
      return Ok(Pair(newHome, FirstOther(ranked, Some(newHome))));
    }
    var kept := usable.value.backup;
    if kept.Some? && (kept.value == newHome || !Known(rs.regions, kept.value)) {
      kept := None;
    }
    return Ok(Pair(newHome, kept));
  }

  lemma MeasuredOneMore(regions: seq<RegionInfo>, latency: seq<Option<nat>>, i: nat, before: seq<Entry>)
    requires i < |regions| && i < |latency|
    requires before + Measured(regions[i..], latency[i..]) == Measured(regions, latency)
    ensures (if latency[i].Some? then before + [Entry(latency[i].value, regions[i].code)] else before)
            + Measured(regions[i + 1..], latency[i + 1..]) == Measured(regions, latency)
  {
    assert regions[i..][1..] == regions[i + 1..] && latency[i..][1..] == latency[i + 1..];
  }

  /** The home: measured, asked for, or the one in use. */
  function ChosenHome(rs: Regions, measured: seq<Entry>, current: Option<Pair>, home: Option<string>): string {
    if IsAuto(rs, current, home) then FirstOther(Sorted(measured), None).GetOr(rs.default)
    else if home.Some? then home.value
    else UsableCurrent(rs, current).value.home
  }

  /** The backup, when none is asked for. */
  function DefaultBackup(rs: Regions, measured: seq<Entry>, current: Option<Pair>, home: Option<string>,
      chosen: string): Option<string>
  {
    if IsAuto(rs, current, home) || UsableCurrent(rs, current) == None then FirstOther(Sorted(measured), Some(chosen))
    else
      match UsableCurrent(rs, current).value.backup
      case None => None
      case Some(b) => if b != chosen && Known(rs.regions, b) then Some(b) else None
  }

  function Chosen(rs: Regions, measured: seq<Entry>, current: Option<Pair>, home: Option<string>,
      backup: Option<string>): Result<Pair, Failure>
  {
    var chosen := ChosenHome(rs, measured, current, home);
    if !Known(rs.regions, chosen) then Err(UnknownRegion)
    else if backup == None then Ok(Pair(chosen, DefaultBackup(rs, measured, current, home, chosen)))
    else if backup.value == "none" then Ok(Pair(chosen, None))
    else if backup.value == chosen then Err(SameRegion)
    else if Known(rs.regions, backup.value) then Ok(Pair(chosen, backup))
    else Err(UnknownRegion)
  }

  /** `code` answered fastest of all but `skip`; of equals the first listed. */
  ghost predicate Fastest(measured: seq<Entry>, skip: Option<string>, code: string) {
    exists k :: 0 <= k < |measured| && measured[k].code == code && skip != Some(code) &&
                forall j :: 0 <= j < |measured| && skip != Some(measured[j].code) ==>
                  measured[k].ms < measured[j].ms || (measured[k].ms == measured[j].ms && k <= j)
  }

  ghost predicate NoneBut(measured: seq<Entry>, skip: Option<string>) {
    forall e <- measured :: skip == Some(e.code)
  }

  /** The index of the fastest: an independent reading of what the sort is for. */
  function BestAt(measured: seq<Entry>, skip: Option<string>): (k: nat)
    ensures k <= |measured|
    ensures k < |measured| ==> skip != Some(measured[k].code)
    decreases |measured|
  {
    if measured == [] then 0
    else
      var rest := BestAt(measured[1..], skip) + 1;
      if skip == Some(measured[0].code) then rest
      else if rest < |measured| && measured[rest].ms < measured[0].ms then rest
      else 0
  }

  lemma {:induction false} BestIsBest(measured: seq<Entry>, skip: Option<string>)
    ensures BestAt(measured, skip) == |measured| <==> NoneBut(measured, skip)
    ensures var k := BestAt(measured, skip);
            k < |measured| ==> forall j :: 0 <= j < |measured| && skip != Some(measured[j].code) ==>
                                 measured[k].ms < measured[j].ms || (measured[k].ms == measured[j].ms && k <= j)
    decreases |measured|
  {
    if measured != [] {
      BestIsBest(measured[1..], skip);
      assert measured == [measured[0]] + measured[1..];
    }
  }

  /** In front of a sorted list, among the entries not skipped. */
  ghost predicate InOrder(sorted: seq<Entry>)
    decreases |sorted|
  {
    sorted != [] ==> (forall e <- sorted :: sorted[0].ms <= e.ms) && InOrder(sorted[1..])
  }

  function FirstEntry(ranked: seq<Entry>, skip: Option<string>): Option<Entry>
    decreases |ranked|
  {
    if ranked == [] then None
    else if skip != Some(ranked[0].code) then Some(ranked[0])
    else FirstEntry(ranked[1..], skip)
  }

  lemma {:induction false} PlacedIn(e: Entry, sorted: seq<Entry>, skip: Option<string>)
    requires InOrder(sorted)
    ensures InOrder(Placed(e, sorted))
    ensures forall x :: x in Placed(e, sorted) <==> x == e || x in sorted
    ensures FirstEntry(Placed(e, sorted), skip) ==
              if skip == Some(e.code) then FirstEntry(sorted, skip)
              else if FirstEntry(sorted, skip) == None || e.ms <= FirstEntry(sorted, skip).value.ms then Some(e)
              else FirstEntry(sorted, skip)
    decreases |sorted|
  {
    if sorted != [] {
      if e.ms <= sorted[0].ms {
        assert Placed(e, sorted)[1..] == sorted;
        FirstIsIn(sorted, skip);
      } else {
        PlacedIn(e, sorted[1..], skip);
        assert Placed(e, sorted)[1..] == Placed(e, sorted[1..]);
        assert sorted == [sorted[0]] + sorted[1..];
      }
    }
  }

  lemma {:induction false} FirstIsIn(ranked: seq<Entry>, skip: Option<string>)
    ensures FirstEntry(ranked, skip).Some? ==> FirstEntry(ranked, skip).value in ranked
    ensures FirstOther(ranked, skip) ==
            if FirstEntry(ranked, skip) == None then None else Some(FirstEntry(ranked, skip).value.code)
    decreases |ranked|
  {
    if ranked != [] {
      FirstIsIn(ranked[1..], skip);
    }
  }

  lemma {:induction false} SortFindsBest(measured: seq<Entry>, skip: Option<string>)
    ensures InOrder(Sorted(measured))
    ensures FirstEntry(Sorted(measured), skip) ==
            var k := BestAt(measured, skip);
            if k < |measured| then Some(measured[k]) else None
    decreases |measured|
  {
    if measured != [] {
      SortFindsBest(measured[1..], skip);
      PlacedIn(measured[0], Sorted(measured[1..]), skip);
    }
  }

  /** The sort is there to find the fastest, and finds it. */
  lemma FirstOtherIsFastest(measured: seq<Entry>, skip: Option<string>)
    ensures var first := FirstOther(Sorted(measured), skip);
            if first.Some? then Fastest(measured, skip, first.value) else NoneBut(measured, skip)
  {
    SortFindsBest(measured, skip);
    FirstIsIn(Sorted(measured), skip);
    BestIsBest(measured, skip);
  }

  lemma {:induction false} MeasuredIsKnown(regions: seq<RegionInfo>, latency: seq<Option<nat>>)
    ensures forall e <- Measured(regions, latency) :: Known(regions, e.code)
    decreases |regions|
  {
    if regions != [] && latency != [] {
      MeasuredIsKnown(regions[1..], latency[1..]);
      assert regions[0] in regions && forall r <- regions[1..] :: r in regions;
    }
  }

  lemma FirstOtherIsKnown(rs: Regions, latency: seq<Option<nat>>, skip: Option<string>)
    ensures var first := FirstOther(Sorted(Measured(rs.regions, latency)), skip);
            first.Some? ==> Known(rs.regions, first.value) && skip != first
  {
    var measured := Measured(rs.regions, latency);
    FirstOtherIsFastest(measured, skip);
    MeasuredIsKnown(rs.regions, latency);
    var first := FirstOther(Sorted(measured), skip);
    if first.Some? {
      var k :| 0 <= k < |measured| && measured[k].code == first.value && skip != Some(first.value);
      assert measured[k] in measured;
    }
  }

  ghost predicate ValidPair(rs: Regions, p: Pair) {
    Known(rs.regions, p.home) && (p.backup.Some? ==> Known(rs.regions, p.backup.value) && p.backup != Some(p.home))
  }

  /** Whatever was measured and asked: what is chosen are known regions, and two different ones. */
  lemma ChosenIsValid(rs: Regions, latency: seq<Option<nat>>, current: Option<Pair>, home: Option<string>,
      backup: Option<string>)
    ensures var r := Chosen(rs, Measured(rs.regions, latency), current, home, backup);
            r.Ok? ==> ValidPair(rs, r.value)
  {
    FirstOtherIsKnown(rs, latency, Some(ChosenHome(rs, Measured(rs.regions, latency), current, home)));
  }

  /** What is asked for is what is chosen; a new home keeps the backup in use if it still can. */
  lemma FlagsAreHonoured(rs: Regions, latency: seq<Option<nat>>, current: Option<Pair>, home: Option<string>,
      backup: Option<string>)
    requires Chosen(rs, Measured(rs.regions, latency), current, home, backup).Ok?
    ensures var p := Chosen(rs, Measured(rs.regions, latency), current, home, backup).value;
            && (home.Some? && home.value != "auto" ==> p.home == home.value)
            && (backup.Some? ==> p.backup == if backup.value == "none" then None else backup)
            && (backup == None && home.Some? && home.value != "auto"
                && current.Some? && Known(rs.regions, current.value.home) ==>
                  var kept := current.value.backup;
                  p.backup ==
                  if kept.Some? && kept.value != home.value && Known(rs.regions, kept.value) then kept else None)
            && (home == None && current.Some? && Known(rs.regions, current.value.home) ==> p.home == current.value.home)
  {
  }

  /** For validated regions it fails exactly when an unknown region is asked for, or one region twice, and
      says which. */
  lemma ChoiceFailsIff(rs: Regions, latency: seq<Option<nat>>, current: Option<Pair>, home: Option<string>,
      backup: Option<string>)
    requires WellFormed(rs)
    ensures var measured := Measured(rs.regions, latency);
            var r := Chosen(rs, measured, current, home, backup);
            var badHome := home.Some? && home.value != "auto" && !Known(rs.regions, home.value);
            var twice := backup.Some? && backup.value != "none"
                         && backup.value == ChosenHome(rs, measured, current, home);
            var badBackup := backup.Some? && backup.value != "none" && !Known(rs.regions, backup.value);
            && (r == Err(UnknownRegion) <==> badHome || (badBackup && !twice))
            && (r == Err(SameRegion) <==> !badHome && twice)
  {
    FirstOtherIsKnown(rs, latency, None);
  }

  /** The home an automatic choice should make. */
  ghost predicate FastestOrDefault(rs: Regions, measured: seq<Entry>, home: string) {
    if measured == [] then home == rs.default else Fastest(measured, None, home)
  }

  lemma AutoHome(rs: Regions, latency: seq<Option<nat>>, current: Option<Pair>, home: Option<string>)
    requires WellFormed(rs) && IsAuto(rs, current, home)
    ensures var measured := Measured(rs.regions, latency);
            var chosen := ChosenHome(rs, measured, current, home);
            Known(rs.regions, chosen) && FastestOrDefault(rs, measured, chosen)
  {
    var measured := Measured(rs.regions, latency);
    FirstOtherIsFastest(measured, None);
    FirstOtherIsKnown(rs, latency, None);
    assert measured != [] ==> Sorted(measured) != [];
  }

  ghost predicate FastestOther(measured: seq<Entry>, p: Pair) {
    if p.backup.Some? then Fastest(measured, Some(p.home), p.backup.value) else NoneBut(measured, Some(p.home))
  }

  lemma AutoBackup(rs: Regions, latency: seq<Option<nat>>, current: Option<Pair>, home: Option<string>)
    requires WellFormed(rs) && IsAuto(rs, current, home)
    ensures var measured := Measured(rs.regions, latency);
            var r := Chosen(rs, measured, current, home, None);
            r.Ok? && FastestOther(measured, r.value)
  {
    var measured := Measured(rs.regions, latency);
    AutoHome(rs, latency, current, home);
    FirstOtherIsFastest(measured, Some(ChosenHome(rs, measured, current, home)));
  }

  /** An automatic choice takes the fastest region, or the default when none answered, and unless told
      otherwise the fastest of the others as its backup, if any other answered. */
  lemma AutoTakesTheFastest(rs: Regions, latency: seq<Option<nat>>, current: Option<Pair>, home: Option<string>,
      backup: Option<string>)
    requires WellFormed(rs)
    requires home == Some("auto") || (home == None && (current == None || !Known(rs.regions, current.value.home)))
    ensures var measured := Measured(rs.regions, latency);
            var r := Chosen(rs, measured, current, home, backup);
            && (r.Ok? ==> FastestOrDefault(rs, measured, r.value.home))
            && (backup == None ==> r.Ok? && FastestOther(measured, r.value))
  {
    AutoHome(rs, latency, current, home);
    AutoBackup(rs, latency, current, home);
  }

  /** Choosing again without flags keeps any valid pair, whatever is measured now. */
  lemma ChoosingAgainKeeps(rs: Regions, latency: seq<Option<nat>>, p: Pair)
    requires ValidPair(rs, p)
    ensures Chosen(rs, Measured(rs.regions, latency), Some(p), None, None) == Ok(p)
  {
  }

  /** So a choice, once made, stays until a flag or the listing changes it. */
  lemma ChoiceIsStable(rs: Regions, latency: seq<Option<nat>>, later: seq<Option<nat>>, current: Option<Pair>,
      home: Option<string>, backup: Option<string>)
    requires Chosen(rs, Measured(rs.regions, latency), current, home, backup).Ok?
    ensures var p := Chosen(rs, Measured(rs.regions, latency), current, home, backup).value;
            Chosen(rs, Measured(rs.regions, later), Some(p), None, None) == Ok(p)
  {
    ChosenIsValid(rs, latency, current, home, backup);
  }

  /** A home asked for without a pair in use to keep the backup of gets the fastest other one. */
  lemma NewHomeGetsFastestOther(rs: Regions, latency: seq<Option<nat>>, current: Option<Pair>, home: string)
    requires WellFormed(rs) && Known(rs.regions, home) && home != "auto"
    requires current == None || !Known(rs.regions, current.value.home)
    ensures var measured := Measured(rs.regions, latency);
            var r := Chosen(rs, measured, current, Some(home), None);
            r.Ok? && r.value.home == home && FastestOther(measured, r.value)
  {
    FirstOtherIsFastest(Measured(rs.regions, latency), Some(home));
  }
}
