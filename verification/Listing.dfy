/** The order in which regions are listed, and the keys they are looked up by (src/region.rs). */
module Listing {
  import opened Base
  import opened Events
  import opened Machine
  import opened Region
  import opened Registry
  import Text

  // ----- Display order -----

  /** No prefix comes before every prefix. */
  predicate PrefixLeq(a: Option<string>, b: Option<string>) {
    a.None? || (b.Some? && Text.Leq(a.value, b.value))
  }

  /** By normalized name, prefix, section and id. */
  predicate RegionLeq(a: RegionState, b: RegionState) {
    if a.normalizedName != b.normalizedName then Text.Leq(a.normalizedName, b.normalizedName)
    else if a.regionPrefix != b.regionPrefix then PrefixLeq(a.regionPrefix, b.regionPrefix)
    else if a.section != b.section then a.section < b.section
    else Text.Leq(a.regionId, b.regionId)
  }

  lemma RegionLeqTotal(a: RegionState, b: RegionState)
    ensures RegionLeq(a, b) || RegionLeq(b, a)
  {
    Text.LeqTotal(a.normalizedName, b.normalizedName);
    Text.LeqTotal(OrEmpty(a.regionPrefix), OrEmpty(b.regionPrefix));
    Text.LeqTotal(a.regionId, b.regionId);
  }

  lemma RegionLeqAntisymmetric(a: RegionState, b: RegionState)
    requires RegionLeq(a, b) && RegionLeq(b, a)
    ensures a.regionId == b.regionId
  {
    if a.normalizedName != b.normalizedName {
      Text.LeqAntisymmetric(a.normalizedName, b.normalizedName);
    } else if a.regionPrefix != b.regionPrefix {
      Text.LeqAntisymmetric(OrEmpty(a.regionPrefix), OrEmpty(b.regionPrefix));
    } else {
      Text.LeqAntisymmetric(a.regionId, b.regionId);
    }
  }

  lemma PrefixLeqTransitive(a: Option<string>, b: Option<string>, c: Option<string>)
    requires PrefixLeq(a, b) && PrefixLeq(b, c)
    ensures PrefixLeq(a, c) && (a == c ==> a == b)
  {
    hide Text.Leq;
    if a.Some? {
      Text.LeqTransitive(a.value, b.value, c.value);
      if a == c { Text.LeqAntisymmetric(a.value, b.value); }
    }
  }

  lemma RegionLeqTransitive(a: RegionState, b: RegionState, c: RegionState)
    requires RegionLeq(a, b) && RegionLeq(b, c)
    ensures RegionLeq(a, c)
  {
    hide Text.Leq, PrefixLeq;
    if a.normalizedName != b.normalizedName && b.normalizedName != c.normalizedName {
      Text.LeqTransitive(a.normalizedName, b.normalizedName, c.normalizedName);
      if a.normalizedName == c.normalizedName { Text.LeqAntisymmetric(a.normalizedName, b.normalizedName); }
    } else if a.normalizedName == b.normalizedName == c.normalizedName {
      if a.regionPrefix != b.regionPrefix && b.regionPrefix != c.regionPrefix {
        PrefixLeqTransitive(a.regionPrefix, b.regionPrefix, c.regionPrefix);
      } else if a.regionPrefix == b.regionPrefix == c.regionPrefix && a.section == b.section == c.section {
        Text.LeqTransitive(a.regionId, b.regionId, c.regionId);
      }
    }
  }

  /** Ascending, every id once. */
  ghost predicate Displayed(out: seq<RegionState>) {
    forall i, j :: 0 <= i < j < |out| ==> RegionLeq(out[i], out[j]) && out[i].regionId != out[j].regionId
  }

  /** By name, then prefix with none first, then section, then id. */
  ghost predicate DisplayOrder(out: seq<RegionState>) {
    forall i, j :: 0 <= i < j < |out| ==>
      var a, b := out[i], out[j];
      && Text.Leq(a.normalizedName, b.normalizedName)
      && (a.normalizedName == b.normalizedName ==>
            (a.regionPrefix.None? || (b.regionPrefix.Some? && Text.Leq(a.regionPrefix.value, b.regionPrefix.value)))
            && (a.regionPrefix == b.regionPrefix ==>
                  a.section <= b.section && (a.section == b.section ==> Text.Leq(a.regionId, b.regionId))))
  }

  lemma DisplayedInOrder(out: seq<RegionState>)
    requires Displayed(out)
    ensures DisplayOrder(out)
  {
    hide Text.Leq;
    forall i, j | 0 <= i < j < |out| ensures RegionLeq(out[i], out[j]) && ReflexiveTexts(out[i]) {
      TextsReflexive(out[i]);
    }
  }

  predicate ReflexiveTexts(r: RegionState) {
    Text.Leq(r.normalizedName, r.normalizedName) && Text.Leq(OrEmpty(r.regionPrefix), OrEmpty(r.regionPrefix))
  }

  lemma TextsReflexive(r: RegionState)
    ensures ReflexiveTexts(r)
  {
    Text.LeqReflexive(r.normalizedName);
    Text.LeqReflexive(OrEmpty(r.regionPrefix));
  }

  /** `out` displays exactly the given regions. */
  ghost predicate Lists(out: seq<RegionState>, regions: map<string, RegionState>) {
    Displayed(out) && forall x :: x in out <==> x in regions.Values
  }

  function InsertInto(x: RegionState, s: seq<RegionState>): seq<RegionState> {
    if s == [] then [x] else if RegionLeq(x, s[0]) then [x] + s else [s[0]] + InsertInto(x, s[1..])
  }

  function SortRegions(s: seq<RegionState>): seq<RegionState> {
    if s == [] then [] else InsertInto(s[0], SortRegions(s[1..]))
  }

  lemma {:induction false} InsertIntoDisplays(x: RegionState, s: seq<RegionState>)
    requires Displayed(s) && forall y :: y in s ==> y.regionId != x.regionId
    ensures Displayed(InsertInto(x, s)) && forall y :: y in InsertInto(x, s) <==> y == x || y in s
  {
    hide RegionLeq;
    if s != [] {
      RegionLeqTotal(x, s[0]);
      if RegionLeq(x, s[0]) {
        forall i | 0 <= i < |s| ensures RegionLeq(x, s[i]) {
          if i > 0 { RegionLeqTransitive(x, s[0], s[i]); }
        }
      } else {
        assert s == [s[0]] + s[1..];
        InsertIntoDisplays(x, s[1..]);
        var t := InsertInto(x, s[1..]);
        forall y | y in t ensures RegionLeq(s[0], y) && s[0].regionId != y.regionId {
          if y != x {
            var i :| 0 <= i < |s[1..]| && s[1..][i] == y;
            assert s[i + 1] == y;
          }
        }
      }
    }
  }

  predicate DistinctRegionIds(s: seq<RegionState>) {
    forall i, j :: 0 <= i < j < |s| ==> s[i].regionId != s[j].regionId
  }

  lemma {:induction false} SortRegionsDisplays(s: seq<RegionState>)
    requires DistinctRegionIds(s)
    ensures Displayed(SortRegions(s)) && forall y :: y in SortRegions(s) <==> y in s
  {
    hide RegionLeq;
    if s != [] {
      var rest := s[1..];
      assert s == [s[0]] + rest;
      assert forall i :: 0 <= i < |rest| ==> rest[i] == s[i + 1];
      SortRegionsDisplays(rest);
      InsertIntoDisplays(s[0], SortRegions(rest));
    }
  }

  /** Only one list displays given regions: the listing is a function of the registry. */
  lemma {:induction false} ListingUnique(a: seq<RegionState>, b: seq<RegionState>)
    requires Displayed(a) && Displayed(b) && forall x :: x in a <==> x in b
    ensures a == b
  {
    hide RegionLeq;
    if b != [] { assert b[0] in a; }
    if a != [] {
      assert a[0] in b;
      var i :| 0 <= i < |b| && b[i] == a[0];
      var j :| 0 <= j < |a| && a[j] == b[0];
      if i > 0 {
        assert RegionLeq(b[0], a[0]);
        RegionLeqAntisymmetric(a[0], b[0]);
        assert false;
      }
      RestsSame(a, b);
      RestsSame(b, a);
      ListingUnique(a[1..], b[1..]);
      assert a == [a[0]] + a[1..] && b == [b[0]] + b[1..];
    }
  }

  lemma RestsSame(a: seq<RegionState>, b: seq<RegionState>)
    requires a != [] && b != [] && a[0] == b[0] && Displayed(a) && Displayed(b) && forall x :: x in a ==> x in b
    ensures Displayed(a[1..]) && forall x :: x in a[1..] ==> x in b[1..]
  {
    hide RegionLeq;
    assert forall i :: 0 <= i < |a| - 1 ==> a[1..][i] == a[i + 1];
    forall x | x in a[1..] ensures x in b[1..] {
      var i :| 0 <= i < |a[1..]| && a[1..][i] == x;
      assert a[i + 1] in b;
      var j :| 0 <= j < |b| && b[j] == x;
      assert j > 0;
      assert b[1..][j - 1] == x;
    }
  }

  /** What reading one more event of a log does to the regions read so far. */
  lemma ReadStep(log: seq<VectorEvent>, i: nat)
    requires i < |log|
    ensures IsRegionCreate(log[i]) && RegionFromEvent(log[i]).Err? ==> !RegionsListable(log)
    ensures !IsRegionCreate(log[i]) || RegionFromEvent(log[i]).Ok? ==>
      (RegionsListable(log[..i + 1]) <==> RegionsListable(log[..i]))
    ensures RegionMap(log[..i + 1]) ==
      if IsRegionCreate(log[i]) && RegionFromEvent(log[i]).Ok? then
        RegionMap(log[..i])[log[i].entityId := RegionFromEvent(log[i]).value]
      else RegionMap(log[..i])
  {
    hide RegionFromEvent, IsRegionCreate;
    assert log[i] in log;
    assert log[..i + 1] == log[..i] + [log[i]];
    assert log[..i + 1][..i] == log[..i];
  }

  lemma EmptyListing()
    ensures RegionsListable([]) && RegionMap([]) == map[]
  {
  }

  lemma RegionIdIsEntity(e: VectorEvent)
    ensures RegionFromEvent(e).Ok? ==> RegionFromEvent(e).value.regionId == e.entityId
  {
  }

  ghost predicate KeyedById(regions: map<string, RegionState>) {
    forall id :: id in regions ==> regions[id].regionId == id
  }

  /** The regions of a map in ascending order of their ids. */
  method InDisplayOrder(regions: map<string, RegionState>) returns (out: seq<RegionState>)
    requires KeyedById(regions)
    ensures Lists(out, regions) && DisplayOrder(out)
  {
    hide RegionLeq, DisplayOrder;
    var ids := Text.KeysInOrder(regions.Keys);
    Text.SortedKeysSorted(regions.Keys);
    assert forall id :: id in ids <==> id in Elems(ids);
    var values := seq(|ids|, i requires 0 <= i < |ids| => assert ids[i] in ids; regions[ids[i]]);
    forall x ensures x in values <==> x in regions.Values {
      if x in regions.Values {
        var id :| id in regions && regions[id] == x;
        assert id in ids;
        var i :| 0 <= i < |ids| && ids[i] == id;
        assert values[i] == x;
      }
    }
    SortRegionsDisplays(values);
    out := SortRegions(values);
    DisplayedInOrder(out);
  }

  /** The matching region that is displayed first. */
  ghost predicate IsFirstMatch(x: RegionState, regions: map<string, RegionState>,
                               name: string, prefix: Option<string>) {
    && x in regions.Values && MatchesKey(x, name, prefix)
    && forall y :: y in regions.Values && MatchesKey(y, name, prefix) ==> y == x || RegionLeq(x, y)
  }

  lemma FirstMatch(out: seq<RegionState>, regions: map<string, RegionState>, i: nat, name: string,
                   prefix: Option<string>)
    requires Lists(out, regions) && i < |out| && MatchesKey(out[i], name, prefix)
    requires forall j :: 0 <= j < i ==> !MatchesKey(out[j], name, prefix)
    ensures IsFirstMatch(out[i], regions, name, prefix)
  {
    hide RegionLeq, MatchesKey;
    forall y | y in regions.Values && MatchesKey(y, name, prefix) ensures y == out[i] || RegionLeq(out[i], y) {
      assert y in out;
      var j :| 0 <= j < |out| && out[j] == y;
    }
  }

  // ----- Lookup keys -----

  function LookupKey(prefix: Option<string>, normalizedName: string): string {
    OrEmpty(prefix) + "::" + normalizedName
  }

  function RequestKey(r: RegionRequest): string {
    LookupKey(NormalizedPrefix(r.regionPrefix), NormalizedName(r.regionName))
  }

  /** A stored region normalizes its stored names once more. */
  function RegionKey(region: RegionState): string {
    LookupKey(NormalizedPrefix(region.regionPrefix), NormalizedName(region.normalizedName))
  }

  /** A created region is found under its own stored names, and has the key of its request. */
  lemma LookupKeyReadsBack(env: Foreign, r: RegionRequest, actor: string, e: VectorEvent)
    ensures var region := RequestedRegion(env, r, actor, e);
      && RegionKey(region) == RequestKey(r)
      && MatchesKey(region, r.regionName, r.regionPrefix)
      && MatchesKey(region, region.normalizedName, region.regionPrefix)
  {
    hide Text.Lower, Text.Upper, Text.Trim;
    PrefixReadsBack(r.regionPrefix);
    Text.LowerTrimIdempotent(r.regionName);
  }
}
