/** Listing a tenant's zones page by page (src/lib/RestApi.cpp, listZones). */
module Paging {
  import opened Bytes
  import opened Keys
  import opened Scans

  ghost predicate NoSlash(s: Bytes) {
    forall i :: 0 <= i < |s| ==> s[i] != SLASH
  }

  /** Index of the first slash at or after i, or |key|. */
  function FindSlash(key: Bytes, i: nat): (p: nat)
    requires i <= |key|
    ensures i <= p <= |key|
    ensures forall j :: i <= j < p ==> key[j] != SLASH
    ensures p < |key| ==> key[p] == SLASH
    decreases |key| - i
  {
    if i == |key| || key[i] == SLASH then i else FindSlash(key, i + 1)
  }

  /** RealKey::getFirstAndSecondStr: tenant and zone of a TZONE key. */
  function FirstAndSecond(key: Bytes): (Bytes, Bytes)
    requires key != []
  {
    var p := FindSlash(key, 1);
    if p < |key| then (key[1..p], key[p + 1..]) else ([], [])
  }

  /** A TZONE key belongs to a tenant exactly when it is that tenant's key. */
  lemma {:induction false} TzoneKeySplits(tenant: Bytes, zone: Bytes)
    requires NoSlash(tenant)
    ensures FirstAndSecond(TzoneKey(tenant, zone)) == (tenant, zone)
  {
    var key := TzoneKey(tenant, zone);
    assert key == [TZONE] + tenant + [SLASH] + zone;
    var p := FindSlash(key, 1);
    assert key[|tenant| + 1] == SLASH;
    assert forall j :: 1 <= j <= |tenant| ==> key[j] == tenant[j - 1];
    assert p == |tenant| + 1;
    assert key[1..p] == tenant && key[p + 1..] == zone;
  }

  ghost predicate IsZoneOf(key: Bytes, tenant: Bytes) {
    exists zone :: key == TzoneKey(tenant, zone)
  }

  lemma {:induction false} SplitNamesKey(key: Bytes, tenant: Bytes)
    requires key != [] && key[0] == TZONE && tenant != [] && NoSlash(tenant)
    ensures FirstAndSecond(key).0 == tenant <==> IsZoneOf(key, tenant)
    ensures FirstAndSecond(key).0 == tenant ==> key == TzoneKey(tenant, FirstAndSecond(key).1)
  {
    var p := FindSlash(key, 1);
    if FirstAndSecond(key).0 == tenant {
      assert key == [TZONE] + key[1..p] + [SLASH] + key[p + 1..];
      assert key == TzoneKey(tenant, key[p + 1..]);
    }
    if IsZoneOf(key, tenant) {
      var zone :| key == TzoneKey(tenant, zone);
      TzoneKeySplits(tenant, zone);
    }
  }

  lemma {:induction false} TzoneOrder(tenant: Bytes, a: Bytes, b: Bytes)
    ensures Less(TzoneKey(tenant, a), TzoneKey(tenant, b)) <==> Less(a, b)
  {
    var p := [TZONE] + tenant + [SLASH];
    assert TzoneKey(tenant, a) == p + a && TzoneKey(tenant, b) == p + b;
    CommonPrefix(p, a, b);
  }

  /** A tenant's keys are contiguous. */
  lemma {:induction false} TenantContiguous(tenant: Bytes, a: Bytes, key: Bytes, b: Bytes)
    requires Less(TzoneKey(tenant, a), key) && Less(key, TzoneKey(tenant, b))
    ensures IsZoneOf(key, tenant)
  {
    var p := [TZONE] + tenant + [SLASH];
    assert TzoneKey(tenant, a) == p + a && TzoneKey(tenant, b) == p + b;
    Between(p, a, key, b);
    assert key == p + key[|p|..];
    assert key == TzoneKey(tenant, key[|p|..]);
  }

  /** The tenant's zones strictly after `from`, in the order of the index. */
  function ZonesAfter(keys: seq<Bytes>, tenant: Bytes, from: Bytes): seq<Bytes> {
    if keys == [] then []
    else
      var last := keys[|keys| - 1];
      ZonesAfter(keys[..|keys| - 1], tenant, from) +
      if last != [] && last[0] == TZONE && FirstAndSecond(last).0 == tenant && Less(from, FirstAndSecond(last).1)
      then [FirstAndSecond(last).1] else []
  }

  /** The zones at the front of a list of keys that belong to the tenant. */
  function LeadingZones(visited: seq<Bytes>, tenant: Bytes): seq<Bytes>
    requires forall i :: 0 <= i < |visited| ==> visited[i] != []
  {
    if visited == [] || FirstAndSecond(visited[0]).0 != tenant then []
    else [FirstAndSecond(visited[0]).1] + LeadingZones(visited[1..], tenant)
  }

  /** Keys visited from the tenant's start key: after one of another tenant, none
   *  of the tenant's follow, so the leading ones are all of them.
   */
  lemma {:induction false} LeadingAppend(visited: seq<Bytes>, last: Bytes, tenant: Bytes, from: Bytes)
    requires tenant != [] && NoSlash(tenant)
    requires Sorted(visited + [last])
    requires forall i :: 0 <= i < |visited| ==>
               visited[i] != [] && visited[i][0] == TZONE && Less(TzoneKey(tenant, from), visited[i])
    requires last != [] && last[0] == TZONE && Less(TzoneKey(tenant, from), last)
    ensures LeadingZones(visited + [last], tenant) == LeadingZones(visited, tenant) +
              if FirstAndSecond(last).0 == tenant then [FirstAndSecond(last).1] else []
    decreases |visited|
  {
    var all := visited + [last];
    SplitNamesKey(last, tenant);
    if visited == [] {
      assert all == [last] && LeadingZones(all[1..], tenant) == [];
    } else {
      SplitNamesKey(visited[0], tenant);
      if FirstAndSecond(visited[0]).0 == tenant {
        assert all[1..] == visited[1..] + [last];
        assert Sorted(all[1..]);
        LeadingAppend(visited[1..], last, tenant, from);
      } else {
        assert Less(all[0], all[|visited|]);
        if FirstAndSecond(last).0 == tenant {
          TenantContiguous(tenant, from, visited[0], FirstAndSecond(last).1);
        }
      }
    }
  }

  lemma {:induction false} AfterElements(keys: seq<Bytes>, key: Bytes)
    requires Sorted(keys)
    ensures Sorted(After(keys, key))
    ensures forall k :: k in After(keys, key) ==> k in keys && SameClass(key, k) && Less(key, k)
  {
    if keys == [] {
    } else {
      var front, last := keys[..|keys| - 1], keys[|keys| - 1];
      AfterElements(front, key);
      var v := After(front, key);
      forall i | 0 <= i < |v| ensures Less(v[i], last) {
        assert v[i] in front;
        var j :| 0 <= j < |front| && front[j] == v[i];
        assert Less(keys[j], keys[|keys| - 1]);
      }
    }
  }

  /** The scan's leading zones are exactly the tenant's zones after `from`. */
  lemma {:induction false} VisitedZones(keys: seq<Bytes>, tenant: Bytes, from: Bytes)
    requires Sorted(keys) && tenant != [] && NoSlash(tenant)
    ensures var visited := After(keys, TzoneKey(tenant, from));
            && (forall i :: 0 <= i < |visited| ==> visited[i] != [])
            && LeadingZones(visited, tenant) == ZonesAfter(keys, tenant, from)
  {
    var key := TzoneKey(tenant, from);
    AfterElements(keys, key);
    if keys == [] {
    } else {
      var front, last := keys[..|keys| - 1], keys[|keys| - 1];
      VisitedZones(front, tenant, from);
      AfterElements(front, key);
      var v := After(front, key);
      assert v + [] == v && key[0] == TZONE;
      if SameClass(key, last) {
        TenantsZone(last, tenant, from);
        if Less(key, last) {
          assert forall i :: 0 <= i < |v| ==> v[i] in v;
          assert After(keys, key) == v + [last];
          LeadingAppend(v, last, tenant, from);
        }
      }
    }
  }

  /** For a key of the tenant, order is the order of the zones' names. */
  lemma {:induction false} TenantsZone(k: Bytes, tenant: Bytes, from: Bytes)
    requires tenant != [] && NoSlash(tenant) && SameClass(TzoneKey(tenant, from), k)
    ensures k != [] && k[0] == TZONE
    ensures FirstAndSecond(k).0 == tenant ==>
              && k == TzoneKey(tenant, FirstAndSecond(k).1)
              && (Less(TzoneKey(tenant, from), k) <==> Less(from, FirstAndSecond(k).1))
  {
    SplitNamesKey(k, tenant);
    if FirstAndSecond(k).0 == tenant {
      TzoneOrder(tenant, from, FirstAndSecond(k).1);
    }
  }

  /** At most n elements, and whether there were more. */
  function FirstOf(zs: seq<Bytes>, n: nat): (seq<Bytes>, bool) {
    if |zs| <= n then (zs, false) else (zs[..n], true)
  }

  lemma {:induction false} LeadingStep(visited: seq<Bytes>, i: nat, tenant: Bytes)
    requires forall k :: 0 <= k < |visited| ==> visited[k] != []
    requires i <= |visited|
    ensures i < |visited| && FirstAndSecond(visited[i]).0 == tenant ==>
              LeadingZones(visited[i..], tenant) ==
              [FirstAndSecond(visited[i]).1] + LeadingZones(visited[i + 1..], tenant)
    ensures i == |visited| || FirstAndSecond(visited[i]).0 != tenant ==> LeadingZones(visited[i..], tenant) == []
  {
    if i < |visited| { assert visited[i..][1..] == visited[i + 1..]; }
  }

  /** The callback of listZones, run over the keys the iteration visits. */
  method CollectPage(visited: seq<Bytes>, tenant: Bytes, pageSize: nat) returns (zones: seq<Bytes>, more: bool)
    requires forall k :: 0 <= k < |visited| ==> visited[k] != []
    ensures (zones, more) == FirstOf(LeadingZones(visited, tenant), pageSize)
  {
    zones, more := [], false;
    ghost var all := LeadingZones(visited, tenant);
    var i, count := 0, 0;
    assert visited[0..] == visited;
    while i < |visited|
      invariant 0 <= i <= |visited|
      invariant count == i == |zones| <= pageSize
      invariant all == zones + LeadingZones(visited[i..], tenant)
    {
      LeadingStep(visited, i, tenant);
      var (ztenant, zone) := FirstAndSecond(visited[i]);
      if tenant != ztenant {
        assert all == zones;
        return;
      }
      count := count + 1;
      if count > pageSize {
        more := true;
        assert all[..pageSize] == zones;
        return;
      }
      zones := zones + [zone];
      i := i + 1;
    }
    LeadingStep(visited, i, tenant);
    assert all == zones;
  }

  /** One page of listZones. */
  method ListZones(keys: seq<Bytes>, tenant: Bytes, from: Bytes, pageSize: nat)
    returns (zones: seq<Bytes>, more: bool)
    requires Sorted(keys) && tenant != [] && NoSlash(tenant)
    ensures (zones, more) == FirstOf(ZonesAfter(keys, tenant, from), pageSize)
  {
    var visited := IterateFromPrev(keys, TzoneKey(tenant, from));
    VisitedZones(keys, tenant, from);
    zones, more := CollectPage(visited, tenant, pageSize);
  }

  lemma {:induction false} ZonesAfterAscend(keys: seq<Bytes>, tenant: Bytes, from: Bytes)
    requires Sorted(keys) && tenant != [] && NoSlash(tenant)
    ensures var zs := ZonesAfter(keys, tenant, from);
            && (forall z :: z in zs <==> TzoneKey(tenant, z) in keys && Less(from, z))
            && (forall i, j :: 0 <= i < j < |zs| ==> Less(zs[i], zs[j]))
  {
    if keys == [] {
    } else {
      var front, last := keys[..|keys| - 1], keys[|keys| - 1];
      ZonesAfterAscend(front, tenant, from);
      var zs := ZonesAfter(front, tenant, from);
      assert forall k :: k in keys <==> k in front || k == last;
      if last != [] && last[0] == TZONE {
        SplitNamesKey(last, tenant);
        if FirstAndSecond(last).0 == tenant {
          var zone := FirstAndSecond(last).1;
          forall z | z in zs ensures Less(z, zone) {
            var j :| 0 <= j < |front| && front[j] == TzoneKey(tenant, z);
            assert Less(keys[j], keys[|keys| - 1]);
            TzoneOrder(tenant, z, zone);
          }
        }
      }
      forall z | TzoneKey(tenant, z) == last
        ensures last != [] && last[0] == TZONE && FirstAndSecond(last) == (tenant, z)
      {
        TzoneKeySplits(tenant, z);
      }
    }
  }

  /** Following the last zone of a page leads exactly to the zones not yet seen. */
  lemma {:induction false} NextPageStarts(keys: seq<Bytes>, tenant: Bytes, from: Bytes, n: nat)
    requires Sorted(keys) && tenant != [] && NoSlash(tenant)
    requires 0 < n <= |ZonesAfter(keys, tenant, from)|
    ensures var zs := ZonesAfter(keys, tenant, from);
            ZonesAfter(keys, tenant, zs[n - 1]) == zs[n..]
  {
    var zs := ZonesAfter(keys, tenant, from);
    ZonesAfterAscend(keys, tenant, from);
    ZonesAfterAscend(keys, tenant, zs[n - 1]);
    SameAscending(ZonesAfter(keys, tenant, zs[n - 1]), zs[n..], zs, n, from);
  }

  /** Two ascending sequences with the same members are equal. */
  lemma {:induction false} SameAscending(a: seq<Bytes>, b: seq<Bytes>, zs: seq<Bytes>, n: nat, from: Bytes)
    requires 0 < n <= |zs| && b == zs[n..]
    requires forall i, j :: 0 <= i < j < |zs| ==> Less(zs[i], zs[j])
    requires forall i, j :: 0 <= i < j < |a| ==> Less(a[i], a[j])
    requires forall z :: z in zs ==> Less(from, z)
    requires forall z :: Less(from, z) ==> (z in a <==> z in zs && Less(zs[n - 1], z))
    requires forall z :: z in a ==> Less(zs[n - 1], z)
    ensures a == b
  {
    forall z ensures z in a <==> z in b {
      if z in a {
        assert zs[n - 1] in zs;
        LessTransitive(from, zs[n - 1], z);
        var i :| 0 <= i < |zs| && zs[i] == z;
        if i < n { Trichotomy(zs[i], zs[n - 1]); }
        assert z == b[i - n];
      }
      if z in b {
        var i :| 0 <= i < |b| && b[i] == z;
        assert zs[n + i] == z;
      }
    }
    AscendingUnique(a, b);
  }

  lemma FirstIsMember(s: seq<Bytes>)
    ensures s != [] ==> s[0] in s
  {
  }

  lemma {:induction false} AscendingUnique(a: seq<Bytes>, b: seq<Bytes>)
    requires forall i, j :: 0 <= i < j < |a| ==> Less(a[i], a[j])
    requires forall i, j :: 0 <= i < j < |b| ==> Less(b[i], b[j])
    requires forall z :: z in a <==> z in b
    ensures a == b
  {
    FirstIsMember(b);
    if a == [] {
    } else {
      assert a[0] in b;
      var i :| 0 <= i < |b| && b[i] == a[0];
      var j :| 0 <= j < |a| && a[j] == b[0];
      if i > 0 && j > 0 { Trichotomy(a[0], b[0]); }
      LessIrreflexive(a[0]);
      forall z ensures z in a[1..] <==> z in b[1..] {
        if z in a[1..] {
          var k :| 0 <= k < |a[1..]| && a[1..][k] == z;
          assert Less(a[0], a[k + 1]);
          assert z in b && z != b[0];
        }
        if z in b[1..] {
          var k :| 0 <= k < |b[1..]| && b[1..][k] == z;
          assert Less(b[0], b[k + 1]);
          assert z in a && z != a[0];
        }
      }
      AscendingUnique(a[1..], b[1..]);
      assert a == [a[0]] + a[1..] && b == [b[0]] + b[1..];
    }
  }

  /** All pages, each starting from the last zone of the one before. */
  ghost function AllPages(keys: seq<Bytes>, tenant: Bytes, from: Bytes, pageSize: nat): seq<Bytes>
    requires Sorted(keys) && tenant != [] && NoSlash(tenant) && 0 < pageSize
    decreases |ZonesAfter(keys, tenant, from)|
  {
    var (zones, more) := FirstOf(ZonesAfter(keys, tenant, from), pageSize);
    if !more then zones
    else
      NextPageStarts(keys, tenant, from, pageSize);
      zones + AllPages(keys, tenant, zones[pageSize - 1], pageSize)
  }

  /** Paging enumerates each of the tenant's zones exactly once, whatever the page
   *  size and whether or not the first `from` exists.
   */
  lemma {:induction false} PagingIsComplete(keys: seq<Bytes>, tenant: Bytes, from: Bytes, pageSize: nat)
    requires Sorted(keys) && tenant != [] && NoSlash(tenant) && 0 < pageSize
    ensures AllPages(keys, tenant, from, pageSize) == ZonesAfter(keys, tenant, from)
    decreases |ZonesAfter(keys, tenant, from)|
  {
    var zs := ZonesAfter(keys, tenant, from);
    if |zs| <= pageSize {
    } else {
      NextPageStarts(keys, tenant, from, pageSize);
      PagingIsComplete(keys, tenant, zs[pageSize - 1], pageSize);
      assert zs == zs[..pageSize] + zs[pageSize..];
    }
  }

  /** Starting from the empty name, every zone of the tenant is listed. */
  lemma {:induction false} PagingFromStart(keys: seq<Bytes>, tenant: Bytes, pageSize: nat)
    requires Sorted(keys) && tenant != [] && NoSlash(tenant) && 0 < pageSize
    ensures var all := AllPages(keys, tenant, [], pageSize);
            && (forall z :: z != [] ==> (z in all <==> TzoneKey(tenant, z) in keys))
            && (forall i, j :: 0 <= i < j < |all| ==> all[i] != all[j])
  {
    PagingIsComplete(keys, tenant, [], pageSize);
    ZonesAfterAscend(keys, tenant, []);
    var all := AllPages(keys, tenant, [], pageSize);
    forall i, j | 0 <= i < j < |all| ensures all[i] != all[j] {
      LessIrreflexive(all[i]);
    }
  }
}
