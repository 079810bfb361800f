/** A run in which an incremental transfer leaves a client with a wrong zone: the client's
 *  serial is older than the zone's first one.
 */
module OldClients {
  import opened Bytes
  import opened Options
  import opened Keys
  import opened Names
  import opened Scans
  import opened Differences
  import opened Storage
  import opened StoredEntries
  import opened Blocks
  import opened Zones
  import opened Ixfr

  /** An address record. */
  const HOME: Rr := Rr(1, 300, [127, 0, 0, 1])
  const AWAY: Rr := Rr(1, 300, [127, 0, 0, 2])

  /** A SOA with the root for both names, and the given serial. */
  function SmallSoa(serial: nat): Soa {
    Soa(serial, SoaRest(300, [0, 0], [0, 0, 0, 0, 0, 0, 0, 0, 0, 0, 0, 0, 0, 0, 0, 0]))
  }

  /** No byte of a name that can be written is zero. */
  lemma {:induction false} ValidIsNulFree(s: Bytes)
    requires AllValid(Split(s))
    ensures NulFree(s)
    decreases |s|
  {
    if s == [] {
    } else {
      var n, rest := SegmentLen(s), AfterSegment(s);
      SplitParts(s);
      ValidIsNulFree(rest);
      assert ValidLabel(Split(s)[0]);
      forall i | 0 <= i < |s| ensures s[i] != 0 {
        if i < n {
          assert s[i] == s[..n][i];
        } else if n < i {
          assert s[i] == rest[i - n - 1];
        }
      }
    }
  }

  /** The zone is created with serial 5, and then gets its first data record. */
  function Created(zone: Bytes): Zone {
    Zone(SmallSoa(5), map[zone := []], 5, [Content(map[zone := []])], true)
  }

  function AddsHome(zone: Bytes): Block {
    Block(zone, SmallSoa(5), [], SmallSoa(6), [HOME], zone)
  }

  lemma {:induction false} HomeBlock(zone: Bytes)
    requires GoodName(zone)
    ensures GoodBlock(AddsHome(zone)) && BlockFits(AddsHome(zone))
  {
    var b := AddsHome(zone);
    var recs := [Record(zone, SoaRr(SmallSoa(5))), Record(zone, SoaRr(SmallSoa(6))), Record(zone, HOME)];
    assert BlockRecords(b) == recs;
    assert recs[..2] == [recs[0], recs[1]] && [recs[0], recs[1]][..1] == [recs[0]] && [recs[0]][..0] == [];
    assert Bulk([recs[0]]) <= 269 + 22;
    assert Bulk([recs[0], recs[1]]) <= 2 * (269 + 22);
    ShortBlockFits(b);
  }

  lemma {:induction false} HomeIsAdded(zone: Bytes)
    ensures var z := Created(zone);
            var z' := NextVersion(z, zone, Some([HOME]), z.soa.rest);
            && BlockOf(AddsHome(zone), zone, z, z', zone)
            && z'.entries == map[zone := [HOME]] && z'.soa == SmallSoa(6) && z'.first == 5
  {
    var z := Created(zone);
    var z' := NextVersion(z, zone, Some([HOME]), z.soa.rest);
    assert DataOf([]) == {} && DataOf([HOME]) == {HOME};
  }

  lemma {:induction false} OneKey(zone: Bytes, serial: nat)
    requires NulFree(zone) && serial < Pow256(4)
    ensures DiffFamily([DiffRef(zone, serial)])
  {
  }

  /** The history of the zone. */
  lemma {:induction false} History(zone: Bytes) returns (run: seq<Server>)
    requires GoodName(zone)
    ensures IsRun(run) && run != []
    ensures var s := run[|run| - 1];
            && zone in s.zones && s.zones[zone].first == 5 && s.zones[zone].soa == SmallSoa(6)
            && s.zones[zone].entries == map[zone := [HOME]]
            && s.diffs == map[DiffRef(zone, 6) := AddsHome(zone)] && s.store.Keys == {DiffRef(zone, 6)}
  {
    var s0 := Server(map[], map[], map[]);
    var s1 := Server(map[zone := Created(zone)], map[], map[]);
    assert CreateStep(s0, s1, zone, SmallSoa(5), []);
    HomeBlock(zone);
    HomeIsAdded(zone);
    var b, z' := AddsHome(zone), NextVersion(Created(zone), zone, Some([HOME]), SmallSoa(5).rest);
    var bytes := StoredForm(b);
    var s2 := Updated(s1, zone, z', b, bytes);
    UpdateIsStep(s1, s2, zone, zone, Some([HOME]), SmallSoa(5).rest, z', b, bytes);
    UpdateWrites(s1, s2, zone, z', b, bytes);
    run := [s0, s1, s2];
    assert Step(s0, s1) && Step(s1, s2);
  }

  /** A client that has the zone with serial 3 from an earlier life of it, and another address,
   *  keeps that address beside the new one.
   */
  lemma {:induction false} OldClientGoesWrong(zone: Bytes)
      returns (run: seq<Server>, db: seq<DiffRef>, authority: seq<Rec>, data: set<Owned>, blocks: seq<Block>)
    requires GoodName(zone)
    ensures IsRun(run) && Asks(run[|run| - 1], db, zone, authority)
    ensures FromSerial(authority) < run[|run| - 1].zones[zone].first
    ensures var s := run[|run| - 1];
            && Ranged(s, zone, FromSerial(authority), blocks)
            && Brings(AnswerTo(s, db, zone, authority), data, s.zones[zone].soa.serial, ApplyBlocks(data, blocks))
            && ApplyBlocks(data, blocks) != Content(s.zones[zone].entries)
  {
    run := History(zone);
    db, authority, data := [DiffRef(zone, 6)], [SoaRec(zone, SmallSoa(3))], {(zone, AWAY)};
    ValidIsNulFree(zone);
    OneKey(zone, 6);
    HomeBlock(zone);
    assert Lists(db, run[|run| - 1].store);
    blocks := StaleRecordSurvives(run, db, zone, authority, data, (zone, AWAY));
    AwayIsStale(run[|run| - 1], zone, blocks);
  }

  lemma {:induction false} AwayIsStale(s: Server, zone: Bytes, blocks: seq<Block>)
    requires zone in s.zones && s.zones[zone].first == 5 && s.zones[zone].soa == SmallSoa(6)
    requires s.zones[zone].entries == map[zone := [HOME]] && s.diffs == map[DiffRef(zone, 6) := AddsHome(zone)]
    requires Ranged(s, zone, 3, blocks)
    ensures !Mentioned(blocks, (zone, AWAY)) && (zone, AWAY) !in Content(s.zones[zone].entries)
  {
    assert |blocks| == 1 && blocks[0] == AddsHome(zone);
  }
}
