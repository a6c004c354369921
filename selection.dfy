/**
 * The capacity split and best-fit choice shared by `selectDestPart`
 * (services/usb-archiver/usb-archiver.js and archiver.js), the per-bus step
 * of `getWriteDest` (services/usb-archiver/copy-task.js) and the disk-info
 * dry run of services/usb-archiver/usb-archiver.js.
 */
module Selection {
  import opened Text
  import opened Seqs
  import opened Misc
  import opened PartOrder

  /** `p.available < need`; false when `available` is undefined. */
  predicate Below(p: Part, need: int) {
    p.available.Some? && p.available.value < need
  }

  /** `p.available > need`; false when `available` is undefined. */
  predicate Above(p: Part, need: int) {
    p.available.Some? && p.available.value > need
  }

  /** `fullParts`: the partitions with less than `need` bytes free, in input order. */
  function FullParts(parts: seq<Part>, need: int): (r: seq<Part>)
    ensures forall i :: 0 <= i < |r| ==> Below(r[i], need)
    ensures forall i :: 0 <= i < |parts| && Below(parts[i], need) ==> parts[i] in r
  {
    Filter(parts, p => Below(p, need))
  }

  /** The full partitions are exactly those below the threshold, each as often as listed, in listing order. */
  lemma FullPartsExact(parts: seq<Part>, more: seq<Part>, need: int, p: Part)
    ensures multiset(FullParts(parts, need))[p] == if Below(p, need) then multiset(parts)[p] else 0
    ensures FullParts(parts + more, need) == FullParts(parts, need) + FullParts(more, need)
  {
    FilterCount(parts, q => Below(q, need), p);
    FilterConcat(parts, more, q => Below(q, need));
  }

  /** `availableParts`: the partitions with more than `need` bytes free, best fit first. */
  function AvailableParts(parts: seq<Part>, need: int): (r: seq<Part>)
    ensures Sorted(r, Available)
    ensures forall i :: 0 <= i < |r| ==> Above(r[i], need)
  {
    var kept := Filter(parts, p => Above(p, need));
    var r := SortBy(kept, Available);
    assert forall i :: 0 <= i < |r| ==> r[i] in multiset(kept);
    r
  }

  /** The candidates are exactly the partitions above the threshold, each as often as listed. */
  lemma AvailablePartsExact(parts: seq<Part>, need: int, p: Part)
    ensures multiset(AvailableParts(parts, need))[p] == if Above(p, need) then multiset(parts)[p] else 0
  {
    FilterCount(parts, q => Above(q, need), p);
  }

  /** A partition with exactly `need` bytes free, or with no capacity record, is neither full nor a candidate. */
  lemma ThresholdExcluded(parts: seq<Part>, need: int, p: Part)
    requires p.available == Some(need) || p.available.None?
    ensures p !in FullParts(parts, need) && p !in AvailableParts(parts, need)
  {
    AvailablePartsExact(parts, need, p);
  }

  /** Every partition above the threshold is a candidate, and the first candidate sorts no later than it. */
  lemma HeadOfAvailable(parts: seq<Part>, need: int, q: Part)
    requires q in parts && Above(q, need)
    ensures |AvailableParts(parts, need)| > 0 && Le(AvailableParts(parts, need)[0], q, Available)
  {
    var avail := AvailableParts(parts, need);
    AvailablePartsExact(parts, need, q);
    assert q in multiset(avail);
    HeadIsLeast(avail, Available, q);
  }

  /** `_.first(availableParts)`: the candidate with the least free space, ties broken by label. */
  function BestFit(parts: seq<Part>, need: int): (r: Option<Part>)
    ensures r.None? <==> forall i :: 0 <= i < |parts| ==> !Above(parts[i], need)
    ensures r.Some? ==> r.value in parts && Above(r.value, need)
    ensures r.Some? ==> forall q :: q in parts && Above(q, need) ==>
      r.value.available.value < q.available.value ||
      (r.value.available.value == q.available.value && StrLe(r.value.volumeLabel, q.volumeLabel))
  {
    var avail := AvailableParts(parts, need);
    if |avail| == 0 then
      assert forall i :: 0 <= i < |parts| ==> !Above(parts[i], need) by {
        forall i | 0 <= i < |parts| ensures !Above(parts[i], need) {
          if Above(parts[i], need) { HeadOfAvailable(parts, need, parts[i]); }
        }
      }
      None
    else
      AvailablePartsExact(parts, need, avail[0]);
      assert avail[0] in multiset(avail);
      assert forall q :: q in parts && Above(q, need) ==> Le(avail[0], q, Available) by {
        forall q | q in parts && Above(q, need) ensures Le(avail[0], q, Available) {
          HeadOfAvailable(parts, need, q);
        }
      }
      Some(avail[0])
  }

  /**
   * `selectDestPart({farmDir, extraOpts})` over the block-device and capacity
   * listings: the best-fit farm partition, or undefined when none has more
   * than `plotNeedSize` bytes free.
   */
  function SelectDestPart(devices: seq<Part>, spaces: seq<FsInfo>, farmDir: String, plotNeedSize: int)
    : (r: Option<Part>)
    ensures var parts := MergePartAndSpace(AllPartsInfo(devices, farmDir), AllFsInfo(spaces, farmDir));
      && (r.None? <==> forall i :: 0 <= i < |parts| ==> !Above(parts[i], plotNeedSize))
      && (r.Some? ==> r.value in parts && Above(r.value, plotNeedSize) && StartsWith(r.value.mount, farmDir))
      && (r.Some? ==> forall q :: q in parts && Above(q, plotNeedSize) ==>
            r.value.available.value < q.available.value ||
            (r.value.available.value == q.available.value && StrLe(r.value.volumeLabel, q.volumeLabel)))
  {
    var farm := AllPartsInfo(devices, farmDir);
    var parts := MergePartAndSpace(farm, AllFsInfo(spaces, farmDir));
    var r := BestFit(parts, plotNeedSize);
    assert forall i :: 0 <= i < |parts| ==> StartsWith(parts[i].mount, farmDir) by {
      forall i | 0 <= i < |parts| ensures StartsWith(parts[i].mount, farmDir) {
        assert parts[i].mount == farm[i].mount && IsFarmPart(farm[i], farmDir);
      }
    }
    r
  }

  /**
   * The `Available Parts` list of the disk-info dry run: the partitions above
   * the threshold, `sortBy(['use', 'label'])` then `reverse()`.
   */
  function DiskInfoRanking(parts: seq<Part>, need: int): (r: seq<Part>)
    ensures SortedDescending(r, Use)
    ensures forall i :: 0 <= i < |r| ==> Above(r[i], need)
  {
    var kept := Filter(parts, p => Above(p, need));
    var sorted := SortBy(kept, Use);
    var r := Reverse(sorted);
    ReverseDescending(sorted, r, Use);
    assert forall i :: 0 <= i < |r| ==> r[i] in multiset(kept) by {
      forall i | 0 <= i < |r| ensures r[i] in multiset(kept) {
        assert r[i] == sorted[|sorted| - 1 - i];
        assert sorted[|sorted| - 1 - i] in multiset(sorted);
      }
    }
    r
  }

  /** The ranking lists exactly the partitions above the threshold, each as often as listed. */
  lemma DiskInfoRankingExact(parts: seq<Part>, need: int, p: Part)
    ensures multiset(DiskInfoRanking(parts, need))[p] == if Above(p, need) then multiset(parts)[p] else 0
  {
    var kept := Filter(parts, q => Above(q, need));
    ReverseMultiset(SortBy(kept, Use));
    FilterCount(parts, q => Above(q, need), p);
  }
}
