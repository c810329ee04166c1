/** The simulator's check of the priority evidence, and when the evaluator's evidence passes it. */
module PriorityCheck {
  import opened MarketTypes
  import opened StableSort
  import opened Ranking
  import opened CandidatePriority

  datatype CheckError =
    | MissingEvidence | DateMismatch | VolumeMismatch | ScoreMismatch | OrdinalMismatch | NotContiguous
    | SlotMismatch | CrossGroupReorder | NonCanonicalVariant | FinalMismatch

  function AtMostInt(): (int, int) -> bool { (a: int, b: int) => a <= b }

  function Final(): Evidence -> int { (e: Evidence) => e.finalOrdinal }

  function ByFinal(): (Evidence, Evidence) -> bool { (a: Evidence, b: Evidence) => a.finalOrdinal <= b.finalOrdinal }

  /** The records of one calendar day of signals, and their baseline ordinals. */
  function DayGroup(rs: seq<Evidence>, day: int): seq<Evidence> {
    if rs == [] then [] else DayGroup(rs[..|rs| - 1], day) + if rs[|rs| - 1].groupDay == day then [rs[|rs| - 1]] else []
  }

  function DaySlots(rs: seq<Evidence>, day: int): seq<int> {
    if rs == [] then [] else DaySlots(rs[..|rs| - 1], day) + if rs[|rs| - 1].groupDay == day then [|rs|] else []
  }

  function DayVariant(rs: seq<Evidence>, day: int): seq<Evidence> { Sorted(DayGroup(rs, day), ByEvidenceRank()) }

  lemma {:induction false} DaySlotsMean(rs: seq<Evidence>, day: int)
    ensures Ascending(DaySlots(rs, day))
    ensures forall o: int :: o in DaySlots(rs, day) <==> 1 <= o <= |rs| && rs[o - 1].groupDay == day
  {
    if rs != [] {
      DaySlotsMean(rs[..|rs| - 1], day);
      var prior := DaySlots(rs[..|rs| - 1], day);
      forall k | 0 <= k < |prior| ensures prior[k] < |rs| { assert prior[k] in prior; }
    }
  }

  lemma {:induction false} DayGroupMembers(rs: seq<Evidence>, day: int)
    ensures forall e :: e in DayGroup(rs, day) <==> e in rs && e.groupDay == day
  {
    if rs != [] {
      DayGroupMembers(rs[..|rs| - 1], day);
      assert rs == rs[..|rs| - 1] + [rs[|rs| - 1]];
    }
  }

  lemma {:induction false} DayGroupAligned(rs: seq<Evidence>, day: int)
    ensures |DayGroup(rs, day)| == |DaySlots(rs, day)|
    ensures forall k | 0 <= k < |DaySlots(rs, day)| ::
      1 <= DaySlots(rs, day)[k] <= |rs| && rs[DaySlots(rs, day)[k] - 1] == DayGroup(rs, day)[k]
  {
    if rs != [] { DayGroupAligned(rs[..|rs| - 1], day); }
  }

  /** The record of baseline candidate `i` agrees with the candidate and its place. */
  predicate Matches(bs: seq<Candidate>, entry: Stamp, evidence: map<Key, Evidence>, i: int)
    requires 0 <= i < |bs|
  {
    && KeyOf(bs[i]) in evidence
    && var e := evidence[KeyOf(bs[i])];
    && e.key == KeyOf(bs[i]) && e.entry == bs[i].entry == entry && e.volume == bs[i].volume
      && e.baselineScore == bs[i].score
    && e.baselineOrdinal == i + 1
  }

  predicate DayAccepted(rs: seq<Evidence>, day: int) {
    var slots, variant := DaySlots(rs, day), DayVariant(rs, day);
    && |variant| == |slots|
    && (forall e | e in DayGroup(rs, day) :: e.slots == slots)
    && forall k | 0 <= k < |variant| :: variant[k].variantOrdinal == k + 1 && variant[k].finalOrdinal == slots[k]
  }

  /** What the checks of `_rank_entry_candidates` amount to. */
  ghost predicate Accepted(bs: seq<Candidate>, rs: seq<Evidence>, entry: Stamp, evidence: map<Key, Evidence>) {
    && |rs| == |bs| && (forall i | 0 <= i < |bs| :: Matches(bs, entry, evidence, i) && rs[i] == evidence[KeyOf(bs[i])])
    && forall day :: DayAccepted(rs, day)
  }

  // ------------------------------------------------------- redundancy of two checks

  lemma {:induction false} DayVariantMeans(rs: seq<Evidence>, day: int)
    ensures |DayVariant(rs, day)| == |DaySlots(rs, day)|
    ensures multiset(DayVariant(rs, day)) == multiset(DayGroup(rs, day))
    ensures forall e :: e in DayVariant(rs, day) <==> e in rs && e.groupDay == day
  {
    DayGroupAligned(rs, day);
    DayGroupMembers(rs, day);
    SortedPermutes(DayGroup(rs, day), ByEvidenceRank());
    SortedMembers(DayGroup(rs, day), ByEvidenceRank());
  }

  /** The cross-group check follows from the per-group order: the finals of a group are its slots. */
  lemma {:induction false} GroupFinals(rs: seq<Evidence>, day: int)
    requires DayAccepted(rs, day)
    ensures Sorted(Map(Final(), DayGroup(rs, day)), AtMostInt()) == DaySlots(rs, day)
  {
    var group, slots, variant := DayGroup(rs, day), DaySlots(rs, day), DayVariant(rs, day);
    DaySlotsMean(rs, day);
    DayVariantMeans(rs, day);
    MapPermutes(Final(), variant, group);
    assert Map(Final(), variant) == slots;
    var finals := Map(Final(), group);
    SortedPermutes(finals, AtMostInt());
    SortedOrdered(finals, AtMostInt());
    OrderedUnique(slots, Sorted(finals, AtMostInt()), AtMostInt());
  }

  /** The place of a record in its day's variant order. */
  lemma {:induction false} PlaceInVariant(rs: seq<Evidence>, i: nat) returns (k: nat)
    requires i < |rs| && DayAccepted(rs, rs[i].groupDay)
    ensures k < |DayVariant(rs, rs[i].groupDay)| && DayVariant(rs, rs[i].groupDay)[k] == rs[i]
    ensures rs[i].finalOrdinal in DaySlots(rs, rs[i].groupDay)
  {
    DayVariantMeans(rs, rs[i].groupDay);
    assert rs[i] in rs;
    k :| 0 <= k < |DayVariant(rs, rs[i].groupDay)| && DayVariant(rs, rs[i].groupDay)[k] == rs[i];
  }

  /** Accepted finals are pairwise distinct positions of the baseline. */
  lemma {:induction false} FinalsDistinct(rs: seq<Evidence>)
    requires Distinct(rs) && forall day :: DayAccepted(rs, day)
    ensures Distinct(Map(Final(), rs))
    ensures forall i | 0 <= i < |rs| :: 1 <= rs[i].finalOrdinal <= |rs|
  {
    forall i | 0 <= i < |rs|
      ensures 1 <= rs[i].finalOrdinal <= |rs| && rs[rs[i].finalOrdinal - 1].groupDay == rs[i].groupDay
    {
      var k := PlaceInVariant(rs, i);
      DaySlotsMean(rs, rs[i].groupDay);
    }
    forall i, j | 0 <= i < j < |rs|
      ensures rs[i].finalOrdinal != rs[j].finalOrdinal
    {
      if rs[i].finalOrdinal == rs[j].finalOrdinal { FinalInjective(rs, i, j); }
    }
  }

  lemma {:induction false} FinalInjective(rs: seq<Evidence>, i: nat, j: nat)
    requires Distinct(rs) && forall day :: DayAccepted(rs, day)
    requires i < |rs| && j < |rs| && rs[i].finalOrdinal == rs[j].finalOrdinal
    ensures i == j
  {
    var k := PlaceInVariant(rs, i);
    var l := PlaceInVariant(rs, j);
    DaySlotsMean(rs, rs[i].groupDay);
    DaySlotsMean(rs, rs[j].groupDay);
    assert rs[rs[i].finalOrdinal - 1].groupDay == rs[i].groupDay;
    assert rs[rs[j].finalOrdinal - 1].groupDay == rs[j].groupDay;
    var slots := DaySlots(rs, rs[i].groupDay);
    assert slots[k] == slots[l];
  }

  /** Distinct integers of 1..n, n of them, are 1..n in order once sorted. */
  lemma {:induction false} SortedRange(xs: seq<int>)
    requires Distinct(xs) && forall i | 0 <= i < |xs| :: 1 <= xs[i] <= |xs|
    ensures forall k | 0 <= k < |xs| :: Sorted(xs, AtMostInt())[k] == k + 1
  {
    var ys := Sorted(xs, AtMostInt());
    SortedOrdered(xs, AtMostInt());
    SortedDistinct(xs, AtMostInt());
    SortedMembers(xs, AtMostInt());
    forall k | 0 <= k < |ys| ensures 1 <= ys[k] <= |ys| { assert ys[k] in ys; }
    forall i, j | 0 <= i < j < |ys| ensures ys[i] < ys[j] { assert AtMostInt()(ys[i], ys[j]); }
    forall k | 0 <= k < |ys| ensures ys[k] == k + 1 {
      RangeLow(ys, k);
      RangeHigh(ys, k);
    }
  }

  lemma {:induction false} RangeLow(ys: seq<int>, k: nat)
    requires k < |ys| && Ascending(ys) && forall i | 0 <= i < |ys| :: 1 <= ys[i]
    ensures ys[k] >= k + 1
  {
    if k > 0 { RangeLow(ys, k - 1); }
  }

  lemma {:induction false} RangeHigh(ys: seq<int>, k: nat)
    requires k < |ys| && Ascending(ys) && forall i | 0 <= i < |ys| :: ys[i] <= |ys|
    ensures ys[k] <= k + 1
    decreases |ys| - k
  {
    if k + 1 < |ys| { RangeHigh(ys, k + 1); }
  }

  predicate Contiguous(rs: seq<Evidence>) {
    var finals := Sorted(Map(Final(), rs), AtMostInt());
    forall k | 0 <= k < |finals| :: finals[k] == k + 1
  }

  /** The contiguity check follows as well. */
  lemma {:induction false} AcceptedContiguous(rs: seq<Evidence>)
    requires Distinct(rs) && forall day :: DayAccepted(rs, day)
    ensures Contiguous(rs)
  {
    FinalsDistinct(rs);
    SortedRange(Map(Final(), rs));
  }

  // -------------------------------------------------------------------- the checker

  /** The final order: the baseline candidates by their records' final ordinals. */
  ghost function Prioritized(bs: seq<Candidate>, rs: seq<Evidence>): seq<Candidate> {
    var ordered := Sorted(rs, ByFinal());
    seq(|ordered|, k requires 0 <= k < |ordered| =>
          if 1 <= ordered[k].baselineOrdinal <= |bs| then bs[ordered[k].baselineOrdinal - 1]
            else Candidate("", Stamp(0, 0), Stamp(0, 0), Missing, Absent))
  }

  /** `_rank_entry_candidates` with evidence: accepts exactly the canonical evidence. */
  method RankEntryCandidates(cs: seq<Candidate>, entry: Stamp, evidence: map<Key, Evidence>)
    returns (r: Result<seq<Candidate>, CheckError>, ghost rs: seq<Evidence>)
    ensures r.Ok? ==>
      Accepted(Sorted(cs, ByScore()), rs, entry, evidence) && r.value == Prioritized(Sorted(cs, ByScore()), rs)
    ensures r.Err? ==> forall any :: !Accepted(Sorted(cs, ByScore()), any, entry, evidence)
  {
    var bs := Sorted(cs, ByScore());
    var bad, records := MatchRecords(bs, entry, evidence);
    rs := records;
    if bad.Some? { return Err(bad.value), rs; }
    OnlyTheseRecords(bs, records, entry, evidence);
    RecordsDistinct(bs, records, entry, evidence);
    if !Contiguous(records) {
      if forall day :: DayAccepted(records, day) { AcceptedContiguous(records); }
      return Err(NotContiguous), rs;
    }
    bad := CheckDays(records);
    if bad.Some? { return Err(bad.value), rs; }
    var ordered := Sorted(records, ByFinal());
    OrdinalsInside(bs, records, entry, evidence);
    return Ok(seq(|ordered|, k requires 0 <= k < |ordered|
      && 1 <= ordered[k].baselineOrdinal <= |bs| => bs[ordered[k].baselineOrdinal - 1])), rs;
  }

  method CheckDays(rs: seq<Evidence>) returns (bad: Option<CheckError>)
    ensures bad.None? <==> forall day :: DayAccepted(rs, day)
  {
    var days := set e | e in rs :: e.groupDay;
    while days != {}
      invariant forall e | e in rs && e.groupDay !in days :: DayAccepted(rs, e.groupDay)
      decreases |days|
    {
      ghost var x := PickOne(days);
      var day :| day in days;
      bad := CheckDay(rs, day);
      if bad.Some? { return; }
      days := days - {day};
    }
    forall day ensures DayAccepted(rs, day) {
      DayGroupMembers(rs, day);
      DayVariantMeans(rs, day);
      if DayGroup(rs, day) != [] { assert DayGroup(rs, day)[0] in DayGroup(rs, day); }
      DayGroupAligned(rs, day);
    }
    return None;
  }

  lemma {:induction false} OrdinalsInside(bs: seq<Candidate>, rs: seq<Evidence>, entry: Stamp,
      evidence: map<Key, Evidence>)
    requires |rs| == |bs| && forall i | 0 <= i < |bs| ::
      Matches(bs, entry, evidence, i) && rs[i] == evidence[KeyOf(bs[i])]
    ensures forall k | 0 <= k < |Sorted(rs, ByFinal())| :: 1 <= Sorted(rs, ByFinal())[k].baselineOrdinal <= |bs|
  {
    SortedMembers(rs, ByFinal());
    var ordered := Sorted(rs, ByFinal());
    forall k | 0 <= k < |ordered|
      ensures 1 <= ordered[k].baselineOrdinal <= |bs|
    {
      assert ordered[k] in ordered;
      var i :| 0 <= i < |rs| && rs[i] == ordered[k];
      assert Matches(bs, entry, evidence, i);
    }
  }

  method MatchRecords(bs: seq<Candidate>, entry: Stamp, evidence: map<Key, Evidence>)
      returns (bad: Option<CheckError>, rs: seq<Evidence>)
    ensures bad.None? <==> forall i | 0 <= i < |bs| :: Matches(bs, entry, evidence, i)
    ensures bad.None? ==> |rs| == |bs| && forall i | 0 <= i < |bs| ::
      KeyOf(bs[i]) in evidence && rs[i] == evidence[KeyOf(bs[i])]
  {
    rs := [];
    for i := 0 to |bs|
      invariant |rs| == i
      invariant forall j | 0 <= j < i :: Matches(bs, entry, evidence, j) && rs[j] == evidence[KeyOf(bs[j])]
    {
      var key := KeyOf(bs[i]);
      if key !in evidence {
        assert !Matches(bs, entry, evidence, i);
        return Some(MissingEvidence), rs;
      }
      var e := evidence[key];
      assert Matches(bs, entry, evidence, i) <==>
        e.key == key && e.entry == bs[i].entry == entry && e.volume == bs[i].volume && e.baselineScore == bs[i].score
          && e.baselineOrdinal == i + 1;
      if e.key != key || e.entry != bs[i].entry || e.entry != entry { return Some(DateMismatch), rs; }
      if e.volume != bs[i].volume { return Some(VolumeMismatch), rs; }
      if e.baselineScore != bs[i].score { return Some(ScoreMismatch), rs; }
      if e.baselineOrdinal != i + 1 { return Some(OrdinalMismatch), rs; }
      rs := rs + [e];
    }
    return None, rs;
  }

  /** The checks of one signal-day group. */
  method CheckDay(rs: seq<Evidence>, day: int) returns (bad: Option<CheckError>)
    ensures bad.None? <==> DayAccepted(rs, day)
  {
    var group, slots := DayGroup(rs, day), DaySlots(rs, day);
    DayVariantMeans(rs, day);
    if exists e | e in group :: e.slots != slots { return Some(SlotMismatch); }
    if Sorted(Map(Final(), group), AtMostInt()) != slots {
      if DayAccepted(rs, day) { GroupFinals(rs, day); }
      return Some(CrossGroupReorder);
    }
    var variant := Sorted(group, ByEvidenceRank());
    if exists k | 0 <= k < |variant| :: variant[k].variantOrdinal != k + 1 { return Some(NonCanonicalVariant); }
    if exists k | 0 <= k < |variant| :: variant[k].finalOrdinal != slots[k] { return Some(FinalMismatch); }
    return None;
  }

  lemma {:induction false} OnlyTheseRecords(bs: seq<Candidate>, rs: seq<Evidence>, entry: Stamp,
      evidence: map<Key, Evidence>)
    requires |rs| == |bs| && forall i | 0 <= i < |bs| :: KeyOf(bs[i]) in evidence && rs[i] == evidence[KeyOf(bs[i])]
    ensures forall any | Accepted(bs, any, entry, evidence) :: any == rs
  {
    forall any | Accepted(bs, any, entry, evidence)
      ensures any == rs
    {
      forall i | 0 <= i < |bs| ensures any[i] == rs[i] { assert Matches(bs, entry, evidence, i); }
    }
  }

  lemma {:induction false} RecordsDistinct(bs: seq<Candidate>, rs: seq<Evidence>, entry: Stamp,
      evidence: map<Key, Evidence>)
    requires |rs| == |bs|
    requires forall i | 0 <= i < |bs| :: Matches(bs, entry, evidence, i) && rs[i] == evidence[KeyOf(bs[i])]
    ensures Distinct(rs)
  {
    forall i, j | 0 <= i < j < |rs|
      ensures rs[i] != rs[j]
    {
      assert Matches(bs, entry, evidence, i) && Matches(bs, entry, evidence, j);
    }
  }
}
