/** What the entry order of volume-priority candidates asserts about two candidates, field by field. */
module PriorityMeaning {
  import opened StableSort
  import opened Ranking
  import opened CandidatePriority
  import opened PriorityCheck
  import opened PriorityAgreement
  import opened PriorityTheorems

  /** No finite volume: there is nothing to rank by. */
  predicate Unmeasured(c: Candidate) { !c.volume.Finite? }

  predicate SameVolume(a: Candidate, b: Candidate) {
    (Unmeasured(a) && Unmeasured(b)) || (!Unmeasured(a) && !Unmeasured(b) && a.volume.x == b.volume.x)
  }

  /** The quality the gate gave the candidate. */
  function Known(c: Candidate, quality: map<Key, real>): real {
    if Key(c.symbol, c.signal) in quality then quality[Key(c.symbol, c.signal)] else 0.0
  }

  /** Candidate `a` may come before `b` in its group: the larger finite volume first and unmeasured ones last; at the
      same volume the higher quality; then the symbol; then the signal time. */
  ghost predicate MayPrecede(a: Candidate, b: Candidate, quality: map<Key, real>) {
    var p, q := Known(a, quality), Known(b, quality);
    && (Unmeasured(a) ==> Unmeasured(b))
    && (!Unmeasured(a) && !Unmeasured(b) ==> a.volume.x >= b.volume.x)
    && (SameVolume(a, b) ==> p >= q)
    && (SameVolume(a, b) && p == q ==> Alphabetical(a.symbol, b.symbol))
    && (SameVolume(a, b) && p == q && a.symbol == b.symbol ==>
          a.signal.day <= b.signal.day && (a.signal.day == b.signal.day ==> a.signal.clock <= b.signal.clock))
  }

  lemma {:induction false} RankExactly(a: Candidate, b: Candidate, quality: map<Key, real>)
    ensures RankAtMost(RankOf(a, quality), RankOf(b, quality)) <==> MayPrecede(a, b, quality)
  {
    SymbolExactly(a.symbol, b.symbol);
    hide SymbolAtMost, Alphabetical;
    AlphabeticalSelf(a.symbol);
  }

  /** Baseline order: the higher score first and missing ones last; at the same score the symbol. */
  ghost predicate BaselinePrecedes(a: Candidate, b: Candidate) {
    && (a.score.Missing? ==> b.score.Missing?)
    && (a.score.Number? && b.score.Number? ==> a.score.x >= b.score.x)
    && (a.score == b.score ==> Alphabetical(a.symbol, b.symbol))
  }

  /** The baseline of an entry date: its candidates by score, and by symbol at the same score. */
  lemma {:induction false} BaselineExactly(cs: seq<Candidate>, entry: Stamp, i: nat, j: nat)
    requires i < j < |BaselineOrder(cs, entry)|
    ensures var bs := BaselineOrder(cs, entry);
      bs[i] in cs && bs[i].entry == entry && BaselinePrecedes(bs[i], bs[j])
  {
    var picked := OfEntry(cs, entry);
    var named := Sorted(picked, BySymbol());
    var bs := BaselineOrder(cs, entry);
    BaselineMeans(cs, entry);
    assert bs[i] in bs;
    ScoresTotal();
    SortedOrdered(named, ByScore());
    assert ByScore()(bs[i], bs[j]);
    if bs[i].score == bs[j].score { SameScore(cs, entry, i, j); }
  }

  lemma {:induction false} ScoresTotal()
    ensures TotalPreorder(ByScore()) && TotalPreorder(BySymbol())
  {
    forall a: Candidate, b: Candidate, c: Candidate
      ensures BySymbol()(a, b) || BySymbol()(b, a)
      ensures BySymbol()(a, b) && BySymbol()(b, c) ==> BySymbol()(a, c)
    {
      SymbolOrder(a.symbol, b.symbol, c.symbol);
    }
  }

  function HasScore(x: Value): Candidate -> bool { (c: Candidate) => c.score == x }

  /** Sorting by score keeps the order by symbol of equal scores. */
  lemma {:induction false} SameScore(cs: seq<Candidate>, entry: Stamp, i: nat, j: nat)
    requires i < j < |BaselineOrder(cs, entry)|
    requires BaselineOrder(cs, entry)[i].score == BaselineOrder(cs, entry)[j].score
    ensures Alphabetical(BaselineOrder(cs, entry)[i].symbol, BaselineOrder(cs, entry)[j].symbol)
  {
    var picked := OfEntry(cs, entry);
    var named, bs := Sorted(picked, BySymbol()), BaselineOrder(cs, entry);
    var x := bs[i].score;
    ScoresTotal();
    SortedStable(named, ByScore(), HasScore(x));
    SortedOrdered(picked, BySymbol());
    var k, l := FilterPlaces(bs, HasScore(x), i, j);
    var m, n := FilterSources(named, HasScore(x), k, l);
    assert BySymbol()(named[m], named[n]);
    SymbolExactly(bs[i].symbol, bs[j].symbol);
  }

  /** Two kept elements stay in order. */
  lemma {:induction false} FilterPlaces<T(!new)>(xs: seq<T>, p: T -> bool, i: nat, j: nat) returns (k: nat, l: nat)
    requires i < j < |xs| && p(xs[i]) && p(xs[j])
    ensures k < l < |Filter(xs, p)| && Filter(xs, p)[k] == xs[i] && Filter(xs, p)[l] == xs[j]
  {
    var n := |xs| - 1;
    if j < n {
      k, l := FilterPlaces(xs[..n], p, i, j);
    } else {
      k := FilterPlace(xs[..n], p, i);
      l := |Filter(xs[..n], p)|;
    }
  }

  lemma {:induction false} FilterPlace<T(!new)>(xs: seq<T>, p: T -> bool, i: nat) returns (k: nat)
    requires i < |xs| && p(xs[i])
    ensures k < |Filter(xs, p)| && Filter(xs, p)[k] == xs[i]
  {
    var n := |xs| - 1;
    if i < n { k := FilterPlace(xs[..n], p, i); } else { k := |Filter(xs[..n], p)|; }
  }

  lemma {:induction false} FilterSources<T(!new)>(xs: seq<T>, p: T -> bool, k: nat, l: nat) returns (i: nat, j: nat)
    requires k < l < |Filter(xs, p)|
    ensures i < j < |xs| && Filter(xs, p)[k] == xs[i] && Filter(xs, p)[l] == xs[j]
  {
    var n := |xs| - 1;
    if l < |Filter(xs[..n], p)| {
      i, j := FilterSources(xs[..n], p, k, l);
    } else {
      i := FilterSource(xs[..n], p, k);
      j := n;
    }
  }

  lemma {:induction false} FilterSource<T(!new)>(xs: seq<T>, p: T -> bool, k: nat) returns (i: nat)
    requires k < |Filter(xs, p)|
    ensures i < |xs| && Filter(xs, p)[k] == xs[i]
  {
    var n := |xs| - 1;
    if k < |Filter(xs[..n], p)| { i := FilterSource(xs[..n], p, k); } else { i := n; }
  }

  /** The accepted order, candidate by candidate: every place keeps its signal time, and of two candidates with the
      same signal time the earlier one may precede the later. */
  lemma {:induction false} OrderExactly(bs: seq<Candidate>, quality: map<Key, real>, rs: seq<Evidence>)
    requires BuilderRecords(bs, quality, rs) && forall day :: DayAccepted(rs, day)
    ensures var out := Prioritized(bs, rs);
      && |out| == |bs| && multiset(out) == multiset(bs)
      && (forall p | 0 <= p < |bs| :: out[p].signal == bs[p].signal)
      && forall p, q | 0 <= p < q < |bs| && out[p].signal == out[q].signal :: MayPrecede(out[p], out[q], quality)
  {
    hide MayPrecede, Prioritized, RankAtMost, BuilderRecords, DayAccepted, RankOf;
    var out := Prioritized(bs, rs);
    PriorityOrder(bs, quality, rs);
    forall p, q | 0 <= p < q < |bs| && out[p].signal == out[q].signal
      ensures MayPrecede(out[p], out[q], quality)
    {
      RankExactly(out[p], out[q], quality);
    }
  }

  // ------------------------------------------------------------------ what the checker accepts

  /** The record of baseline candidate `i` is about that candidate, as it is now, at that place. */
  ghost predicate RecordTold(bs: seq<Candidate>, rs: seq<Evidence>, entry: Stamp, evidence: map<Key, Evidence>, i: int)
    requires 0 <= i < |bs| == |rs|
  {
    var c, e, key := bs[i], rs[i], Key(bs[i].symbol, bs[i].signal);
    && key in evidence && evidence[key] == e
    && e.key.symbol == c.symbol && e.key.signal == c.signal && e.entry == c.entry && e.entry == entry
    && e.volume == c.volume && e.baselineScore == c.score && e.baselineOrdinal == i + 1
  }

  function Amount(e: Evidence): real { if e.volumeFinite && e.volume.Finite? then e.volume.x else 0.0 }

  /** The order inside a group, on records. */
  ghost predicate RecordPrecedes(e: Evidence, f: Evidence) {
    var same := e.volumeFinite == f.volumeFinite && Amount(e) == Amount(f);
    && (!e.volumeFinite ==> !f.volumeFinite)
    && (e.volumeFinite && f.volumeFinite ==> Amount(e) >= Amount(f))
    && (same ==> e.quality >= f.quality)
    && (same && e.quality == f.quality ==> Alphabetical(e.key.symbol, f.key.symbol))
    && (same && e.quality == f.quality && e.key.symbol == f.key.symbol ==>
          e.key.signal.day <= f.key.signal.day
            && (e.key.signal.day == f.key.signal.day ==> e.key.signal.clock <= f.key.signal.clock))
  }

  /** The record lists the baseline places of its whole signal day, ascending, and its final place is the one its
      rank in the group picks from them. */
  ghost predicate SlotsTold(rs: seq<Evidence>, i: int)
    requires 0 <= i < |rs|
  {
    var e := rs[i];
    && (forall k, l | 0 <= k < l < |e.slots| :: e.slots[k] < e.slots[l])
    && (forall o :: o in e.slots <==> 1 <= o <= |rs| && rs[o - 1].groupDay == e.groupDay)
    && 1 <= e.variantOrdinal <= |e.slots| && e.finalOrdinal == e.slots[e.variantOrdinal - 1]
  }

  /** Ranks inside a day are distinct and follow the order of the records. */
  ghost predicate RanksTold(rs: seq<Evidence>) {
    forall i, j | 0 <= i < |rs| && 0 <= j < |rs| && i != j && rs[i].groupDay == rs[j].groupDay ::
      rs[i].variantOrdinal != rs[j].variantOrdinal
      && (rs[i].variantOrdinal < rs[j].variantOrdinal ==> RecordPrecedes(rs[i], rs[j]))
  }

  lemma {:induction false} RecordRankExactly(e: Evidence, f: Evidence)
    ensures RankAtMost(EvidenceRank(e), EvidenceRank(f)) <==> RecordPrecedes(e, f)
    ensures RecordPrecedes(e, f) && RecordPrecedes(f, e) ==> e.key == f.key
  {
    SymbolExactly(e.key.symbol, f.key.symbol);
    SymbolExactly(f.key.symbol, e.key.symbol);
    SymbolOrder(e.key.symbol, f.key.symbol, e.key.symbol);
    hide SymbolAtMost, Alphabetical;
    AlphabeticalSelf(e.key.symbol);
  }

  lemma {:induction false} AscendingUnique(xs: seq<int>, ys: seq<int>)
    requires Ascending(xs) && Ascending(ys) && forall o :: o in xs <==> o in ys
    ensures xs == ys
    decreases |xs| + |ys|, xs == []
  {
    if xs != [] {
      var m, n := |xs| - 1, |ys| - 1;
      assert xs[m] in ys && ys != [];
      assert ys[n] in xs;
      assert xs[m] == ys[n];
      forall o ensures o in xs[..m] <==> o in ys[..n] {
        assert o in xs <==> o in xs[..m] || o == xs[m];
        assert o in ys <==> o in ys[..n] || o == ys[n];
      }
      AscendingUnique(xs[..m], ys[..n]);
    } else if ys != [] {
      AscendingUnique(ys, xs);
    }
  }

  /** An accepted day, seen from its records. */
  lemma {:induction false} DayTold(rs: seq<Evidence>, i: nat)
    requires i < |rs| && DayAccepted(rs, rs[i].groupDay)
    ensures SlotsTold(rs, i)
  {
    var day := rs[i].groupDay;
    DaySlotsMean(rs, day);
    DayGroupMembers(rs, day);
    var k := PlaceInVariant(rs, i);
    assert rs[i] in DayGroup(rs, day);
    assert rs[i].variantOrdinal == k + 1;
  }

  /** The variant order of a day is the order of its records. */
  lemma {:induction false} VariantPrecedes(rs: seq<Evidence>, day: int, k: nat, l: nat)
    requires k < l < |DayVariant(rs, day)|
    ensures RecordPrecedes(DayVariant(rs, day)[k], DayVariant(rs, day)[l])
  {
    ByEvidenceRankTotal();
    SortedOrdered(DayGroup(rs, day), ByEvidenceRank());
    assert ByEvidenceRank()(DayVariant(rs, day)[k], DayVariant(rs, day)[l]);
    RecordRankExactly(DayVariant(rs, day)[k], DayVariant(rs, day)[l]);
  }

  lemma {:induction false} RankTold(rs: seq<Evidence>, i: nat, j: nat)
    requires i < |rs| && j < |rs| && rs[i] != rs[j] && rs[i].groupDay == rs[j].groupDay
    requires DayAccepted(rs, rs[i].groupDay)
    ensures rs[i].variantOrdinal != rs[j].variantOrdinal
    ensures rs[i].variantOrdinal < rs[j].variantOrdinal ==> RecordPrecedes(rs[i], rs[j])
  {
    hide RecordPrecedes, DayVariant;
    var k := PlaceInVariant(rs, i);
    var l := PlaceInVariant(rs, j);
    if k < l { VariantPrecedes(rs, rs[i].groupDay, k, l); }
  }

  lemma {:induction false} MemberTold(rs: seq<Evidence>, day: int, e: Evidence)
    requires e in rs && e.groupDay == day && forall i | 0 <= i < |rs| :: SlotsTold(rs, i)
    ensures e.slots == DaySlots(rs, day)
    ensures 1 <= e.variantOrdinal <= |DaySlots(rs, day)| && e.finalOrdinal == DaySlots(rs, day)[e.variantOrdinal - 1]
  {
    var i :| 0 <= i < |rs| && rs[i] == e;
    assert SlotsTold(rs, i);
    DaySlotsMean(rs, day);
    AscendingUnique(e.slots, DaySlots(rs, day));
  }

  /** Records that are told right make an accepted day. */
  lemma {:induction false} ToldDay(rs: seq<Evidence>, day: int)
    requires (forall i | 0 <= i < |rs| :: SlotsTold(rs, i)) && RanksTold(rs)
    requires forall i, j | 0 <= i < j < |rs| :: rs[i].key != rs[j].key
    ensures DayAccepted(rs, day)
  {
    hide SlotsTold, RanksTold, DaySlots, DayVariant, DayGroup;
    var variant := DayVariant(rs, day);
    DayVariantMeans(rs, day);
    DayGroupMembers(rs, day);
    forall e | e in rs && e.groupDay == day
      ensures e.slots == DaySlots(rs, day) && 1 <= e.variantOrdinal <= |DaySlots(rs, day)|
      ensures e.finalOrdinal == DaySlots(rs, day)[e.variantOrdinal - 1]
    {
      MemberTold(rs, day, e);
    }
    var ranks := seq(|variant|, k requires 0 <= k < |variant| => variant[k].variantOrdinal);
    forall k, l | 0 <= k < l < |variant| ensures ranks[k] < ranks[l] { VariantRises(rs, day, k, l); }
    forall k | 0 <= k < |variant| ensures 1 <= ranks[k] <= |variant| { assert variant[k] in variant; }
    forall k | 0 <= k < |variant|
      ensures variant[k].variantOrdinal == k + 1 && variant[k].finalOrdinal == DaySlots(rs, day)[k]
    {
      assert variant[k] in variant;
      RangeLow(ranks, k);
      RangeHigh(ranks, k);
    }
  }

  lemma {:induction false} VariantRises(rs: seq<Evidence>, day: int, k: nat, l: nat)
    requires RanksTold(rs) && k < l < |DayVariant(rs, day)|
    requires forall i, j | 0 <= i < j < |rs| :: rs[i].key != rs[j].key
    ensures DayVariant(rs, day)[k].variantOrdinal < DayVariant(rs, day)[l].variantOrdinal
  {
    var variant := DayVariant(rs, day);
    DayVariantMeans(rs, day);
    assert variant[k] in variant && variant[l] in variant;
    var i :| 0 <= i < |rs| && rs[i] == variant[k];
    var j :| 0 <= j < |rs| && rs[j] == variant[l];
    DistinctRecords(rs);
    GroupDistinctRecords(rs, day);
    SortedDistinct(DayGroup(rs, day), ByEvidenceRank());
    assert i != j;
    VariantPrecedes(rs, day, k, l);
    RecordRankExactly(rs[j], rs[i]);
  }

  lemma {:induction false} DistinctRecords(rs: seq<Evidence>)
    requires forall i, j | 0 <= i < j < |rs| :: rs[i].key != rs[j].key
    ensures Distinct(rs)
  {
  }

  lemma {:induction false} GroupDistinctRecords(rs: seq<Evidence>, day: int)
    requires Distinct(rs)
    ensures Distinct(DayGroup(rs, day))
  {
    if rs != [] {
      GroupDistinctRecords(rs[..|rs| - 1], day);
      DayGroupMembers(rs[..|rs| - 1], day);
    }
  }

  /** The checker accepts exactly this evidence: one record per candidate, about it as it is now and at its baseline
      place, listing the places of its signal day, ranked in its day by volume, quality, symbol and time, and sent to
      the place of that rank. */
  lemma {:induction false} AcceptedMeans(bs: seq<Candidate>, rs: seq<Evidence>, entry: Stamp,
      evidence: map<Key, Evidence>)
    ensures Accepted(bs, rs, entry, evidence) <==>
      && |rs| == |bs| && (forall i | 0 <= i < |bs| :: RecordTold(bs, rs, entry, evidence, i))
      && (forall i | 0 <= i < |rs| :: SlotsTold(rs, i)) && RanksTold(rs)
  {
    if |rs| == |bs| {
      RecordsTold(bs, rs, entry, evidence);
      if forall i | 0 <= i < |bs| :: RecordTold(bs, rs, entry, evidence, i) {
        assert forall i, j | 0 <= i < j < |rs| :: rs[i].key != rs[j].key && rs[i] != rs[j] by {
          KeysTold(bs, rs, entry, evidence);
        }
        hide RecordTold, SlotsTold, DayAccepted, RecordPrecedes;
        if forall day :: DayAccepted(rs, day) {
          forall i | 0 <= i < |rs| ensures SlotsTold(rs, i) { DayTold(rs, i); }
          forall i, j | 0 <= i < |rs| && 0 <= j < |rs| && i != j && rs[i].groupDay == rs[j].groupDay
            ensures rs[i].variantOrdinal != rs[j].variantOrdinal
            ensures rs[i].variantOrdinal < rs[j].variantOrdinal ==> RecordPrecedes(rs[i], rs[j])
          {
            RankTold(rs, i, j);
          }
        }
        if (forall i | 0 <= i < |rs| :: SlotsTold(rs, i)) && RanksTold(rs) {
          forall day ensures DayAccepted(rs, day) { ToldDay(rs, day); }
        }
      }
    }
  }

  lemma {:induction false} RecordsTold(bs: seq<Candidate>, rs: seq<Evidence>, entry: Stamp,
      evidence: map<Key, Evidence>)
    requires |rs| == |bs|
    ensures forall i | 0 <= i < |bs| ::
      RecordTold(bs, rs, entry, evidence, i) <==> Matches(bs, entry, evidence, i) && rs[i] == evidence[KeyOf(bs[i])]
  {
  }

  lemma {:induction false} KeysTold(bs: seq<Candidate>, rs: seq<Evidence>, entry: Stamp, evidence: map<Key, Evidence>)
    requires |rs| == |bs| && forall i | 0 <= i < |bs| :: RecordTold(bs, rs, entry, evidence, i)
    ensures forall i, j | 0 <= i < j < |rs| :: rs[i].key != rs[j].key && rs[i] != rs[j]
  {
    forall i, j | 0 <= i < j < |rs|
      ensures rs[i].key != rs[j].key && rs[i] != rs[j]
    {
      assert RecordTold(bs, rs, entry, evidence, i) && RecordTold(bs, rs, entry, evidence, j);
    }
  }
}
