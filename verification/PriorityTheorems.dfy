/** End to end: evidence built by the evaluator, checked by the simulator, and the resulting order. */
module PriorityTheorems {
  import opened StableSort
  import opened Ranking
  import opened CandidatePriority
  import opened PriorityCheck
  import opened PriorityAgreement

  /** The candidate a record is about. */
  function Owner(bs: seq<Candidate>): Evidence -> Candidate {
    (e: Evidence) => if 1 <= e.baselineOrdinal <= |bs| then bs[e.baselineOrdinal - 1]
      else Candidate("", Stamp(0, 0), Stamp(0, 0), Missing, Absent)
  }

  lemma {:induction false} RecordOrdinals(bs: seq<Candidate>, quality: map<Key, real>, rs: seq<Evidence>)
    requires BuilderRecords(bs, quality, rs)
    ensures forall i | 0 <= i < |bs| :: rs[i].baselineOrdinal == i + 1
    ensures Distinct(rs)
  {
    UniqueDistinct(bs);
    forall i | 0 <= i < |bs| ensures rs[i].baselineOrdinal == i + 1 {
      assert bs[i] in bs;
      IndexUnique(bs, i);
    }
  }

  /** The prioritized order is the baseline, permuted. */
  lemma {:induction false} PrioritizedPermutes(bs: seq<Candidate>, quality: map<Key, real>, rs: seq<Evidence>)
    requires BuilderRecords(bs, quality, rs)
    ensures multiset(Prioritized(bs, rs)) == multiset(bs)
  {
    RecordOrdinals(bs, quality, rs);
    var ordered := Sorted(rs, ByFinal());
    SortedPermutes(rs, ByFinal());
    MapPermutes(Owner(bs), ordered, rs);
    assert Map(Owner(bs), rs) == bs;
    assert Map(Owner(bs), ordered) == Prioritized(bs, rs);
  }

  /** Sorting records by distinct finals sorts the finals. */
  lemma {:induction false} SortedFinals(rs: seq<Evidence>)
    requires Distinct(Map(Final(), rs))
    ensures Map(Final(), Sorted(rs, ByFinal())) == Sorted(Map(Final(), rs), AtMostInt())
  {
    var ordered := Sorted(rs, ByFinal());
    var finals, expected := Map(Final(), ordered), Sorted(Map(Final(), rs), AtMostInt());
    SortedPermutes(rs, ByFinal());
    MapPermutes(Final(), ordered, rs);
    SortedPermutes(Map(Final(), rs), AtMostInt());
    FinalsOrdered(rs);
    StrictInts(Map(Final(), rs));
    OrderedUnique(expected, finals, AtMostInt());
  }

  lemma {:induction false} FinalsOrdered(rs: seq<Evidence>)
    ensures Ordered(Map(Final(), Sorted(rs, ByFinal())), AtMostInt())
  {
    SortedOrdered(rs, ByFinal());
    var ordered := Sorted(rs, ByFinal());
    forall i, j | 0 <= i < j < |ordered| ensures AtMostInt()(Map(Final(), ordered)[i], Map(Final(), ordered)[j]) {
      assert ByFinal()(ordered[i], ordered[j]);
    }
  }

  lemma {:induction false} StrictInts(xs: seq<int>)
    requires Distinct(xs)
    ensures StrictlyOrdered(Sorted(xs, AtMostInt()), AtMostInt())
  {
    SortedOrdered(xs, AtMostInt());
    SortedDistinct(xs, AtMostInt());
  }

  /** Sorting accepted records by final ordinal puts ordinal k+1 at place k. */
  lemma {:induction false} FinalAtPlace(rs: seq<Evidence>, k: nat)
    requires Distinct(rs) && (forall day :: DayAccepted(rs, day)) && k < |rs|
    ensures Sorted(rs, ByFinal())[k].finalOrdinal == k + 1
  {
    FinalsDistinct(rs);
    SortedRange(Map(Final(), rs));
    SortedFinals(rs);
    assert Map(Final(), Sorted(rs, ByFinal()))[k] == Sorted(rs, ByFinal())[k].finalOrdinal;
  }

  /** The record at place `p` of the final order and its baseline candidate. */
  lemma {:induction false} RecordAt(bs: seq<Candidate>, rs: seq<Evidence>, p: nat) returns (i: nat)
    requires |rs| == |bs| && (forall i | 0 <= i < |bs| :: rs[i].baselineOrdinal == i + 1) && p < |bs|
    ensures i < |bs| && Sorted(rs, ByFinal())[p] == rs[i] && Prioritized(bs, rs)[p] == bs[i]
  {
    SortedMembers(rs, ByFinal());
    var e := Sorted(rs, ByFinal())[p];
    assert e in Sorted(rs, ByFinal());
    i :| 0 <= i < |rs| && rs[i] == e;
  }

  /** A candidate's place in its group, read off its record. */
  lemma {:induction false} PlaceInGroup(bs: seq<Candidate>, quality: map<Key, real>, c: Candidate) returns (k: nat)
    requires UniqueKeys(bs) && c in bs
    ensures k < |Variant(bs, c.signal, quality)| == |Slots(bs, c.signal)|
    ensures Variant(bs, c.signal, quality)[k] == c && Slots(bs, c.signal)[k] == EvidenceFor(bs, c, quality).finalOrdinal
    ensures Slots(bs, c.signal)[k] in Slots(bs, c.signal)
  {
    VariantMeans(bs, c.signal, quality);
    k := IndexOf(Variant(bs, c.signal, quality), c);
  }

  /** The place of candidate `c` in the prioritized order, and its place in its group. */
  lemma {:induction false} PlaceOf(bs: seq<Candidate>, quality: map<Key, real>, rs: seq<Evidence>, p: nat)
      returns (c: Candidate, k: nat)
    requires BuilderRecords(bs, quality, rs) && (forall day :: DayAccepted(rs, day)) && p < |bs|
    ensures c in bs && Prioritized(bs, rs)[p] == c && bs[p].signal == c.signal
    ensures k < |Variant(bs, c.signal, quality)| == |Slots(bs, c.signal)|
    ensures Variant(bs, c.signal, quality)[k] == c && Slots(bs, c.signal)[k] == p + 1
  {
    RecordOrdinals(bs, quality, rs);
    FinalAtPlace(rs, p);
    var i := RecordAt(bs, rs, p);
    c := bs[i];
    k := PlaceInGroup(bs, quality, c);
    GroupMeans(bs, c.signal);
  }

  /** The agreed order: a permutation of the baseline in which each signal-date group keeps its slots
      and, inside them, is ordered by volume, quality, symbol and key. */
  lemma {:induction false} PriorityOrder(bs: seq<Candidate>, quality: map<Key, real>, rs: seq<Evidence>)
    requires BuilderRecords(bs, quality, rs) && forall day :: DayAccepted(rs, day)
    ensures var out := Prioritized(bs, rs);
      && multiset(out) == multiset(bs) && |out| == |bs|
      && (forall p | 0 <= p < |bs| :: out[p].signal == bs[p].signal)
      && forall p, q | 0 <= p < q < |bs| && out[p].signal == out[q].signal ::
        RankAtMost(RankOf(out[p], quality), RankOf(out[q], quality))
  {
    PrioritizedPermutes(bs, quality, rs);
    var out := Prioritized(bs, rs);
    forall p | 0 <= p < |bs|
      ensures out[p].signal == bs[p].signal
    {
      var c, k := PlaceOf(bs, quality, rs, p);
    }
    forall p, q | 0 <= p < q < |bs| && out[p].signal == out[q].signal
      ensures RankAtMost(RankOf(out[p], quality), RankOf(out[q], quality))
    {
      InGroupOrder(bs, quality, rs, p, q);
    }
  }

  lemma {:induction false} InGroupOrder(bs: seq<Candidate>, quality: map<Key, real>, rs: seq<Evidence>, p: nat, q: nat)
    requires BuilderRecords(bs, quality, rs) && (forall day :: DayAccepted(rs, day)) && p < q < |bs|
    requires Prioritized(bs, rs)[p].signal == Prioritized(bs, rs)[q].signal
    ensures RankAtMost(RankOf(Prioritized(bs, rs)[p], quality), RankOf(Prioritized(bs, rs)[q], quality))
  {
    var c, k := PlaceOf(bs, quality, rs, p);
    var d, l := PlaceOf(bs, quality, rs, q);
    GroupMeans(bs, c.signal);
    AscendingIndex(Slots(bs, c.signal), k, l);
    VariantMeans(bs, c.signal, quality);
  }

  lemma {:induction false} AscendingIndex(xs: seq<int>, k: nat, l: nat)
    requires Ascending(xs) && k < |xs| && l < |xs| && xs[k] < xs[l]
    ensures k < l
  {
  }

  // --------------------------------------------------------------------- end to end

  lemma {:induction false} BuiltMatches(cs: seq<Candidate>, quality: map<Key, real>, es: seq<Evidence>, entry: Stamp,
      i: nat)
    requires UniqueKeys(cs) && Built(Due(cs, quality), EntryDates(cs), es) && i < |BaselineOrder(cs, entry)|
    ensures var bs := BaselineOrder(cs, entry);
      && UniqueKeys(bs) && bs[i] in bs && Matches(bs, entry, ByKey(es), i)
      && ByKey(es)[KeyOf(bs[i])] == EvidenceFor(bs, bs[i], quality)
  {
    BaselineMeans(cs, entry);
    var bs := BaselineOrder(cs, entry);
    var c := bs[i];
    assert c in bs && c in Due(cs, quality) && c.entry in EntryDates(cs);
    DueKeyed(cs, quality);
    ByKeyFinds(Due(cs, quality), EntryDates(cs), es, c);
    UniqueDistinct(bs);
    IndexUnique(bs, i);
  }

  /** For all candidates with unique keys: the built evidence covers exactly the candidates, and on
      each entry date the checker accepts it exactly when every signal day of that date has one clock
      time. Accepted records are the builder's, so `PriorityOrder` describes the resulting order. */
  lemma {:induction false} BuilderCheckerAgree(cs: seq<Candidate>, quality: map<Key, real>, es: seq<Evidence>,
      entry: Stamp)
    requires UniqueKeys(cs) && (forall c | c in cs :: c.symbol != "") && Built(Due(cs, quality), EntryDates(cs), es)
    ensures forall key :: key in ByKey(es) <==> exists c :: c in cs && KeyOf(c) == key
    ensures (exists rs :: Accepted(BaselineOrder(cs, entry), rs, entry, ByKey(es))) <==>
      OneClock(BaselineOrder(cs, entry))
    ensures forall rs | Accepted(BaselineOrder(cs, entry), rs, entry, ByKey(es)) ::
      BuilderRecords(BaselineOrder(cs, entry), quality, rs)
  {
    KeysCovered(cs, quality, es);
    BaselineMeans(cs, entry);
    AllFound(cs, quality, es, entry);
    FoundAgree(BaselineOrder(cs, entry), quality, entry, ByKey(es));
  }

  /** The dictionary holds the builder's record of baseline candidate `i`, and it matches. */
  ghost predicate Found(bs: seq<Candidate>, quality: map<Key, real>, entry: Stamp, evidence: map<Key, Evidence>, i: int)
    requires UniqueKeys(bs) && 0 <= i < |bs|
  {
    bs[i] in bs && Matches(bs, entry, evidence, i) && evidence[KeyOf(bs[i])] == EvidenceFor(bs, bs[i], quality)
  }

  lemma {:induction false} AllFound(cs: seq<Candidate>, quality: map<Key, real>, es: seq<Evidence>, entry: Stamp)
    requires UniqueKeys(cs) && Built(Due(cs, quality), EntryDates(cs), es)
    ensures var bs := BaselineOrder(cs, entry); UniqueKeys(bs) && forall i | 0 <= i < |bs| ::
      Found(bs, quality, entry, ByKey(es), i)
  {
    BaselineMeans(cs, entry);
    var bs := BaselineOrder(cs, entry);
    forall i | 0 <= i < |bs| ensures Found(bs, quality, entry, ByKey(es), i) {
      BuiltMatches(cs, quality, es, entry, i);
    }
  }

  lemma {:induction false} FoundRecords(bs: seq<Candidate>, quality: map<Key, real>, entry: Stamp,
      evidence: map<Key, Evidence>, n: nat)
    returns (rs: seq<Evidence>)
    requires UniqueKeys(bs) && n <= |bs| && forall i | 0 <= i < |bs| :: Found(bs, quality, entry, evidence, i)
    ensures |rs| == n && forall i | 0 <= i < n :: Matches(bs, entry, evidence, i) && rs[i] == evidence[KeyOf(bs[i])]
  {
    rs := [];
    if n > 0 {
      rs := FoundRecords(bs, quality, entry, evidence, n - 1);
      assert Found(bs, quality, entry, evidence, n - 1);
      rs := rs + [evidence[KeyOf(bs[n - 1])]];
    }
  }

  lemma {:induction false} FoundAgree(bs: seq<Candidate>, quality: map<Key, real>, entry: Stamp,
      evidence: map<Key, Evidence>)
    requires UniqueKeys(bs) && (forall c | c in bs :: c.symbol != "")
    requires forall i | 0 <= i < |bs| :: Found(bs, quality, entry, evidence, i)
    ensures (exists rs :: Accepted(bs, rs, entry, evidence)) <==> OneClock(bs)
    ensures forall rs | Accepted(bs, rs, entry, evidence) :: BuilderRecords(bs, quality, rs)
  {
    var rs := FoundRecords(bs, quality, entry, evidence, |bs|);
    forall i | 0 <= i < |bs| ensures bs[i] in bs && rs[i] == EvidenceFor(bs, bs[i], quality) {
      assert Found(bs, quality, entry, evidence, i);
    }
    AcceptedExactly(bs, quality, rs);
    OnlyTheseRecords(bs, rs, entry, evidence);
    if OneClock(bs) { assert Accepted(bs, rs, entry, evidence); }
  }

  lemma {:induction false} KeysCovered(cs: seq<Candidate>, quality: map<Key, real>, es: seq<Evidence>)
    requires UniqueKeys(cs) && Built(Due(cs, quality), EntryDates(cs), es)
    ensures forall key :: key in ByKey(es) <==> exists c :: c in cs && KeyOf(c) == key
  {
    DueKeyed(cs, quality);
    forall key
      ensures key in ByKey(es) <==> exists c :: c in cs && KeyOf(c) == key
    {
      if c :| c in cs && KeyOf(c) == key { ByKeyFinds(Due(cs, quality), EntryDates(cs), es, c); }
      if key in ByKey(es) {
        var e :| e in es && e.key == key;
        var i :| 0 <= i < |es| && es[i] == e;
        assert DueTo(Due(cs, quality), EntryDates(cs), es[i]);
      }
    }
  }

  /** Two candidates that enter together, with signals of one day at two clock times. */
  function TwoClocks(): seq<Candidate> {
    [Candidate("A", Stamp(1, 9), Stamp(2, 0), Number(1.0), Finite(1.0)),
      Candidate("B", Stamp(1, 10), Stamp(2, 0), Number(1.0), Finite(2.0))]
  }

  /** The builder makes evidence for them, and the simulator refuses that evidence. */
  method TwoClocksRefused() returns (refused: bool)
    ensures refused
  {
    var cs, entry := TwoClocks(), Stamp(2, 0);
    var quality := map c | c in cs :: KeyOf(c) := 50.0;
    var es := BuildPriorityEvidence(cs, quality);
    var offered := Sorted(OfEntry(cs, entry), BySymbol());
    ghost var rs;
    var r;
    r, rs := RankEntryCandidates(offered, entry, ByKey(es));
    BuilderCheckerAgree(cs, quality, es, entry);
    TwoClocksDiffer(entry);
    return r.Err?;
  }

  lemma {:induction false} TwoClocksDiffer(entry: Stamp)
    requires entry == Stamp(2, 0)
    ensures !OneClock(BaselineOrder(TwoClocks(), entry))
  {
    var cs, bs := TwoClocks(), BaselineOrder(TwoClocks(), entry);
    BaselineMeans(cs, entry);
    assert cs[0] in bs && cs[1] in bs;
    var i :| 0 <= i < |bs| && bs[i] == cs[0];
    var j :| 0 <= j < |bs| && bs[j] == cs[1];
  }
}
