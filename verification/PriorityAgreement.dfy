/** The evaluator's builder and the simulator's checker agree, and what the agreed order is. */
module PriorityAgreement {
  import opened MarketTypes
  import opened StableSort
  import opened Ranking
  import opened CandidatePriority
  import opened PriorityCheck

  // ------------------------------------------------------------------- the builder

  lemma {:induction false} BaselineMeans(cs: seq<Candidate>, entry: Stamp)
    ensures forall c :: c in BaselineOrder(cs, entry) <==> c in cs && c.entry == entry
    ensures UniqueKeys(cs) ==> UniqueKeys(BaselineOrder(cs, entry))
  {
    OfEntryMeans(cs, entry);
    var picked := OfEntry(cs, entry);
    SortedMembers(picked, BySymbol());
    SortedMembers(Sorted(picked, BySymbol()), ByScore());
    if UniqueKeys(cs) {
      SortedDistinct(picked, BySymbol());
      SortedDistinct(Sorted(picked, BySymbol()), ByScore());
      var bs := BaselineOrder(cs, entry);
      forall i, j | 0 <= i < j < |bs|
        ensures KeyOf(bs[i]) != KeyOf(bs[j])
      {
        assert bs[i] in bs && bs[j] in bs;
        var k :| 0 <= k < |cs| && cs[k] == bs[i];
        var l :| 0 <= l < |cs| && cs[l] == bs[j];
      }
    }
  }

  lemma {:induction false} OfEntryMeans(cs: seq<Candidate>, entry: Stamp)
    ensures forall c :: c in OfEntry(cs, entry) <==> c in cs && c.entry == entry
    ensures UniqueKeys(cs) ==> UniqueKeys(OfEntry(cs, entry)) && Distinct(OfEntry(cs, entry))
  {
    if cs != [] {
      OfEntryMeans(cs[..|cs| - 1], entry);
      assert cs == cs[..|cs| - 1] + [cs[|cs| - 1]];
    }
  }

  /** The four dictionaries the builder fills for one entry date. */
  datatype Tables = Tables(variantOrdinal: map<Key, int>, finalOrdinal: map<Key, int>, slots: map<Key, seq<int>>,
      size: map<Key, int>)

  ghost predicate Filed(t: Tables, bs: seq<Candidate>, quality: map<Key, real>, c: Candidate)
    requires c in bs && UniqueKeys(bs)
  {
    var key, e := KeyOf(c), EvidenceFor(bs, c, quality);
    && key in t.variantOrdinal && t.variantOrdinal[key] == e.variantOrdinal
    && key in t.finalOrdinal && t.finalOrdinal[key] == e.finalOrdinal
    && key in t.slots && t.slots[key] == e.slots && key in t.size && t.size[key] == e.groupSize
  }

  /** One candidate of a group, at its place in the variant order. */
  method FileOne(bs: seq<Candidate>, quality: map<Key, real>, c: Candidate, k: nat, slots: seq<int>, before: Tables)
      returns (t: Tables)
    requires UniqueKeys(bs) && c in bs && k < |slots|
    requires var e := EvidenceFor(bs, c, quality);
      e.variantOrdinal == k + 1 && e.finalOrdinal == slots[k] && e.slots == slots && e.groupSize == |slots|
    ensures Filed(t, bs, quality, c)
    ensures forall d | d in bs && Filed(before, bs, quality, d) :: Filed(t, bs, quality, d)
  {
    var key := KeyOf(c);
    t := Tables(before.variantOrdinal[key := k + 1], before.finalOrdinal[key := slots[k]],
      before.slots[key := slots], before.size[key := |slots|]);
    forall d | d in bs && Filed(before, bs, quality, d)
      ensures Filed(t, bs, quality, d)
    {
      SameKey(bs, c, d);
    }
  }

  /** The inner loop: one signal-date group, in variant order. */
  method FileGroup(bs: seq<Candidate>, signal: Stamp, quality: map<Key, real>, before: Tables) returns (t: Tables)
    requires UniqueKeys(bs)
    ensures forall c | c in bs && c.signal == signal :: Filed(t, bs, quality, c)
    ensures forall c | c in bs && Filed(before, bs, quality, c) :: Filed(t, bs, quality, c)
  {
    var slots, variant := Slots(bs, signal), Variant(bs, signal, quality);
    VariantMeans(bs, signal, quality);
    t := before;
    for k := 0 to |variant|
      invariant forall i | 0 <= i < k :: variant[i] in bs && Filed(t, bs, quality, variant[i])
      invariant forall c | c in bs && Filed(before, bs, quality, c) :: Filed(t, bs, quality, c)
    {
      assert variant[k] in variant;
      IndexUnique(variant, k);
      t := FileOne(bs, quality, variant[k], k, slots, t);
    }
    forall c | c in bs && c.signal == signal
      ensures Filed(t, bs, quality, c)
    {
      assert c in variant;
    }
  }

  lemma {:induction false} SameKey(bs: seq<Candidate>, c: Candidate, d: Candidate)
    requires UniqueKeys(bs) && c in bs && d in bs
    ensures KeyOf(c) == KeyOf(d) <==> c == d
  {
    var i :| 0 <= i < |bs| && bs[i] == c;
    var j :| 0 <= j < |bs| && bs[j] == d;
  }

  /** The loop over the signal dates of one entry date. */
  method FileGroups(bs: seq<Candidate>, quality: map<Key, real>) returns (t: Tables)
    requires UniqueKeys(bs)
    ensures forall c | c in bs :: Filed(t, bs, quality, c)
  {
    var rest := set c | c in bs :: c.signal;
    t := Tables(map[], map[], map[], map[]);
    while rest != {}
      invariant forall c | c in bs && c.signal !in rest :: Filed(t, bs, quality, c)
      decreases |rest|
    {
      ghost var x := PickOne(rest);
      var signal :| signal in rest;
      t := FileGroup(bs, signal, quality, t);
      rest := rest - {signal};
    }
  }

  /** The records of one entry date, in baseline order. */
  method BuildEntry(bs: seq<Candidate>, quality: map<Key, real>) returns (es: seq<Evidence>)
    requires UniqueKeys(bs) && forall c | c in bs :: KeyOf(c) in quality
    ensures |es| == |bs| && forall i | 0 <= i < |bs| :: es[i] == EvidenceFor(bs, bs[i], quality)
  {
    var t := FileGroups(bs, quality);
    es := [];
    for i := 0 to |bs|
      invariant |es| == i && forall j | 0 <= j < i :: es[j] == EvidenceFor(bs, bs[j], quality)
    {
      assert bs[i] in bs;
      var e := BuildRecord(bs, quality, t, i);
      es := es + [e];
    }
  }

  method BuildRecord(bs: seq<Candidate>, quality: map<Key, real>, t: Tables, i: nat) returns (e: Evidence)
    requires UniqueKeys(bs) && i < |bs| && KeyOf(bs[i]) in quality && bs[i] in bs && Filed(t, bs, quality, bs[i])
    ensures e == EvidenceFor(bs, bs[i], quality)
  {
    var c := bs[i];
    var key := KeyOf(c);
    UniqueDistinct(bs);
    IndexUnique(bs, i);
    e := Evidence(key, c.entry, c.volume, c.volume.Finite?, quality[key], c.score, i + 1, c.signal.day,
                  t.size[key], t.slots[key], t.variantOrdinal[key], t.finalOrdinal[key]);
  }

  ghost function Expected(cs: seq<Candidate>, quality: map<Key, real>, c: Candidate): (e: Evidence)
    requires UniqueKeys(cs) && c in cs
    ensures e.key == KeyOf(c)
  {
    BaselineMeans(cs, c.entry);
    EvidenceFor(BaselineOrder(cs, c.entry), c, quality)
  }

  /** The record each candidate is due. */
  ghost function Due(cs: seq<Candidate>, quality: map<Key, real>): map<Candidate, Evidence>
    requires UniqueKeys(cs)
  {
    map c | c in cs :: Expected(cs, quality, c)
  }

  function EntryDates(cs: seq<Candidate>): set<Stamp> { set c | c in cs :: c.entry }

  predicate KeysDistinct(es: seq<Evidence>) { forall i, j | 0 <= i < j < |es| :: es[i].key != es[j].key }

  ghost predicate Keyed(due: map<Candidate, Evidence>) { forall c | c in due :: due[c].key == KeyOf(c) }

  ghost predicate DueTo(due: map<Candidate, Evidence>, entries: set<Stamp>, e: Evidence) {
    exists c :: c in due && c.entry in entries && e == due[c]
  }

  /** The records of exactly the candidates of the given entry dates, one each. */
  ghost predicate Built(due: map<Candidate, Evidence>, entries: set<Stamp>, es: seq<Evidence>) {
    && (forall c | c in due && c.entry in entries :: due[c] in es)
    && (forall i | 0 <= i < |es| :: DueTo(due, entries, es[i]))
    && KeysDistinct(es)
  }

  /** `_build_priority_evidence` with volume priority: one record per candidate, each passing its
      constructor checks. */
  method BuildPriorityEvidence(cs: seq<Candidate>, quality: map<Key, real>) returns (es: seq<Evidence>)
    requires UniqueKeys(cs) && (forall c | c in cs :: c.symbol != "") && forall c | c in cs :: KeyOf(c) in quality
    ensures Built(Due(cs, quality), EntryDates(cs), es)
    ensures forall i | 0 <= i < |es| :: Wellformed(es[i])
  {
    var dates := BuildDates(cs, quality);
    es := [];
    for k := 0 to |dates|
      invariant es == Joined(dates[..k])
    {
      assert dates[..k + 1][..k] == dates[..k];
      es := es + dates[k].records;
    }
    assert dates[..|dates|] == dates;
    DueKeyed(cs, quality);
    AllDue(cs, quality, dates);
    JoinedBuilt(cs, quality, Due(cs, quality), dates);
    assert Entries(dates) == EntryDates(cs);
    AllWellformed(cs, quality, EntryDates(cs), es);
  }

  /** One entry date with its baseline and its records. */
  datatype DateRecords = DateRecords(entry: Stamp, baseline: seq<Candidate>, records: seq<Evidence>)

  function Joined(dates: seq<DateRecords>): seq<Evidence> {
    if dates == [] then [] else Joined(dates[..|dates| - 1]) + dates[|dates| - 1].records
  }

  function Entries(dates: seq<DateRecords>): set<Stamp> { set d | d in dates :: d.entry }

  /** The records of the baseline of the date. */
  ghost predicate RecordsOf(cs: seq<Candidate>, quality: map<Key, real>, d: DateRecords) {
    && d.baseline == BaselineOrder(cs, d.entry) && UniqueKeys(d.baseline) && |d.records| == |d.baseline|
    && forall i | 0 <= i < |d.baseline| :: d.records[i] == EvidenceFor(d.baseline, d.baseline[i], quality)
  }

  lemma {:induction false} RecordsOfBuilt(cs: seq<Candidate>, quality: map<Key, real>, d: DateRecords)
    requires UniqueKeys(cs) && RecordsOf(cs, quality, d)
    ensures DueDate(Due(cs, quality), d)
  {
    BaselineMeans(cs, d.entry);
    forall i | 0 <= i < |d.baseline| ensures d.baseline[i] in cs
      && d.records[i] == Expected(cs, quality, d.baseline[i]) {
      assert d.baseline[i] in d.baseline;
    }
  }

  ghost predicate AreDates(cs: seq<Candidate>, quality: map<Key, real>, dates: seq<DateRecords>) {
    && (forall k | 0 <= k < |dates| :: RecordsOf(cs, quality, dates[k]))
    && forall i, j | 0 <= i < j < |dates| :: dates[i].entry != dates[j].entry
  }

  function ByTime(): (Stamp, Stamp) -> bool { (a: Stamp, b: Stamp) => StampAtMost(a, b) }

  /** Each entry date once, in order of first appearance. */
  function FirstEntries(cs: seq<Candidate>): (es: seq<Stamp>)
    ensures Distinct(es) && forall e :: e in es <==> e in EntryDates(cs)
  {
    if cs == [] then []
    else
      var prior, last := FirstEntries(cs[..|cs| - 1]), cs[|cs| - 1];
      assert cs == cs[..|cs| - 1] + [last];
      if last.entry in prior then prior else prior + [last.entry]
  }

  method BuildDates(cs: seq<Candidate>, quality: map<Key, real>) returns (dates: seq<DateRecords>)
    requires UniqueKeys(cs) && forall c | c in cs :: KeyOf(c) in quality
    ensures Entries(dates) == EntryDates(cs) && AreDates(cs, quality, dates)
  {
    dates := [];
    var order := Sorted(FirstEntries(cs), ByTime());
    for i := 0 to |order|
      invariant |dates| == i
      invariant forall k | 0 <= k < i :: dates[k].entry == order[k]
      invariant forall k | 0 <= k < i :: RecordsOf(cs, quality, dates[k])
    {
      var d := BuildDate(cs, quality, order[i]);
      dates := dates + [d];
    }
    DatesInOrder(cs, quality, order, dates);
  }

  lemma {:induction false} DatesInOrder(cs: seq<Candidate>, quality: map<Key, real>, order: seq<Stamp>,
      dates: seq<DateRecords>)
    requires order == Sorted(FirstEntries(cs), ByTime()) && |dates| == |order|
    requires forall k | 0 <= k < |order| :: dates[k].entry == order[k]
    ensures Entries(dates) == EntryDates(cs)
    ensures forall i, j | 0 <= i < j < |dates| :: dates[i].entry != dates[j].entry
  {
    SortedMembers(FirstEntries(cs), ByTime());
    SortedDistinct(FirstEntries(cs), ByTime());
    forall k | 0 <= k < |order| ensures order[k] in EntryDates(cs) { assert order[k] in order; }
    forall e | e in EntryDates(cs)
      ensures e in Entries(dates)
    {
      assert e in order;
      var k :| 0 <= k < |order| && order[k] == e;
      assert dates[k] in dates;
    }
  }

  lemma {:induction false} EntriesAdd(dates: seq<DateRecords>, d: DateRecords)
    ensures Entries(dates + [d]) == Entries(dates) + {d.entry}
  {
    var all := dates + [d];
    forall e ensures e in Entries(all) <==> e in Entries(dates) || e == d.entry {
      if e in Entries(dates) { var x :| x in dates && x.entry == e; assert x in all; }
      assert d in all;
    }
  }

  lemma {:induction false} JoinedBuilt(cs: seq<Candidate>, quality: map<Key, real>, due: map<Candidate, Evidence>,
      dates: seq<DateRecords>)
    requires Keyed(due) && forall b, c | b in due && c in due && KeyOf(b) == KeyOf(c) :: b == c
    requires forall k | 0 <= k < |dates| :: DueDate(due, dates[k])
    requires forall i, j | 0 <= i < j < |dates| :: dates[i].entry != dates[j].entry
    ensures Built(due, Entries(dates), Joined(dates))
  {
    if dates != [] {
      var n := |dates| - 1;
      var prior, d := dates[..n], dates[n];
      JoinedBuilt(cs, quality, due, prior);
      assert dates == prior + [d];
      EntriesAdd(prior, d);
      forall e | e in prior ensures e.entry != d.entry { var k :| 0 <= k < n && dates[k] == e; }
      BuiltMore(due, Entries(prior), Joined(prior), d.entry, d.baseline, d.records);
    }
  }

  /** The date's records are those due to its candidates. */
  ghost predicate DueDate(due: map<Candidate, Evidence>, d: DateRecords) {
    && UniqueKeys(d.baseline) && |d.records| == |d.baseline|
    && (forall c :: c in d.baseline <==> c in due && c.entry == d.entry)
    && forall i | 0 <= i < |d.baseline| :: d.baseline[i] in due && d.records[i] == due[d.baseline[i]]
  }

  lemma {:induction false} AllDue(cs: seq<Candidate>, quality: map<Key, real>, dates: seq<DateRecords>)
    requires UniqueKeys(cs) && AreDates(cs, quality, dates)
    ensures forall k | 0 <= k < |dates| :: DueDate(Due(cs, quality), dates[k])
  {
    forall k | 0 <= k < |dates| ensures DueDate(Due(cs, quality), dates[k]) { RecordsOfBuilt(cs, quality, dates[k]); }
  }

  lemma {:induction false} DueKeyed(cs: seq<Candidate>, quality: map<Key, real>)
    requires UniqueKeys(cs)
    ensures Keyed(Due(cs, quality))
    ensures forall c, d | c in Due(cs, quality) && d in Due(cs, quality) && KeyOf(c) == KeyOf(d) :: c == d
  {
    forall c, d | c in cs && d in cs && KeyOf(c) == KeyOf(d) ensures c == d { SameKey(cs, c, d); }
  }

  lemma {:induction false} AllWellformed(cs: seq<Candidate>, quality: map<Key, real>, entries: set<Stamp>,
      es: seq<Evidence>)
    requires UniqueKeys(cs) && (forall c | c in cs :: c.symbol != "") && Built(Due(cs, quality), entries, es)
    ensures forall i | 0 <= i < |es| :: Wellformed(es[i])
  {
    forall i | 0 <= i < |es|
      ensures Wellformed(es[i])
    {
      assert DueTo(Due(cs, quality), entries, es[i]);
      var c :| c in Due(cs, quality) && c.entry in entries && es[i] == Due(cs, quality)[c];
      BaselineMeans(cs, c.entry);
      EvidenceWellformed(BaselineOrder(cs, c.entry), c, quality);
    }
  }

  /** One entry date: its baseline and its records. */
  method BuildDate(cs: seq<Candidate>, quality: map<Key, real>, entry: Stamp) returns (d: DateRecords)
    requires UniqueKeys(cs) && forall c | c in cs :: KeyOf(c) in quality
    ensures d.entry == entry && RecordsOf(cs, quality, d)
  {
    BaselineMeans(cs, entry);
    var bs := BaselineOrder(cs, entry);
    var es := BuildEntry(bs, quality);
    d := DateRecords(entry, bs, es);
  }

  lemma {:induction false} BuiltMore(due: map<Candidate, Evidence>, done: set<Stamp>, es: seq<Evidence>,
      entry: Stamp, bs: seq<Candidate>, one: seq<Evidence>)
    requires Keyed(due) && Built(due, done, es) && entry !in done && UniqueKeys(bs) && |one| == |bs|
    requires forall c, d | c in due && d in due && KeyOf(c) == KeyOf(d) :: c == d
    requires forall c :: c in bs <==> c in due && c.entry == entry
    requires forall i | 0 <= i < |bs| :: bs[i] in due && one[i] == due[bs[i]]
    ensures Built(due, done + {entry}, es + one)
  {
    var all := es + one;
    forall c | c in due && c.entry in done + {entry}
      ensures due[c] in all
    {
      if c.entry == entry {
        assert c in bs;
        var i :| 0 <= i < |bs| && bs[i] == c;
        assert one[i] in one;
      }
    }
    forall i | 0 <= i < |all|
      ensures DueTo(due, done + {entry}, all[i])
    {
      if i < |es| {
        assert DueTo(due, done, es[i]);
        var c :| c in due && c.entry in done && es[i] == due[c];
      } else {
        assert all[i] == one[i - |es|] && bs[i - |es|] in bs;
      }
    }
    forall i, j | 0 <= i < |es| && 0 <= j < |bs|
      ensures es[i].key != one[j].key
    {
      assert DueTo(due, done, es[i]);
      var c :| c in due && c.entry in done && es[i] == due[c];
      assert bs[j] in bs;
    }
  }

  /** The simulator's dictionary of the records. */
  function ByKey(es: seq<Evidence>): map<Key, Evidence>
    requires KeysDistinct(es)
  {
    map e | e in es :: e.key := e
  }

  lemma {:induction false} ByKeyFinds(due: map<Candidate, Evidence>, entries: set<Stamp>, es: seq<Evidence>,
      c: Candidate)
    requires Keyed(due) && Built(due, entries, es) && c in due && c.entry in entries
    ensures KeyOf(c) in ByKey(es) && ByKey(es)[KeyOf(c)] == due[c]
  {
    assert due[c] in es;
  }

  // --------------------------------------------------------------------- agreement

  /** One clock time per signal day. */
  ghost predicate OneClock(bs: seq<Candidate>) {
    forall i, j | 0 <= i < |bs| && 0 <= j < |bs| && bs[i].signal.day == bs[j].signal.day :: bs[i].signal == bs[j].signal
  }

  /** The builder's records of one baseline. */
  ghost predicate BuilderRecords(bs: seq<Candidate>, quality: map<Key, real>, rs: seq<Evidence>) {
    UniqueKeys(bs) && |rs| == |bs| && forall i | 0 <= i < |bs| :: rs[i] == EvidenceFor(bs, bs[i], quality)
  }

  lemma {:induction false} DayIsGroup(bs: seq<Candidate>, rs: seq<Evidence>, signal: Stamp)
    requires |rs| == |bs| && forall i | 0 <= i < |bs| :: rs[i].groupDay == signal.day <==> bs[i].signal == signal
    ensures DaySlots(rs, signal.day) == Slots(bs, signal)
    ensures |DayGroup(rs, signal.day)| == |Group(bs, signal)|
    ensures forall k | 0 <= k < |Group(bs, signal)| :: exists i | 0 <= i < |bs| ::
      bs[i] == Group(bs, signal)[k] && rs[i] == DayGroup(rs, signal.day)[k]
  {
    if bs != [] {
      var n := |bs| - 1;
      DayIsGroup(bs[..n], rs[..n], signal);
      var group, days := Group(bs, signal), DayGroup(rs, signal.day);
      forall k | 0 <= k < |group|
        ensures exists i | 0 <= i < |bs| :: bs[i] == group[k] && rs[i] == days[k]
      {
        if k < |Group(bs[..n], signal)| {
          var i :| 0 <= i < n && bs[..n][i] == Group(bs[..n], signal)[k]
            && rs[..n][i] == DayGroup(rs[..n], signal.day)[k];
          assert bs[i] == group[k] && rs[i] == days[k];
        } else {
          assert bs[n] == group[k] && rs[n] == days[k];
        }
      }
    }
  }

  function EvidenceMap(bs: seq<Candidate>, quality: map<Key, real>): Candidate -> Evidence
    requires UniqueKeys(bs)
  {
    (c: Candidate) => if c in bs then EvidenceFor(bs, c, quality)
                      else Evidence(KeyOf(c), c.entry, c.volume, false, 0.0, Missing, 0, 0, 0, [], 0, 0)
  }

  lemma {:induction false} DayGroupMapped(bs: seq<Candidate>, quality: map<Key, real>, rs: seq<Evidence>, signal: Stamp)
    requires BuilderRecords(bs, quality, rs)
    requires forall i | 0 <= i < |bs| :: bs[i].signal.day == signal.day <==> bs[i].signal == signal
    ensures DaySlots(rs, signal.day) == Slots(bs, signal)
    ensures DayGroup(rs, signal.day) == Map(EvidenceMap(bs, quality), Group(bs, signal))
  {
    DayIsGroup(bs, rs, signal);
    GroupMeans(bs, signal);
    var group, days := Group(bs, signal), DayGroup(rs, signal.day);
    forall k | 0 <= k < |group|
      ensures days[k] == EvidenceMap(bs, quality)(group[k])
    {
      var i :| 0 <= i < |bs| && bs[i] == group[k] && rs[i] == days[k];
      assert bs[i] in bs;
    }
  }

  /** Within one signal time the checker's variant order is the builder's. */
  lemma {:induction false} VariantMapped(bs: seq<Candidate>, quality: map<Key, real>, rs: seq<Evidence>, signal: Stamp)
    requires BuilderRecords(bs, quality, rs) && forall c | c in bs :: c.symbol != ""
    requires forall i | 0 <= i < |bs| :: bs[i].signal.day == signal.day <==> bs[i].signal == signal
    ensures DayVariant(rs, signal.day) == Map(EvidenceMap(bs, quality), Variant(bs, signal, quality))
  {
    DayGroupMapped(bs, quality, rs, signal);
    var f, group, variant := EvidenceMap(bs, quality), Group(bs, signal), Variant(bs, signal, quality);
    VariantMeans(bs, signal, quality);
    SortedPermutes(group, ByRank(quality));
    MapPermutes(f, variant, group);
    SortedPermutes(DayGroup(rs, signal.day), ByEvidenceRank());
    ByEvidenceRankTotal();
    SortedOrdered(DayGroup(rs, signal.day), ByEvidenceRank());
    var mapped := Map(f, variant);
    forall i, j | 0 <= i < j < |mapped|
      ensures ByEvidenceRank()(mapped[i], mapped[j]) && !ByEvidenceRank()(mapped[j], mapped[i])
    {
      assert variant[i] in variant && variant[j] in variant;
      EvidenceWellformed(bs, variant[i], quality);
      EvidenceWellformed(bs, variant[j], quality);
      RankOrder(RankOf(variant[i], quality), RankOf(variant[j], quality), RankOf(variant[i], quality));
      SameKey(bs, variant[i], variant[j]);
    }
    OrderedUnique(mapped, DayVariant(rs, signal.day), ByEvidenceRank());
  }

  /** The record of the candidate at place `k` of its group's variant order. */
  lemma {:induction false} EvidenceAt(bs: seq<Candidate>, quality: map<Key, real>, signal: Stamp, k: nat)
    requires UniqueKeys(bs) && k < |Variant(bs, signal, quality)|
    ensures |Slots(bs, signal)| == |Variant(bs, signal, quality)|
    ensures var e := EvidenceMap(bs, quality)(Variant(bs, signal, quality)[k]);
      e.variantOrdinal == k + 1 && e.finalOrdinal == Slots(bs, signal)[k] && e.slots == Slots(bs, signal)
  {
    VariantMeans(bs, signal, quality);
    assert Variant(bs, signal, quality)[k] in Variant(bs, signal, quality);
    IndexUnique(Variant(bs, signal, quality), k);
  }

  /** Acceptance of a day from its variant order. */
  lemma {:induction false} DayAcceptedBy(rs: seq<Evidence>, day: int, slots: seq<int>)
    requires slots == DaySlots(rs, day) && |DayVariant(rs, day)| == |slots|
    requires forall k | 0 <= k < |slots| ::
      var e := DayVariant(rs, day)[k]; e.variantOrdinal == k + 1 && e.finalOrdinal == slots[k] && e.slots == slots
    ensures DayAccepted(rs, day)
  {
    DayVariantMeans(rs, day);
    DayGroupMembers(rs, day);
    forall e | e in DayGroup(rs, day)
      ensures e.slots == slots
    {
      assert e in DayVariant(rs, day);
      var k :| 0 <= k < |DayVariant(rs, day)| && DayVariant(rs, day)[k] == e;
    }
  }

  /** A group whose day has one clock time is accepted. */
  lemma {:induction false} GroupAccepted(bs: seq<Candidate>, quality: map<Key, real>, rs: seq<Evidence>, signal: Stamp)
    requires BuilderRecords(bs, quality, rs) && forall c | c in bs :: c.symbol != ""
    requires forall i | 0 <= i < |bs| :: bs[i].signal.day == signal.day <==> bs[i].signal == signal
    ensures DayAccepted(rs, signal.day)
  {
    DayGroupMapped(bs, quality, rs, signal);
    VariantMapped(bs, quality, rs, signal);
    var slots := Slots(bs, signal);
    GroupMeans(bs, signal);
    DayVariantMeans(rs, signal.day);
    forall k | 0 <= k < |slots|
      ensures var e := DayVariant(rs, signal.day)[k];
        e.variantOrdinal == k + 1 && e.finalOrdinal == slots[k] && e.slots == slots
    {
      EvidenceAt(bs, quality, signal, k);
    }
    DayAcceptedBy(rs, signal.day, slots);
  }

  lemma {:induction false} EmptyDayAccepted(rs: seq<Evidence>, day: int)
    requires forall i | 0 <= i < |rs| :: rs[i].groupDay != day
    ensures DayAccepted(rs, day)
  {
    NoDaySlots(rs, day);
    DayAcceptedBy(rs, day, []);
  }

  lemma {:induction false} NoDaySlots(rs: seq<Evidence>, day: int)
    requires forall i | 0 <= i < |rs| :: rs[i].groupDay != day
    ensures DaySlots(rs, day) == [] && DayVariant(rs, day) == []
  {
    if rs != [] { NoDaySlots(rs[..|rs| - 1], day); }
  }

  lemma {:induction false} BuilderDays(bs: seq<Candidate>, quality: map<Key, real>, rs: seq<Evidence>)
    requires BuilderRecords(bs, quality, rs)
    ensures forall i | 0 <= i < |bs| :: rs[i].groupDay == bs[i].signal.day
  {
    forall i | 0 <= i < |bs| ensures rs[i].groupDay == bs[i].signal.day { assert bs[i] in bs; }
  }

  /** Builder and checker agree: the builder's records of a baseline are accepted exactly when every
      signal day has one clock time. */
  lemma {:induction false} AcceptedExactly(bs: seq<Candidate>, quality: map<Key, real>, rs: seq<Evidence>)
    requires BuilderRecords(bs, quality, rs) && forall c | c in bs :: c.symbol != ""
    ensures (forall day :: DayAccepted(rs, day)) <==> OneClock(bs)
  {
    if OneClock(bs) {
      forall day ensures DayAccepted(rs, day) { OneClockDay(bs, quality, rs, day); }
    } else {
      var i, j :| 0 <= i < |bs| && 0 <= j < |bs| && bs[i].signal.day == bs[j].signal.day
        && bs[i].signal != bs[j].signal;
      SplitDayRefused(bs, quality, rs, i, j);
    }
  }

  lemma {:induction false} OneClockDay(bs: seq<Candidate>, quality: map<Key, real>, rs: seq<Evidence>, day: int)
    requires BuilderRecords(bs, quality, rs) && (forall c | c in bs :: c.symbol != "") && OneClock(bs)
    ensures DayAccepted(rs, day)
  {
    if i :| 0 <= i < |bs| && bs[i].signal.day == day {
      GroupAccepted(bs, quality, rs, bs[i].signal);
    } else {
      BuilderDays(bs, quality, rs);
      EmptyDayAccepted(rs, day);
    }
  }

  lemma {:induction false} SplitDayRefused(bs: seq<Candidate>, quality: map<Key, real>, rs: seq<Evidence>, i: nat,
      j: nat)
    requires BuilderRecords(bs, quality, rs) && i < |bs| && j < |bs|
    requires bs[i].signal.day == bs[j].signal.day && bs[i].signal != bs[j].signal
    ensures !DayAccepted(rs, bs[i].signal.day)
  {
    var day := bs[i].signal.day;
    DayGroupMembers(rs, day);
    DaySlotsMean(rs, day);
    GroupMeans(bs, bs[i].signal);
    assert rs[i] in rs && rs[i] in DayGroup(rs, day) && rs[i].slots == Slots(bs, bs[i].signal);
    assert j + 1 in DaySlots(rs, day) && j + 1 !in Slots(bs, bs[i].signal);
  }
}
