/** The volume-priority evidence: built by the evaluator, checked again by the simulator. Inside each
    signal-date group the candidates are reordered by volume, but the group keeps its baseline slots. */
module CandidatePriority {
  import opened MarketTypes
  import opened StableSort
  import opened Ranking

  /** A datetime as calendar day and clock time. */
  datatype Stamp = Stamp(day: int, clock: int)

  datatype Volume = Absent | NotANumber | Infinite(positive: bool) | Finite(x: real)

  datatype Candidate = Candidate(symbol: Symbol, signal: Stamp, entry: Stamp, score: Value, volume: Volume)

  /** Symbol and signal time: the identity of a candidate. */
  datatype Key = Key(symbol: Symbol, signal: Stamp)

  function KeyOf(c: Candidate): Key { Key(c.symbol, c.signal) }

  datatype Evidence = Evidence(
    key: Key, entry: Stamp, volume: Volume, volumeFinite: bool, quality: real, baselineScore: Value,
    baselineOrdinal: int, groupDay: int, groupSize: int, slots: seq<int>, variantOrdinal: int, finalOrdinal: int)

  /** The constructor checks of one evidence record. */
  predicate Wellformed(e: Evidence) {
    && e.key.symbol != ""
    && e.volumeFinite == e.volume.Finite?
    && e.baselineOrdinal >= 1 && e.groupSize >= 1 && e.variantOrdinal >= 1 && e.finalOrdinal >= 1
    && |e.slots| == e.groupSize && Ascending(e.slots)
    && e.baselineOrdinal in e.slots && e.finalOrdinal in e.slots
    && e.groupDay == e.key.signal.day
  }

  predicate Ascending(xs: seq<int>) { forall i, j | 0 <= i < j < |xs| :: xs[i] < xs[j] }

  // ------------------------------------------------------------------------ orders

  /** Characters of symbols compare by code point, shorter prefixes first. */
  predicate SymbolAtMost(a: Symbol, b: Symbol) {
    if a == "" then true else if b == "" then false
    else if a[0] == b[0] then SymbolAtMost(a[1..], b[1..]) else a[0] < b[0]
  }

  predicate StampAtMost(a: Stamp, b: Stamp) { a.day < b.day || (a.day == b.day && a.clock <= b.clock) }

  lemma {:induction false} SymbolOrder(a: Symbol, b: Symbol, c: Symbol)
    ensures SymbolAtMost(a, b) || SymbolAtMost(b, a)
    ensures SymbolAtMost(a, b) && SymbolAtMost(b, a) ==> a == b
    ensures SymbolAtMost(a, b) && SymbolAtMost(b, c) ==> SymbolAtMost(a, c)
    ensures SymbolAtMost(a, a)
    decreases |a|
  {
    if a != "" {
      SymbolOrder(a[1..], if b == "" then "" else b[1..], if c == "" then "" else c[1..]);
      if b != "" && SymbolAtMost(a, b) && SymbolAtMost(b, a) { assert a == [a[0]] + a[1..] && b == [b[0]] + b[1..]; }
    }
  }

  /** Symbol order: at the first difference the smaller character, or the shorter of two that agree. */
  ghost predicate Alphabetical(a: Symbol, b: Symbol) {
    (exists k: nat :: Differ(a, b, k) && a[k] < b[k]) || a <= b
  }

  /** The symbols agree up to place `k` and differ there. */
  ghost predicate Differ(a: Symbol, b: Symbol, k: nat) {
    k < |a| && k < |b| && a[k] != b[k] && forall j | 0 <= j < k :: a[j] == b[j]
  }

  lemma {:induction false} SymbolExactly(a: Symbol, b: Symbol)
    ensures SymbolAtMost(a, b) <==> Alphabetical(a, b)
  {
    if a != "" && b != "" && a[0] == b[0] {
      SymbolExactly(a[1..], b[1..]);
      if k: nat :| Differ(a[1..], b[1..], k) && a[1..][k] < b[1..][k] { DifferShifted(a, b, k); }
      if k: nat :| Differ(a, b, k) && a[k] < b[k] {
        DifferShifted(a, b, k - 1);
        assert Differ(a[1..], b[1..], k - 1);
      }
      PrefixShifted(a, b);
    } else if a != "" && b != "" {
      assert Differ(a, b, 0);
      if k: nat :| Differ(a, b, k) && a[k] < b[k] { assert k == 0; }
    }
  }

  lemma {:induction false} PrefixShifted(a: Symbol, b: Symbol)
    requires a != "" && b != "" && a[0] == b[0]
    ensures a[1..] <= b[1..] <==> a <= b
  {
    if a[1..] <= b[1..] {
      forall j | 0 <= j < |a| ensures a[j] == b[j] { if j > 0 { assert a[1..][j - 1] == b[1..][j - 1]; } }
    }
    if a <= b {
      forall j | 0 <= j < |a| - 1 ensures a[1..][j] == b[1..][j] { assert a[j + 1] == b[j + 1]; }
    }
  }

  lemma {:induction false} DifferShifted(a: Symbol, b: Symbol, k: nat)
    requires a != "" && b != "" && a[0] == b[0]
    ensures Differ(a[1..], b[1..], k) <==> Differ(a, b, k + 1)
    ensures Differ(a, b, k + 1) ==> a[1..][k] == a[k + 1] && b[1..][k] == b[k + 1]
  {
    if Differ(a[1..], b[1..], k) {
      forall j | 0 <= j < k + 1 ensures a[j] == b[j] { if j > 0 { assert a[1..][j - 1] == b[1..][j - 1]; } }
    }
    if Differ(a, b, k + 1) {
      forall j | 0 <= j < k ensures a[1..][j] == b[1..][j] { assert a[j + 1] == b[j + 1]; }
    }
  }

  lemma {:induction false} AlphabeticalSelf(a: Symbol)
    ensures Alphabetical(a, a)
  {
  }

  /** Finite volumes first and descending, then quality descending, symbol, and signal time. */
  datatype Rank = Rank(finite: bool, volume: real, quality: real, key: Key)

  predicate RankAtMost(a: Rank, b: Rank) {
    if a.finite != b.finite then a.finite
    else if a.volume != b.volume then a.volume > b.volume
    else if a.quality != b.quality then a.quality > b.quality
    else if a.key.symbol != b.key.symbol then SymbolAtMost(a.key.symbol, b.key.symbol)
    else StampAtMost(a.key.signal, b.key.signal)
  }

  lemma {:induction false} RankOrder(a: Rank, b: Rank, c: Rank)
    ensures RankAtMost(a, b) || RankAtMost(b, a)
    ensures RankAtMost(a, b) && RankAtMost(b, a) ==> a == b
    ensures RankAtMost(a, b) && RankAtMost(b, c) ==> RankAtMost(a, c)
  {
    SymbolOrder(a.key.symbol, b.key.symbol, c.key.symbol);
    SymbolOrder(b.key.symbol, a.key.symbol, c.key.symbol);
    SymbolOrder(b.key.symbol, c.key.symbol, a.key.symbol);
    SymbolOrder(c.key.symbol, b.key.symbol, a.key.symbol);
  }

  function VolumeOrZero(v: Volume): real { if v.Finite? then v.x else 0.0 }

  function RankOf(c: Candidate, quality: map<Key, real>): Rank {
    Rank(c.volume.Finite?, VolumeOrZero(c.volume), if KeyOf(c) in quality then quality[KeyOf(c)] else 0.0, KeyOf(c))
  }

  function EvidenceRank(e: Evidence): Rank {
    Rank(e.volumeFinite, if e.volumeFinite then VolumeOrZero(e.volume) else 0.0, e.quality, e.key)
  }

  function ByRank(quality: map<Key, real>): (Candidate, Candidate) -> bool {
    (a: Candidate, b: Candidate) => RankAtMost(RankOf(a, quality), RankOf(b, quality))
  }

  function ByEvidenceRank(): (Evidence, Evidence) -> bool {
    (a: Evidence, b: Evidence) => RankAtMost(EvidenceRank(a), EvidenceRank(b))
  }

  function BySymbol(): (Candidate, Candidate) -> bool {
    (a: Candidate, b: Candidate) => SymbolAtMost(a.symbol, b.symbol)
  }

  function ByScore(): (Candidate, Candidate) -> bool { (a: Candidate, b: Candidate) => AtMost(b.score, a.score) }

  lemma {:induction false} ByRankTotal(quality: map<Key, real>)
    ensures TotalPreorder(ByRank(quality))
  {
    forall a: Candidate, b: Candidate, c: Candidate
      ensures ByRank(quality)(a, b) || ByRank(quality)(b, a)
      ensures ByRank(quality)(a, b) && ByRank(quality)(b, c) ==> ByRank(quality)(a, c)
    {
      RankOrder(RankOf(a, quality), RankOf(b, quality), RankOf(c, quality));
    }
  }

  lemma {:induction false} ByEvidenceRankTotal()
    ensures TotalPreorder(ByEvidenceRank())
  {
    forall a: Evidence, b: Evidence, c: Evidence
      ensures ByEvidenceRank()(a, b) || ByEvidenceRank()(b, a)
      ensures ByEvidenceRank()(a, b) && ByEvidenceRank()(b, c) ==> ByEvidenceRank()(a, c)
    {
      RankOrder(EvidenceRank(a), EvidenceRank(b), EvidenceRank(c));
    }
  }

  // ------------------------------------------------- the priority of one entry date

  function OfEntry(cs: seq<Candidate>, entry: Stamp): seq<Candidate> {
    if cs == [] then [] else OfEntry(cs[..|cs| - 1], entry) + if cs[|cs| - 1].entry == entry then [cs[|cs| - 1]] else []
  }

  /** The baseline order of one entry date: by symbol, then stably by descending signal score. */
  function BaselineOrder(cs: seq<Candidate>, entry: Stamp): seq<Candidate> {
    Sorted(Sorted(OfEntry(cs, entry), BySymbol()), ByScore())
  }

  predicate UniqueKeys(cs: seq<Candidate>) { forall i, j | 0 <= i < j < |cs| :: KeyOf(cs[i]) != KeyOf(cs[j]) }

  /** The candidates of one signal time, in baseline order. */
  function Group(bs: seq<Candidate>, signal: Stamp): seq<Candidate> {
    if bs == [] then [] else Group(bs[..|bs| - 1], signal) + if bs[|bs| - 1].signal == signal then [bs[|bs| - 1]]
      else []
  }

  /** Their baseline ordinals, ascending. */
  function Slots(bs: seq<Candidate>, signal: Stamp): seq<int> {
    if bs == [] then [] else Slots(bs[..|bs| - 1], signal) + if bs[|bs| - 1].signal == signal then [|bs|] else []
  }

  function Variant(bs: seq<Candidate>, signal: Stamp, quality: map<Key, real>): seq<Candidate> {
    Sorted(Group(bs, signal), ByRank(quality))
  }

  lemma {:induction false} GroupMeans(bs: seq<Candidate>, signal: Stamp)
    ensures |Group(bs, signal)| == |Slots(bs, signal)| && Ascending(Slots(bs, signal))
    ensures forall k | 0 <= k < |Slots(bs, signal)| ::
      1 <= Slots(bs, signal)[k] <= |bs| && bs[Slots(bs, signal)[k] - 1] == Group(bs, signal)[k]
    ensures forall o: int :: o in Slots(bs, signal) <==> 1 <= o <= |bs| && bs[o - 1].signal == signal
    ensures forall c :: c in Group(bs, signal) <==> c in bs && c.signal == signal
  {
    if bs != [] {
      var n := |bs| - 1;
      GroupMeans(bs[..n], signal);
      assert bs == bs[..n] + [bs[n]];
    }
  }

  lemma {:induction false} GroupDistinct(bs: seq<Candidate>, signal: Stamp)
    requires UniqueKeys(bs)
    ensures UniqueKeys(Group(bs, signal)) && Distinct(Group(bs, signal))
  {
    GroupMeans(bs, signal);
  }

  lemma {:induction false} VariantMeans(bs: seq<Candidate>, signal: Stamp, quality: map<Key, real>)
    requires UniqueKeys(bs)
    ensures var v := Variant(bs, signal, quality);
      && |v| == |Slots(bs, signal)| && Distinct(v)
      && (forall c :: c in v <==> c in bs && c.signal == signal)
      && forall i, j | 0 <= i < j < |v| :: RankAtMost(RankOf(v[i], quality), RankOf(v[j], quality))
  {
    GroupMeans(bs, signal);
    GroupDistinct(bs, signal);
    SortedMembers(Group(bs, signal), ByRank(quality));
    SortedDistinct(Group(bs, signal), ByRank(quality));
    ByRankTotal(quality);
    SortedOrdered(Group(bs, signal), ByRank(quality));
    var v := Variant(bs, signal, quality);
    forall i, j | 0 <= i < j < |v|
      ensures RankAtMost(RankOf(v[i], quality), RankOf(v[j], quality))
    {
      assert ByRank(quality)(v[i], v[j]);
    }
  }

  /** Position of the first element equal to `x`. */
  function IndexOf<T(==)>(xs: seq<T>, x: T): (i: nat)
    requires x in xs
    ensures i < |xs| && xs[i] == x
  {
    if xs[0] == x then 0 else IndexOf(xs[1..], x) + 1
  }

  lemma {:induction false} IndexUnique<T>(xs: seq<T>, i: nat)
    requires i < |xs| && Distinct(xs)
    ensures IndexOf(xs, xs[i]) == i
  {
  }

  /** The record the evaluator writes for candidate `c` of baseline `bs`, with volume priority. */
  function EvidenceFor(bs: seq<Candidate>, c: Candidate, quality: map<Key, real>): Evidence
    requires c in bs && UniqueKeys(bs)
  {
    GroupMeans(bs, c.signal);
    VariantMeans(bs, c.signal, quality);
    var slots, k := Slots(bs, c.signal), IndexOf(Variant(bs, c.signal, quality), c);
    Evidence(KeyOf(c), c.entry, c.volume, c.volume.Finite?, RankOf(c, quality).quality, c.score,
             IndexOf(bs, c) + 1, c.signal.day, |slots|, slots, k + 1, slots[k])
  }

  lemma {:induction false} UniqueDistinct(bs: seq<Candidate>)
    requires UniqueKeys(bs)
    ensures Distinct(bs)
  {
  }

  /** Every record passes its constructor checks. */
  lemma {:induction false} EvidenceWellformed(bs: seq<Candidate>, c: Candidate, quality: map<Key, real>)
    requires c in bs && UniqueKeys(bs) && c.symbol != ""
    ensures Wellformed(EvidenceFor(bs, c, quality))
    ensures EvidenceRank(EvidenceFor(bs, c, quality)) == RankOf(c, quality)
  {
    hide Group, Slots, Variant, RankAtMost, StrictlyOrdered;
    GroupMeans(bs, c.signal);
    VariantMeans(bs, c.signal, quality);
    assert bs[IndexOf(bs, c)].signal == c.signal;
    assert IndexOf(bs, c) + 1 in Slots(bs, c.signal);
  }
}
