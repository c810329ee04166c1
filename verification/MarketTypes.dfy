/** Sessions, rows, observation identities and version references shared by the market modules.
    Content hashes and SHA-256 identities are injective, so each identity is the content it hashes. */
module MarketTypes {

  datatype Option<+T> = None | Some(value: T)

  datatype Result<+T, +E> = Ok(value: T) | Err(error: E)

  type Symbol = string

  /** ISO session dates; only their order matters. */
  type Session = int

  /** One canonical OHLCV tuple. */
  datatype Row = Row(open: real, high: real, low: real, close: real, volume: nat)

  type Rows = map<Session, Row>

  /** How a version changed the stored history: an append, or a reviewed rebase of one block. */
  datatype Change = Append | Rebase(block: nat)

  /** A symbol version names its parent, its observation, the sessions it owns and the
      whole stored content after it. */
  datatype VersionRef =
    | Baseline
    | Version(parent: VersionRef, obs: ObsId, sessions: set<Session>, content: Rows, change: Change)

  /** A semantic observation, or the same content re-admitted against a later basis. */
  datatype ObsId =
    | Fetched(symbol: Symbol, source: string, start: Session, end: Session, cutoff: Session, rows: Rows)
    | Readmitted(original: ObsId, basis: VersionRef)
  {
    function Symbol(): Symbol { match this case Fetched(y, _, _, _, _, _) => y case Readmitted(o, _) => o.Symbol() }
    function Start(): Session { match this case Fetched(_, _, a, _, _, _) => a case Readmitted(o, _) => o.Start() }
    function End(): Session { match this case Fetched(_, _, _, b, _, _) => b case Readmitted(o, _) => o.End() }
    function Rows(): Rows { match this case Fetched(_, _, _, _, _, r) => r case Readmitted(o, _) => o.Rows() }

    /** Normalization rejects rows outside the requested range. */
    predicate Valid() { forall t | t in Rows() :: Start() <= t <= End() }
  }

  /** `base` with the rows of `sessions` replaced or added. */
  function Overlay(base: Rows, rows: Rows, sessions: set<Session>): (r: Rows)
    ensures forall t :: t in r <==> t in base || (t in sessions && t in rows)
    ensures forall t | t in r :: r[t] == if t in sessions && t in rows then rows[t] else base[t]
  {
    base + map t | t in sessions && t in rows :: rows[t]
  }

  function InWindow(rows: Rows, start: Session, end: Session): Rows {
    map t | t in rows && start <= t <= end :: rows[t]
  }

  /** The stored history a version chain describes: the baseline overlaid, oldest version
      first, by each version's observation rows on the sessions that version owns. */
  function Replay(base: Rows, ref: VersionRef): Rows {
    match ref
    case Baseline => base
    case Version(parent, obs, sessions, _, _) => Overlay(Replay(base, parent), obs.Rows(), sessions)
  }

  /** Every version of the chain carries the content its own replay gives. */
  predicate Lineage(base: Rows, ref: VersionRef) {
    match ref
    case Baseline => true
    case Version(parent, _, _, content, _) => content == Replay(base, ref) && Lineage(base, parent)
  }

  function Depth(ref: VersionRef): nat {
    match ref
    case Baseline => 0
    case Version(parent, _, _, _, _) => Depth(parent) + 1
  }

  ghost function AnyOf<T>(ts: set<T>): (x: T)
    requires ts != {}
    ensures x in ts
  {
    var x :| x in ts;
    x
  }

  lemma {:induction false} PickOne<T>(ts: set<T>) returns (x: T)
    requires ts != {}
    ensures x in ts
  {
    x :| x in ts;
  }

  lemma {:induction false} LatestAmong(ts: set<Session>) returns (m: Session)
    requires ts != {}
    ensures m in ts && forall k | k in ts :: k <= m
  {
    var x := PickOne(ts);
    m := x;
    if ts != {x} {
      var top := LatestAmong(ts - {x});
      if x < top { m := top; }
      forall k | k in ts ensures k <= m { assert k == x || k in ts - {x}; }
    }
  }

  lemma {:induction false} LatestExists(ts: set<Session>)
    requires ts != {}
    ensures exists m :: m in ts && forall k | k in ts :: k <= m
  {
    var m := LatestAmong(ts);
  }

  function LatestOf(ts: set<Session>): (m: Session)
    requires ts != {}
    ensures m in ts && forall k | k in ts :: k <= m
  {
    LatestExists(ts);
    var m :| m in ts && forall k | k in ts :: k <= m;
    m
  }
}
