/** The log and the market as a reader meets them: every query is answered at its own moment, and other
    processes may take any number of steps between two of them. */
module LogReader {
  import opened MarketTypes
  import opened Protocol
  import opened Provenance
  import opened BindingInterval

  class Reader {
    const history: seq<System>
    ghost const acts: seq<Action>
    var now: nat

    ghost predicate Valid()
      reads this
    {
      Run(history, acts) && now < |history|
    }

    constructor (history: seq<System>, ghost acts: seq<Action>, start: nat)
      requires Run(history, acts) && start < |history|
      ensures Valid() && now == start && this.history == history && this.acts == acts
    {
      this.history, this.acts, this.now := history, acts, start;
    }

    /** Other processes may take any number of steps. */
    method Tick()
      requires Valid()
      modifies this`now
      ensures Valid() && old(now) <= now
    {
      var later: nat := *;
      if now <= later < |history| { now := later; }
    }

    /** `session_provenance`: up to five queries, each at its own moment. */
    method SessionProvenance(y: Symbol, t: Session) returns (a: Attribution, ghost m: Moments)
      requires Valid()
      modifies this`now
      ensures Valid() && m.Within(old(now), now) && a == PointAt(history, m, y, t)
    {
      Tick();
      var present := t in history[now].Stored(y);
      ghost var m1 := now;
      Tick();
      var es := history[now].log.events;
      ghost var m2 := now;
      var i := FirstClaim(es, y, t, true);
      if i >= 0 {
        return Attribution(PendingApplication, Some(es[i].obs), None), Moments(m1, m2, now, now, now);
      }
      Tick();
      var rs := history[now].log.rebases;
      ghost var m3 := now;
      var r := LatestRebase(rs, y, t);
      if r >= 0 {
        return Attribution(if present then RebasedHistory else Removed, Some(rs[r].obs), Some(rs[r].version)),
               Moments(m1, m2, m3, now, now);
      }
      Tick();
      var owned := history[now].log.owned;
      ghost var m4 := now;
      if (y, t) in owned {
        return Attribution(if present then Observation
          else Removed, Some(owned[(y, t)].obs), Some(owned[(y, t)].version)),
               Moments(m1, m2, m3, m4, now);
      }
      Tick();
      var later := history[now].log.events;
      m := Moments(m1, m2, m3, m4, now);
      var j := FirstClaim(later, y, t, false);
      if j >= 0 { return Attribution(PendingApplication, Some(later[j].obs), None), m; }
      if !present { return Attribution(Absent, None, None), m; }
      var base := history[now].Base(y);
      if exists k | k in base :: t <= k { return Attribution(BaselineLegacy, None, Some(Baseline)), m; }
      return Attribution(Unattributed, None, None), m;
    }

    method WindowProvenance(y: Symbol, start: Session, end: Session) returns (r: Summary, ghost m: Moments)
      requires Valid()
      modifies this`now
      ensures Valid() && m.Within(old(now), now)
      ensures r.triples == WindowAt(history, m, y, start, end).Triples() && Histogram(r.counts, r.triples)
    {
      Tick();
      var stored := history[now].Stored(y);
      ghost var m1 := now;
      Tick();
      var owned := history[now].log.owned;
      ghost var m2 := now;
      Tick();
      var rs := history[now].log.rebases;
      ghost var m3 := now;
      Tick();
      var es := history[now].log.events;
      m := Moments(m1, m1, m3, m2, now);
      r := SummarizeWindow(AssembleWindow(stored, owned, rs, es, history[now].Base(y), y, start, end));
    }
  }
}
