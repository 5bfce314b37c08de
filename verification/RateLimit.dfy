/** The sliding-window limiter per submitter (pkg/consensus/ratelimit.go). */
module RateLimit {
  import opened Chain

  /** One accepted request: who, and when. */
  datatype Acceptance = Acceptance(who: Id, at: int)

  /** The times of `ts` after the cutoff, in order. */
  function Recent(ts: seq<int>, cutoff: int): seq<int>
  {
    if ts == [] then []
    else
      var rest := Recent(ts[..|ts| - 1], cutoff);
      if ts[|ts| - 1] > cutoff then rest + [ts[|ts| - 1]] else rest
  }

  /** The acceptance times of one submitter, in order. */
  function TimesOf(log: seq<Acceptance>, who: Id): seq<int>
  {
    if log == [] then []
    else
      var rest := TimesOf(log[..|log| - 1], who);
      if log[|log| - 1].who == who then rest + [log[|log| - 1].at] else rest
  }

  /** How many acceptances of `who` lie in the half-open span (lo, hi]. */
  function Accepted(log: seq<Acceptance>, who: Id, lo: int, hi: int): nat
  {
    if log == [] then 0
    else
      var last := log[|log| - 1];
      Accepted(log[..|log| - 1], who, lo, hi) + if last.who == who && lo < last.at <= hi then 1 else 0
  }

  ghost predicate NotAfter(log: seq<Acceptance>, now: int)
  {
    forall i :: 0 <= i < |log| ==> log[i].at <= now
  }

  /** No span up to the window's length holds more than the limit. */
  ghost predicate WithinLimit(log: seq<Acceptance>, window: int, limit: int)
  {
    forall who, lo, hi :: hi - lo <= window ==> Accepted(log, who, lo, hi) <= if limit < 0 then 0 else limit
  }

  /** The entries kept for `who` answer every cutoff a later call can use as the full log would. */
  ghost predicate Remembers(kept: seq<int>, log: seq<Acceptance>, who: Id, from: int)
  {
    forall c :: c >= from ==> Recent(kept, c) == Recent(TimesOf(log, who), c)
  }

  lemma {:induction false} RecentRecent(ts: seq<int>, a: int, b: int)
    ensures Recent(Recent(ts, a), b) == Recent(ts, if a < b then b else a)
  {
    if ts != [] {
      var init, last := ts[..|ts| - 1], ts[|ts| - 1];
      RecentRecent(init, a, b);
      assert Recent(init, a) == (Recent(init, a) + [last])[..|Recent(init, a)|];
    }
  }

  lemma RecentAppend(ts: seq<int>, t: int, c: int)
    ensures Recent(ts + [t], c) == Recent(ts, c) + if t > c then [t] else []
  {
    assert (ts + [t])[..|ts|] == ts;
  }

  lemma TimesOfAppend(log: seq<Acceptance>, a: Acceptance, who: Id)
    ensures TimesOf(log + [a], who) == TimesOf(log, who) + if a.who == who then [a.at] else []
  {
    assert (log + [a])[..|log|] == log;
  }

  lemma AcceptedAppend(log: seq<Acceptance>, a: Acceptance, who: Id, lo: int, hi: int)
    ensures Accepted(log + [a], who, lo, hi) ==
            Accepted(log, who, lo, hi) + if a.who == who && lo < a.at <= hi then 1 else 0
  {
    assert (log + [a])[..|log|] == log;
  }

  lemma {:induction false} NothingAfter(log: seq<Acceptance>, who: Id, c: int)
    requires NotAfter(log, c)
    ensures Recent(TimesOf(log, who), c) == []
  {
    if log != [] {
      var init, last := log[..|log| - 1], log[|log| - 1];
      NothingAfter(init, who, c);
      RecentAppend(TimesOf(init, who), last.at, c);
    }
  }

  /** When nothing is later than `now`, counting the kept times after a cutoff counts the span up to `now`. */
  lemma {:induction false} RecentCounts(log: seq<Acceptance>, who: Id, lo: int, now: int)
    requires NotAfter(log, now)
    ensures |Recent(TimesOf(log, who), lo)| == Accepted(log, who, lo, now)
  {
    if log != [] {
      var init, last := log[..|log| - 1], log[|log| - 1];
      RecentCounts(init, who, lo, now);
      RecentAppend(TimesOf(init, who), last.at, lo);
    }
  }

  lemma {:induction false} AcceptedMonotone(log: seq<Acceptance>, who: Id, lo: int, hi: int, lo': int, now: int)
    requires NotAfter(log, now) && lo' <= lo
    ensures Accepted(log, who, lo, hi) <= Accepted(log, who, lo', now)
  {
    if log != [] {
      AcceptedMonotone(log[..|log| - 1], who, lo, hi, lo', now);
    }
  }

  /** Accepting below the limit at `now` keeps every span of the window's length within it. */
  lemma AcceptKeepsLimit(log: seq<Acceptance>, who: Id, now: int, window: int, limit: int)
    requires NotAfter(log, now) && WithinLimit(log, window, limit)
    requires Accepted(log, who, now - window, now) < limit
    ensures WithinLimit(log + [Acceptance(who, now)], window, limit)
  {
    forall id, lo, hi | hi - lo <= window
      ensures Accepted(log + [Acceptance(who, now)], id, lo, hi) <= if limit < 0 then 0 else limit
    {
      AcceptedAppend(log, Acceptance(who, now), id, lo, hi);
      if id == who && lo < now <= hi {
        AcceptedMonotone(log, who, lo, hi, now - window, now);
      }
    }
  }

  /** Pruning at `cutoff` loses nothing a later call can see: either the cutoff is old enough or all is expired. */
  lemma PruneRemembers(kept: seq<int>, log: seq<Acceptance>, who: Id, from: int, cutoff: int, now: int)
    requires Remembers(kept, log, who, from) && NotAfter(log, now)
    requires cutoff <= from || now <= from
    ensures Remembers(Recent(kept, cutoff), log, who, from)
  {
    forall c | c >= from
      ensures Recent(Recent(kept, cutoff), c) == Recent(TimesOf(log, who), c)
    {
      RecentRecent(kept, cutoff, c);
      if c < cutoff {
        NothingAfter(log, who, c);
        NothingAfter(log, who, cutoff);
      }
    }
  }

  lemma AppendRemembers(kept: seq<int>, log: seq<Acceptance>, a: Acceptance, from: int)
    requires Remembers(kept, log, a.who, from)
    ensures Remembers(kept + [a.at], log + [a], a.who, from)
  {
    TimesOfAppend(log, a, a.who);
    forall c | c >= from
      ensures Recent(kept + [a.at], c) == Recent(TimesOf(log + [a], a.who), c)
    {
      RecentAppend(kept, a.at, c);
      RecentAppend(TimesOf(log, a.who), a.at, c);
    }
  }

  lemma OthersRemember(kept: seq<int>, log: seq<Acceptance>, a: Acceptance, who: Id, from: int)
    requires a.who != who && Remembers(kept, log, who, from)
    ensures Remembers(kept, log + [a], who, from)
  {
    TimesOfAppend(log, a, who);
  }

  function Kept(windows: map<Id, seq<int>>, who: Id): seq<int>
  {
    if who in windows then windows[who] else []
  }

  ghost predicate AllRemembered(windows: map<Id, seq<int>>, log: seq<Acceptance>, from: int)
  {
    forall who :: Remembers(Kept(windows, who), log, who, from)
  }

  lemma LaterRemembered(windows: map<Id, seq<int>>, log: seq<Acceptance>, from: int, later: int)
    requires AllRemembered(windows, log, from) && from <= later
    ensures AllRemembered(windows, log, later)
  {
    forall who
      ensures Remembers(Kept(windows, who), log, who, later)
    {
      assert Remembers(Kept(windows, who), log, who, from);
    }
  }

  lemma AcceptRemembered(windows: map<Id, seq<int>>, log: seq<Acceptance>, a: Acceptance, valid: seq<int>, from: int)
    requires AllRemembered(windows, log, from) && Remembers(valid, log, a.who, from)
    ensures AllRemembered(windows[a.who := valid + [a.at]], log + [a], from)
  {
    var updated := windows[a.who := valid + [a.at]];
    forall who
      ensures Remembers(Kept(updated, who), log + [a], who, from)
    {
      if who == a.who {
        AppendRemembers(valid, log, a, from);
      } else {
        assert Remembers(Kept(windows, who), log, who, from);
        OthersRemember(Kept(windows, who), log, a, who, from);
      }
    }
  }

  lemma PrunedRemembered(windows: map<Id, seq<int>>, log: seq<Acceptance>, who: Id, valid: seq<int>, from: int)
    requires AllRemembered(windows, log, from) && Remembers(valid, log, who, from)
    ensures AllRemembered(windows[who := valid], log, from)
  {
    var updated := windows[who := valid];
    forall id
      ensures Remembers(Kept(updated, id), log, id, from)
    {
      assert Remembers(Kept(windows, id), log, id, from);
    }
  }

  lemma CleanupRemembered(windows: map<Id, seq<int>>, cleaned: map<Id, seq<int>>, log: seq<Acceptance>,
                          from: int, cutoff: int, now: int)
    requires AllRemembered(windows, log, from) && NotAfter(log, now)
    requires cutoff <= from || now <= from
    requires forall who :: Kept(cleaned, who) == Recent(Kept(windows, who), cutoff)
    ensures AllRemembered(cleaned, log, from)
  {
    forall who
      ensures Remembers(Kept(cleaned, who), log, who, from)
    {
      assert Remembers(Kept(windows, who), log, who, from);
      PruneRemembers(Kept(windows, who), log, who, from, cutoff, now);
    }
  }

  method Prune(entries: seq<int>, cutoff: int) returns (valid: seq<int>)
    ensures valid == Recent(entries, cutoff)
  {
    valid := [];
    for i := 0 to |entries|
      invariant valid == Recent(entries[..i], cutoff)
    {
      assert entries[..i + 1] == entries[..i] + [entries[i]];
      RecentAppend(entries[..i], entries[i], cutoff);
      if entries[i] > cutoff {
        valid := valid + [entries[i]];
      }
    }
    assert entries[..|entries|] == entries;
  }

  /** Calls are atomic here; `LimiterSteps` takes the two locks of Allow apart. */
  class SubmitterLimiter {
    var windows: map<Id, seq<int>>
    const maxPerWindow: int
    const windowDur: int
    /** Every acceptance so far, and the time of the latest call. */
    ghost var log: seq<Acceptance>
    ghost var clock: int

    ghost predicate Valid()
      reads this
    {
      && NotAfter(log, clock)
      && WithinLimit(log, windowDur, maxPerWindow)
      && AllRemembered(windows, log, clock - windowDur)
    }

    constructor (maxPerWindow: int, windowDur: int, ghost now: int)
      ensures Valid() && windows == map[] && log == [] && clock == now
      ensures this.maxPerWindow == maxPerWindow && this.windowDur == windowDur
    {
      this.maxPerWindow, this.windowDur := maxPerWindow, windowDur;
      windows, log, clock := map[], [], now;
    }

    /** Accepts exactly when fewer than the limit were accepted in (now - window, now] of the full log. */
    method Allow(submitter: Id, now: int) returns (ok: bool)
      requires Valid() && clock <= now
      modifies this
      ensures Valid() && clock == now
      ensures ok <==> Accepted(old(log), submitter, now - windowDur, now) < maxPerWindow
      ensures log == if ok then old(log) + [Acceptance(submitter, now)] else old(log)
      ensures windows == old(windows)[submitter := Recent(Kept(old(windows), submitter), now - windowDur)
                                                    + if ok then [now] else []]
    {
      var w := Kept(windows, submitter);
      var cutoff := now - windowDur;
      var valid := Prune(w, cutoff);
      RecentCounts(log, submitter, cutoff, now);
      LaterRemembered(windows, log, clock - windowDur, cutoff);
      assert Remembers(w, log, submitter, cutoff);
      PruneRemembers(w, log, submitter, cutoff, cutoff, now);
      clock := now;
      if |valid| >= maxPerWindow {
        PrunedRemembered(windows, log, submitter, valid, cutoff);
        assert valid + [] == valid;
        windows := windows[submitter := valid];
        return false;
      }
      ghost var accepted := Acceptance(submitter, now);
      AcceptKeepsLimit(log, submitter, now, windowDur, maxPerWindow);
      AcceptRemembered(windows, log, accepted, valid, cutoff);
      windows := windows[submitter := valid + [now]];
      log := log + [accepted];
      return true;
    }

    /** Drops expired times and empty windows; the log, hence every later decision, is untouched. */
    method Cleanup(now: int)
      requires Valid() && clock <= now
      modifies this`windows, this`clock
      ensures Valid() && clock == now
      ensures forall who :: Kept(windows, who) == Recent(Kept(old(windows), who), now - 2 * windowDur)
      ensures forall who :: who in windows ==> windows[who] != []
    {
      DropExpired(now - 2 * windowDur);
      LaterRemembered(old(windows), log, clock - windowDur, now - windowDur);
      CleanupRemembered(old(windows), windows, log, now - windowDur, now - 2 * windowDur, now);
      clock := now;
    }

    method DropExpired(cutoff: int)
      modifies this`windows
      ensures forall who :: Kept(windows, who) == Recent(Kept(old(windows), who), cutoff)
      ensures forall who :: who in windows ==> windows[who] != []
    {
      var keys := windows.Keys;
      while keys != {}
        invariant keys <= windows.Keys <= old(windows).Keys
        invariant forall who :: who in keys ==> windows[who] == old(windows)[who]
        invariant forall who :: who !in keys ==> Kept(windows, who) == Recent(Kept(old(windows), who), cutoff)
        invariant forall who :: who in windows && who !in keys ==> windows[who] != []
      {
        var key :| key in keys;
        var valid := Prune(windows[key], cutoff);
        windows := if valid == [] then windows - {key} else windows[key := valid];
        keys := keys - {key};
      }
    }
  }
}

/**
 * Allow takes the limiter's lock to fetch the submitter's window and the window's lock to decide, and
 * Cleanup may delete the window in between.  Here the two halves are separate steps of any threads.
 */
module LimiterSteps {
  import opened Chain
  import opened RateLimit

  datatype Config = Config(maxPerWindow: int, windowDur: int)

  datatype Ticket = Ticket(who: Id, slot: nat)

  /** Window objects live in `heap`; `windows` names the current one of a submitter. */
  datatype State = State(
    heap: seq<seq<int>>,
    windows: map<Id, nat>,
    held: map<nat, Ticket>,
    log: seq<Acceptance>,
    clock: int)

  /** Cleanup prunes one key at a time, against a time `at` read when it began: later decisions may have come
      in between, or none since. */
  datatype Event =
    | Fetch(thread: nat, who: Id)
    | Decide(thread: nat, now: int)
    | Clean(who: Id, at: int)

  ghost predicate WellFormed(s: State)
  {
    && (forall who :: who in s.windows ==> s.windows[who] < |s.heap|)
    && (forall a, b :: a in s.windows && b in s.windows && s.windows[a] == s.windows[b] ==> a == b)
    && (forall t :: t in s.held ==> TicketOk(s, s.held[t]))
    && NotAfter(s.log, s.clock)
  }

  /** A held slot belongs to its submitter alone. */
  ghost predicate TicketOk(s: State, k: Ticket)
  {
    k.slot < |s.heap| && forall who :: who in s.windows && s.windows[who] == k.slot ==> who == k.who
  }

  function View(s: State, who: Id): seq<int>
  {
    if who in s.windows && s.windows[who] < |s.heap| then s.heap[s.windows[who]] else []
  }

  /** What later calls will find answers as the full log would. */
  ghost predicate Faithful(s: State, cfg: Config)
  {
    forall who :: Remembers(View(s, who), s.log, who, s.clock - cfg.windowDur)
  }

  predicate Enabled(s: State, ev: Event)
  {
    match ev
    case Fetch(thread, who) => thread !in s.held
    case Decide(thread, now) => thread in s.held && s.clock <= now
    case Clean(who, at) => who in s.windows
  }

  predicate Attached(s: State, k: Ticket)
  {
    k.who in s.windows && s.windows[k.who] == k.slot
  }

  predicate Grants(s: State, cfg: Config, k: Ticket, now: int)
    requires k.slot < |s.heap|
  {
    |Recent(s.heap[k.slot], now - cfg.windowDur)| < cfg.maxPerWindow
  }

  ghost function Step(s: State, cfg: Config, ev: Event): State
    requires WellFormed(s) && Enabled(s, ev)
  {
    match ev
    case Fetch(thread, who) =>
      if who in s.windows then s.(held := s.held[thread := Ticket(who, s.windows[who])])
      else
        s.(heap := s.heap + [[]], windows := s.windows[who := |s.heap|],
           held := s.held[thread := Ticket(who, |s.heap|)])
    case Decide(thread, now) =>
      var k := s.held[thread];
      var valid := Recent(s.heap[k.slot], now - cfg.windowDur);
      var done := s.(held := s.held - {thread}, clock := now);
      if Grants(s, cfg, k, now) then
        done.(heap := s.heap[k.slot := valid + [now]], log := s.log + [Acceptance(k.who, now)])
      else
        done.(heap := s.heap[k.slot := valid])
    case Clean(who, at) =>
      var valid := Recent(s.heap[s.windows[who]], at - 2 * cfg.windowDur);
      var pruned := s.(heap := s.heap[s.windows[who] := valid], clock := if at > s.clock then at else s.clock);
      if valid == [] then pruned.(windows := s.windows - {who}) else pruned
  }

  ghost function Initial(now: int): State
  {
    State([], map[], map[], [], now)
  }

  lemma StepWellFormed(s: State, cfg: Config, ev: Event)
    requires WellFormed(s) && Enabled(s, ev)
    ensures WellFormed(Step(s, cfg, ev))
  {
    match ev
    case Fetch(_, _) => FetchWellFormed(s, cfg, ev);
    case Decide(_, _) => DecideWellFormed(s, cfg, ev);
    case Clean(_, _) => CleanWellFormed(s, cfg, ev);
  }

  lemma FetchWellFormed(s: State, cfg: Config, ev: Event)
    requires WellFormed(s) && Enabled(s, ev) && ev.Fetch?
    ensures WellFormed(Step(s, cfg, ev))
  {
    var s' := Step(s, cfg, ev);
    forall t | t in s'.held ensures TicketOk(s', s'.held[t]) {
      if t != ev.thread { assert TicketOk(s, s.held[t]); }
    }
  }

  lemma DecideWellFormed(s: State, cfg: Config, ev: Event)
    requires WellFormed(s) && Enabled(s, ev) && ev.Decide?
    ensures WellFormed(Step(s, cfg, ev))
  {
    var s' := Step(s, cfg, ev);
    forall t | t in s'.held ensures TicketOk(s', s'.held[t]) { assert TicketOk(s, s.held[t]); }
  }

  lemma CleanWellFormed(s: State, cfg: Config, ev: Event)
    requires WellFormed(s) && Enabled(s, ev) && ev.Clean?
    ensures WellFormed(Step(s, cfg, ev))
  {
    var s' := Step(s, cfg, ev);
    forall t | t in s'.held ensures TicketOk(s', s'.held[t]) { assert TicketOk(s, s.held[t]); }
  }

  /** Cleanup's deletion is safe when no thread has fetched a window of that submitter without deciding yet. */
  ghost predicate Safe(s: State, cfg: Config, ev: Event)
    requires WellFormed(s) && Enabled(s, ev)
  {
    ev.Clean? && Recent(View(s, ev.who), ev.at - 2 * cfg.windowDur) == [] ==>
      forall t :: t in s.held ==> s.held[t].who != ev.who
  }

  ghost predicate AllAttached(s: State)
  {
    forall t :: t in s.held ==> Attached(s, s.held[t])
  }

  lemma FetchFaithful(s: State, cfg: Config, ev: Event)
    requires WellFormed(s) && Enabled(s, ev) && ev.Fetch? && Faithful(s, cfg)
    ensures Faithful(Step(s, cfg, ev), cfg)
  {
    var s' := Step(s, cfg, ev);
    forall who
      ensures Remembers(View(s', who), s'.log, who, s'.clock - cfg.windowDur)
    {
      assert View(s', who) == View(s, who);
      assert Remembers(View(s, who), s.log, who, s.clock - cfg.windowDur);
    }
  }

  lemma CleanFaithful(s: State, cfg: Config, ev: Event)
    requires WellFormed(s) && Enabled(s, ev) && ev.Clean? && Faithful(s, cfg)
    ensures Faithful(Step(s, cfg, ev), cfg)
  {
    var s' := Step(s, cfg, ev);
    forall who
      ensures Remembers(View(s', who), s'.log, who, s'.clock - cfg.windowDur)
    {
      assert Remembers(View(s, who), s.log, who, s.clock - cfg.windowDur);
      if who == ev.who {
        PruneRemembers(View(s, who), s.log, who, s'.clock - cfg.windowDur, ev.at - 2 * cfg.windowDur, s'.clock);
      } else {
        assert View(s', who) == View(s, who);
      }
    }
  }

  /** A decision on the current window is the one the full log calls for, and is remembered. */
  lemma AttachedDecideExact(s: State, cfg: Config, thread: nat, now: int)
    requires WellFormed(s) && Enabled(s, Decide(thread, now)) && Faithful(s, cfg)
    requires Attached(s, s.held[thread])
    ensures var k := s.held[thread];
            Grants(s, cfg, k, now) <==> Accepted(s.log, k.who, now - cfg.windowDur, now) < cfg.maxPerWindow
    ensures Faithful(Step(s, cfg, Decide(thread, now)), cfg)
  {
    var k, s' := s.held[thread], Step(s, cfg, Decide(thread, now));
    var from := now - cfg.windowDur;
    assert Remembers(View(s, k.who), s.log, k.who, s.clock - cfg.windowDur);
    RecentCounts(s.log, k.who, from, now);
    PruneRemembers(View(s, k.who), s.log, k.who, from, from, now);
    forall who
      ensures Remembers(View(s', who), s'.log, who, from)
    {
      assert Remembers(View(s, who), s.log, who, s.clock - cfg.windowDur);
      if who != k.who {
        assert View(s', who) == View(s, who);
        OthersRemember(View(s, who), s.log, Acceptance(k.who, now), who, from);
      } else {
        AppendRemembers(Recent(View(s, who), from), s.log, Acceptance(who, now), from);
      }
    }
  }

  /** A decision on a deleted window is forgotten exactly when it grants and the window is not empty. */
  lemma DetachedDecideForgets(s: State, cfg: Config, thread: nat, now: int)
    requires WellFormed(s) && Enabled(s, Decide(thread, now)) && Faithful(s, cfg)
    requires !Attached(s, s.held[thread])
    ensures Faithful(Step(s, cfg, Decide(thread, now)), cfg) <==>
            !Grants(s, cfg, s.held[thread], now) || cfg.windowDur <= 0
  {
    var k, s' := s.held[thread], Step(s, cfg, Decide(thread, now));
    var from, a := now - cfg.windowDur, Acceptance(k.who, now);
    assert TicketOk(s, k);
    forall who
      ensures View(s', who) == View(s, who) && Remembers(View(s, who), s.log, who, from)
    {
      assert Remembers(View(s, who), s.log, who, s.clock - cfg.windowDur);
    }
    if Grants(s, cfg, k, now) {
      TimesOfAppend(s.log, a, k.who);
      RecentAppend(TimesOf(s.log, k.who), now, from);
      if cfg.windowDur <= 0 {
        ExpiredFaithful(s, s', cfg, a);
      } else {
        assert |Recent(View(s', k.who), from)| < |Recent(TimesOf(s'.log, k.who), from)|;
        assert !Remembers(View(s', k.who), s'.log, k.who, from);
      }
    }
  }

  /** With an empty window an acceptance has expired when it is made. */
  lemma ExpiredFaithful(s: State, s': State, cfg: Config, a: Acceptance)
    requires cfg.windowDur <= 0 && s'.clock == a.at && s'.log == s.log + [a]
    requires forall who :: View(s', who) == View(s, who) && Remembers(View(s, who), s.log, who, a.at - cfg.windowDur)
    ensures Faithful(s', cfg)
  {
    forall who
      ensures Remembers(View(s', who), s'.log, who, a.at - cfg.windowDur)
    {
      TimesOfAppend(s.log, a, who);
      forall c | c >= a.at - cfg.windowDur
        ensures Recent(View(s', who), c) == Recent(TimesOf(s'.log, who), c)
      {
        assert Remembers(View(s, who), s.log, who, a.at - cfg.windowDur);
        RecentAppend(TimesOf(s.log, who), a.at, c);
      }
    }
  }

  lemma StepAttached(s: State, cfg: Config, ev: Event)
    requires WellFormed(s) && Enabled(s, ev) && AllAttached(s)
    ensures AllAttached(Step(s, cfg, ev)) <==> Safe(s, cfg, ev)
  {
    var s' := Step(s, cfg, ev);
    if !Safe(s, cfg, ev) {
      var t :| t in s.held && s.held[t].who == ev.who;
      assert !Attached(s', s'.held[t]);
    }
  }

  ghost predicate Inv(s: State, cfg: Config)
  {
    WellFormed(s) && Faithful(s, cfg) && AllAttached(s) && WithinLimit(s.log, cfg.windowDur, cfg.maxPerWindow)
  }

  lemma SafeStepKeeps(s: State, cfg: Config, ev: Event)
    requires Inv(s, cfg) && Enabled(s, ev) && Safe(s, cfg, ev)
    ensures Inv(Step(s, cfg, ev), cfg)
  {
    StepWellFormed(s, cfg, ev);
    StepAttached(s, cfg, ev);
    match ev
    case Fetch(_, _) => FetchFaithful(s, cfg, ev);
    case Clean(_, _) => CleanFaithful(s, cfg, ev);
    case Decide(thread, now) =>
      AttachedDecideExact(s, cfg, thread, now);
      if Grants(s, cfg, s.held[thread], now) {
        AcceptKeepsLimit(s.log, s.held[thread].who, now, cfg.windowDur, cfg.maxPerWindow);
      }
  }

  ghost predicate SafeRun(s: State, cfg: Config, evs: seq<Event>)
    decreases |evs|
  {
    evs == [] ||
    (WellFormed(s) && Enabled(s, evs[0]) && Safe(s, cfg, evs[0]) && SafeRun(Step(s, cfg, evs[0]), cfg, evs[1..]))
  }

  ghost function End(s: State, cfg: Config, evs: seq<Event>): State
    decreases |evs|
  {
    if evs != [] && WellFormed(s) && Enabled(s, evs[0]) then End(Step(s, cfg, evs[0]), cfg, evs[1..]) else s
  }

  lemma {:induction false} RunKeeps(s: State, cfg: Config, evs: seq<Event>)
    requires Inv(s, cfg) && SafeRun(s, cfg, evs)
    ensures Inv(End(s, cfg, evs), cfg)
    decreases |evs|
  {
    if evs != [] {
      SafeStepKeeps(s, cfg, evs[0]);
      RunKeeps(Step(s, cfg, evs[0]), cfg, evs[1..]);
    }
  }

  /** Any threads, any interleaving: unless Cleanup deletes a fetched window, no span exceeds the limit. */
  lemma LimitHolds(cfg: Config, start: int, evs: seq<Event>)
    requires SafeRun(Initial(start), cfg, evs)
    ensures Inv(End(Initial(start), cfg, evs), cfg)
  {
    RunKeeps(Initial(start), cfg, evs);
  }

  /** And once Cleanup has deleted a fetched window, the pending decision is granted and forgotten. */
  lemma UnsafeCleanForgets(s: State, cfg: Config, ev: Event, thread: nat, now: int)
    requires Inv(s, cfg) && Enabled(s, ev) && ev.Clean? && Recent(View(s, ev.who), ev.at - 2 * cfg.windowDur) == []
    requires thread in s.held && s.held[thread].who == ev.who
    requires cfg.maxPerWindow > 0 && cfg.windowDur > 0 && s.clock <= now && ev.at <= now
    ensures var s' := Step(s, cfg, ev);
            WellFormed(s') && Grants(s', cfg, s'.held[thread], now) &&
            !Faithful(Step(s', cfg, Decide(thread, now)), cfg)
  {
    StepWellFormed(s, cfg, ev);
    CleanFaithful(s, cfg, ev);
    DetachedDecideForgets(Step(s, cfg, ev), cfg, thread, now);
  }

  /** A submitter without a window is granted, whatever the log says. */
  lemma FreshGrant(s: State, cfg: Config, thread: nat, who: Id, now: int)
    requires WellFormed(s) && who !in s.windows && thread !in s.held && s.clock <= now && cfg.maxPerWindow > 0
    ensures End(s, cfg, [Fetch(thread, who), Decide(thread, now)]).log == s.log + [Acceptance(who, now)]
  {
    var s1 := Step(s, cfg, Fetch(thread, who));
    StepWellFormed(s, cfg, Fetch(thread, who));
    assert End(s1, cfg, [Decide(thread, now)]) == End(Step(s1, cfg, Decide(thread, now)), cfg, []);
    assert [Fetch(thread, who), Decide(thread, now)][1..] == [Decide(thread, now)];
  }

  /** A first fetch whose window Cleanup deletes before the decision. */
  lemma WindowDeleted(cfg: Config, who: Id, at: int) returns (s: State)
    requires at <= 0
    ensures forall rest :: End(Initial(0), cfg, [Fetch(0, who)] + ([Clean(who, at)] + rest)) == End(s, cfg, rest)
    ensures WellFormed(s) && s == State([[]], map[], map[0 := Ticket(who, 0)], [], 0)
  {
    var s1 := Step(Initial(0), cfg, Fetch(0, who));
    StepWellFormed(Initial(0), cfg, Fetch(0, who));
    s := Step(s1, cfg, Clean(who, at));
    StepWellFormed(s1, cfg, Clean(who, at));
    forall rest
      ensures End(Initial(0), cfg, [Fetch(0, who)] + ([Clean(who, at)] + rest)) == End(s, cfg, rest)
    {
      EndCons(Initial(0), cfg, Fetch(0, who), [Clean(who, at)] + rest);
      EndCons(s1, cfg, Clean(who, at), rest);
    }
  }

  /** The decision is granted, and no window is left. */
  lemma GrantWithoutWindow(cfg: Config, s: State, who: Id, now: int) returns (s': State)
    requires cfg.maxPerWindow > 0 && 0 <= now
    requires WellFormed(s) && s == State([[]], map[], map[0 := Ticket(who, 0)], [], 0)
    ensures forall rest :: End(s, cfg, [Decide(0, now)] + rest) == End(s', cfg, rest)
    ensures WellFormed(s') && s'.windows == map[] && s'.held == map[] && s'.clock == now
    ensures s'.log == [Acceptance(who, now)]
  {
    s' := Step(s, cfg, Decide(0, now));
    StepWellFormed(s, cfg, Decide(0, now));
    forall rest
      ensures End(s, cfg, [Decide(0, now)] + rest) == End(s', cfg, rest)
    {
      EndCons(s, cfg, Decide(0, now), rest);
    }
  }

  lemma EndCons(s: State, cfg: Config, ev: Event, evs: seq<Event>)
    requires WellFormed(s) && Enabled(s, ev)
    ensures End(s, cfg, [ev] + evs) == End(Step(s, cfg, ev), cfg, evs)
  {
    assert ([ev] + evs)[1..] == evs;
  }

  /** A limit of one per ten: two requests of one submitter are granted one tick apart. */
  lemma TwoGrants(who: Id)
    ensures var cfg := Config(1, 10);
            var evs := [Fetch(0, who), Clean(who, 0), Decide(0, 1), Fetch(1, who), Decide(1, 2)];
            End(Initial(0), cfg, evs).log == [Acceptance(who, 1), Acceptance(who, 2)]
  {
    var cfg, rest := Config(1, 10), [Fetch(1, who), Decide(1, 2)];
    var s := WindowDeleted(cfg, who, 0);
    var s' := GrantWithoutWindow(cfg, s, who, 1);
    FreshGrant(s', cfg, 1, who, 2);
    assert [Fetch(0, who)] + ([Clean(who, 0)] + ([Decide(0, 1)] + rest))
        == [Fetch(0, who), Clean(who, 0), Decide(0, 1), Fetch(1, who), Decide(1, 2)];
  }
}
