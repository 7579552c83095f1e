/** What every run of the proxy keeps, and what follows for each connection. */
module ProxyRuns {
  import opened ProxyNet

  lemma FlattenSnoc(cfg: Config, log: seq<Entry>, e: Entry)
    ensures Flatten(cfg, log + [e]) == Flatten(cfg, log) + (match e case Forwarded(c) => c case Page => cfg.page)
    ensures Chunks(log + [e]) == Chunks(log) + (match e case Forwarded(c) => c case Page => "")
    ensures Pages(log + [e]) == Pages(log) + if e == Page then 1 else 0
  {
    assert (log + [e])[..|log|] == log;
  }

  /** Blocking a connection that was reading. */
  lemma BlockedInv(cfg: Config, x: Bev)
    requires BevInv(cfg, x) && (x.reading ==> !x.blocked) && cfg.blocks(x.input)
    ensures var y := Blocked(cfg, x);
      && (x.reading ==> BevInv(cfg, y))
      && Chunks(y.log) == Chunks(x.log)
  {
    hide Flatten, Chunks, Pages;
    FlattenSnoc(cfg, x.log, Page);
    assert x.wire + (x.output + cfg.page) == (x.wire + x.output) + cfg.page;
  }

  lemma TakingInv(cfg: Config, y: Bev, chunk: string, b: Id)
    requires BevInv(cfg, y) && y.ctx == Partner(b) && !cfg.blocks(chunk)
    ensures BevInv(cfg, Taking(y, chunk, b))
    ensures Chunks(Taking(y, chunk, b).log) == Chunks(y.log) + chunk
  {
    hide Flatten, Chunks, Pages;
    FlattenSnoc(cfg, y.log, Forwarded(chunk));
    assert y.wire + (y.output + chunk) == (y.wire + y.output) + chunk;
  }

  /** Replacing two partners by two that fit each other. */
  lemma PairReplaced(cfg: Config, n: Net, b: Id, p: Id, x: Bev, y: Bev)
    requires Inv(cfg, n) && b in n.bevs && n.bevs[b].ctx == Partner(p)
    requires x.ctx == Partner(p) && y.ctx == Partner(b)
    requires BevInv(cfg, x) && BevInv(cfg, y) && Couple(x, y) && Couple(y, x)
    ensures Inv(cfg, n.(bevs := n.bevs[b := x][p := y]))
  {
    hide BevInv, Couple;
    var m := n.(bevs := n.bevs[b := x][p := y]);
    assert PairInv(n, b);
    forall c | c in m.bevs ensures BevInv(cfg, m.bevs[c]) && PairInv(m, c) {
      assert PairInv(n, c);
    }
  }

  /** Replacing one connection that keeps what its partner relies on. */
  lemma OneReplaced(cfg: Config, n: Net, b: Id, x: Bev)
    requires Inv(cfg, n) && b in n.bevs && x.ctx == n.bevs[b].ctx && BevInv(cfg, x)
    requires x.ctx.Partner? && Paired(n, b) ==> Couple(x, n.bevs[x.ctx.id]) && Couple(n.bevs[x.ctx.id], x)
    ensures Inv(cfg, n.(bevs := n.bevs[b := x]))
  {
    hide BevInv, Couple;
    var m := n.(bevs := n.bevs[b := x]);
    assert PairInv(n, b);
    forall c | c in m.bevs ensures BevInv(cfg, m.bevs[c]) && PairInv(m, c) {
      assert PairInv(n, c);
    }
  }

  /** A read callback on a reading connection. */
  lemma ReadKeeps(cfg: Config, n: Net, b: Id)
    requires Inv(cfg, n) && b in n.bevs && n.bevs[b].reading
    ensures Inv(cfg, ReadCb(cfg, n, b))
  {
    hide Flatten, Chunks, Pages;
    assert BevInv(cfg, n.bevs[b]) && PairInv(n, b);
    var x := n.bevs[b];
    var p := x.ctx.id;
    var y := n.bevs[p];
    assert BevInv(cfg, y) && PairInv(n, p);
    if cfg.blocks(x.input) {
      BlockedInv(cfg, x);
      OneReplaced(cfg, n, b, Blocked(cfg, x));
    } else {
      TakingInv(cfg, y, x.input, b);
      PairReplaced(cfg, n, b, p, Giving(x, y), Taking(y, x.input, b));
    }
  }

  lemma DrainedKeeps(cfg: Config, n: Net, b: Id)
    requires Inv(cfg, n) && b in n.bevs && n.bevs[b].writeCb == DrainedCb && |n.bevs[b].output| <= n.bevs[b].low
    ensures Inv(cfg, DrainedWriteCb(n, b))
  {
    assert BevInv(cfg, n.bevs[b]) && PairInv(n, b);
    var x := n.bevs[b];
    var p := x.ctx.id;
    assert BevInv(cfg, n.bevs[p]) && PairInv(n, p);
    PairReplaced(cfg, n, b, p, x.(readCb := true, writeCb := NoWriteCb, low := 0), n.bevs[p].(reading := true));
  }

  /** Freeing a connection nobody points at. */
  lemma FreeKeeps(cfg: Config, n: Net, b: Id)
    requires Inv(cfg, n) && b in n.bevs && n.bevs[b].ctx == NoPartner
    ensures Inv(cfg, Free(n, b))
  {
    hide BevInv, Couple;
    var m := Free(n, b);
    forall c | c in m.bevs ensures BevInv(cfg, m.bevs[c]) && PairInv(m, c) {
      assert PairInv(n, c);
    }
  }

  /** Freeing two partners. */
  lemma FreeBothKeeps(cfg: Config, n: Net, b: Id, m: Net)
    requires Inv(cfg, n) && b in n.bevs && n.bevs[b].ctx.Partner?
    requires var p := n.bevs[b].ctx.id;
      m.bevs == n.bevs - {b, p} && m.freed == n.freed + {b, p} && m.next == n.next
    ensures Inv(cfg, m)
  {
    hide BevInv, Couple;
    assert PairInv(n, b);
    forall c | c in m.bevs ensures BevInv(cfg, m.bevs[c]) && PairInv(m, c) {
      assert PairInv(n, c);
    }
  }

  /** Freeing a connection whose partner lets go of it and stays to finish. */
  lemma FreeOneKeeps(cfg: Config, n: Net, b: Id, y: Bev, m: Net)
    requires Inv(cfg, n) && b in n.bevs && n.bevs[b].ctx.Partner?
    requires y.ctx == NoPartner && BevInv(cfg, y)
    requires var p := n.bevs[b].ctx.id;
      m.bevs == (n.bevs - {b})[p := y] && m.freed == n.freed + {b} && m.next == n.next
    ensures Inv(cfg, m)
  {
    hide BevInv, Couple;
    assert PairInv(n, b);
    var p := n.bevs[b].ctx.id;
    assert p in n.bevs && p != b;
    forall c | c in m.bevs ensures BevInv(cfg, m.bevs[c]) && PairInv(m, c) {
      if c != p { assert PairInv(n, c); }
    }
  }

  /** What the partner holds after the last flush. */
  function Flushed(cfg: Config, n: Net, b: Id): Bev
    requires Paired(n, b)
  {
    var x := n.bevs[b];
    var y := n.bevs[x.ctx.id];
    if cfg.blocks(x.input) then y else Taking(y, x.input, b)
  }

  lemma HangupShape(cfg: Config, n: Net, b: Id)
    requires Paired(n, b)
    ensures var p := n.bevs[b].ctx.id;
      var y := Flushed(cfg, n, b);
      var m := EventCb(cfg, n, b);
      && m.next == n.next
      && (if y.output != "" then m.bevs == (n.bevs - {b})[p := Finishing(y)] && m.freed == n.freed + {b}
          else m.bevs == n.bevs - {b, p} && m.freed == n.freed + {b, p})
  {
    hide Blocked, Giving, Taking, Finishing;
  }

  lemma HangupAlone(cfg: Config, n: Net, b: Id)
    requires b in n.bevs && n.bevs[b].ctx == NoPartner
    ensures EventCb(cfg, n, b) == Free(n, b)
  {
  }

  lemma FlushedInv(cfg: Config, n: Net, b: Id)
    requires Inv(cfg, n) && Paired(n, b)
    ensures BevInv(cfg, Finishing(Flushed(cfg, n, b)))
  {
    var x := n.bevs[b];
    assert PairInv(n, b) && BevInv(cfg, n.bevs[x.ctx.id]);
    if !cfg.blocks(x.input) { TakingInv(cfg, n.bevs[x.ctx.id], x.input, b); }
  }

  lemma HangupKeeps(cfg: Config, n: Net, b: Id)
    requires Inv(cfg, n) && b in n.bevs
    ensures Inv(cfg, EventCb(cfg, n, b))
  {
    hide EventCb;
    assert PairInv(n, b);
    if n.bevs[b].ctx == NoPartner {
      FreeKeeps(cfg, n, b);
      assert EventCb(cfg, n, b) == Free(n, b) by { HangupAlone(cfg, n, b); }
    } else {
      HangupShape(cfg, n, b);
      FlushedInv(cfg, n, b);
      var y := Flushed(cfg, n, b);
      if y.output != "" {
        FreeOneKeeps(cfg, n, b, Finishing(y), EventCb(cfg, n, b));
      } else {
        FreeBothKeeps(cfg, n, b, EventCb(cfg, n, b));
      }
    }
  }

  lemma FreshPair(cfg: Config, b: Id, p: Id)
    ensures Fresh(p).ctx == Partner(p) && Fresh(b).ctx == Partner(b)
    ensures BevInv(cfg, Fresh(p)) && BevInv(cfg, Fresh(b))
    ensures Couple(Fresh(p), Fresh(b)) && Couple(Fresh(b), Fresh(p))
  {
  }

  lemma AcceptKeeps(cfg: Config, n: Net, link: Link)
    requires Inv(cfg, n)
    ensures Inv(cfg, AcceptCb(n, link))
  {
    hide BevInv, Couple, Fresh;
    var m := AcceptCb(n, link);
    FreshPair(cfg, n.next, if link == Wrapped then n.next + 2 else n.next + 1);
    forall c | c in m.bevs ensures BevInv(cfg, m.bevs[c]) && PairInv(m, c) {
      if c in n.bevs { assert PairInv(n, c); }
    }
  }

  lemma ArriveKeeps(cfg: Config, n: Net, b: Id, data: string)
    requires Inv(cfg, n) && b in n.bevs && n.bevs[b].reading
    ensures Inv(cfg, Step(cfg, n, Arrive(b, data)))
  {
    hide Flatten, Chunks, Pages;
    assert BevInv(cfg, n.bevs[b]) && PairInv(n, b);
    var x := n.bevs[b];
    var p := x.ctx.id;
    assert PairInv(n, p);
    var z := x.(input := x.input + data, received := x.received + data);
    assert z.received == Chunks(n.bevs[p].log) + z.input;
    OneReplaced(cfg, n, b, z);
  }

  lemma SentKeeps(cfg: Config, n: Net, b: Id, k: nat)
    requires Inv(cfg, n) && b in n.bevs && k <= |n.bevs[b].output|
    ensures Inv(cfg, Step(cfg, n, Sent(b, k)))
  {
    hide Flatten, Chunks, Pages;
    assert BevInv(cfg, n.bevs[b]) && PairInv(n, b);
    var x := n.bevs[b];
    if x.ctx.Partner? { assert PairInv(n, x.ctx.id); }
    var z := x.(output := x.output[k..], wire := x.wire + x.output[..k]);
    assert z.wire + z.output == x.wire + x.output;
    OneReplaced(cfg, n, b, z);
  }

  lemma WriteCallbacks(cfg: Config, n: Net, b: Id)
    requires Inv(cfg, n) && b in n.bevs && n.bevs[b].writeCb == CloseOnFinishedCb
    ensures n.bevs[b].ctx == NoPartner
  {
    assert BevInv(cfg, n.bevs[b]);
  }

  /** Every step keeps the invariant. */
  lemma StepKeeps(cfg: Config, n: Net, e: Event)
    requires Inv(cfg, n)
    ensures Inv(cfg, Step(cfg, n, e))
  {
    hide Inv, AcceptCb, ReadCb, DrainedWriteCb, EventCb;
    if Enabled(n, e) {
      match e
      case Accept(link) => AcceptKeeps(cfg, n, link);
      case Arrive(b, data) => ArriveKeeps(cfg, n, b, data);
      case ReadReady(b) => ReadKeeps(cfg, n, b);
      case Sent(b, k) => SentKeeps(cfg, n, b, k);
      case WriteReady(b) =>
        if n.bevs[b].writeCb == DrainedCb {
          DrainedKeeps(cfg, n, b);
        } else if n.bevs[b].output == "" {
          WriteCallbacks(cfg, n, b);
          FreeKeeps(cfg, n, b);
        }
      case Hangup(b) => HangupKeeps(cfg, n, b);
    }
  }

  /** The net after a sequence of events, starting from no connections. */
  function Run(cfg: Config, es: seq<Event>): (n: Net)
    ensures Inv(cfg, n)
  {
    if es == [] then IDLE
    else
      var n := Run(cfg, es[..|es| - 1]);
      StepKeeps(cfg, n, es[|es| - 1]);
      Step(cfg, n, es[|es| - 1])
  }

  /** In every run a connection that is not reading was blocked, is closing, or is throttled:
      its partner is live, points back, and has the callback that will wake it. */
  lemma WhyNotReading(cfg: Config, es: seq<Event>, b: Id)
    requires b in Run(cfg, es).bevs
    ensures var n := Run(cfg, es);
      var x := n.bevs[b];
      && (!x.reading <==> x.blocked || Closing(x) || Throttled(n, b))
      && (Throttled(n, b) ==> n.bevs[x.ctx.id].ctx == Partner(b) && !x.blocked)
  {
    var n := Run(cfg, es);
    assert BevInv(cfg, n.bevs[b]) && PairInv(n, b);
  }

  /** A context is nothing or a live connection that points back: no callback ever uses a
      freed partner, and what was freed is never live again. */
  lemma PartnersAreLive(cfg: Config, es: seq<Event>, b: Id)
    requires b in Run(cfg, es).bevs
    ensures var n := Run(cfg, es);
      && (n.bevs[b].ctx.Partner? ==> Paired(n, b) && n.bevs[n.bevs[b].ctx.id].ctx == Partner(b))
      && b !in n.freed
  {
    assert PairInv(Run(cfg, es), b);
  }

  /** While a connection reads, its partner's output holds less than the limit and one page. */
  lemma OutputIsBounded(cfg: Config, es: seq<Event>, b: Id)
    requires var n := Run(cfg, es); b in n.bevs && n.bevs[b].reading
    ensures var n := Run(cfg, es);
      Paired(n, b) && |n.bevs[n.bevs[b].ctx.id].output| < MAX_OUTPUT + |cfg.page|
  {
    var n := Run(cfg, es);
    assert BevInv(cfg, n.bevs[b]) && PairInv(n, b);
    assert BevInv(cfg, n.bevs[n.bevs[b].ctx.id]);
  }

  /** Bytes are passed on complete, in order, and only in chunks the filter let through: what a
      connection received is what its partner was given and what it still holds, and what the
      partner was given, pages included, is what it sent and what it still holds. */
  lemma NothingLost(cfg: Config, es: seq<Event>, b: Id)
    requires var n := Run(cfg, es); b in n.bevs && n.bevs[b].ctx.Partner?
    ensures var n := Run(cfg, es);
      Paired(n, b) &&
      var x, y := n.bevs[b], n.bevs[n.bevs[b].ctx.id];
      && x.received == Chunks(y.log) + x.input
      && y.wire + y.output == Flatten(cfg, y.log)
      && (forall i :: 0 <= i < |y.log| && y.log[i].Forwarded? ==> !cfg.blocks(y.log[i].chunk))
  {
    var n := Run(cfg, es);
    assert PairInv(n, b);
    assert BevInv(cfg, n.bevs[n.bevs[b].ctx.id]);
  }

  /** A connection that hangs up passes on what it still holds unless that is blocked; what
      its partner then holds is sent before the partner goes. So the partner's output was
      sent, or will be, complete and in order. */
  lemma HangupFlushes(cfg: Config, n: Net, b: Id)
    requires Inv(cfg, n) && b in n.bevs && n.bevs[b].ctx.Partner?
    ensures var x, p, y := n.bevs[b], n.bevs[b].ctx.id, Flushed(cfg, n, b);
      var m := Step(cfg, n, Hangup(b));
      && (!cfg.blocks(x.input) ==> Chunks(y.log) == x.received)
      && (cfg.blocks(x.input) ==> Chunks(y.log) + x.input == x.received)
      && b !in m.bevs
      && (if y.output != "" then
            p in m.bevs && Closing(m.bevs[p]) && m.bevs[p].log == y.log
            && m.bevs[p].wire + m.bevs[p].output == Flatten(cfg, y.log)
          else p !in m.bevs && y.wire == Flatten(cfg, y.log))
  {
    hide EventCb, Flatten, Chunks, Pages;
    assert PairInv(n, b);
    var y := n.bevs[n.bevs[b].ctx.id];
    HangupShape(cfg, n, b);
    FlushedInv(cfg, n, b);
    if !cfg.blocks(n.bevs[b].input) { TakingInv(cfg, y, n.bevs[b].input, b); }
  }

  /** Nothing points at a closing connection, so only its own events touch it. */
  lemma ClosingUntouched(cfg: Config, n: Net, e: Event, b: Id)
    requires Inv(cfg, n) && b in n.bevs && Closing(n.bevs[b]) && e != Hangup(b)
    ensures var x, m := n.bevs[b], Step(cfg, n, e);
      if e == WriteReady(b) && x.output == "" then b !in m.bevs && b in m.freed
      else b in m.bevs && Closing(m.bevs[b]) && m.bevs[b].log == x.log
  {
    hide Flatten, Chunks, Pages, Couple, Blocked, EventCb;
    assert BevInv(cfg, n.bevs[b]);
    if Enabled(n, e) && !e.Accept? {
      assert BevInv(cfg, n.bevs[e.b]) && PairInv(n, e.b);
      if e.Hangup? {
        if n.bevs[e.b].ctx == NoPartner { HangupAlone(cfg, n, e.b); } else { HangupShape(cfg, n, e.b); }
      }
    }
  }

  /** A closing connection keeps what it has to send until that is sent. */
  lemma ClosingStep(cfg: Config, n: Net, e: Event, b: Id)
    requires Inv(cfg, n) && b in n.bevs && Closing(n.bevs[b]) && e != Hangup(b)
    ensures var x, m := n.bevs[b], Step(cfg, n, e);
      if b in m.bevs then
        && Closing(m.bevs[b]) && m.bevs[b].log == x.log
        && m.bevs[b].wire + m.bevs[b].output == Flatten(cfg, x.log)
      else b in m.freed && e == WriteReady(b) && x.wire == Flatten(cfg, x.log)
  {
    hide Flatten, Chunks, Pages, EventCb, ReadCb, DrainedWriteCb;
    StepKeeps(cfg, n, e);
    assert BevInv(cfg, n.bevs[b]);
    ClosingUntouched(cfg, n, e, b);
    var m := Step(cfg, n, e);
    if b in m.bevs { assert BevInv(cfg, m.bevs[b]); }
  }

  lemma HangupNeverReverts(cfg: Config, n: Net, h: Id, b: Id)
    requires Inv(cfg, n) && h in n.bevs
    ensures var m := EventCb(cfg, n, h);
      && n.freed <= m.freed
      && (b in n.bevs && n.bevs[b].blocked ==> if b in m.bevs then m.bevs[b].blocked else b in m.freed)
  {
    hide EventCb, BevInv;
    assert PairInv(n, h);
    if n.bevs[h].ctx == NoPartner { HangupAlone(cfg, n, h); } else { HangupShape(cfg, n, h); }
  }

  /** One step neither unblocks a connection nor revives a freed one. */
  lemma StepNeverReverts(cfg: Config, n: Net, e: Event, b: Id)
    requires Inv(cfg, n)
    ensures var m := Step(cfg, n, e);
      && n.freed <= m.freed
      && (b in n.bevs && n.bevs[b].blocked ==> if b in m.bevs then m.bevs[b].blocked else b in m.freed)
  {
    hide BevInv, Couple, PairInv, EventCb;
    if Enabled(n, e) && e.Hangup? { HangupNeverReverts(cfg, n, e.b, b); }
  }

  /** Once blocked, a connection reads no more for the rest of the run; once freed, it stays
      freed. */
  lemma {:induction false} BlockedForever(cfg: Config, es: seq<Event>, more: seq<Event>, b: Id)
    ensures var n, m := Run(cfg, es), Run(cfg, es + more);
      && (b in n.freed ==> b in m.freed && b !in m.bevs)
      && (b in n.bevs && n.bevs[b].blocked ==>
            if b in m.bevs then m.bevs[b].blocked && !m.bevs[b].reading else b in m.freed)
  {
    hide Step, BevInv, Couple;
    if more == [] {
      assert es + more == es;
      if b in Run(cfg, es).bevs { WhyNotReading(cfg, es, b); }
    } else {
      var fewer := more[..|more| - 1];
      BlockedForever(cfg, es, fewer, b);
      var all := es + more;
      assert all[..|all| - 1] == es + fewer;
      StepNeverReverts(cfg, Run(cfg, es + fewer), all[|all| - 1], b);
      if b in Run(cfg, all).bevs { WhyNotReading(cfg, all, b); }
    }
  }

  lemma ClosingHolds(cfg: Config, n: Net, b: Id)
    requires Inv(cfg, n) && b in n.bevs
    ensures n.bevs[b].wire + n.bevs[b].output == Flatten(cfg, n.bevs[b].log)
  {
    assert BevInv(cfg, n.bevs[b]);
  }

  lemma FreedStays(cfg: Config, n: Net, e: Event, b: Id)
    requires Inv(cfg, n) && b in n.freed
    ensures var m := Step(cfg, n, e); b in m.freed && b !in m.bevs
  {
    hide Step;
    StepNeverReverts(cfg, n, e, b);
    StepKeeps(cfg, n, e);
  }

  /** b is closing, and everything ever given to it is sent. */
  predicate SentAll(cfg: Config, n: Net, b: Id, log: seq<Entry>) {
    b in n.bevs && Closing(n.bevs[b]) && n.bevs[b].log == log && n.bevs[b].wire == Flatten(cfg, log)
  }

  /** Over the rest of a run a half-closed connection that does not itself hang up keeps all
      it was given, sent or still to send, and it is freed only when nothing is left. */
  lemma {:induction false} ClosingLosesNothing(cfg: Config, es: seq<Event>, more: seq<Event>, b: Id)
    requires b in Run(cfg, es).bevs && Closing(Run(cfg, es).bevs[b]) && Hangup(b) !in more
    ensures var x, m := Run(cfg, es).bevs[b], Run(cfg, es + more);
      if b in m.bevs then
        && Closing(m.bevs[b]) && m.bevs[b].log == x.log
        && m.bevs[b].wire + m.bevs[b].output == Flatten(cfg, x.log)
      else
        && b in m.freed
        && exists k :: 0 <= k < |more| && SentAll(cfg, Run(cfg, es + more[..k]), b, x.log)
  {
    hide Flatten, Step, Inv, Closing;
    if more == [] {
      assert es + more == es;
      ClosingHolds(cfg, Run(cfg, es), b);
    } else {
      var last := |more| - 1;
      ClosingLosesNothing(cfg, es, more[..last], b);
      assert (es + more)[..|es + more| - 1] == es + more[..last];
      var n := Run(cfg, es + more[..last]);
      if b in n.bevs {
        ClosingStep(cfg, n, more[last], b);
        if b !in Run(cfg, es + more).bevs {
          assert SentAll(cfg, n, b, Run(cfg, es).bevs[b].log);
        }
      } else {
        FreedStays(cfg, n, more[last], b);
        var k :| 0 <= k < last && SentAll(cfg, Run(cfg, es + more[..last][..k]), b, Run(cfg, es).bevs[b].log);
        assert more[..last][..k] == more[..k];
      }
    }
  }

  /** No wake-up is lost: whenever a connection is throttled, sending its partner's output
      allows the partner's callback to run, and that makes the connection read again. */
  lemma NoLostWakeup(cfg: Config, n: Net, b: Id, k: nat)
    requires Inv(cfg, n) && b in n.bevs && Throttled(n, b)
    requires var y := n.bevs[n.bevs[b].ctx.id]; k <= |y.output| && |y.output| - k <= MAX_OUTPUT / 2
    ensures var p := n.bevs[b].ctx.id;
      var m := Step(cfg, n, Sent(p, k));
      && Inv(cfg, m) && Enabled(m, WriteReady(p))
      && var r := Step(cfg, m, WriteReady(p));
         b in r.bevs && r.bevs[b].reading && !Throttled(r, b)
  {
    var p := n.bevs[b].ctx.id;
    assert PairInv(n, b) && BevInv(cfg, n.bevs[p]);
    SentKeeps(cfg, n, p, k);
  }

  /** The half-closed side goes away once its output is sent. */
  lemma ClosingEnds(cfg: Config, n: Net, b: Id)
    requires Inv(cfg, n) && b in n.bevs && Closing(n.bevs[b])
    ensures var m := Step(cfg, n, Sent(b, |n.bevs[b].output|));
      && Inv(cfg, m) && Enabled(m, WriteReady(b))
      && var r := Step(cfg, m, WriteReady(b)); b !in r.bevs && b in r.freed
  {
    SentKeeps(cfg, n, b, |n.bevs[b].output|);
  }

  // ----- what becomes of a blocked request

  lemma {:induction false} PageInside(cfg: Config, log: seq<Entry>)
    ensures Pages(log) > 0 <==> Page in log
    ensures Page in log ==> exists before, after :: Flatten(cfg, log) == before + cfg.page + after
  {
    if log == [] {
    } else {
      var front, last := log[..|log| - 1], log[|log| - 1];
      PageInside(cfg, front);
      assert log == front + [last];
      if last == Page {
        assert Flatten(cfg, log) == Flatten(cfg, front) + cfg.page + "";
      } else if Page in log {
        var before, after :| Flatten(cfg, front) == before + cfg.page + after;
        assert Flatten(cfg, log) == before + cfg.page + (after + last.chunk);
      }
    }
  }

  /** Who is blocked is answered with the block page, once, and nobody else is: the page is
      part of what was sent to the peer or is still to be sent. */
  lemma BlockedAreAnswered(cfg: Config, es: seq<Event>, b: Id)
    requires b in Run(cfg, es).bevs
    ensures var x := Run(cfg, es).bevs[b];
      && (x.blocked <==> Page in x.log) && Pages(x.log) <= 1
      && (x.blocked ==> exists before, after :: x.wire + x.output == before + cfg.page + after)
  {
    hide Pages, Flatten;
    var x := Run(cfg, es).bevs[b];
    assert BevInv(cfg, x);
    PageInside(cfg, x.log);
  }

  // ----- the steps, one by one

  /** m is n but for the connection b, which is x. */
  predicate Only(n: Net, m: Net, b: Id, x: Bev) {
    m.bevs == n.bevs[b := x] && m.freed == n.freed && m.next == n.next
  }

  /** A reading connection whose input the filter blocks keeps that input, owes its peer the
      page in addition, reads no more, and has the low watermark at half the limit. */
  lemma ReadBlocks(cfg: Config, n: Net, b: Id)
    requires Inv(cfg, n) && b in n.bevs && n.bevs[b].reading && cfg.blocks(n.bevs[b].input)
    ensures var x := n.bevs[b];
      Only(n, Step(cfg, n, ReadReady(b)), b,
           Bev(x.input, x.output + cfg.page, false, x.readCb, x.writeCb, x.ctx, 262144,
               true, x.received, x.wire, x.log + [Page]))
  {
    hide Flatten, Chunks, Pages;
    assert BevInv(cfg, n.bevs[b]) && PairInv(n, b);
  }

  /** Otherwise its input moves to its partner's output. If that makes 512 KB or more, it stops
      reading, and the partner is to call when half of that is left. */
  lemma ReadForwards(cfg: Config, n: Net, b: Id)
    requires Inv(cfg, n) && b in n.bevs && n.bevs[b].reading && !cfg.blocks(n.bevs[b].input)
    ensures Paired(n, b)
    ensures var x, p, m := n.bevs[b], n.bevs[b].ctx.id, Step(cfg, n, ReadReady(b));
      var y := n.bevs[p];
      var full := |y.output| + |x.input| >= 524288;
      && m.bevs == n.bevs
           [b := Bev("", x.output, !full, x.readCb, x.writeCb, x.ctx, x.low, x.blocked, x.received, x.wire, x.log)]
           [p := Bev(y.input, y.output + x.input, y.reading, y.readCb, if full then DrainedCb else y.writeCb, y.ctx,
                     if full then 262144 else y.low, y.blocked, y.received, y.wire, y.log + [Forwarded(x.input)])]
      && m.freed == n.freed && m.next == n.next
  {
    hide Flatten, Chunks, Pages;
    assert BevInv(cfg, n.bevs[b]) && PairInv(n, b);
    assert BevInv(cfg, n.bevs[n.bevs[b].ctx.id]) && PairInv(n, n.bevs[b].ctx.id);
  }

  /** What the library does: bytes come in at the end of the input of a connection that reads,
      and leave from the front of the output of any. */
  lemma BytesMove(cfg: Config, n: Net, b: Id, data: string, k: nat)
    requires Inv(cfg, n) && b in n.bevs
    ensures var x := n.bevs[b];
      && (x.reading ==>
            Only(n, Step(cfg, n, Arrive(b, data)), b, x.(input := x.input + data, received := x.received + data)))
      && (k <= |x.output| ==>
            Only(n, Step(cfg, n, Sent(b, k)), b, x.(output := x.output[k..], wire := x.wire + x.output[..k])))
  {
  }

  /** A drained connection has no write callback and no watermark, and its partner reads. */
  lemma DrainedWakes(cfg: Config, n: Net, b: Id)
    requires Inv(cfg, n) && b in n.bevs && n.bevs[b].writeCb == DrainedCb && |n.bevs[b].output| <= 262144
    ensures Paired(n, b)
    ensures var p, m := n.bevs[b].ctx.id, Step(cfg, n, WriteReady(b));
      && m.bevs == n.bevs[b := n.bevs[b].(writeCb := NoWriteCb, low := 0)][p := n.bevs[p].(reading := true)]
      && m.freed == n.freed && m.next == n.next
  {
    hide Flatten, Chunks, Pages;
    assert BevInv(cfg, n.bevs[b]) && PairInv(n, b);
  }

  /** A new client is paired with a new connection to the server, both reading, nothing sent
      or received; or, when that connection cannot be made, both are gone. */
  lemma AcceptPairs(cfg: Config, n: Net, link: Link)
    requires Inv(cfg, n)
    ensures var m := Step(cfg, n, Accept(link));
      && n.next < m.next
      && (forall c :: c < n.next ==> (c in m.bevs <==> c in n.bevs) && (c in m.freed <==> c in n.freed))
      && (forall c :: c in n.bevs ==> m.bevs[c] == n.bevs[c])
      && if link == Refused || link == NotWrapped then
           m.bevs == n.bevs && m.freed == n.freed + {n.next, n.next + 1}
         else
           exists b, p :: n.next <= b < p < m.next && m.bevs.Keys == n.bevs.Keys + {b, p} && m.freed == n.freed
             && m.bevs[b] == Bev("", "", true, true, NoWriteCb, Partner(p), 0, false, "", "", [])
             && m.bevs[p] == Bev("", "", true, true, NoWriteCb, Partner(b), 0, false, "", "", [])
  {
    hide BevInv, PairInv;
    var m := Step(cfg, n, Accept(link));
    var b, p := n.next, if link == Wrapped then n.next + 2 else n.next + 1;
    assert b !in n.bevs && p !in n.bevs;
    if link == Plain || link == Wrapped {
      assert m.bevs.Keys == n.bevs.Keys + {b, p};
      assert m.bevs[b] == Bev("", "", true, true, NoWriteCb, Partner(p), 0, false, "", "", []);
    }
  }

  /** A connection without a partner that hangs up is freed, and nothing else happens. */
  lemma LoneHangup(cfg: Config, n: Net, b: Id)
    requires Inv(cfg, n) && b in n.bevs && n.bevs[b].ctx == NoPartner
    ensures var m := Step(cfg, n, Hangup(b));
      m.bevs == n.bevs - {b} && m.freed == n.freed + {b} && m.next == n.next
  {
  }

  /** A read callback without a partner throws the input away. */
  lemma LoneRead(cfg: Config, n: Net, b: Id)
    requires b in n.bevs && n.bevs[b].ctx == NoPartner
    ensures Only(n, ReadCb(cfg, n, b), b, n.bevs[b].(input := ""))
  {
  }
}
