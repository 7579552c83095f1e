/** The proxy's callbacks as the program writes them: a sequence of library calls, each of
    which changes one connection. Every callback is proved to be the step of ProxyNet that
    bears its name. */
module ProxyServer {
  import opened ProxyNet
  import ProxyRuns

  const UNUSED := Bev("", "", false, false, NoWriteCb, NoPartner, 0, false, "", "", [])

  class Proxy {
    const cfg: Config
    var bevs: map<Id, Bev>
    var freed: set<Id>
    var next: Id

    ghost function TheNet(): Net
      reads this
    {
      Net(bevs, freed, next)
    }

    constructor (cfg: Config)
      ensures this.cfg == cfg && TheNet() == IDLE
    {
      this.cfg, bevs, freed, next := cfg, map[], {}, 0;
    }

    // ----- the calls of the event library

    method SetCb(b: Id, readCb: bool, writeCb: WriteCb, ctx: Ctx)
      requires b in bevs
      modifies this`bevs
      ensures bevs == old(bevs)[b := old(bevs[b]).(readCb := readCb, writeCb := writeCb, ctx := ctx)]
    {
      bevs := bevs[b := bevs[b].(readCb := readCb, writeCb := writeCb, ctx := ctx)];
    }

    method SetWatermark(b: Id, low: nat)
      requires b in bevs
      modifies this`bevs
      ensures bevs == old(bevs)[b := old(bevs[b]).(low := low)]
    {
      bevs := bevs[b := bevs[b].(low := low)];
    }

    method SetReading(b: Id, reading: bool)
      requires b in bevs
      modifies this`bevs
      ensures bevs == old(bevs)[b := old(bevs[b]).(reading := reading)]
    {
      bevs := bevs[b := bevs[b].(reading := reading)];
    }

    method Drain(b: Id)
      requires b in bevs
      modifies this`bevs
      ensures bevs == old(bevs)[b := old(bevs[b]).(input := "")]
    {
      bevs := bevs[b := bevs[b].(input := "")];
    }

    /** `evbuffer_add_buffer`: moves all of b's input to the end of p's output. */
    method AddBuffer(p: Id, b: Id)
      requires b in bevs && p in bevs && p != b
      modifies this`bevs
      ensures bevs == old(bevs)[b := old(bevs[b]).(input := "")]
        [p := old(bevs[p].(output := bevs[p].output + bevs[b].input,
                           log := bevs[p].log + [Forwarded(bevs[b].input)]))]
    {
      var chunk := bevs[b].input;
      bevs := bevs[p := bevs[p].(output := bevs[p].output + chunk, log := bevs[p].log + [Forwarded(chunk)])];
      Drain(b);
    }

    method FreeBev(b: Id)
      requires b in bevs
      modifies this`bevs, this`freed
      ensures TheNet() == Free(old(TheNet()), b)
    {
      bevs := bevs - {b};
      freed := freed + {b};
    }

    // ----- the callbacks

    /** `block_msg`. */
    method BlockMsg(b: Id)
      requires b in bevs
      modifies this`bevs
      ensures bevs == old(bevs)[b := Blocked(cfg, old(bevs[b]))]
    {
      bevs := bevs[b := bevs[b].(output := bevs[b].output + cfg.page, log := bevs[b].log + [Page], blocked := true)];
      SetWatermark(b, MAX_OUTPUT / 2);
      SetReading(b, false);
    }

    /** The part of readcb that passes the input on, and throttles b if p's output is full. */
    method Forward(p: Id, b: Id)
      requires b in bevs && p in bevs && p != b
      modifies this`bevs
      ensures bevs == old(bevs)[b := Giving(old(bevs[b]), old(bevs[p]))]
        [p := Taking(old(bevs[p]), old(bevs[b].input), b)]
    {
      AddBuffer(p, b);
      if |bevs[p].output| >= MAX_OUTPUT {
        SetCb(p, true, DrainedCb, Partner(b));
        SetWatermark(p, MAX_OUTPUT / 2);
        SetReading(b, false);
      }
    }

    /** `readcb`. */
    method OnRead(b: Id, ctx: Ctx)
      requires b in bevs && ctx == bevs[b].ctx && (ctx.Partner? ==> Paired(TheNet(), b))
      modifies this`bevs
      ensures TheNet() == ReadCb(cfg, old(TheNet()), b)
    {
      hide Giving, Taking, Blocked;
      if ctx == NoPartner {
        Drain(b);
        return;
      }
      var partner := ctx.id;
      if cfg.blocks(bevs[b].input) {
        BlockMsg(b);
      } else {
        Forward(partner, b);
      }
    }

    /** `drained_writecb`. */
    method OnDrained(b: Id, ctx: Ctx)
      requires b in bevs && ctx == bevs[b].ctx && (ctx.Partner? ==> Paired(TheNet(), b))
      modifies this`bevs
      ensures TheNet() == DrainedWriteCb(old(TheNet()), b)
    {
      SetCb(b, true, NoWriteCb, ctx);
      SetWatermark(b, 0);
      if ctx.Partner? {
        SetReading(ctx.id, true);
      }
    }

    /** `close_on_finished_writecb`. */
    method OnFinished(b: Id)
      requires b in bevs
      modifies this`bevs, this`freed
      ensures TheNet() == CloseOnFinishedWriteCb(old(TheNet()), b)
    {
      if |bevs[b].output| == 0 {
        FreeBev(b);
      }
    }

    /** `eventcb`; `fatal` is end of file or error, other events change nothing. */
    method OnEvent(b: Id, fatal: bool, ctx: Ctx)
      requires b in bevs && ctx == bevs[b].ctx && (ctx.Partner? ==> Paired(TheNet(), b))
      modifies this`bevs, this`freed
      ensures TheNet() == if fatal then EventCb(cfg, old(TheNet()), b) else old(TheNet())
    {
      if fatal {
        if ctx.Partner? {
          var partner := ctx.id;
          OnRead(b, ctx);
          if |bevs[partner].output| != 0 {
            SetCb(partner, false, CloseOnFinishedCb, NoPartner);
            SetReading(partner, false);
          } else {
            FreeBev(partner);
          }
        }
        FreeBev(b);
      }
    }

    /** A new bufferevent: no callbacks, no context, not reading. */
    method NewBev() returns (b: Id)
      modifies this`bevs, this`next
      ensures b == old(next) && next == b + 1
      ensures bevs == old(bevs)[b := UNUSED]
    {
      b := next;
      next := next + 1;
      bevs := bevs[b := UNUSED];
    }

    /** A filter in front of b. From then on b is the filter's and none of the proxy's. */
    method NewFilter(b: Id) returns (f: Id)
      requires b in bevs && next !in bevs
      modifies this`bevs, this`next
      ensures f == old(next) && next == f + 1
      ensures bevs == (old(bevs) - {b})[f := UNUSED]
    {
      bevs := bevs - {b};
      f := NewBev();
    }

    method FreeBoth(bOut: Id, bIn: Id)
      requires bOut in bevs && bIn in bevs && bIn != bOut
      modifies this`bevs, this`freed
      ensures bevs == old(bevs) - {bIn, bOut} && freed == old(freed) + {bIn, bOut}
    {
      FreeBev(bOut);
      FreeBev(bIn);
    }

    /** The callbacks of two new connections, each with the other as its context. */
    method Connect(bIn: Id, bOut: Id)
      requires bIn in bevs && bOut in bevs && bIn != bOut && bevs[bIn] == bevs[bOut] == UNUSED
      modifies this`bevs
      ensures bevs == old(bevs)[bIn := Fresh(bOut)][bOut := Fresh(bIn)]
    {
      SetCb(bIn, true, NoWriteCb, Partner(bOut));
      SetCb(bOut, true, NoWriteCb, Partner(bIn));
      SetReading(bIn, true);
      SetReading(bOut, true);
    }

    /** `accept_cb`, given how the connection to the server goes. */
    method OnAccept(link: Link)
      requires forall b :: b in bevs ==> b < next
      modifies this`bevs, this`freed, this`next
      ensures TheNet() == AcceptCb(old(TheNet()), link)
    {
      hide Fresh;
      var bIn := NewBev();
      var bOut := NewBev();
      if link == Refused {
        FreeBoth(bOut, bIn);
        return;
      }
      if link == Wrapped || link == NotWrapped {
        if link == NotWrapped {
          FreeBoth(bOut, bIn);
          return;
        }
        bOut := NewFilter(bOut);
      }
      Connect(bIn, bOut);
    }

    /** The library lets one event happen. */
    method Handle(e: Event)
      requires Inv(cfg, TheNet())
      modifies this
      ensures Inv(cfg, TheNet()) && TheNet() == Step(cfg, old(TheNet()), e)
    {
      ProxyRuns.StepKeeps(cfg, TheNet(), e);
      if !Enabled(Net(bevs, freed, next), e) {
        return;
      }
      match e
      case Accept(link) => OnAccept(link);
      case Arrive(b, data) =>
        bevs := bevs[b := bevs[b].(input := bevs[b].input + data, received := bevs[b].received + data)];
      case ReadReady(b) =>
        assert PairInv(TheNet(), b);
        OnRead(b, bevs[b].ctx);
      case Sent(b, k) =>
        bevs := bevs[b := bevs[b].(output := bevs[b].output[k..], wire := bevs[b].wire + bevs[b].output[..k])];
      case WriteReady(b) =>
        assert PairInv(TheNet(), b);
        if bevs[b].writeCb == DrainedCb {
          OnDrained(b, bevs[b].ctx);
        } else {
          OnFinished(b);
        }
      case Hangup(b) =>
        assert PairInv(TheNet(), b);
        OnEvent(b, true, bevs[b].ctx);
    }

    /** The event loop over a given run. */
    method Serve(es: seq<Event>)
      requires TheNet() == IDLE
      modifies this
      ensures TheNet() == ProxyRuns.Run(cfg, es)
    {
      var i := 0;
      assert es[..0] == [];
      while i < |es|
        invariant i <= |es| && TheNet() == ProxyRuns.Run(cfg, es[..i])
      {
        assert es[..i + 1][..i] == es[..i];
        Handle(es[i]);
        i := i + 1;
      }
      assert es[..|es|] == es;
    }
  }
}
