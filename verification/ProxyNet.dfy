/** The proxy as a state machine: a set of buffered connections that the event library drives
    by calling back. What the library itself does (delivering and sending bytes, choosing when
    to call) is an event; each callback is one step. */
module ProxyNet {

  const MAX_OUTPUT: nat := 512 * 1024

  type Id = nat

  datatype Ctx = NoPartner | Partner(id: Id)

  datatype WriteCb = NoWriteCb | DrainedCb | CloseOnFinishedCb

  /** One thing appended to an output buffer. */
  datatype Entry = Forwarded(chunk: string) | Page

  /** A bufferevent: its buffers, whether EV_READ is enabled, whether readcb is installed, its
      write callback, its context, its low write watermark. The last four fields only record
      history: whether it was blocked, all bytes ever received from and sent to its peer, and
      everything ever appended to its output. */
  datatype Bev = Bev(input: string, output: string, reading: bool, readCb: bool, writeCb: WriteCb,
                     ctx: Ctx, low: nat,
                     blocked: bool, received: string, wire: string, log: seq<Entry>)

  datatype Net = Net(bevs: map<Id, Bev>, freed: set<Id>, next: Id)

  const IDLE := Net(map[], {}, 0)

  /** What the filter decides on the bytes buffered. */
  type Filter = string -> bool

  /** What the proxy is run with: the filter, and the page a blocked client is sent. */
  datatype Config = Config(blocks: Filter, page: string)

  function Fresh(partner: Id): Bev {
    Bev("", "", true, true, NoWriteCb, Partner(partner), 0, false, "", "", [])
  }

  /** `bufferevent_free`. */
  function Free(n: Net, b: Id): Net
    requires b in n.bevs
  {
    n.(bevs := n.bevs - {b}, freed := n.freed + {b})
  }

  /** `block_msg`. */
  function Blocked(cfg: Config, x: Bev): Bev {
    x.(output := x.output + cfg.page, low := MAX_OUTPUT / 2, reading := false,
       blocked := true, log := x.log + [Page])
  }

  /** The partner's side of forwarding a chunk: throttled when its output is full. */
  function Taking(y: Bev, chunk: string, b: Id): Bev {
    var z := y.(output := y.output + chunk, log := y.log + [Forwarded(chunk)]);
    if |z.output| >= MAX_OUTPUT then
      z.(readCb := true, writeCb := DrainedCb, ctx := Partner(b), low := MAX_OUTPUT / 2)
    else z
  }

  /** The reader's side: it stops reading when its partner's output is full. */
  function Giving(x: Bev, y: Bev): Bev {
    x.(input := "", reading := x.reading && |y.output + x.input| < MAX_OUTPUT)
  }

  predicate Paired(n: Net, b: Id) {
    && b in n.bevs && n.bevs[b].ctx.Partner?
    && n.bevs[b].ctx.id in n.bevs && n.bevs[b].ctx.id != b
  }

  /** `readcb`. */
  function ReadCb(cfg: Config, n: Net, b: Id): Net
    requires b in n.bevs && (n.bevs[b].ctx.Partner? ==> Paired(n, b))
  {
    var x := n.bevs[b];
    match x.ctx
    case NoPartner => n.(bevs := n.bevs[b := x.(input := "")])
    case Partner(p) =>
      if cfg.blocks(x.input) then n.(bevs := n.bevs[b := Blocked(cfg, x)])
      else
        var y := n.bevs[p];
        n.(bevs := n.bevs[b := Giving(x, y)][p := Taking(y, x.input, b)])
  }

  /** `drained_writecb`. */
  function DrainedWriteCb(n: Net, b: Id): Net
    requires b in n.bevs && (n.bevs[b].ctx.Partner? ==> Paired(n, b))
  {
    var x := n.bevs[b].(readCb := true, writeCb := NoWriteCb, low := 0);
    var m := n.bevs[b := x];
    match x.ctx
    case NoPartner => n.(bevs := m)
    case Partner(p) => n.(bevs := m[p := m[p].(reading := true)])
  }

  /** `close_on_finished_writecb`. */
  function CloseOnFinishedWriteCb(n: Net, b: Id): Net
    requires b in n.bevs
  {
    if n.bevs[b].output == "" then Free(n, b) else n
  }

  /** A connection that only has to send what it holds. */
  function Finishing(y: Bev): Bev {
    y.(readCb := false, writeCb := CloseOnFinishedCb, ctx := NoPartner, reading := false)
  }

  /** `eventcb` for end of file or an error: flush, let the partner finish, free. */
  function EventCb(cfg: Config, n: Net, b: Id): Net
    requires b in n.bevs && (n.bevs[b].ctx.Partner? ==> Paired(n, b))
  {
    match n.bevs[b].ctx
    case NoPartner => Free(n, b)
    case Partner(p) =>
      var m := ReadCb(cfg, n, b);
      var y := m.bevs[p];
      if y.output != "" then
        Free(m.(bevs := m.bevs[p := Finishing(y)]), b)
      else Free(Free(m, p), b)
  }

  /** How the connection to the server goes: refused; made; or made with encryption wanted,
      which puts a filter in front of it or fails. */
  datatype Link = Refused | Plain | Wrapped | NotWrapped

  /** `accept_cb`: two connections that point at each other, the client's and the server's; a
      filter takes the place of the connection it wraps. Without a server both are freed. */
  function AcceptCb(n: Net, link: Link): Net {
    match link
    case Plain => Net(n.bevs[n.next := Fresh(n.next + 1)][n.next + 1 := Fresh(n.next)], n.freed, n.next + 2)
    case Wrapped => Net(n.bevs[n.next := Fresh(n.next + 2)][n.next + 2 := Fresh(n.next)], n.freed, n.next + 3)
    case _ => Net(n.bevs, n.freed + {n.next, n.next + 1}, n.next + 2)
  }

  /** What can happen next. */
  datatype Event =
    | Accept(link: Link)                  // a client connects
    | Arrive(b: Id, data: string)         // bytes arrive from a peer
    | ReadReady(b: Id)                    // the library calls the read callback
    | Sent(b: Id, k: nat)                 // k bytes of output reach a peer
    | WriteReady(b: Id)                   // the library calls the write callback
    | Hangup(b: Id)                       // end of file or error on a connection

  /** When the library lets an event happen: it reads and calls readcb only while EV_READ is
      enabled, and calls a write callback only at or below the low watermark. */
  predicate Enabled(n: Net, e: Event) {
    match e
    case Accept(_) => true
    case Arrive(b, _) => b in n.bevs && n.bevs[b].reading
    case ReadReady(b) => b in n.bevs && n.bevs[b].reading && n.bevs[b].readCb
    case Sent(b, k) => b in n.bevs && k <= |n.bevs[b].output|
    case WriteReady(b) => b in n.bevs && n.bevs[b].writeCb != NoWriteCb && |n.bevs[b].output| <= n.bevs[b].low
    case Hangup(b) => b in n.bevs
  }

  // ----- what every run keeps

  /** b stopped reading because its partner's output is full; the partner will say when not. */
  predicate Throttled(n: Net, b: Id)
    requires b in n.bevs
  {
    Paired(n, b) && n.bevs[n.bevs[b].ctx.id].writeCb == DrainedCb
  }

  predicate Closing(x: Bev) { x.writeCb == CloseOnFinishedCb }

  /** All bytes ever appended to an output. */
  function Flatten(cfg: Config, log: seq<Entry>): string {
    if log == [] then ""
    else Flatten(cfg, log[..|log| - 1]) + (match log[|log| - 1] case Forwarded(c) => c case Page => cfg.page)
  }

  /** The forwarded ones among them. */
  function Chunks(log: seq<Entry>): string {
    if log == [] then ""
    else Chunks(log[..|log| - 1]) + (match log[|log| - 1] case Forwarded(c) => c case Page => "")
  }

  /** How many block pages are among them. */
  function Pages(log: seq<Entry>): nat {
    if log == [] then 0 else Pages(log[..|log| - 1]) + (if log[|log| - 1] == Page then 1 else 0)
  }

  /** What holds of one connection by itself. */
  predicate BevInv(cfg: Config, x: Bev) {
    && (Closing(x) <==> x.ctx == NoPartner)
    && (Closing(x) ==> !x.reading && !x.readCb)
    && (x.ctx.Partner? ==> x.readCb)
    && (x.writeCb == DrainedCb ==> x.low == MAX_OUTPUT / 2)
    && (x.writeCb == NoWriteCb ==> |x.output| < MAX_OUTPUT + (if x.blocked then |cfg.page| else 0))
    && (x.blocked && x.ctx.Partner? ==> cfg.blocks(x.input))
    && x.wire + x.output == Flatten(cfg, x.log)
    && Pages(x.log) == (if x.blocked then 1 else 0)
    && (forall i :: 0 <= i < |x.log| && x.log[i].Forwarded? ==> !cfg.blocks(x.log[i].chunk))
  }

  /** What holds between a connection x and its partner y: x reads unless it was blocked or
      is throttled, never both; and what x received is what it passed on and what it still
      holds. */
  predicate Couple(x: Bev, y: Bev) {
    && (x.reading <==> !x.blocked && y.writeCb != DrainedCb)
    && (x.blocked ==> y.writeCb != DrainedCb)
    && x.received == Chunks(y.log) + x.input
  }

  /** What holds between a connection and the one it points at. */
  predicate PairInv(n: Net, b: Id)
    requires b in n.bevs
  {
    var x := n.bevs[b];
    x.ctx.Partner? ==> Paired(n, b) && n.bevs[x.ctx.id].ctx == Partner(b) && Couple(x, n.bevs[x.ctx.id])
  }

  predicate Inv(cfg: Config, n: Net) {
    && (forall b :: b in n.bevs ==> b < n.next && b !in n.freed)
    && (forall b :: b in n.freed ==> b < n.next)
    && (forall b :: b in n.bevs ==> BevInv(cfg, n.bevs[b]))
    && (forall b :: b in n.bevs ==> PairInv(n, b))
  }

  /** One event: a callback, or what the library does by itself. */
  function Step(cfg: Config, n: Net, e: Event): Net
    requires Inv(cfg, n)
  {
    if !Enabled(n, e) then n
    else match e
      case Accept(link) => AcceptCb(n, link)
      case Arrive(b, data) =>
        var x := n.bevs[b];
        n.(bevs := n.bevs[b := x.(input := x.input + data, received := x.received + data)])
      case ReadReady(b) => ReadCb(cfg, n, b)
      case Sent(b, k) =>
        var x := n.bevs[b];
        n.(bevs := n.bevs[b := x.(output := x.output[k..], wire := x.wire + x.output[..k])])
      case WriteReady(b) =>
        if n.bevs[b].writeCb == DrainedCb then DrainedWriteCb(n, b) else CloseOnFinishedWriteCb(n, b)
      case Hangup(b) => EventCb(cfg, n, b)
  }
}
